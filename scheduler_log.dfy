/**
 * scheduler/log.go: the text the cron scheduler's logger writes for a
 * message and its key/value arguments. How fmt's %v prints a value other
 * than a string (`show`) and how time.Time.Format lays out the format of
 * section 5.6 of RFC 3339 (`rfc3339`) are parameters of the model; the zap
 * logger the text is handed to is not modelled.
 */
module SchedulerLog {
  import opened Go
  import Text

  /** fmt's %v: a string prints as itself, any other value as `show` says. */
  function Verb(v: Value, show: Value -> string): string {
    if v.Str? then v.s else show(v)
  }

  /** A value as it follows "=": a time.Time is printed in the format of section 5.6 of RFC 3339. */
  function Shown(v: Value, show: Value -> string, rfc3339: Instant -> string): string {
    if v.Time? then rfc3339(v.t) else Verb(v, show)
  }

  /**
   * The j-th entry among the first n arguments: the key at 2j, then "=" and
   * the value at 2j + 1 when that is among them.
   */
  function Entry(kvs: seq<Value>, n: nat, j: nat, show: Value -> string, rfc3339: Instant -> string): string
    requires n <= |kvs| && 2 * j < n
  {
    Verb(kvs[2 * j], show) + (if 2 * j + 1 < n then "=" + Shown(kvs[2 * j + 1], show, rfc3339) else "")
  }

  /** The entries of the first n arguments, one per key. */
  function Entries(kvs: seq<Value>, n: nat, show: Value -> string, rfc3339: Instant -> string): (es: seq<string>)
    requires n <= |kvs|
    ensures |es| == (n + 1) / 2
    ensures forall j :: 0 <= j < |es| ==> es[j] == Entry(kvs, n, j, show, rfc3339)
  {
    seq((n + 1) / 2, j requires 0 <= j < (n + 1) / 2 => Entry(kvs, n, j, show, rfc3339))
  }

  /** The text between the brackets for the first n arguments: their entries joined by ",". */
  function Body(kvs: seq<Value>, n: nat, show: Value -> string, rfc3339: Instant -> string): string
    requires n <= |kvs|
  {
    if n == 0 then "" else Text.Join(Entries(kvs, n, show, rfc3339), ',')
  }

  /** Concatenation of texts is associative. */
  lemma Assoc(a: string, b: string, c: string)
    ensures a + (b + c) == a + b + c
  {
  }

  /** Writing x and then y after head + b gives head followed by b + x + y. */
  lemma Extend(head: string, b: string, x: string, y: string)
    ensures head + b + x + y == head + (b + x + y)
    ensures x == "" ==> head + b + y == head + (b + x + y)
  {
  }

  /** An entry whose value is among the first n arguments is the same among the first n + 1. */
  lemma EntryStable(kvs: seq<Value>, n: nat, j: nat, show: Value -> string, rfc3339: Instant -> string)
    requires n < |kvs| && 2 * j + 1 < n
    ensures Entry(kvs, n + 1, j, show, rfc3339) == Entry(kvs, n, j, show, rfc3339)
  {
  }

  /** A key: the entries gain a bare key, written after a "," unless it is the first. */
  lemma KeyStep(kvs: seq<Value>, n: nat, show: Value -> string, rfc3339: Instant -> string)
    requires n < |kvs| && n % 2 == 0
    ensures Body(kvs, n + 1, show, rfc3339) == Body(kvs, n, show, rfc3339) + (if n > 0 then "," else "") + Verb(kvs[n], show)
  {
    var es := Entries(kvs, n, show, rfc3339);
    var es' := Entries(kvs, n + 1, show, rfc3339);
    var key := Verb(kvs[n], show);
    var m := n / 2;
    assert n == 2 * m;
    assert (n + 1) / 2 == m;
    assert |es| == m;
    assert |es'| == m + 1;
    assert es' == es + [key] by {
      forall j | 0 <= j < m ensures es'[j] == es[j] {
        EntryStable(kvs, n, j, show, rfc3339);
      }
      assert es'[m] == Entry(kvs, n + 1, m, show, rfc3339) == key + "" == key;
      assert (es + [key])[m] == key;
    }
    if n == 0 {
      assert es' == [key];
    } else {
      Text.JoinSnoc(es, key, ',');
    }
  }

  /** A value: the last entry, a bare key so far, gains "=" and the value. */
  lemma ValueStep(kvs: seq<Value>, n: nat, show: Value -> string, rfc3339: Instant -> string)
    requires n < |kvs| && n % 2 == 1
    ensures Body(kvs, n + 1, show, rfc3339) == Body(kvs, n, show, rfc3339) + "=" + Shown(kvs[n], show, rfc3339)
  {
    var es := Entries(kvs, n, show, rfc3339);
    var es' := Entries(kvs, n + 1, show, rfc3339);
    var key := Verb(kvs[n - 1], show);
    var val := "=" + Shown(kvs[n], show, rfc3339);
    var front := es[..n / 2];
    ValueEntries(kvs, n, show, rfc3339);
    if n == 1 {
      calc {
        Body(kvs, n + 1, show, rfc3339);
        { assert es' == [key + val]; }
        key + val;
        { assert es == [key]; }
        Body(kvs, n, show, rfc3339) + val;
      }
    } else {
      calc {
        Body(kvs, n + 1, show, rfc3339);
        Text.Join(front + [key + val], ',');
        { Text.JoinSnoc(front, key + val, ','); }
        Text.Join(front, ',') + [','] + (key + val);
        { Assoc(Text.Join(front, ',') + [','], key, val); }
        Text.Join(front, ',') + [','] + key + val;
        { Text.JoinSnoc(front, key, ','); }
        Text.Join(front + [key], ',') + val;
        Body(kvs, n, show, rfc3339) + val;
      }
    }
  }

  /** Before the value at odd n the last entry is its bare key; after it, the key, "=" and the value. */
  lemma ValueEntries(kvs: seq<Value>, n: nat, show: Value -> string, rfc3339: Instant -> string)
    requires n < |kvs| && n % 2 == 1
    ensures var es := Entries(kvs, n, show, rfc3339);
      |es| == n / 2 + 1 && es == es[..n / 2] + [Verb(kvs[n - 1], show)]
      && Entries(kvs, n + 1, show, rfc3339) == es[..n / 2] + [Verb(kvs[n - 1], show) + ("=" + Shown(kvs[n], show, rfc3339))]
  {
    var es := Entries(kvs, n, show, rfc3339);
    var es' := Entries(kvs, n + 1, show, rfc3339);
    var m := n / 2;
    assert n == 2 * m + 1;
    assert (n + 1) / 2 == m + 1 && (n + 2) / 2 == m + 1;
    var key := Verb(kvs[n - 1], show);
    assert es[m] == Entry(kvs, n, m, show, rfc3339) == key + "" == key;
    assert es == es[..m] + [key];
    forall j | 0 <= j < m ensures es'[j] == es[j] {
      EntryStable(kvs, n, j, show, rfc3339);
    }
    assert es'[m] == Entry(kvs, n + 1, m, show, rfc3339) == key + ("=" + Shown(kvs[n], show, rfc3339));
    assert es' == es[..m] + [key + ("=" + Shown(kvs[n], show, rfc3339))];
  }

  /**
   * formatLog: the message alone when there are no key/value arguments;
   * otherwise the message and, in brackets, the entries "key=value" joined
   * by ",", the last entry a bare key when the arguments are odd in number.
   */
  method FormatLog(msg: string, kvs: seq<Value>, show: Value -> string, rfc3339: Instant -> string) returns (s: string)
    ensures kvs == [] ==> s == msg
    ensures kvs != [] ==> s == msg + "[" + Body(kvs, |kvs|, show, rfc3339) + "]"
  {
    if |kvs| == 0 {
      return msg;
    }
    var sb := msg + "[";
    ghost var head := sb;
    for i := 0 to |kvs|
      invariant sb == head + Body(kvs, i, show, rfc3339)
    {
      var val := kvs[i];
      if i % 2 == 0 {
        KeyStep(kvs, i, show, rfc3339);
        if i > 0 {
          Extend(head, Body(kvs, i, show, rfc3339), ",", Verb(val, show));
          sb := sb + ",";
        } else {
          Extend(head, Body(kvs, i, show, rfc3339), "", Verb(val, show));
        }
        sb := sb + Verb(val, show);
        continue;
      }
      ValueStep(kvs, i, show, rfc3339);
      Extend(head, Body(kvs, i, show, rfc3339), "=", Shown(val, show, rfc3339));
      if val.Time? {
        val := Str(rfc3339(val.t));
      }
      sb := sb + "=" + Verb(val, show);
    }
    sb := sb + "]";
    return sb;
  }

  /** No key or value of the arguments prints with a "," or a "=". */
  predicate PlainTexts(kvs: seq<Value>, show: Value -> string, rfc3339: Instant -> string) {
    forall i :: 0 <= i < |kvs| ==>
      ',' !in Verb(kvs[i], show) && '=' !in Verb(kvs[i], show)
      && ',' !in Shown(kvs[i], show, rfc3339) && '=' !in Shown(kvs[i], show, rfc3339)
  }

  /** With plain texts, splitting the bracketed text at "," gives back its entries. */
  lemma BodySplits(kvs: seq<Value>, show: Value -> string, rfc3339: Instant -> string)
    requires kvs != [] && PlainTexts(kvs, show, rfc3339)
    ensures Text.Split(Body(kvs, |kvs|, show, rfc3339), ',') == Entries(kvs, |kvs|, show, rfc3339)
  {
    var es := Entries(kvs, |kvs|, show, rfc3339);
    forall j | 0 <= j < |es| ensures ',' !in es[j] {
      EntryPlain(kvs, j, show, rfc3339);
    }
    Text.SplitJoin(es, ',');
  }

  /**
   * The bracketed text reads back: when no key or value prints with a ","
   * or a "=", splitting at "," gives one entry per key, and splitting an
   * entry at "=" gives its key and, when present, its value. An odd number
   * of arguments leaves the last key without a value.
   */
  lemma BodyReadsBack(kvs: seq<Value>, show: Value -> string, rfc3339: Instant -> string)
    requires kvs != [] && PlainTexts(kvs, show, rfc3339)
    ensures Text.Split(Body(kvs, |kvs|, show, rfc3339), ',') == Entries(kvs, |kvs|, show, rfc3339)
    ensures forall j :: 0 <= j && 2 * j + 1 < |kvs| ==>
      Text.Split(Entries(kvs, |kvs|, show, rfc3339)[j], '=') == [Verb(kvs[2 * j], show), Shown(kvs[2 * j + 1], show, rfc3339)]
    ensures |kvs| % 2 == 1 ==>
      Text.Split(Entries(kvs, |kvs|, show, rfc3339)[|kvs| / 2], '=') == [Verb(kvs[|kvs| - 1], show)]
  {
    BodySplits(kvs, show, rfc3339);
    EntryPairs(kvs, show, rfc3339);
    if |kvs| % 2 == 1 {
      LastEntryBare(kvs, show, rfc3339);
    }
  }

  /** With plain texts, every entry with a value splits at "=" into its key and value. */
  lemma EntryPairs(kvs: seq<Value>, show: Value -> string, rfc3339: Instant -> string)
    requires PlainTexts(kvs, show, rfc3339)
    ensures forall j :: 0 <= j && 2 * j + 1 < |kvs| ==>
      Text.Split(Entries(kvs, |kvs|, show, rfc3339)[j], '=') == [Verb(kvs[2 * j], show), Shown(kvs[2 * j + 1], show, rfc3339)]
  {
    forall j | 0 <= j && 2 * j + 1 < |kvs|
      ensures Text.Split(Entries(kvs, |kvs|, show, rfc3339)[j], '=') == [Verb(kvs[2 * j], show), Shown(kvs[2 * j + 1], show, rfc3339)]
    {
      EntryPlain(kvs, j, show, rfc3339);
    }
  }

  /** With plain texts and an odd number of arguments, the last entry is the last key alone. */
  lemma LastEntryBare(kvs: seq<Value>, show: Value -> string, rfc3339: Instant -> string)
    requires |kvs| % 2 == 1 && PlainTexts(kvs, show, rfc3339)
    ensures Text.Split(Entries(kvs, |kvs|, show, rfc3339)[|kvs| / 2], '=') == [Verb(kvs[|kvs| - 1], show)]
  {
    var m := |kvs| / 2;
    assert 2 * m + 1 == |kvs|;
    EntryPlain(kvs, m, show, rfc3339);
  }

  /** One entry of plain texts holds no "," and splits at "=" into its key and its value, if any. */
  lemma EntryPlain(kvs: seq<Value>, j: nat, show: Value -> string, rfc3339: Instant -> string)
    requires 2 * j < |kvs| && PlainTexts(kvs, show, rfc3339)
    ensures ',' !in Entry(kvs, |kvs|, j, show, rfc3339)
    ensures 2 * j + 1 < |kvs| ==>
      Text.Split(Entry(kvs, |kvs|, j, show, rfc3339), '=') == [Verb(kvs[2 * j], show), Shown(kvs[2 * j + 1], show, rfc3339)]
    ensures 2 * j + 1 == |kvs| ==> Text.Split(Entry(kvs, |kvs|, j, show, rfc3339), '=') == [Verb(kvs[2 * j], show)]
  {
    var key := Verb(kvs[2 * j], show);
    if 2 * j + 1 < |kvs| {
      var v := Shown(kvs[2 * j + 1], show, rfc3339);
      assert Entry(kvs, |kvs|, j, show, rfc3339) == key + ['='] + v;
      Text.SplitPrefix(key, '=', v);
      Text.SplitNoSep(v, '=');
    } else {
      assert Entry(kvs, |kvs|, j, show, rfc3339) == key;
      Text.SplitNoSep(key, '=');
    }
  }
}
