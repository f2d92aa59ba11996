/**
 * _string/util.go: blank tests, line-break removal and list conversions for
 * strings.
 */
module UString {
  import opened Wrappers
  import opened Text
  import opened Go
  import UInterface

  /** _string.Empty: the string is blank once white space is trimmed, that is, every character is white space. */
  predicate Empty(s: string)
    ensures Empty(s) <==> AllSpace(s)
  {
    TrimSpaceEmpty(s);
    TrimSpace(s) == []
  }

  /** _string.FirstNotEmpty: the first item that is not Empty, or "" when there is none. */
  method FirstNotEmpty(items: seq<string>) returns (r: string)
    ensures (forall i :: 0 <= i < |items| ==> Empty(items[i])) ==> r == ""
    ensures (exists i :: 0 <= i < |items| && !Empty(items[i])) ==>
      exists i :: 0 <= i < |items| && r == items[i] && !Empty(items[i]) &&
        forall j :: 0 <= j < i ==> Empty(items[j])
  {
    for i := 0 to |items|
      invariant forall j :: 0 <= j < i ==> Empty(items[j])
    {
      if !Empty(items[i]) {
        return items[i];
      }
    }
    return "";
  }

  /** _string.IfEls (and _int64.IfEls): okVal when ok holds, notOkVal otherwise. */
  function IfEls<T>(ok: bool, okVal: T, notOkVal: T): (r: T)
    ensures ok ==> r == okVal
    ensures !ok ==> r == notOkVal
  {
    if ok then okVal else notOkVal
  }

  /**
   * _string.TrimCRLF: every match of the regular expression `\r?\n` is
   * removed, scanning from the left, so a "\n" goes together with a "\r"
   * just before it while any other "\r" stays.
   */
  function TrimCRLF(v: string): (r: string)
    ensures '\n' !in r
    ensures |r| <= |v|
  {
    if v == [] then []
    else if v[0] == '\n' then TrimCRLF(v[1..])
    else if v[0] == '\r' && |v| >= 2 && v[1] == '\n' then TrimCRLF(v[2..])
    else [v[0]] + TrimCRLF(v[1..])
  }

  /** Text without a "\n" is left as it is, a lone "\r" included. */
  lemma {:induction false} TrimCRLFNoNewline(v: string)
    requires '\n' !in v
    ensures TrimCRLF(v) == v
  {
    if v != [] {
      TrimCRLFNoNewline(v[1..]);
    }
  }

  /** Trimming twice is trimming once. */
  lemma TrimCRLFIdempotent(v: string)
    ensures TrimCRLF(TrimCRLF(v)) == TrimCRLF(v)
  {
    TrimCRLFNoNewline(TrimCRLF(v));
  }

  /**
   * A line followed by "\n" or "\r\n" loses exactly its line break: the
   * line itself stays, provided it does not end in a "\r" of its own.
   */
  lemma {:induction false} TrimCRLFLine(line: string, eol: string, rest: string)
    requires eol == "\n" || eol == "\r\n"
    requires '\n' !in line && (line == [] || line[|line| - 1] != '\r')
    ensures TrimCRLF(line + eol + rest) == line + TrimCRLF(rest)
  {
    if line == [] {
      assert line + eol + rest == eol + rest;
      TrimCRLFBreak(eol, rest);
    } else {
      var w := line[1..] + eol + rest;
      calc {
        TrimCRLF(line + eol + rest);
        { assert line + eol + rest == [line[0]] + w; }
        TrimCRLF([line[0]] + w);
        { if |line| >= 2 {
            assert line[1..][|line[1..]| - 1] == line[|line| - 1];
            assert w[0] == line[1];
          }
          TrimCRLFCons(line[0], w); }
        [line[0]] + TrimCRLF(w);
        { TrimCRLFLine(line[1..], eol, rest); }
        [line[0]] + (line[1..] + TrimCRLF(rest));
        { assert line == [line[0]] + line[1..]; }
        line + TrimCRLF(rest);
      }
    }
  }

  /** A leading line break is dropped. */
  lemma TrimCRLFBreak(eol: string, rest: string)
    requires eol == "\n" || eol == "\r\n"
    ensures TrimCRLF(eol + rest) == TrimCRLF(rest)
  {
    if eol == "\n" {
      assert (eol + rest)[1..] == rest;
    } else {
      assert (eol + rest)[2..] == rest;
    }
  }

  /** A first character that does not start a line break is kept. */
  lemma TrimCRLFCons(c: char, w: string)
    requires c != '\n' && (c == '\r' ==> w == [] || w[0] != '\n')
    ensures TrimCRLF([c] + w) == [c] + TrimCRLF(w)
  {
    assert ([c] + w)[1..] == w;
  }

  /** Apart from "\r" characters, TrimCRLF keeps exactly the characters other than "\n", in order. */
  lemma {:induction false} TrimCRLFKeepsOthers(v: string)
    ensures RemoveChar(TrimCRLF(v), '\r') == RemoveChar(RemoveChar(v, '\n'), '\r')
  {
    if v != [] {
      TrimCRLFKeepsOthers(v[1..]);
      if v[0] == '\r' && |v| >= 2 && v[1] == '\n' {
        TrimCRLFKeepsOthers(v[2..]);
        assert v[1..][1..] == v[2..];
        var t := RemoveChar(v[2..], '\n');
        assert RemoveChar(v, '\n') == ['\r'] + t;
        assert RemoveChar(['\r'] + t, '\r') == RemoveChar(t, '\r') by {
          assert (['\r'] + t)[1..] == t;
        }
      } else if v[0] != '\n' {
        var t := RemoveChar(v[1..], '\n');
        var u := TrimCRLF(v[1..]);
        var h: string := if v[0] == '\r' then [] else [v[0]];
        assert RemoveChar(v, '\n') == [v[0]] + t;
        assert TrimCRLF(v) == [v[0]] + u;
        assert ([v[0]] + t)[1..] == t && ([v[0]] + u)[1..] == u;
        assert RemoveChar([v[0]] + t, '\r') == h + RemoveChar(t, '\r');
        assert RemoveChar([v[0]] + u, '\r') == h + RemoveChar(u, '\r');
      } else {
        var t := RemoveChar(v[1..], '\n');
        assert RemoveChar(v, '\n') == [] + t;
        assert [] + t == t;
        assert TrimCRLF(v) == TrimCRLF(v[1..]);
      }
    }
  }

  /** The error strconv.ParseInt returns for an item. */
  function ParseIntError(s: string, kind: NumErrKind): Error {
    NumError("ParseInt", s, kind)
  }

  /**
   * _string.ToInt64Slice: every item parsed as a decimal int64, in order;
   * the first item that does not parse makes the whole call fail with its
   * error.
   */
  function ToInt64Slice(items: seq<string>): (r: Result<seq<int>, Error>)
    ensures r.Success? <==> forall i :: 0 <= i < |items| ==> ParseInt(items[i]).Success?
    ensures r.Success? ==> |r.value| == |items|
    ensures r.Success? ==> forall i :: 0 <= i < |items| ==> r.value[i] == ParseInt(items[i]).value
    ensures r.Failure? ==>
      exists i :: (0 <= i < |items| && ParseInt(items[i]).Failure? &&
        r.error == ParseIntError(items[i], ParseInt(items[i]).error) &&
        forall j :: 0 <= j < i ==> ParseInt(items[j]).Success?)
  {
    if items == [] then Success([])
    else
      assert forall i :: 0 < i < |items| ==> items[i] == items[1..][i - 1];
      match ParseInt(items[0])
      case Failure(kind) => Failure(ParseIntError(items[0], kind))
      case Success(n) =>
        match ToInt64Slice(items[1..])
        case Failure(e) => Failure(e)
        case Success(rest) => Success([n] + rest)
  }

  /** _string.ToInterfaceSlice: each item boxed as a string value, in order. */
  function ToInterfaceSlice(items: seq<string>): (r: seq<Value>)
    ensures |r| == |items|
    ensures forall i :: 0 <= i < |items| ==> r[i] == Str(items[i])
  {
    if items == [] then [] else [Str(items[0])] + ToInterfaceSlice(items[1..])
  }

  /** Boxing strings and picking the strings back out is the identity. */
  lemma {:induction false} ToInterfaceSliceStrings(items: seq<string>)
    ensures UInterface.ToStringSlice(ToInterfaceSlice(items)) == items
    ensures UInterface.ToIntSlice(ToInterfaceSlice(items)) == []
  {
    if items != [] {
      ToInterfaceSliceStrings(items[1..]);
      assert ToInterfaceSlice(items)[1..] == ToInterfaceSlice(items[1..]);
    }
  }
}
