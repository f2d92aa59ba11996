/**
 * store/store.go: MemoryStore, a map from string keys to interface{} values
 * behind a read-write lock, with getters that convert the stored value to a
 * bool, a string or an integer. The lock is not modelled: every call here
 * runs alone. `show` stands for fmt's %v text of a value.
 */
module Store {
  import opened Wrappers
  import opened Text
  import opened Go

  /** A (value, error) pair as the typed getters return it. */
  datatype Got<T> = Got(value: T, err: Option<Error>)

  /** newCastErr: the value's dynamic type and %v text, and the type asked for. */
  function CastErr(target: string, v: Value, show: Value -> string): (e: Error)
    ensures e.Plain?
  {
    Plain("can't cast '(" + TypeName(v) + ")" + show(v) + "' to " + target)
  }

  /**
   * strconv.ParseInt(s, 10, 64), and strconv.Atoi, which is the same on a
   * 64-bit int but names itself "Atoi" in its errors. A syntax error gives
   * 0; a number out of range gives the int64 bound on its side.
   */
  function StrconvInt(fn: string, s: string): (r: Got<int>)
    ensures ParseInt(s).Success? ==> r == Got(ParseInt(s).value, None)
    ensures ParseInt(s).Failure? ==> r.err == Some(NumError(fn, s, ParseInt(s).error))
    ensures ParseInt(s) == Failure(ErrSyntax) ==> r.value == 0
    ensures ParseInt(s) == Failure(ErrRange) ==> r.value == (if s[0] == '-' then MinInt64 else MaxInt64)
    ensures IsInt64(r.value)
  {
    match ParseInt(s)
    case Success(v) => Got(v, None)
    case Failure(ErrSyntax) => Got(0, Some(NumError(fn, s, ErrSyntax)))
    case Failure(ErrRange) =>
      assert s != [];
      Got(if s[0] == '-' then MinInt64 else MaxInt64, Some(NumError(fn, s, ErrRange)))
  }

  /** The signed integer types the integer getters convert from, with their value. */
  function SignedInt(v: Value): Option<int> {
    match v
    case Int(i) => Some(i)
    case Int8(i) => Some(i)
    case Int16(i) => Some(i)
    case Int32(i) => Some(i)
    case Int64(i) => Some(i)
    case _ => None
  }

  class MemoryStore {
    var m: map<string, Value>

    /** store.NewMemoryStore: an empty store; the size is only a capacity hint. */
    constructor (size: int)
      ensures m == map[]
    {
      m := map[];
    }

    /** store.NewMemoryStoreOf: a store with a copy of the given map, made entry by entry. */
    constructor Of(src: map<string, Value>)
      ensures m == src
    {
      var nm: map<string, Value> := map[];
      var rest := src.Keys;
      while rest != {}
        invariant rest <= src.Keys && nm.Keys == src.Keys - rest
        invariant forall k :: k in nm ==> nm[k] == src[k]
        decreases rest
      {
        var k :| k in rest;
        nm := nm[k := src[k]];
        rest := rest - {k};
      }
      assert src.Keys - rest == src.Keys;
      m := nm;
    }

    /** MemoryStore.Keys: every key once, in map order. */
    method Keys() returns (keys: seq<string>)
      ensures forall k :: k in keys <==> k in m
      ensures |keys| == |m|
      ensures forall i, j :: 0 <= i < j < |keys| ==> keys[i] != keys[j]
    {
      keys := [];
      var rest := m.Keys;
      ghost var seen: set<string> := {};
      while rest != {}
        invariant rest <= m.Keys && seen == m.Keys - rest
        invariant forall k :: k in keys <==> k in seen
        invariant forall i, j :: 0 <= i < j < |keys| ==> keys[i] != keys[j]
        invariant seen !! rest
        decreases rest
      {
        var k :| k in rest;
        assert k !in keys;
        keys := keys + [k];
        seen := seen + {k};
        rest := rest - {k};
      }
      assert seen == m.Keys;
      DistinctLength(keys, m.Keys);
    }

    /** MemoryStore.Get: the value and true when the key is present, nil and false otherwise. */
    function Get(key: string): (r: (Value, bool))
      reads this
      ensures r.1 <==> key in m
      ensures r.1 ==> r.0 == m[key]
      ensures !r.1 ==> r.0 == Nil
    {
      if key in m then (m[key], true) else (Nil, false)
    }

    /** MemoryStore.HasKey: what Get says. */
    predicate HasKey(key: string)
      reads this
      ensures HasKey(key) <==> key in m
    {
      Get(key).1
    }

    /** MemoryStore.GetVal: Get's value, nil for an absent key. */
    function GetVal(key: string): (v: Value)
      reads this
      ensures key in m ==> v == m[key]
      ensures key !in m ==> v == Nil
    {
      Get(key).0
    }

    /** MemoryStore.GetString: a string as it is, any other value as its %v text; an absent key is ErrKeyNotExist. */
    function GetString(key: string, show: Value -> string): (r: Got<string>)
      reads this
      ensures r.err.None? <==> key in m
      ensures key !in m ==> r == Got("", Some(KeyNotExist))
      ensures key in m && m[key].Str? ==> r.value == m[key].s
      ensures key in m && !m[key].Str? ==> r.value == show(m[key])
    {
      if key !in m then Got("", Some(KeyNotExist))
      else match m[key]
        case Str(s) => Got(s, None)
        case v => Got(show(v), None)
    }

    /** MemoryStore.GetBool: a bool, or a string strconv.ParseBool accepts; anything else is an error with false. */
    function GetBool(key: string, show: Value -> string): (r: Got<bool>)
      reads this
      ensures key !in m ==> r == Got(false, Some(KeyNotExist))
      ensures r.err.None? <==> key in m && (m[key].Bool? || (m[key].Str? && ParseBool(m[key].s).Success?))
      ensures r.err.Some? ==> !r.value
      ensures key in m && m[key].Bool? ==> r.value == m[key].b
      ensures key in m && m[key].Str? && ParseBool(m[key].s).Success? ==> r.value == ParseBool(m[key].s).value
      ensures key in m && !m[key].Bool? && !m[key].Str? ==> r.err == Some(CastErr("bool", m[key], show))
    {
      if key !in m then Got(false, Some(KeyNotExist))
      else match m[key]
        case Bool(b) => Got(b, None)
        case Str(s) =>
          (match ParseBool(s)
           case Success(b) => Got(b, None)
           case Failure(kind) => Got(false, Some(NumError("ParseBool", s, kind))))
        case v => Got(false, Some(CastErr("bool", v, show)))
    }

    /** MemoryStore.GetInt: a decimal string through strconv.Atoi, or any signed integer type. */
    function GetInt(key: string, show: Value -> string): (r: Got<int>)
      reads this
      ensures key !in m ==> r == Got(0, Some(KeyNotExist))
      ensures key in m && m[key].Str? ==> r == StrconvInt("Atoi", m[key].s)
      ensures key in m && SignedInt(m[key]).Some? ==> r == Got(SignedInt(m[key]).value, None)
      ensures key in m && !m[key].Str? && SignedInt(m[key]).None? ==> r == Got(0, Some(CastErr("int", m[key], show)))
    {
      if key !in m then Got(0, Some(KeyNotExist))
      else match m[key]
        case Str(s) => StrconvInt("Atoi", s)
        case Int(i) => Got(i, None)
        case Int8(i) => Got(i, None)
        case Int16(i) => Got(i, None)
        case Int32(i) => Got(i, None)
        case Int64(i) => Got(i, None)
        case v => Got(0, Some(CastErr("int", v, show)))
    }

    /** MemoryStore.GetInt64: a decimal string through strconv.ParseInt, or any signed integer type. */
    function GetInt64(key: string, show: Value -> string): (r: Got<int>)
      reads this
      ensures key !in m ==> r == Got(0, Some(KeyNotExist))
      ensures key in m && m[key].Str? ==> r == StrconvInt("ParseInt", m[key].s)
      ensures key in m && SignedInt(m[key]).Some? ==> r == Got(SignedInt(m[key]).value, None)
      ensures key in m && !m[key].Str? && SignedInt(m[key]).None? ==> r == Got(0, Some(CastErr("int64", m[key], show)))
    {
      if key !in m then Got(0, Some(KeyNotExist))
      else match m[key]
        case Str(s) => StrconvInt("ParseInt", s)
        case Int64(i) => Got(i, None)
        case Int(i) => Got(i, None)
        case Int8(i) => Got(i, None)
        case Int16(i) => Got(i, None)
        case Int32(i) => Got(i, None)
        case v => Got(0, Some(CastErr("int64", v, show)))
    }

    /** MemoryStore.GetOrDefault: the stored value, df for an absent key. */
    function GetOrDefault(key: string, df: Value): (v: Value)
      reads this
      ensures key in m ==> v == m[key]
      ensures key !in m ==> v == df
    {
      if key in m then m[key] else df
    }

    /** MemoryStore.GetStringOrDefault: GetString's value, or df when it fails. */
    function GetStringOrDefault(key: string, df: string, show: Value -> string): (v: string)
      reads this
      ensures v == if GetString(key, show).err.None? then GetString(key, show).value else df
    {
      var r := GetString(key, show);
      if r.err.None? then r.value else df
    }

    /** MemoryStore.GetBoolOrDefault: GetBool's value, or df when it fails. */
    function GetBoolOrDefault(key: string, df: bool, show: Value -> string): (v: bool)
      reads this
      ensures v == if GetBool(key, show).err.None? then GetBool(key, show).value else df
    {
      var r := GetBool(key, show);
      if r.err.None? then r.value else df
    }

    /** MemoryStore.GetIntOrDefault: GetInt's value, or df when it fails. */
    function GetIntOrDefault(key: string, df: int, show: Value -> string): (v: int)
      reads this
      ensures v == if GetInt(key, show).err.None? then GetInt(key, show).value else df
    {
      var r := GetInt(key, show);
      if r.err.None? then r.value else df
    }

    /** MemoryStore.GetInt64OrDefault: GetInt64's value, or df when it fails. */
    function GetInt64OrDefault(key: string, df: int, show: Value -> string): (v: int)
      reads this
      ensures v == if GetInt64(key, show).err.None? then GetInt64(key, show).value else df
    {
      var r := GetInt64(key, show);
      if r.err.None? then r.value else df
    }

    /** MemoryStore.Put: stores the value and returns the one it replaces, nil when the key was absent. */
    method Put(key: string, value: Value) returns (prev: Value)
      modifies this
      ensures prev == old(GetVal(key))
      ensures m == old(m)[key := value]
    {
      prev := if key in m then m[key] else Nil;
      m := m[key := value];
    }

    /** MemoryStore.Remove: deletes the key and returns its value, nil when it was absent. */
    method Remove(key: string) returns (prev: Value)
      modifies this
      ensures prev == old(GetVal(key))
      ensures m == old(m) - {key}
    {
      prev := if key in m then m[key] else Nil;
      m := m - {key};
    }

    /** MemoryStore.Clear: a fresh empty map. */
    method Clear()
      modifies this
      ensures m == map[]
    {
      m := map[];
    }
  }

  /** A list without repeats has as many entries as the set of its entries. */
  lemma {:induction false} DistinctLength<T>(xs: seq<T>, S: set<T>)
    requires forall i, j :: 0 <= i < j < |xs| ==> xs[i] != xs[j]
    requires forall x :: x in xs <==> x in S
    ensures |xs| == |S|
    decreases |xs|
  {
    if xs == [] {
      assert forall x :: x !in S;
      assert S == {};
    } else {
      var last := xs[|xs| - 1];
      var init := xs[..|xs| - 1];
      forall x
        ensures x in init <==> x in S - {last}
      {
        if x in init {
          var i :| 0 <= i < |init| && init[i] == x;
          assert xs[i] == x;
        }
        if x in S && x != last {
          var i :| 0 <= i < |xs| && xs[i] == x;
          assert i < |xs| - 1 && init[i] == x;
        }
      }
      DistinctLength(init, S - {last});
    }
  }

  /**
   * GetInt and GetInt64 accept the same values and agree on them; they
   * differ only in the function name of a strconv error.
   */
  lemma IntGettersAgree(s: MemoryStore, key: string, show: Value -> string)
    ensures s.GetInt(key, show).value == s.GetInt64(key, show).value
    ensures s.GetInt(key, show).err.None? <==> s.GetInt64(key, show).err.None?
  {
  }

  /** An int64 stored as its decimal text reads back through both integer getters and their defaults. */
  lemma DecimalReadsBack(s: MemoryStore, key: string, i: int, df: int, show: Value -> string)
    requires IsInt64(i) && key in s.m && s.m[key] == Str(FormatInt(i))
    ensures s.GetInt64(key, show) == Got(i, None) && s.GetInt(key, show) == Got(i, None)
    ensures s.GetInt64OrDefault(key, df, show) == i && s.GetIntOrDefault(key, df, show) == i
  {
    ParseFormatInt(i);
  }

  /** Every typed getter reports ErrKeyNotExist for an absent key, and every default getter gives its default. */
  lemma AbsentKey(s: MemoryStore, key: string, show: Value -> string)
    requires key !in s.m
    ensures s.GetString(key, show).err == Some(KeyNotExist) && s.GetBool(key, show).err == Some(KeyNotExist)
    ensures s.GetInt(key, show).err == Some(KeyNotExist) && s.GetInt64(key, show).err == Some(KeyNotExist)
    ensures !s.HasKey(key) && s.GetVal(key) == Nil
    ensures forall df :: s.GetStringOrDefault(key, df, show) == df
    ensures forall df :: s.GetIntOrDefault(key, df, show) == df
  {
  }

  /**
   * A decimal number beyond int64 is an out-of-range error that still
   * gives the bound on its side, as strconv does.
   */
  lemma OutOfRangeClamps(s: MemoryStore, key: string, n: nat, show: Value -> string)
    requires key in s.m && n > MaxInt64 + 1
    ensures s.m[key] == Str(NatToDec(n)) ==>
      s.GetInt64(key, show) == Got(MaxInt64, Some(NumError("ParseInt", NatToDec(n), ErrRange)))
    ensures s.m[key] == Str("-" + NatToDec(n)) ==>
      s.GetInt64(key, show) == Got(MinInt64, Some(NumError("ParseInt", "-" + NatToDec(n), ErrRange)))
  {
    DecValueOfNatToDec(n);
    var d := NatToDec(n);
    assert IsDigit(d[0]);
    assert Unsigned("-" + d) == d;
  }

  /**
   * Digits past 2^64 - 1 followed by a character that is not a digit read as
   * the int64 limit of their sign with a range error, not 0 with a syntax
   * error: strconv stops at the digit that overflows.
   */
  lemma OverflowBeforeJunkClamps(s: MemoryStore, key: string, w: string, rest: string, show: Value -> string)
    requires key in s.m && AllDigits(w) && DecValue(w) > MaxUint64
    requires rest != [] && !IsDigit(rest[0])
    ensures s.m[key] == Str(w + rest) ==>
      s.GetInt64(key, show) == Got(MaxInt64, Some(NumError("ParseInt", w + rest, ErrRange))) &&
      s.GetInt(key, show) == Got(MaxInt64, Some(NumError("Atoi", w + rest, ErrRange)))
    ensures s.m[key] == Str("-" + w + rest) ==>
      s.GetInt64(key, show) == Got(MinInt64, Some(NumError("ParseInt", "-" + w + rest, ErrRange))) &&
      s.GetInt(key, show) == Got(MinInt64, Some(NumError("Atoi", "-" + w + rest, ErrRange)))
  {
    ParseIntRangeBeforeJunk(w, rest);
    assert w != [] by { assert DecValue([]) == 0; }
    assert (w + rest)[0] == w[0];
  }

  /** The store's own test, run in sequence: Put returns the previous value, Remove returns it and deletes the key. */
  method PutRemoveScenario(show: Value -> string) returns (s: MemoryStore)
    ensures fresh(s) && s.m == map[]
  {
    s := new MemoryStore(0);
    var p1 := s.Put("a", Int(1));
    var p2 := s.Put("a", Str("2"));
    assert p1 == Nil && p2 == Int(1);
    assert s.GetInt("a", show) == Got(2, None) by {
      ParseIntDigits("2");
    }
    var r := s.Remove("a");
    assert r == Str("2") && !s.HasKey("a");
  }
}
