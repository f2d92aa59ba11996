/**
 * util/crypto.go: a signed token. The headers are hex-encoded and joined
 * with the creation time in Unix seconds by "."; the signature is the
 * lower-case hex of HMAC-SHA-512 (section 2 of RFC 2104, with SHA-512) of
 * that text under a key, appended after one more ".". HMAC-SHA-512 itself is
 * a parameter `hs512(plain, key)` of the operations that sign or check;
 * `utf8` gives the bytes of a Go string and `show` fmt's %v text of a value.
 */
module UtilCrypto {
  import opened Wrappers
  import opened Text
  import opened Go
  import opened UString
  import opened UtilTime
  import opened UtilAtomic

  /** The "." byte. */
  const Dot: byte := 46

  /** The parts, each followed by a dot, as a strings.Builder writes them in a loop. */
  function Dotted<T>(parts: seq<seq<T>>, dot: T): seq<T> {
    if parts == [] then [] else parts[0] + [dot] + Dotted(parts[1..], dot)
  }

  lemma {:induction false} DottedSnoc<T>(parts: seq<seq<T>>, p: seq<T>, dot: T)
    ensures Dotted(parts + [p], dot) == Dotted(parts, dot) + p + [dot]
  {
    if parts == [] {
      assert ([] + [p])[1..] == [];
    } else {
      assert (parts + [p])[0] == parts[0] && (parts + [p])[1..] == parts[1..] + [p];
      DottedSnoc(parts[1..], p, dot);
    }
  }

  /** Splitting dotted parts that hold no dot gives the parts back, followed by the pieces of what comes after. */
  lemma {:induction false} DottedSplit<T>(parts: seq<seq<T>>, dot: T, rest: seq<T>)
    requires forall i :: 0 <= i < |parts| ==> dot !in parts[i]
    ensures Split(Dotted(parts, dot) + rest, dot) == parts + Split(rest, dot)
  {
    if parts == [] {
      assert Dotted(parts, dot) + rest == rest;
    } else {
      var tail := Dotted(parts[1..], dot) + rest;
      calc {
        Split(Dotted(parts, dot) + rest, dot);
        { assert Dotted(parts, dot) + rest == parts[0] + [dot] + tail; }
        Split(parts[0] + [dot] + tail, dot);
        { SplitPrefix(parts[0], dot, tail); }
        [parts[0]] + Split(tail, dot);
        { DottedSplit(parts[1..], dot, rest); }
        [parts[0]] + (parts[1..] + Split(rest, dot));
        { assert parts == [parts[0]] + parts[1..]; }
        parts + Split(rest, dot);
      }
    }
  }

  /** The bytes of one argument of Token.AddHeader: a string's bytes, a []byte itself, or the %v text. */
  function HeaderBytes(item: Value, show: Value -> string, utf8: string -> seq<byte>): seq<byte> {
    match item
    case Str(s) => utf8(s)
    case Bytes(b) => b
    case _ => utf8(show(item))
  }

  /** util.Token. Go strings the model treats as bytes (the headers) are seq<byte>. */
  class Token {
    var headers: seq<seq<byte>>
    var createdAt: Instant
    var sign: string

    /** &Token{}: no headers, the zero time and no signature. */
    constructor ()
      ensures headers == [] && createdAt == ZeroTime && sign == []
    {
      headers := [];
      createdAt := ZeroTime;
      sign := [];
    }

    /** util.NewToken, created at `now` (time.Now()). */
    constructor NewToken(now: Instant, headers: seq<seq<byte>>)
      ensures this.headers == headers && createdAt == now && sign == []
    {
      this.headers := headers;
      createdAt := now;
      sign := [];
    }

    /** Token.AddHeader: appends each argument's bytes as a header, in order, and returns the token. */
    method AddHeader(items: seq<Value>, show: Value -> string, utf8: string -> seq<byte>) returns (t: Token)
      modifies this
      ensures t == this
      ensures |headers| == |old(headers)| + |items|
      ensures headers[..|old(headers)|] == old(headers)
      ensures forall i :: 0 <= i < |items| ==> headers[|old(headers)| + i] == HeaderBytes(items[i], show, utf8)
      ensures createdAt == old(createdAt) && sign == old(sign)
    {
      var i := 0;
      while i < |items|
        invariant 0 <= i <= |items|
        invariant |headers| == |old(headers)| + i
        invariant headers[..|old(headers)|] == old(headers)
        invariant forall k :: 0 <= k < i ==> headers[|old(headers)| + k] == HeaderBytes(items[k], show, utf8)
        invariant createdAt == old(createdAt) && sign == old(sign)
      {
        headers := headers + [HeaderBytes(items[i], show, utf8)];
        i := i + 1;
      }
      return this;
    }

    /**
     * Token.Val (and String): the raw headers each followed by ".", then the
     * creation time in Unix seconds, ".", and the signature.
     */
    method Val(utf8: string -> seq<byte>) returns (v: seq<byte>)
      ensures v == Dotted(headers, Dot) + utf8(FormatInt(Unix(createdAt)) + "." + sign)
    {
      v := [];
      var i := 0;
      while i < |headers|
        invariant 0 <= i <= |headers|
        invariant v == Dotted(headers[..i], Dot)
      {
        DottedSnoc(headers[..i], headers[i], Dot);
        assert headers[..i + 1] == headers[..i] + [headers[i]];
        v := v + headers[i] + [Dot];
        i := i + 1;
      }
      assert headers[..i] == headers;
      v := v + utf8(FormatInt(Unix(createdAt)) + "." + sign);
    }
  }

  /** Headers of Val that hold no "." byte come back out of a split at ".". */
  lemma ValSplits(headers: seq<seq<byte>>, rest: seq<byte>)
    requires forall i :: 0 <= i < |headers| ==> Dot !in headers[i]
    ensures var parts := Split(Dotted(headers, Dot) + rest, Dot);
      |parts| == |headers| + |Split(rest, Dot)| && parts[..|headers|] == headers
  {
    DottedSplit(headers, Dot, rest);
  }

  function HexParts(hs: seq<seq<byte>>): seq<string> {
    seq(|hs|, i requires 0 <= i < |hs| => HexEncode(hs[i]))
  }

  /** One more header extends the dotted hex text by that header and a ".". */
  lemma HeadersStep(hs: seq<seq<byte>>, i: nat)
    requires i < |hs|
    ensures Dotted(HexParts(hs[..i + 1]), '.') == Dotted(HexParts(hs[..i]), '.') + HexEncode(hs[i]) + "."
  {
    DottedSnoc(HexParts(hs[..i]), HexEncode(hs[i]), '.');
    assert HexParts(hs[..i + 1]) == HexParts(hs[..i]) + [HexEncode(hs[i])];
  }

  /** The text EncodeToken signs: the hex headers each followed by ".", then the Unix seconds. */
  function SignedBody(hs: seq<seq<byte>>, createdAt: Instant): string {
    Dotted(HexParts(hs), '.') + FormatInt(Unix(createdAt))
  }

  /** hex(HS512(plain, key)) */
  function Signature(plain: string, key: string, hs512: (string, string) -> seq<byte>): string {
    HexEncode(hs512(plain, key))
  }

  /** The token EncodeToken returns: the signed text, ".", and its signature. */
  function EncodedToken(key: string, hs: seq<seq<byte>>, createdAt: Instant, hs512: (string, string) -> seq<byte>): string {
    var body := SignedBody(hs, createdAt);
    body + "." + Signature(body, key, hs512)
  }

  /** util.EncodeToken: a blank key or a nil token is an error; otherwise the encoded token. */
  method EncodeToken(key: string, token: Token?, hs512: (string, string) -> seq<byte>) returns (r: Result<string, Error>)
    ensures Empty(key) ==> r.Failure? && r.error == Plain("key为空")
    ensures !Empty(key) && token == null ==> r.Failure? && r.error == Plain("token为空")
    ensures !Empty(key) && token != null ==>
      r.Success? && r.value == EncodedToken(key, token.headers, token.createdAt, hs512)
  {
    if Empty(key) {
      return Failure(Plain("key为空"));
    }
    if token == null {
      return Failure(Plain("token为空"));
    }
    var hs := token.headers;
    var b: string := [];
    var i := 0;
    while i < |hs|
      invariant 0 <= i <= |hs|
      invariant b == Dotted(HexParts(hs[..i]), '.')
    {
      HeadersStep(hs, i);
      b := b + HexEncode(hs[i]) + ".";
      i := i + 1;
    }
    assert hs[..i] == hs;
    b := b + FormatInt(Unix(token.createdAt));
    var sign := HexEncode(hs512(b, key));
    b := b + "." + sign;
    return Success(b);
  }

  /** util.MustEncodeToken: EncodeToken, whose error would be a panic. */
  method MustEncodeToken(key: string, token: Token?, hs512: (string, string) -> seq<byte>) returns (s: string)
    requires !Empty(key) && token != null
    ensures s == EncodedToken(key, token.headers, token.createdAt, hs512)
  {
    var r := EncodeToken(key, token, hs512);
    s := r.value;
  }

  /** The fields of a parsed token. */
  datatype TokenData = TokenData(headers: seq<seq<byte>>, createdAt: Instant, sign: string)

  /** The error for a header part that is not valid hex. */
  function HeaderError(v: string): Error {
    Plain("token头信息解析出错[header=" + v + "]")
  }

  /** The header parts hex-decoded in order; the first part that does not decode is the error. */
  function DecodeHeaders(parts: seq<string>): (r: Result<seq<seq<byte>>, Error>)
    ensures r.Success? <==> forall i :: 0 <= i < |parts| ==> HexDecode(parts[i]).Success?
    ensures r.Success? ==> |r.value| == |parts|
    ensures r.Success? ==> forall i :: 0 <= i < |parts| ==> r.value[i] == HexDecode(parts[i]).value
  {
    if parts == [] then Success([])
    else
      var init := parts[..|parts| - 1];
      var last := parts[|parts| - 1];
      assert forall i :: 0 <= i < |init| ==> init[i] == parts[i];
      match DecodeHeaders(init)
      case Failure(e) => Failure(e)
      case Success(hs) =>
        match HexDecode(last)
        case Failure(_) => Failure(HeaderError(last))
        case Success(d) => Success(hs + [d])
  }

  /** The first part that does not decode decides the error, whatever follows it. */
  lemma {:induction false} DecodeHeadersFirstFailure(parts: seq<string>, k: nat)
    requires k < |parts|
    requires forall i :: 0 <= i < k ==> HexDecode(parts[i]).Success?
    requires HexDecode(parts[k]).Failure?
    ensures DecodeHeaders(parts).Failure? && DecodeHeaders(parts).error == HeaderError(parts[k])
    decreases |parts|
  {
    var init := parts[..|parts| - 1];
    if k < |parts| - 1 {
      assert forall i :: 0 <= i <= k ==> init[i] == parts[i];
      DecodeHeadersFirstFailure(init, k);
    } else {
      assert forall i :: 0 <= i < |init| ==> init[i] == parts[i];
    }
  }

  /** Every encoded header decodes back to itself. */
  lemma DecodeHexParts(hs: seq<seq<byte>>)
    ensures DecodeHeaders(HexParts(hs)).Success? && DecodeHeaders(HexParts(hs)).value == hs
  {
    var ps := HexParts(hs);
    forall i | 0 <= i < |hs| ensures HexDecode(ps[i]) == Success(hs[i]) {
      HexRoundTrip(hs[i]);
    }
  }

  /**
   * The parts of a token split at ".", read as ParseToken reads them: the
   * second-last must be a decimal int64 (the creation time in Unix
   * seconds), the last is the signature, and every earlier part is a
   * hex-encoded header.
   */
  function ParseParts(vs: seq<string>): (r: Result<TokenData, Error>)
    requires |vs| >= 2
    ensures r.Success? ==> r.value.sign == vs[|vs| - 1]
    ensures r.Success? <==> ParseInt(vs[|vs| - 2]).Success? && DecodeHeaders(vs[..|vs| - 2]).Success?
  {
    var n := |vs|;
    match ParseInt(vs[n - 2])
    case Failure(_) => Failure(Plain("token时间戳无效"))
    case Success(ts) =>
      match DecodeHeaders(vs[..n - 2])
      case Failure(e) => Failure(e)
      case Success(hs) => Success(TokenData(hs, ts * Second, vs[n - 1]))
  }

  /**
   * util.ParseToken on its own terms: blank text and text with fewer than
   * two "."-separated parts are errors; otherwise the parts are read.
   */
  function ParseSpec(token: string): (r: Result<TokenData, Error>)
    ensures Empty(token) ==> r.Failure? && r.error == Plain("token为空")
    ensures !Empty(token) && '.' !in token ==> r.Failure? && r.error == Plain("token格式错误")
    ensures r.Success? ==> '.' in token
    ensures r.Success? ==> var vs := Split(token, '.'); r.value.sign == vs[|vs| - 1]
  {
    if Empty(token) then Failure(Plain("token为空"))
    else
      var vs := Split(token, '.');
      assert '.' !in token ==> |vs| == 1 by {
        if '.' !in token {
          SplitNoSep(token, '.');
        }
      }
      if |vs| <= 1 then Failure(Plain("token格式错误")) else ParseParts(vs)
  }

  /** The body of util.ParseToken after the split: a new token filled in, the headers decoded in a loop. */
  method ReadParts(vs: seq<string>) returns (r: Result<Token, Error>)
    requires |vs| >= 2
    ensures r.Success? <==> ParseParts(vs).Success?
    ensures r.Failure? ==> r.error == ParseParts(vs).error
    ensures r.Success? ==> fresh(r.value)
    ensures r.Success? ==> r.value.headers == ParseParts(vs).value.headers
    ensures r.Success? ==> r.value.createdAt == ParseParts(vs).value.createdAt
    ensures r.Success? ==> r.value.sign == ParseParts(vs).value.sign
  {
    var n := |vs|;
    var t := new Token();
    t.sign := vs[n - 1];
    var ts := ParseInt(vs[n - 2]);
    if ts.Failure? {
      return Failure(Plain("token时间戳无效"));
    }
    t.createdAt := ts.value * Second;
    var parts := vs[..n - 2];
    var i := 0;
    while i < |parts|
      invariant 0 <= i <= |parts|
      invariant |t.headers| == i
      invariant t.sign == vs[n - 1] && t.createdAt == ts.value * Second
      invariant forall k :: 0 <= k < i ==> HexDecode(parts[k]).Success? && t.headers[k] == HexDecode(parts[k]).value
    {
      var d := HexDecode(parts[i]);
      if d.Failure? {
        DecodeHeadersFirstFailure(parts, i);
        return Failure(HeaderError(parts[i]));
      }
      t.headers := t.headers + [d.value];
      i := i + 1;
    }
    assert t.headers == DecodeHeaders(parts).value;
    return Success(t);
  }

  /** util.ParseToken */
  method ParseToken(token: string) returns (r: Result<Token, Error>)
    ensures r.Success? <==> ParseSpec(token).Success?
    ensures r.Failure? ==> r.error == ParseSpec(token).error
    ensures r.Success? ==> fresh(r.value)
    ensures r.Success? ==> r.value.headers == ParseSpec(token).value.headers
    ensures r.Success? ==> r.value.createdAt == ParseSpec(token).value.createdAt
    ensures r.Success? ==> r.value.sign == ParseSpec(token).value.sign
  {
    if Empty(token) {
      return Failure(Plain("token为空"));
    }
    var vs := Split(token, '.');
    if |vs| <= 1 {
      return Failure(Plain("token格式错误"));
    }
    r := ReadParts(vs);
  }

  function AbsDuration(d: Duration): nat {
    if d < 0 then -d else d
  }

  /** The seconds from year 1 to the Unix epoch, time.Time's own origin. */
  const UnixToInternal: int := 62_135_596_800

  /** x held to the int64 range: Time.Sub returns the extreme duration when the true one does not fit. */
  function Saturate(x: int): (r: int)
    ensures IsInt64(r)
    ensures IsInt64(x) ==> r == x
    ensures x > MaxInt64 ==> r == MaxInt64
    ensures x < MinInt64 ==> r == MinInt64
  {
    if x > MaxInt64 then MaxInt64 else if x < MinInt64 then MinInt64 else x
  }

  /**
   * time.Since(time.Unix(ts, 0)) at `now`. time.Unix keeps ts + UnixToInternal
   * seconds in an int64, which wraps for the last 62 billion seconds of the
   * range, and the difference saturates; otherwise it is the exact difference.
   */
  function SinceUnix(now: Instant, ts: int): (d: Duration)
    ensures IsInt64(d)
    ensures IsInt64(ts + UnixToInternal) ==> d == Saturate(now - ts * Second)
  {
    Saturate(now + UnixToInternal * Second - WrapInt64(ts + UnixToInternal) * Second)
  }

  /** `if diff < 0 { diff = -diff }` on an int64 duration: the minimum duration is its own negation. */
  function GoAbs(d: Duration): (a: Duration)
    requires IsInt64(d)
    ensures IsInt64(a)
    ensures d != MinInt64 ==> a == AbsDuration(d)
    ensures d == MinInt64 ==> a == d && a < 0
  {
    if d < 0 then WrapInt64(-d) else d
  }

  /** The Go arithmetic of the ttl test is exact: no wrap in time.Unix, no saturation, no negation overflow. */
  predicate InDurationRange(now: Instant, ts: int) {
    IsInt64(ts + UnixToInternal) && MinInt64 < now - ts * Second <= MaxInt64
  }

  /** Why ParseAndCheckToken rejects a token of creation second ts: its age, as Go computes it, exceeds ttl. */
  predicate Expired(now: Instant, ts: int, ttl: Duration) {
    ttl > 0 && GoAbs(SinceUnix(now, ts)) > ttl
  }

  /**
   * util.ParseAndCheckToken on its own terms: a blank key, a token that does
   * not parse, a creation time more than ttl away from `now` when ttl > 0,
   * and a signature other than that of the text before the last "." are
   * errors, in that order. The age is measured with Go's duration
   * arithmetic; where that is exact it is the distance from `now` to the
   * creation second.
   */
  function CheckSpec(key: string, token: string, ttl: Duration, now: Instant, hs512: (string, string) -> seq<byte>): (r: Result<TokenData, Error>)
    ensures Empty(key) ==> r.Failure? && r.error == Plain("key为空")
    ensures !Empty(key) && ParseSpec(token).Failure? ==> r.Failure? && r.error == ParseSpec(token).error
    ensures r.Success? ==> ParseSpec(token).Success? && r.value == ParseSpec(token).value
    ensures r.Success? && ttl > 0 && InDurationRange(now, Unix(r.value.createdAt)) ==>
      AbsDuration(now - Unix(r.value.createdAt) * Second) <= ttl
    ensures (!Empty(key) && ParseSpec(token).Success? && ttl > 0 &&
             InDurationRange(now, Unix(ParseSpec(token).value.createdAt)) &&
             AbsDuration(now - Unix(ParseSpec(token).value.createdAt) * Second) > ttl) ==>
      r.Failure? && r.error == Plain("token已失效")
    ensures r.Success? ==> r.value.sign == Signature(token[..LastIndex(token, '.')], key, hs512)
  {
    if Empty(key) then Failure(Plain("key为空"))
    else
      match ParseSpec(token)
      case Failure(e) => Failure(e)
      case Success(t) =>
        if Expired(now, Unix(t.createdAt), ttl) then Failure(Plain("token已失效"))
        else
          var plain := token[..LastIndex(token, '.')];
          if t.sign != Signature(plain, key, hs512) then Failure(Plain("token签名无效"))
          else Success(t)
  }

  /**
   * The check ParseAndCheckToken evidently means: the same steps, with the
   * distance from `now` to the creation second taken exactly.
   */
  function CheckSpecExact(key: string, token: string, ttl: Duration, now: Instant, hs512: (string, string) -> seq<byte>): (r: Result<TokenData, Error>)
    ensures r.Success? ==> CheckSpec(key, token, 0, now, hs512).Success? && r.value == ParseSpec(token).value
    ensures r.Success? && ttl > 0 ==> AbsDuration(now - Unix(r.value.createdAt) * Second) <= ttl
  {
    if Empty(key) || ParseSpec(token).Failure? then CheckSpec(key, token, 0, now, hs512)
    else if ttl > 0 && AbsDuration(now - Unix(ParseSpec(token).value.createdAt) * Second) > ttl then
      Failure(Plain("token已失效"))
    else CheckSpec(key, token, 0, now, hs512)
  }

  /** util.ParseAndCheckToken, with time.Since measured from `now`. */
  method ParseAndCheckToken(key: string, token: string, ttl: Duration, now: Instant, hs512: (string, string) -> seq<byte>)
    returns (r: Result<Token, Error>)
    ensures r.Success? <==> CheckSpec(key, token, ttl, now, hs512).Success?
    ensures r.Failure? ==> r.error == CheckSpec(key, token, ttl, now, hs512).error
    ensures r.Success? ==> fresh(r.value)
    ensures r.Success? ==> r.value.headers == CheckSpec(key, token, ttl, now, hs512).value.headers
    ensures r.Success? ==> r.value.createdAt == CheckSpec(key, token, ttl, now, hs512).value.createdAt
    ensures r.Success? ==> r.value.sign == CheckSpec(key, token, ttl, now, hs512).value.sign
  {
    if Empty(key) {
      return Failure(Plain("key为空"));
    }
    r := ParseToken(token);
    if r.Failure? {
      return;
    }
    var t := r.value;
    if ttl > 0 {
      var diff := SinceUnix(now, Unix(t.createdAt));
      if diff < 0 {
        diff := WrapInt64(-diff);
      }
      if diff > ttl {
        return Failure(Plain("token已失效"));
      }
    }
    var plain := token[..LastIndex(token, '.')];
    var expected := HexEncode(hs512(plain, key));
    if t.sign != expected {
      return Failure(Plain("token签名无效"));
    }
  }

  /** util.CheckToken: the error of ParseAndCheckToken, None when the token is valid. */
  method CheckToken(key: string, token: string, ttl: Duration, now: Instant, hs512: (string, string) -> seq<byte>)
    returns (err: Option<Error>)
    ensures err.None? <==> CheckSpec(key, token, ttl, now, hs512).Success?
    ensures err.Some? ==> err.value == CheckSpec(key, token, ttl, now, hs512).error
  {
    var r := ParseAndCheckToken(key, token, ttl, now, hs512);
    if r.Failure? {
      return Some(r.error);
    }
    return None;
  }

  // ---------------------------------------------------------------- round trip

  lemma {:induction false} HexHasNoDot(b: seq<byte>)
    ensures '.' !in HexEncode(b)
  {
    if b != [] {
      HexHasNoDot(b[1..]);
      var x, y := b[0] / 16, b[0] % 16;
      assert HexDigit(x) != '.' && HexDigit(y) != '.';
    }
  }

  lemma FormatIntHasNoDot(i: int)
    ensures '.' !in FormatInt(i)
    ensures !AllSpace(FormatInt(i))
  {
    var n: nat := if i < 0 then -i else i;
    var d := NatToDec(n);
    assert IsDigit(d[|d| - 1]);
    var s := FormatInt(i);
    assert s[|s| - 1] == d[|d| - 1];
    if i < 0 {
      assert forall k :: 0 < k < |s| ==> s[k] == d[k - 1];
    }
  }

  /** The pieces an encoded token splits into: the hex headers, the seconds, and the signature. */
  lemma SplitEncoded(key: string, hs: seq<seq<byte>>, createdAt: Instant, hs512: (string, string) -> seq<byte>)
    ensures var body := SignedBody(hs, createdAt);
      Split(EncodedToken(key, hs, createdAt, hs512), '.') ==
        HexParts(hs) + [FormatInt(Unix(createdAt)), Signature(body, key, hs512)]
  {
    var ps := HexParts(hs);
    var secs := FormatInt(Unix(createdAt));
    var sign := Signature(SignedBody(hs, createdAt), key, hs512);
    forall i | 0 <= i < |ps| ensures '.' !in ps[i] {
      HexHasNoDot(hs[i]);
    }
    FormatIntHasNoDot(Unix(createdAt));
    HexHasNoDot(hs512(SignedBody(hs, createdAt), key));
    assert EncodedToken(key, hs, createdAt, hs512) == Dotted(ps, '.') + (secs + "." + sign);
    DottedSplit(ps, '.', secs + "." + sign);
    SplitPrefix(secs, '.', sign);
    SplitNoSep(sign, '.');
  }

  /** An encoded token is not blank: its seconds are digits. */
  lemma EncodedNotEmpty(key: string, hs: seq<seq<byte>>, createdAt: Instant, hs512: (string, string) -> seq<byte>)
    ensures !Empty(EncodedToken(key, hs, createdAt, hs512))
  {
    var tok := EncodedToken(key, hs, createdAt, hs512);
    var pre := Dotted(HexParts(hs), '.');
    var secs := FormatInt(Unix(createdAt));
    FormatIntHasNoDot(Unix(createdAt));
    var k :| 0 <= k < |secs| && !IsSpace(secs[k]);
    assert tok[|pre| + k] == secs[k];
  }

  /**
   * ParseToken reads back what EncodeToken wrote: the headers, the creation
   * time truncated to the second, and the signature.
   */
  lemma EncodeParseRoundTrip(key: string, hs: seq<seq<byte>>, createdAt: Instant, hs512: (string, string) -> seq<byte>)
    requires IsInt64(Unix(createdAt))
    ensures var parsed := ParseSpec(EncodedToken(key, hs, createdAt, hs512));
      parsed.Success? &&
      parsed.value == TokenData(hs, Unix(createdAt) * Second, Signature(SignedBody(hs, createdAt), key, hs512))
    ensures Unix(createdAt) * Second <= createdAt < Unix(createdAt) * Second + Second
  {
    var tok := EncodedToken(key, hs, createdAt, hs512);
    EncodedNotEmpty(key, hs, createdAt, hs512);
    SplitEncoded(key, hs, createdAt, hs512);
    var vs := Split(tok, '.');
    var n := |vs|;
    assert vs[n - 2] == FormatInt(Unix(createdAt));
    assert vs[..n - 2] == HexParts(hs);
    ParseFormatInt(Unix(createdAt));
    DecodeHexParts(hs);
  }

  /**
   * ParseAndCheckToken accepts what EncodeToken wrote under the same key,
   * exactly when ttl is not positive or the creation second's age, as Go
   * measures it, is at most ttl; where Go's arithmetic is exact, when the
   * creation second lies within ttl of `now`.
   */
  lemma EncodeCheckRoundTrip(key: string, hs: seq<seq<byte>>, createdAt: Instant, ttl: Duration, now: Instant,
                             hs512: (string, string) -> seq<byte>)
    requires !Empty(key) && IsInt64(Unix(createdAt))
    ensures CheckSpec(key, EncodedToken(key, hs, createdAt, hs512), ttl, now, hs512).Success? <==>
      !Expired(now, Unix(createdAt), ttl)
    ensures InDurationRange(now, Unix(createdAt)) ==>
      (CheckSpec(key, EncodedToken(key, hs, createdAt, hs512), ttl, now, hs512).Success? <==>
       (ttl <= 0 || AbsDuration(now - Unix(createdAt) * Second) <= ttl))
  {
    var body := SignedBody(hs, createdAt);
    var sign := Signature(body, key, hs512);
    var tok := EncodedToken(key, hs, createdAt, hs512);
    var ts := Unix(createdAt);
    EncodeParseRoundTrip(key, hs, createdAt, hs512);
    UnixOfSeconds(ts);
    HexHasNoDot(hs512(body, key));
    LastIndexAfter(body, '.', sign);
    assert tok[..|body|] == body;
    if InDurationRange(now, ts) {
      ExactAge(now, ts);
    }
  }

  lemma UnixOfSeconds(ts: int)
    ensures Unix(ts * Second) == ts
  {
  }

  /** Where Go's arithmetic is exact, the age it computes is the distance from `now` to the creation second. */
  lemma ExactAge(now: Instant, ts: int)
    requires InDurationRange(now, ts)
    ensures GoAbs(SinceUnix(now, ts)) == AbsDuration(now - ts * Second)
  {
  }

  /**
   * A token written more than the largest duration (about 292 years) after
   * `now` passes the ttl test whatever ttl is: time.Since saturates at the
   * minimum duration, and negating that leaves it negative.
   */
  lemma FarFutureTokenAccepted(key: string, hs: seq<seq<byte>>, ts: int, ttl: Duration, now: Instant,
                               hs512: (string, string) -> seq<byte>)
    requires !Empty(key) && IsInt64(ts + UnixToInternal) && ts >= 0
    requires 0 < ttl <= MaxInt64 && now + MaxInt64 < ts * Second
    ensures CheckSpec(key, EncodedToken(key, hs, ts * Second, hs512), ttl, now, hs512).Success?
    ensures CheckSpecExact(key, EncodedToken(key, hs, ts * Second, hs512), ttl, now, hs512).Failure?
  {
    UnixOfSeconds(ts);
    SaturatedAge(now, ts);
    EncodeCheckRoundTrip(key, hs, ts * Second, ttl, now, hs512);
    EncodeParseRoundTrip(key, hs, ts * Second, hs512);
  }

  /** The age of a creation second more than the largest duration ahead of `now`, as Go computes it. */
  lemma SaturatedAge(now: Instant, ts: int)
    requires IsInt64(ts + UnixToInternal) && now + MaxInt64 < ts * Second
    ensures SinceUnix(now, ts) == MinInt64 && GoAbs(SinceUnix(now, ts)) == MinInt64
  {
  }

  /** Where Go's duration arithmetic is exact, the check as written and the intended one agree. */
  lemma CheckAgreesInRange(key: string, token: string, ttl: Duration, now: Instant, hs512: (string, string) -> seq<byte>)
    requires ParseSpec(token).Success? ==> InDurationRange(now, Unix(ParseSpec(token).value.createdAt))
    ensures CheckSpec(key, token, ttl, now, hs512) == CheckSpecExact(key, token, ttl, now, hs512)
  {
    var p := ParseSpec(token);
    if !Empty(key) && p.Success? {
      var ts := Unix(p.value.createdAt);
      ExactAge(now, ts);
      assert Expired(now, ts, ttl) <==> ttl > 0 && AbsDuration(now - ts * Second) > ttl;
      assert CheckSpec(key, token, ttl, now, hs512) == (if Expired(now, ts, ttl) then Failure(Plain("token已失效"))
        else CheckSpec(key, token, 0, now, hs512));
    }
  }

  /**
   * A token is accepted only with the signature of the text before its last
   * ".": signed text followed by any other signature is rejected.
   */
  lemma ForgedSignRejected(key: string, body: string, forged: string, ttl: Duration, now: Instant,
                           hs512: (string, string) -> seq<byte>)
    requires '.' !in forged
    requires forged != Signature(body, key, hs512)
    ensures CheckSpec(key, body + "." + forged, ttl, now, hs512).Failure?
  {
    TokenParts(body, forged);
  }

  /** In body "." sign, with no "." in sign, the last piece is sign and the text before the last "." is body. */
  lemma TokenParts(body: string, sign: string)
    requires '.' !in sign
    ensures var tok := body + "." + sign; var vs := Split(tok, '.');
      vs[|vs| - 1] == sign && tok[..LastIndex(tok, '.')] == body
  {
    var tok := body + "." + sign;
    SplitPrefixLast(body, sign);
    LastIndexAfter(body, '.', sign);
    assert tok[..|body|] == body;
  }

  /** The last piece of a split of a + "." + b, when b holds no ".", is b. */
  lemma SplitPrefixLast(a: string, b: string)
    requires '.' !in b
    ensures var vs := Split(a + "." + b, '.'); vs[|vs| - 1] == b
  {
    var parts := Split(a, '.');
    JoinSplit(a, '.');
    assert forall i :: 0 <= i < |parts| ==> '.' !in parts[i];
    SplitJoin(parts + [b], '.');
    JoinSnoc(parts, b, '.');
  }
}
