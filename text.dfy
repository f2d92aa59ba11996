/**
 * The pieces of Go's standard library the utilities lean on, restated over
 * strings of characters: unicode.IsSpace and strings.TrimSpace,
 * strconv.FormatInt/ParseInt/ParseBool (base 10, 64 bits), hex encoding as in
 * section 8 of RFC 4648 (encoding/hex), strings.Split/Join and LastIndex.
 */
module Text {
  import opened Wrappers

  type byte = b: int | 0 <= b < 256

  const MinInt64: int := -0x8000_0000_0000_0000
  const MaxInt64: int := 0x7fff_ffff_ffff_ffff

  predicate IsInt64(i: int) { MinInt64 <= i <= MaxInt64 }

  /** Go's int64(u) conversion of a uint64: two's-complement wrap-around. */
  function Uint64ToInt64(u: nat): (r: int)
    requires u < 0x1_0000_0000_0000_0000
    ensures IsInt64(r)
    ensures r == u || r == u - 0x1_0000_0000_0000_0000
  {
    if u <= MaxInt64 then u else u - 0x1_0000_0000_0000_0000
  }

  /** Truncating division, as Go's `/` on signed integers. */
  function GoDiv(a: int, b: int): (q: int)
    requires b > 0
    ensures a >= 0 ==> q == a / b
    ensures a < 0 ==> q == -((-a) / b)
  {
    if a >= 0 then a / b else -((-a) / b)
  }

  // ---------------------------------------------------------------- white space

  /** unicode.IsSpace */
  predicate IsSpace(c: char) {
    c == '\t' || c == '\n' || c == '\U{0B}' || c == '\U{0C}' || c == '\r' || c == ' '
    || c == '\U{85}' || c == '\U{A0}' || c == '\U{1680}'
    || ('\U{2000}' <= c <= '\U{200A}')
    || c == '\U{2028}' || c == '\U{2029}' || c == '\U{202F}' || c == '\U{205F}' || c == '\U{3000}'
  }

  function TrimLeftSpace(s: string): (r: string)
    ensures |r| <= |s| && r == s[|s| - |r|..]
    ensures r == [] || !IsSpace(r[0])
  {
    if s != [] && IsSpace(s[0]) then TrimLeftSpace(s[1..]) else s
  }

  function TrimRightSpace(s: string): (r: string)
    ensures |r| <= |s| && r == s[..|r|]
    ensures r == [] || !IsSpace(r[|r| - 1])
  {
    if s != [] && IsSpace(s[|s| - 1]) then TrimRightSpace(s[..|s| - 1]) else s
  }

  /** strings.TrimSpace */
  function TrimSpace(s: string): string {
    TrimRightSpace(TrimLeftSpace(s))
  }

  predicate AllSpace(s: string) {
    forall i :: 0 <= i < |s| ==> IsSpace(s[i])
  }

  lemma {:induction false} TrimLeftSpaceEmpty(s: string)
    ensures TrimLeftSpace(s) == [] <==> AllSpace(s)
  {
    if s != [] && IsSpace(s[0]) {
      assert TrimLeftSpace(s) == TrimLeftSpace(s[1..]);
      TrimLeftSpaceEmpty(s[1..]);
      AllSpaceTail(s);
    } else if s != [] {
      assert TrimLeftSpace(s) == s;
    }
  }

  /** A string that starts with white space is all white space exactly when its tail is. */
  lemma AllSpaceTail(s: string)
    requires s != [] && IsSpace(s[0])
    ensures AllSpace(s) <==> AllSpace(s[1..])
  {
    if AllSpace(s[1..]) {
      forall i | 0 < i < |s| ensures IsSpace(s[i]) {
        assert s[i] == s[1..][i - 1];
      }
    }
  }

  /** The trimmed text is empty exactly when every character is white space. */
  lemma TrimSpaceEmpty(s: string)
    ensures TrimSpace(s) == [] <==> AllSpace(s)
  {
    TrimLeftSpaceEmpty(s);
    var l := TrimLeftSpace(s);
    TrimRightSpaceEmpty(l);
  }

  lemma {:induction false} TrimRightSpaceEmpty(s: string)
    ensures TrimRightSpace(s) == [] ==> AllSpace(s)
  {
    if s != [] && IsSpace(s[|s| - 1]) {
      TrimRightSpaceEmpty(s[..|s| - 1]);
      if TrimRightSpace(s) == [] {
        forall i | 0 <= i < |s| ensures IsSpace(s[i]) {
          if i < |s| - 1 { assert s[i] == s[..|s| - 1][i]; }
        }
      }
    }
  }

  // ---------------------------------------------------------------- decimal

  predicate IsDigit(c: char) { '0' <= c <= '9' }

  predicate AllDigits(s: string) {
    forall i :: 0 <= i < |s| ==> IsDigit(s[i])
  }

  function DigitChar(d: nat): (c: char)
    requires d < 10
    ensures IsDigit(c) && c as int - '0' as int == d
  {
    (d + '0' as int) as char
  }

  function DigitValue(c: char): nat
    requires IsDigit(c)
  {
    c as int - '0' as int
  }

  /** The decimal digits of n, without leading zeros. */
  function NatToDec(n: nat): (s: string)
    ensures |s| >= 1 && AllDigits(s)
    decreases n
  {
    if n < 10 then [DigitChar(n)] else NatToDec(n / 10) + [DigitChar(n % 10)]
  }

  /** The number a string of decimal digits denotes. */
  function DecValue(s: string): nat
    requires AllDigits(s)
  {
    if s == [] then 0 else DecValue(s[..|s| - 1]) * 10 + DigitValue(s[|s| - 1])
  }

  /** strconv.FormatInt(i, 10) (and strconv.Itoa). */
  function FormatInt(i: int): string {
    if i < 0 then "-" + NatToDec(-i) else NatToDec(i)
  }

  lemma {:induction false} DecValueOfNatToDec(n: nat)
    ensures DecValue(NatToDec(n)) == n
    decreases n
  {
    if n >= 10 {
      var s := NatToDec(n);
      DecValueOfNatToDec(n / 10);
      assert s[..|s| - 1] == NatToDec(n / 10);
    }
  }

  function Pow10(k: nat): (r: nat)
    ensures r >= 1
  {
    if k == 0 then 1 else 10 * Pow10(k - 1)
  }

  /** A number has L decimal digits exactly when 10^(L-1) <= n < 10^L (n >= 10). */
  lemma {:induction false} NatToDecMagnitude(n: nat)
    ensures n < Pow10(|NatToDec(n)|)
    ensures |NatToDec(n)| >= 2 ==> Pow10(|NatToDec(n)| - 1) <= n
    decreases n
  {
    if n >= 10 {
      var t := NatToDec(n / 10);
      NatToDecMagnitude(n / 10);
      assert |NatToDec(n)| == |t| + 1;
      assert n == 10 * (n / 10) + n % 10;
      assert n / 10 + 1 <= Pow10(|t|);
      assert 10 * (n / 10 + 1) <= 10 * Pow10(|t|);
      if |t| >= 2 {
        assert 10 * Pow10(|t| - 1) <= 10 * (n / 10);
      }
    }
  }

  lemma {:induction false} PowMonotone(a: nat, b: nat)
    requires a <= b
    ensures Pow10(a) <= Pow10(b)
    decreases b
  {
    if a < b { PowMonotone(a, b - 1); }
  }

  /** A number of L digits is below 10^L. */
  lemma {:induction false} DecValueBound(s: string)
    requires AllDigits(s)
    ensures DecValue(s) < Pow10(|s|)
    decreases |s|
  {
    if s != [] {
      var s' := s[..|s| - 1];
      DecValueBound(s');
      assert DecValue(s) <= (Pow10(|s'|) - 1) * 10 + 9;
    }
  }

  lemma AllDigitsConcat(a: string, b: string)
    requires AllDigits(a) && AllDigits(b)
    ensures AllDigits(a + b)
  {
    var ab := a + b;
    forall i | 0 <= i < |ab| ensures IsDigit(ab[i]) {
      if i < |a| { assert ab[i] == a[i]; } else { assert ab[i] == b[i - |a|]; }
    }
  }

  /** Appending digits b shifts the digits a by |b| places. */
  lemma {:induction false} DecValueConcat(a: string, b: string)
    requires AllDigits(a) && AllDigits(b)
    ensures AllDigits(a + b)
    ensures DecValue(a + b) == DecValue(a) * Pow10(|b|) + DecValue(b)
    decreases |b|
  {
    var ab := a + b;
    AllDigitsConcat(a, b);
    if b == [] {
      assert ab == a;
    } else {
      var b' := b[..|b| - 1];
      assert AllDigits(b');
      assert ab[..|ab| - 1] == a + b';
      DecValueConcat(a, b');
      var x, p, y, d := DecValue(a), Pow10(|b'|), DecValue(b'), DigitValue(b[|b| - 1]);
      assert DecValue(ab) == DecValue(a + b') * 10 + d;
      assert DecValue(b) == y * 10 + d;
      assert Pow10(|b|) == 10 * p;
      ShiftDigit(x, p, y, d);
    }
  }

  lemma ShiftDigit(x: int, p: int, y: int, d: int)
    ensures (x * p + y) * 10 + d == x * (10 * p) + (y * 10 + d)
  {
  }

  /** NatToDec(n) has exactly L digits when 10^(L-1) <= n < 10^L. */
  lemma NatToDecLength(n: nat, L: nat)
    requires L >= 1 && Pow10(L - 1) <= n < Pow10(L)
    ensures |NatToDec(n)| == L
  {
    var k := |NatToDec(n)|;
    NatToDecMagnitude(n);
    if k < L {
      PowMonotone(k, L - 1);
      assert false;
    } else if k > L {
      if k >= 2 {
        PowMonotone(L, k - 1);
      }
      assert false;
    }
  }

  lemma MulLe(a: int, b: int, d: int)
    requires d > 0 && a <= b
    ensures a * d <= b * d
  {
    assert b * d - a * d == (b - a) * d;
  }

  lemma DivUnique(x: int, d: int, q: int)
    requires d > 0 && q * d <= x < (q + 1) * d
    ensures x / d == q
  {
    var k, r := x / d, x % d;
    assert x == k * d + r && 0 <= r < d;
    if k < q {
      MulLe(k + 1, q, d);
    } else if k > q {
      MulLe(q + 1, k, d);
    }
  }

  /** A multiple of d leaves no remainder. */
  lemma MultipleMod(k: int, d: int)
    requires d > 0
    ensures (k * d) / d == k && (k * d) % d == 0
  {
    DivUnique(k * d, d, k);
  }

  datatype NumErrKind = ErrSyntax | ErrRange

  /** The unsigned body of a decimal literal after an optional sign. */
  function Unsigned(s: string): string
    requires s != []
  {
    if s[0] == '+' || s[0] == '-' then s[1..] else s
  }

  const MaxUint64: int := 0xffff_ffff_ffff_ffff

  /** The number of decimal digits s starts with. */
  function DigitRun(s: string): (n: nat)
    ensures n <= |s| && AllDigits(s[..n])
    ensures n < |s| ==> !IsDigit(s[n])
  {
    if s == [] || !IsDigit(s[0]) then 0
    else
      var n := 1 + DigitRun(s[1..]);
      assert s[..n] == [s[0]] + s[1..][..n - 1];
      n
  }

  /**
   * strconv.ParseInt(s, 10, 64) and strconv.Atoi (Go's int is 64 bits wide):
   * an optional sign followed by at least one decimal digit, in int64 range.
   * The digits are read one at a time and reading stops with ErrRange as soon
   * as they pass 2^64 - 1, so digits that overflow before the first character
   * that is not a digit give a range error rather than a syntax error.
   */
  function ParseInt(s: string): (r: Result<int, NumErrKind>)
    ensures r.Success? ==> IsInt64(r.value)
    ensures r.Success? ==> s != [] && |Unsigned(s)| >= 1 && AllDigits(Unsigned(s))
  {
    if s == [] then Failure(ErrSyntax)
    else
      var body := Unsigned(s);
      if body == [] then Failure(ErrSyntax)
      else if !AllDigits(body) then
        if DecValue(body[..DigitRun(body)]) > MaxUint64 then Failure(ErrRange) else Failure(ErrSyntax)
      else
        var v: int := if s[0] == '-' then 0 - DecValue(body) else DecValue(body);
        if IsInt64(v) then Success(v) else Failure(ErrRange)
  }

  /**
   * The digit loop of strconv.ParseUint in base 10, from the value n of the
   * digits read so far: a character that is not a digit is a syntax error and
   * a digit that takes the value past 2^64 - 1 a range error, whichever comes
   * first. Go tests n >= cutoff before multiplying and n1 > maxVal after
   * adding; together they say n * 10 + d > 2^64 - 1.
   */
  function ScanUint(n: nat, t: string): Result<nat, NumErrKind>
    decreases |t|
  {
    if t == [] then Success(n)
    else if !IsDigit(t[0]) then Failure(ErrSyntax)
    else
      var n1 := n * 10 + DigitValue(t[0]);
      if n1 > MaxUint64 then Failure(ErrRange) else ScanUint(n1, t[1..])
  }

  /**
   * strconv.ParseInt step by step: the sign is taken off, an empty rest is a
   * syntax error, strconv.ParseUint's error is passed on, and a magnitude past
   * the int64 bound of the sign is a range error.
   */
  function ParseIntSteps(s: string): Result<int, NumErrKind> {
    if s == [] then Failure(ErrSyntax)
    else
      var neg := s[0] == '-';
      var body := Unsigned(s);
      if body == [] then Failure(ErrSyntax)
      else
        match ScanUint(0, body)
        case Failure(k) => Failure(k)
        case Success(u) =>
          if !neg && u > MaxInt64 then Failure(ErrRange)
          else if neg && u > -MinInt64 then Failure(ErrRange)
          else
            var v: int := if neg then 0 - u else u;
            Success(v)
  }

  /**
   * From digits p already read, the loop stops with ErrRange exactly when
   * the digits up to the first character that is not a digit pass 2^64 - 1;
   * otherwise with ErrSyntax at that character, or with the value at the end.
   */
  lemma {:induction false} ScanUintRun(p: string, t: string)
    requires AllDigits(p) && DecValue(p) <= MaxUint64
    ensures AllDigits(p + t[..DigitRun(t)])
    ensures ScanUint(DecValue(p), t) ==
      if DecValue(p + t[..DigitRun(t)]) > MaxUint64 then Failure(ErrRange)
      else if DigitRun(t) < |t| then Failure(ErrSyntax)
      else Success(DecValue(p + t[..DigitRun(t)]))
    decreases |t|
  {
    var k := DigitRun(t);
    AllDigitsConcat(p, t[..k]);
    if t == [] || !IsDigit(t[0]) {
      assert p + t[..k] == p;
    } else {
      var c := t[0];
      var p' := p + [c];
      AllDigitsConcat(p, [c]);
      assert p'[..|p'| - 1] == p && p'[|p'| - 1] == c;
      assert DecValue(p') == DecValue(p) * 10 + DigitValue(c);
      var rest := t[1..][..k - 1];
      assert p + t[..k] == p' + rest;
      assert AllDigits(rest);
      if DecValue(p') > MaxUint64 {
        DecValueConcat(p', rest);
        MulAtLeast(DecValue(p'), Pow10(|rest|));
      } else {
        ScanUintRun(p', t[1..]);
        assert |p' + t[1..]| == |p + t|;
      }
    }
  }

  lemma MulAtLeast(x: nat, y: nat)
    requires y >= 1
    ensures x * y >= x
  {
  }

  /** ParseInt is strconv.ParseInt's step-by-step reading. */
  lemma ParseIntIsSteps(s: string)
    ensures ParseInt(s) == ParseIntSteps(s)
  {
    if s != [] && Unsigned(s) != [] {
      var body := Unsigned(s);
      var k := DigitRun(body);
      ScanUintRun([], body);
      assert [] + body[..k] == body[..k];
      if AllDigits(body) {
        assert k == |body|;
        assert body[..k] == body;
      } else {
        assert k < |body|;
      }
    }
  }

  /** A digit run that passes 2^64 - 1 before a character that is not a digit is a range error, whatever the sign. */
  lemma ParseIntRangeBeforeJunk(w: string, rest: string)
    requires AllDigits(w) && DecValue(w) > MaxUint64
    requires rest != [] && !IsDigit(rest[0])
    ensures ParseInt(w + rest) == Failure(ErrRange)
    ensures ParseInt("-" + w + rest) == Failure(ErrRange)
  {
    DigitRunOf(w, rest);
    assert w != [] by { assert DecValue([]) == 0; }
    assert Unsigned(w + rest) == w + rest by { assert (w + rest)[0] == w[0]; }
    assert Unsigned("-" + w + rest) == w + rest;
    assert (w + rest)[..|w|] == w;
    assert !AllDigits(w + rest) by { assert (w + rest)[|w|] == rest[0]; }
  }

  /** Digits that stay within 2^64 - 1, followed by a character that is not a digit, are a syntax error whatever the sign. */
  lemma ParseIntJunkIsSyntax(w: string, rest: string)
    requires w != [] && AllDigits(w) && DecValue(w) <= MaxUint64
    requires rest != [] && !IsDigit(rest[0])
    ensures ParseInt(w + rest) == Failure(ErrSyntax)
    ensures ParseInt("-" + w + rest) == Failure(ErrSyntax)
  {
    var b := w + rest;
    JunkFacts(w, rest);
    JunkBody(b, b);
    var m := "-" + w + rest;
    assert m == "-" + b && m[1..] == b;
    JunkBody(m, b);
  }

  lemma JunkFacts(w: string, rest: string)
    requires w != [] && AllDigits(w)
    requires rest != [] && !IsDigit(rest[0])
    ensures var b := w + rest; DigitRun(b) == |w| < |b| && b[..|w|] == w && IsDigit(b[0])
  {
    DigitRunOf(w, rest);
    assert (w + rest)[..|w|] == w;
    assert (w + rest)[0] == w[0];
  }

  lemma JunkBody(s: string, b: string)
    requires s != [] && Unsigned(s) == b && b != []
    requires DigitRun(b) < |b| && AllDigits(b[..DigitRun(b)]) && DecValue(b[..DigitRun(b)]) <= MaxUint64
    ensures ParseInt(s) == Failure(ErrSyntax)
  {
    assert !IsDigit(b[DigitRun(b)]);
  }

  /** The digit run of digits followed by a character that is not a digit is those digits. */
  lemma {:induction false} DigitRunOf(w: string, rest: string)
    requires AllDigits(w) && (rest == [] || !IsDigit(rest[0]))
    ensures DigitRun(w + rest) == |w|
    decreases |w|
  {
    if w == [] {
      assert w + rest == rest;
    } else {
      assert (w + rest)[0] == w[0] && (w + rest)[1..] == w[1..] + rest;
      DigitRunOf(w[1..], rest);
    }
  }

  /** ParseInt reads back exactly what FormatInt writes. */
  lemma ParseFormatInt(i: int)
    requires IsInt64(i)
    ensures ParseInt(FormatInt(i)) == Success(i)
  {
    var n: nat := if i < 0 then -i else i;
    DecValueOfNatToDec(n);
    var s := FormatInt(i);
    if i < 0 {
      assert Unsigned(s) == NatToDec(n);
    } else {
      assert Unsigned(s) == NatToDec(n) by { assert IsDigit(s[0]); }
    }
  }

  // ---------------------------------------------------------------- UTF-8

  /** The number of bytes UTF-8 encodes a character in. */
  function Utf8Width(c: char): (w: nat)
    ensures 1 <= w <= 4 && (w == 1 <==> c as int < 0x80)
  {
    if c as int < 0x80 then 1 else if c as int < 0x800 then 2 else if c as int < 0x1_0000 then 3 else 4
  }

  /** Go's len of a string: the number of bytes of its UTF-8 encoding. */
  function ByteLen(s: string): (n: nat)
    ensures n >= |s|
  {
    if s == [] then 0 else ByteLen(s[..|s| - 1]) + Utf8Width(s[|s| - 1])
  }

  predicate IsAscii(s: string) {
    forall i :: 0 <= i < |s| ==> s[i] as int < 0x80
  }

  /** An ASCII string has as many bytes as characters. */
  lemma {:induction false} AsciiByteLen(s: string)
    requires IsAscii(s)
    ensures ByteLen(s) == |s|
  {
    if s != [] {
      AsciiByteLen(s[..|s| - 1]);
    }
  }

  /** An optional sign followed by digits is ASCII. */
  lemma SignedDigitsAscii(s: string)
    requires s != [] && AllDigits(Unsigned(s))
    ensures IsAscii(s)
  {
    var body := Unsigned(s);
    if s[0] == '+' || s[0] == '-' {
      forall i | 1 <= i < |s| ensures s[i] as int < 0x80 {
        assert s[i] == body[i - 1] && IsDigit(body[i - 1]);
      }
    } else {
      assert s == body;
    }
  }

  /** Text ParseInt accepts is ASCII, so its length in bytes is its length in characters. */
  lemma DecimalByteLen(s: string)
    requires ParseInt(s).Success?
    ensures ByteLen(s) == |s|
  {
    SignedDigitsAscii(s);
    AsciiByteLen(s);
  }

  /** A string of digits in range parses to the number it denotes. */
  lemma ParseIntDigits(d: string)
    requires d != [] && AllDigits(d) && DecValue(d) <= MaxInt64
    ensures ParseInt(d) == Success(DecValue(d))
  {
    assert IsDigit(d[0]);
  }

  /** strconv.ParseBool */
  function ParseBool(s: string): (r: Result<bool, NumErrKind>)
    ensures r.Success? ==> r.value == (s in {"1", "t", "T", "TRUE", "true", "True"})
    ensures r.Failure? <==> s !in {"1", "t", "T", "TRUE", "true", "True", "0", "f", "F", "FALSE", "false", "False"}
  {
    if s in {"1", "t", "T", "TRUE", "true", "True"} then Success(true)
    else if s in {"0", "f", "F", "FALSE", "false", "False"} then Success(false)
    else Failure(ErrSyntax)
  }

  // ---------------------------------------------------------------- hex

  function HexDigit(d: nat): char
    requires d < 16
  {
    "0123456789abcdef"[d]
  }

  /** The value of a hex digit, either case, as encoding/hex's fromHexChar. */
  function HexValue(c: char): Option<nat> {
    if '0' <= c <= '9' then Some(c as int - '0' as int)
    else if 'a' <= c <= 'f' then Some(c as int - 'a' as int + 10)
    else if 'A' <= c <= 'F' then Some(c as int - 'A' as int + 10)
    else None
  }

  /** hex.EncodeToString: two lower-case digits per byte, high nibble first. */
  function HexEncode(b: seq<byte>): (s: string)
    ensures |s| == 2 * |b|
  {
    if b == [] then [] else [HexDigit(b[0] / 16), HexDigit(b[0] % 16)] + HexEncode(b[1..])
  }

  datatype HexErr = ErrLength | InvalidByte(c: char)

  /**
   * hex.DecodeString: pairs are read left to right and a bad character is
   * reported before an odd length is.
   */
  function HexDecode(s: string): (r: Result<seq<byte>, HexErr>)
    ensures r.Success? ==> 2 * |r.value| == |s|
  {
    if s == [] then Success([])
    else if HexValue(s[0]).None? then Failure(InvalidByte(s[0]))
    else if |s| == 1 then Failure(ErrLength)
    else if HexValue(s[1]).None? then Failure(InvalidByte(s[1]))
    else
      var hi := HexValue(s[0]).value;
      var lo := HexValue(s[1]).value;
      match HexDecode(s[2..])
      case Success(rest) => Success([hi * 16 + lo] + rest)
      case Failure(e) => Failure(e)
  }

  lemma HexDigitValue(d: nat)
    requires d < 16
    ensures HexValue(HexDigit(d)) == Some(d)
  {
  }

  /** Two valid digits in front decode to one byte in front of what the rest decodes to. */
  lemma HexDecodePair(hi: nat, lo: nat, rest: string)
    requires hi < 16 && lo < 16
    ensures HexDecode([HexDigit(hi), HexDigit(lo)] + rest) ==
      match HexDecode(rest)
      case Success(bs) => Success([hi * 16 + lo] + bs)
      case Failure(e) => Failure(e)
  {
    var s := [HexDigit(hi), HexDigit(lo)] + rest;
    HexDigitValue(hi);
    HexDigitValue(lo);
    assert s[0] == HexDigit(hi) && s[1] == HexDigit(lo) && s[2..] == rest;
  }

  /** Decoding what was encoded gives the bytes back. */
  lemma {:induction false} HexRoundTrip(b: seq<byte>)
    ensures HexDecode(HexEncode(b)) == Success(b)
  {
    if b != [] {
      var hi, lo := b[0] / 16, b[0] % 16;
      HexRoundTrip(b[1..]);
      HexDecodePair(hi, lo, HexEncode(b[1..]));
      assert hi * 16 + lo == b[0];
      assert [b[0]] + b[1..] == b;
    }
  }

  // ---------------------------------------------------------------- quote

  /** Whether strconv.Quote writes an ASCII character as it is. */
  predicate PrintableAscii(c: char) {
    ' ' <= c <= '~'
  }

  /**
   * The text strconv.Quote writes for one character: the quote and the
   * backslash behind a backslash, the seven C control escapes, any other
   * ASCII control character as \x and two lower-case hex digits. A
   * character beyond ASCII is written as it is.
   */
  function EscapeChar(c: char): (e: string)
    ensures 1 <= |e| <= 4
    ensures |e| == 1 <==> (PrintableAscii(c) && c != '"' && c != '\\') || c as int >= 0x80
    ensures |e| == 1 ==> e[0] == c
    ensures |e| > 1 ==> e[0] == '\\'
  {
    if c == '"' || c == '\\' then ['\\', c]
    else if PrintableAscii(c) || c as int >= 0x80 then [c]
    else if c as int == 7 then "\\a"
    else if c as int == 8 then "\\b"
    else if c as int == 12 then "\\f"
    else if c == '\n' then "\\n"
    else if c == '\r' then "\\r"
    else if c == '\t' then "\\t"
    else if c as int == 11 then "\\v"
    else "\\x" + [HexDigit(c as int / 16), HexDigit(c as int % 16)]
  }

  /** The characters of s, each escaped, without the surrounding quotes. */
  function EscapeBody(s: string): (t: string)
    ensures |t| >= |s|
  {
    if s == [] then [] else EscapeChar(s[0]) + EscapeBody(s[1..])
  }

  /** strconv.Quote: s between double quotes, escaped. */
  function Quote(s: string): (q: string)
    ensures |q| >= |s| + 2 && q[0] == '"' && q[|q| - 1] == '"'
  {
    "\"" + EscapeBody(s) + "\""
  }

  /** One character in front of what the rest decodes to. */
  function ConsOpt(c: char, rest: Option<string>): Option<string> {
    if rest.Some? then Some([c] + rest.value) else None
  }

  /**
   * The inverse of EscapeBody, as strconv.Unquote reads what lies between
   * the quotes: None for an unescaped quote or an escape it does not know.
   */
  function UnescapeBody(t: string): (r: Option<string>)
    ensures r.Some? ==> |r.value| <= |t|
  {
    if t == [] then Some([])
    else if t[0] == '"' then None
    else if t[0] != '\\' then ConsOpt(t[0], UnescapeBody(t[1..]))
    else if |t| < 2 then None
    else
      var e := t[1];
      if e == '"' || e == '\\' then ConsOpt(e, UnescapeBody(t[2..]))
      else if e == 'a' then ConsOpt(7 as char, UnescapeBody(t[2..]))
      else if e == 'b' then ConsOpt(8 as char, UnescapeBody(t[2..]))
      else if e == 'f' then ConsOpt(12 as char, UnescapeBody(t[2..]))
      else if e == 'n' then ConsOpt('\n', UnescapeBody(t[2..]))
      else if e == 'r' then ConsOpt('\r', UnescapeBody(t[2..]))
      else if e == 't' then ConsOpt('\t', UnescapeBody(t[2..]))
      else if e == 'v' then ConsOpt(11 as char, UnescapeBody(t[2..]))
      else if e == 'x' && |t| >= 4 && HexValue(t[2]).Some? && HexValue(t[3]).Some? then
        ConsOpt((HexValue(t[2]).value * 16 + HexValue(t[3]).value) as char, UnescapeBody(t[4..]))
      else None
  }

  /** strconv.Unquote for a double-quoted string. */
  function Unquote(q: string): (r: Option<string>)
    ensures r.Some? ==> |q| >= 2 && q[0] == '"' && q[|q| - 1] == '"'
  {
    if |q| >= 2 && q[0] == '"' && q[|q| - 1] == '"' then UnescapeBody(q[1..|q| - 1]) else None
  }

  /** An escaped character in front decodes to that character in front. */
  lemma UnescapeChar(c: char, rest: string)
    ensures UnescapeBody(EscapeChar(c) + rest) == ConsOpt(c, UnescapeBody(rest))
  {
    var e := EscapeChar(c);
    var t := e + rest;
    if |e| == 1 {
      assert t[0] == c && t[1..] == rest;
    } else if |e| == 2 {
      assert t[0] == '\\' && t[1] == e[1] && t[2..] == rest;
    } else {
      var hi, lo := c as int / 16, c as int % 16;
      HexDigitValue(hi);
      HexDigitValue(lo);
      assert t[0] == '\\' && t[1] == 'x' && t[2] == HexDigit(hi) && t[3] == HexDigit(lo);
      assert t[4..] == rest;
      assert (hi * 16 + lo) as char == c;
    }
  }

  /** Unquoting what was quoted gives the string back. */
  lemma {:induction false} UnquoteQuote(s: string)
    ensures Unquote(Quote(s)) == Some(s)
  {
    var q := Quote(s);
    assert q[1..|q| - 1] == EscapeBody(s);
    UnescapeRoundTrip(s);
  }

  lemma {:induction false} UnescapeRoundTrip(s: string)
    ensures UnescapeBody(EscapeBody(s)) == Some(s)
  {
    if s != [] {
      UnescapeRoundTrip(s[1..]);
      UnescapeChar(s[0], EscapeBody(s[1..]));
      assert [s[0]] + s[1..] == s;
    }
  }

  /** Escaping works character by character, so it distributes over concatenation. */
  lemma {:induction false} EscapeBodyAppend(x: string, y: string)
    ensures EscapeBody(x + y) == EscapeBody(x) + EscapeBody(y)
  {
    if x != [] {
      assert (x + y)[0] == x[0] && (x + y)[1..] == x[1..] + y;
      EscapeBodyAppend(x[1..], y);
      assert EscapeBody(x + y) == EscapeChar(x[0]) + (EscapeBody(x[1..]) + EscapeBody(y));
    } else {
      assert x + y == y;
    }
  }

  /** A quote between two plain strings is the one character that gets a backslash. */
  lemma QuoteEscapesQuote(a: string, b: string)
    requires forall i :: 0 <= i < |a| ==> PrintableAscii(a[i]) && a[i] != '"' && a[i] != '\\'
    requires forall i :: 0 <= i < |b| ==> PrintableAscii(b[i]) && b[i] != '"' && b[i] != '\\'
    ensures Quote(a + "\"" + b) == "\"" + a + "\\\"" + b + "\""
  {
    PlainBody(a);
    PlainBody(b);
    EscapeAroundQuote(a, b);
  }

  lemma EscapeAroundQuote(a: string, b: string)
    requires EscapeBody(a) == a && EscapeBody(b) == b
    ensures EscapeBody(a + "\"" + b) == a + "\\\"" + b
  {
    var q := "\"";
    assert a + q + b == a + (q + b);
    EscapeBodyAppend(a, q + b);
    EscapeBodyAppend(q, b);
    EscapeBodyOne('"');
    assert EscapeChar('"') == "\\\"";
    assert EscapeBody(a + q + b) == a + ("\\\"" + b);
  }

  lemma EscapeBodyOne(c: char)
    ensures EscapeBody([c]) == EscapeChar(c)
  {
    assert [c][1..] == [];
  }

  /** A string with nothing to escape is quoted as it is. */
  lemma {:induction false} QuotePlain(s: string)
    requires forall i :: 0 <= i < |s| ==> PrintableAscii(s[i]) && s[i] != '"' && s[i] != '\\'
    ensures Quote(s) == "\"" + s + "\""
  {
    PlainBody(s);
  }

  lemma {:induction false} PlainBody(s: string)
    requires forall i :: 0 <= i < |s| ==> PrintableAscii(s[i]) && s[i] != '"' && s[i] != '\\'
    ensures EscapeBody(s) == s
  {
    if s != [] {
      PlainBody(s[1..]);
      assert [s[0]] + s[1..] == s;
    }
  }

  // ---------------------------------------------------------------- split/join

  /** strings.Split(s, sep) (and bytes.Split) for a one-element separator. */
  function Split<T(==)>(s: seq<T>, sep: T): (parts: seq<seq<T>>)
    ensures |parts| >= 1
    ensures forall i :: 0 <= i < |parts| ==> sep !in parts[i]
  {
    if s == [] then [[]]
    else
      var rest := Split(s[1..], sep);
      if s[0] == sep then [[]] + rest else [[s[0]] + rest[0]] + rest[1..]
  }

  /** strings.Join(parts, sep) for a one-element separator. */
  function Join<T>(parts: seq<seq<T>>, sep: T): seq<T>
    requires |parts| >= 1
  {
    if |parts| == 1 then parts[0] else parts[0] + [sep] + Join(parts[1..], sep)
  }

  lemma {:induction false} JoinSplit<T>(s: seq<T>, sep: T)
    ensures Join(Split(s, sep), sep) == s
  {
    if s != [] {
      var rest := Split(s[1..], sep);
      JoinSplit(s[1..], sep);
      if s[0] != sep {
        var parts := Split(s, sep);
        if |rest| == 1 {
        } else {
          assert parts[1..] == rest[1..];
          assert Join(rest, sep) == rest[0] + [sep] + Join(rest[1..], sep);
        }
      }
    }
  }

  /** Joining one more part adds the separator and that part at the end. */
  lemma {:induction false} JoinSnoc<T>(parts: seq<seq<T>>, b: seq<T>, sep: T)
    requires |parts| >= 1
    ensures Join(parts + [b], sep) == Join(parts, sep) + [sep] + b
  {
    if |parts| > 1 {
      assert (parts + [b])[1..] == parts[1..] + [b];
      JoinSnoc(parts[1..], b, sep);
    } else {
      assert (parts + [b])[1..] == [b];
    }
  }

  /** Splitting a join of separator-free parts gives the parts back. */
  lemma {:induction false} SplitJoin<T>(parts: seq<seq<T>>, sep: T)
    requires |parts| >= 1
    requires forall i :: 0 <= i < |parts| ==> sep !in parts[i]
    ensures Split(Join(parts, sep), sep) == parts
  {
    if |parts| == 1 {
      SplitNoSep(parts[0], sep);
    } else {
      SplitJoin(parts[1..], sep);
      SplitPrefix(parts[0], sep, Join(parts[1..], sep));
    }
  }

  lemma {:induction false} SplitNoSep<T>(s: seq<T>, sep: T)
    requires sep !in s
    ensures Split(s, sep) == [s]
  {
    if s != [] {
      SplitNoSep(s[1..], sep);
      assert [s[0]] + s[1..] == s;
    }
  }

  lemma {:induction false} SplitPrefix<T>(a: seq<T>, sep: T, b: seq<T>)
    requires sep !in a
    ensures Split(a + [sep] + b, sep) == [a] + Split(b, sep)
  {
    if a == [] {
      assert (a + [sep] + b)[1..] == b;
    } else {
      SplitPrefix(a[1..], sep, b);
      assert (a + [sep] + b)[1..] == a[1..] + [sep] + b;
      assert [a[0]] + a[1..] == a;
    }
  }

  /** strings.LastIndex(s, string(c)): the last position of c, or -1. */
  function LastIndex(s: string, c: char): (i: int)
    ensures -1 <= i < |s|
    ensures i >= 0 ==> s[i] == c
    ensures forall j :: i < j < |s| ==> s[j] != c
    ensures i == -1 ==> c !in s
  {
    if s == [] then -1
    else if s[|s| - 1] == c then |s| - 1
    else LastIndex(s[..|s| - 1], c)
  }

  /** The last c of a + [c] + b is the one after a when b holds no c. */
  lemma {:induction false} LastIndexAfter(a: string, c: char, b: string)
    requires c !in b
    ensures LastIndex(a + [c] + b, c) == |a|
    decreases |b|
  {
    var s := a + [c] + b;
    if b != [] {
      var b' := b[..|b| - 1];
      assert s[..|s| - 1] == a + [c] + b';
      LastIndexAfter(a, c, b');
    }
  }

  /** bytes.IndexByte / strings.IndexByte: the first position of x, or -1. */
  function IndexOf<T(==)>(s: seq<T>, x: T): (i: int)
    ensures -1 <= i < |s|
    ensures i >= 0 ==> s[i] == x && x !in s[..i]
    ensures i == -1 ==> x !in s
  {
    if s == [] then -1
    else if s[0] == x then 0
    else var j := IndexOf(s[1..], x); if j == -1 then -1 else j + 1
  }

  /** strings.ReplaceAll(s, string(c), ""): every c removed. */
  function RemoveChar(s: string, c: char): (r: string)
    ensures c !in r
    ensures |r| <= |s|
  {
    if s == [] then [] else (if s[0] == c then [] else [s[0]]) + RemoveChar(s[1..], c)
  }

  lemma {:induction false} RemoveCharAbsent(s: string, c: char)
    requires c !in s
    ensures RemoveChar(s, c) == s
  {
    if s != [] { RemoveCharAbsent(s[1..], c); }
  }

  lemma {:induction false} RemoveCharConcat(a: string, b: string, c: char)
    ensures RemoveChar(a + b, c) == RemoveChar(a, c) + RemoveChar(b, c)
  {
    if a == [] {
      assert a + b == b;
    } else {
      var ab := a + b;
      assert ab[0] == a[0] && ab[1..] == a[1..] + b;
      RemoveCharConcat(a[1..], b, c);
      var h: string := if a[0] == c then [] else [a[0]];
      assert RemoveChar(ab, c) == h + RemoveChar(a[1..] + b, c);
      assert RemoveChar(a, c) == h + RemoveChar(a[1..], c);
    }
  }

  /** Removing the one c that separates two c-free strings joins them. */
  lemma RemoveCharJoin(a: string, c: char, b: string)
    requires c !in a && c !in b
    ensures RemoveChar(a + [c] + b, c) == a + b
  {
    assert RemoveChar([c], c) == [] by { assert [c][1..] == []; }
    RemoveCharConcat(a, [c], c);
    RemoveCharAbsent(a, c);
    assert RemoveChar(a + [c], c) == a;
    RemoveCharConcat(a + [c], b, c);
    RemoveCharAbsent(b, c);
  }

  /** ASCII lower-casing, the part of strings.ToLower the model keeps. */
  function ToLower(s: string): (r: string)
    ensures |r| == |s|
    ensures forall i :: 0 <= i < |s| ==> (if 'A' <= s[i] <= 'Z' then r[i] as int == s[i] as int + 32 else r[i] == s[i])
  {
    if s == [] then []
    else [if 'A' <= s[0] <= 'Z' then (s[0] as int + 32) as char else s[0]] + ToLower(s[1..])
  }

  /** strings.HasPrefix */
  predicate HasPrefix(s: string, p: string) {
    |p| <= |s| && s[..|p|] == p
  }

  /** strings.TrimPrefix */
  function TrimPrefix(s: string, p: string): (r: string)
    ensures HasPrefix(s, p) ==> p + r == s
    ensures !HasPrefix(s, p) ==> r == s
  {
    if HasPrefix(s, p) then s[|p|..] else s
  }
}
