/**
 * util.ToCent: an amount in yuan, written with optional thousands commas and
 * at most two significant fraction digits, converted to cents.
 */
module UtilCurrency {
  import opened Wrappers
  import opened Text
  import opened Go

  /**
   * The fraction after the last "." of v padded or cut to two digits: with no
   * point or nothing after it "00" is appended, one digit gets a "0", and
   * anything after the second digit is dropped.
   */
  function PadFraction(v: string): string {
    var idx := LastIndex(v, '.');
    var n := |v|;
    if n - idx - 1 == n || n - idx - 1 == 0 then v + "00"
    else if n - idx - 1 == 1 then v + "0"
    else v[..idx + 3]
  }

  /** The text ToCent hands to strconv.ParseInt: commas removed, fraction padded, points removed. */
  function CentDigits(amount: string): string {
    RemoveChar(PadFraction(RemoveChar(amount, ',')), '.')
  }

  /** The error ToCent reports: the amount, then strconv's own error, which it wraps. */
  function ParseAmountError(amount: string, val: string, kind: NumErrKind): Error {
    var cause := NumError("ParseInt", val, kind);
    Wrapped("parse amount '" + amount + "' err->" + ErrorText(cause), cause)
  }

  /** util.ToCent */
  function ToCent(amount: string): (r: Result<int, Error>)
    ensures r.Success? ==> IsInt64(r.value)
    ensures r.Failure? ==> r.error.Wrapped? && r.error.inner.NumError? && r.error.inner.num == CentDigits(amount)
  {
    var val := CentDigits(amount);
    match ParseInt(val)
    case Success(v) => Success(v)
    case Failure(kind) => Failure(ParseAmountError(amount, val, kind))
  }

  /** The cents the fraction digits f contribute: two digits at most, never rounded. */
  function FracCents(f: string): nat
    requires AllDigits(f)
  {
    if |f| == 0 then 0
    else if |f| == 1 then 10 * DecValue(f)
    else DecValue(f[..2])
  }

  lemma FracCentsBound(f: string)
    requires AllDigits(f)
    ensures FracCents(f) < 100
  {
    if |f| == 1 {
      DecValueBound(f);
      assert Pow10(1) == 10;
    } else if |f| >= 2 {
      DecValueBound(f[..2]);
      assert Pow10(2) == 100;
    }
  }

  /** The position of the one "." in w + "." + f is |w|. */
  lemma LastPoint(w: string, f: string)
    requires '.' !in f
    ensures LastIndex(w + "." + f, '.') == |w|
  {
    var v := w + "." + f;
    assert v[|w|] == '.' && v[|w| + 1..] == f;
  }

  lemma DigitsHaveNoMarks(s: string)
    requires AllDigits(s)
    ensures '.' !in s && ',' !in s
  {
    assert forall i :: 0 <= i < |s| ==> IsDigit(s[i]);
  }

  /** The digits a decimal amount w "." f is parsed from: w followed by two fraction digits. */
  function TwoFractionDigits(f: string): (x: string)
    requires AllDigits(f)
    ensures |x| == 2 && AllDigits(x)
  {
    if |f| == 0 then "00" else if |f| == 1 then f + "0" else f[..2]
  }

  lemma TwoFractionDigitsValue(f: string)
    requires AllDigits(f)
    ensures DecValue(TwoFractionDigits(f)) == FracCents(f)
  {
    var x := TwoFractionDigits(f);
    assert x[..1] == (if |f| == 0 then "0" else f[..1]);
    assert DecValue(x) == DecValue(x[..1]) * 10 + DigitValue(x[1]);
    assert "0"[..0] == [];
    if |f| >= 2 {
      assert x == f[..2];
    }
  }

  /**
   * With digits f after the last point of a comma-free q "." f, the parser
   * sees q without its points followed by f padded or cut to two digits.
   */
  lemma CentDigitsLastPoint(q: string, f: string)
    requires ',' !in q && AllDigits(f)
    ensures CentDigits(q + "." + f) == RemoveChar(q, '.') + TwoFractionDigits(f)
  {
    var amount := q + "." + f;
    var x := TwoFractionDigits(f);
    calc {
      CentDigits(amount);
      { DigitsHaveNoMarks(f);
        assert ',' !in amount;
        RemoveCharAbsent(amount, ','); }
      RemoveChar(PadFraction(amount), '.');
      { PadAfterLastPoint(q, f); }
      RemoveChar(q + ("." + x), '.');
      { RemoveCharConcat(q, "." + x, '.'); }
      RemoveChar(q, '.') + RemoveChar("." + x, '.');
      { DigitsHaveNoMarks(x);
        DropLeadingPoint(x); }
      RemoveChar(q, '.') + x;
    }
  }

  /** Removing the points from "." + x leaves x when x has none. */
  lemma DropLeadingPoint(x: string)
    requires '.' !in x
    ensures RemoveChar("." + x, '.') == x
  {
    var v := "." + x;
    assert v[0] == '.' && v[1..] == x;
    RemoveCharAbsent(x, '.');
  }

  lemma PadAfterLastPoint(q: string, f: string)
    requires AllDigits(f)
    ensures PadFraction(q + "." + f) == q + ("." + TwoFractionDigits(f))
  {
    var amount := q + "." + f;
    DigitsHaveNoMarks(f);
    LastPoint(q, f);
    var n, idx := |amount|, LastIndex(amount, '.');
    assert idx == |q| && n == |q| + 1 + |f|;
    assert n - idx - 1 == |f|;
    var x := TwoFractionDigits(f);
    if |f| == 0 {
      assert x == "00";
      assert amount + "00" == q + ("." + x);
    } else if |f| == 1 {
      assert x == f + "0";
      assert amount + "0" == q + ("." + x);
    } else {
      assert x == f[..2];
      assert amount[..idx + 3] == q + ("." + x);
    }
  }

  lemma CentDigitsDecimal(w: string, f: string)
    requires AllDigits(w) && AllDigits(f)
    ensures CentDigits(w + "." + f) == w + TwoFractionDigits(f)
  {
    DigitsHaveNoMarks(w);
    CentDigitsLastPoint(w, f);
    RemoveCharAbsent(w, '.');
  }

  /** When the digits handed to the parser are d, the amount is worth d cents. */
  lemma ToCentOfDigits(amount: string, d: string, v: int)
    requires CentDigits(amount) == d
    requires d != [] && AllDigits(d) && DecValue(d) == v <= MaxInt64
    ensures ToCent(amount) == Success(v)
  {
    ParseIntDigits(d);
  }

  /**
   * An amount of whole digits w, a point and fraction digits f is worth
   * 100 * w plus the first two fraction digits as cents: "12.3" is 1230,
   * "12.345" is 1234, "12." is 1200.
   */
  lemma ToCentDecimal(w: string, f: string)
    requires AllDigits(w) && AllDigits(f)
    requires 100 * DecValue(w) + 99 <= MaxInt64
    ensures ToCent(w + "." + f) == Success(100 * DecValue(w) + FracCents(f))
  {
    var d := DecimalCentDigits(w, f);
    ToCentOfDigits(w + "." + f, d, 100 * DecValue(w) + FracCents(f));
  }

  lemma DecimalCentDigits(w: string, f: string) returns (d: string)
    requires AllDigits(w) && AllDigits(f)
    requires 100 * DecValue(w) + 99 <= MaxInt64
    ensures CentDigits(w + "." + f) == d
    ensures d != [] && AllDigits(d) && DecValue(d) == 100 * DecValue(w) + FracCents(f) <= MaxInt64
  {
    d := w + TwoFractionDigits(f);
    DecimalValue(w, f);
    CentDigitsDecimal(w, f);
  }

  lemma DecimalValue(w: string, f: string)
    requires AllDigits(w) && AllDigits(f)
    ensures AllDigits(w + TwoFractionDigits(f))
    ensures DecValue(w + TwoFractionDigits(f)) == 100 * DecValue(w) + FracCents(f)
    ensures FracCents(f) < 100
  {
    var x := TwoFractionDigits(f);
    DecValueConcat(w, x);
    TwoFractionDigitsValue(f);
    FracCentsBound(f);
    assert Pow10(|x|) == 100 by { assert Pow10(2) == 100; }
  }

  lemma CentDigitsWhole(w: string)
    requires AllDigits(w)
    ensures CentDigits(w) == w + "00"
  {
    var d := w + "00";
    DigitsHaveNoMarks(w);
    RemoveCharAbsent(w, ',');
    assert PadFraction(w) == d;
    assert AllDigits(d);
    DigitsHaveNoMarks(d);
    RemoveCharAbsent(d, '.');
  }

  lemma WholeValue(w: string)
    requires AllDigits(w)
    ensures AllDigits(w + "00")
    ensures DecValue(w + "00") == 100 * DecValue(w)
  {
    var x := "00";
    assert AllDigits(x);
    DecValueConcat(w, x);
    assert DecValue(x) == 0 by { assert x[..1] == "0"; }
    assert Pow10(|x|) == 100 by { assert Pow10(2) == 100; }
  }

  /** An amount of plain digits is worth a hundred times its value ("100" is 10000). */
  lemma ToCentWhole(w: string)
    requires AllDigits(w)
    requires 100 * DecValue(w) <= MaxInt64
    ensures ToCent(w) == Success(100 * DecValue(w))
  {
    CentDigitsWhole(w);
    WholeValue(w);
    ToCentOfDigits(w, w + "00", DecValue(w + "00"));
  }

  /** Commas are ignored wherever they stand: "100,000" is worth what "100000" is. */
  lemma ToCentIgnoresCommas(amount: string)
    ensures CentDigits(amount) == CentDigits(RemoveChar(amount, ','))
    ensures ToCent(amount).Success? <==> ToCent(RemoveChar(amount, ',')).Success?
    ensures ToCent(amount).Success? ==> ToCent(amount) == ToCent(RemoveChar(amount, ','))
  {
    RemoveCharAbsent(RemoveChar(amount, ','), ',');
  }

  /** The empty amount is zero cents, not an error. */
  lemma ToCentEmpty()
    ensures ToCent("") == Success(0)
  {
    ToCentWhole("");
  }

  /**
   * Digits with thousands commas are worth a hundred times the digits with
   * the commas taken out: "100,000" is 10000000 cents.
   */
  lemma ToCentGrouped(a: string, b: string)
    requires AllDigits(a) && AllDigits(b)
    requires 100 * DecValue(a + b) <= MaxInt64
    ensures AllDigits(a + b)
    ensures ToCent(a + "," + b) == Success(100 * DecValue(a + b))
  {
    DigitsHaveNoMarks(a);
    DigitsHaveNoMarks(b);
    DecValueConcat(a, b);
    RemoveCharJoin(a, ',', b);
    ToCentIgnoresCommas(a + "," + b);
    ToCentWhole(a + b);
  }

  lemma CentDigitsSeveralPoints(p: string, w: string, f: string)
    requires AllDigits(p) && AllDigits(w) && AllDigits(f)
    ensures CentDigits(p + "." + w + "." + f) == p + w + TwoFractionDigits(f)
  {
    DigitsHaveNoMarks(p);
    DigitsHaveNoMarks(w);
    var q := p + "." + w;
    assert ',' !in q;
    CentDigitsLastPoint(q, f);
    RemoveCharJoin(p, '.', w);
  }

  /**
   * Only the last "." is the decimal point; earlier points are dropped and
   * their digits read as whole yuan: "1.2.3" is 1230 cents.
   */
  lemma ToCentSeveralPoints(p: string, w: string, f: string)
    requires AllDigits(p) && AllDigits(w) && AllDigits(f)
    requires 100 * DecValue(p + w) + 99 <= MaxInt64
    ensures AllDigits(p + w)
    ensures ToCent(p + "." + w + "." + f).Success?
    ensures ToCent(p + "." + w + "." + f).value == 100 * DecValue(p + w) + FracCents(f)
  {
    var wp := p + w;
    var a, b := p + "." + w + "." + f, wp + "." + f;
    assert AllDigits(wp) by { AllDigitsConcat(p, w); }
    assert CentDigits(a) == CentDigits(b) by {
      CentDigitsSeveralPoints(p, w, f);
      CentDigitsDecimal(wp, f);
    }
    assert ToCent(b) == Success(100 * DecValue(wp) + FracCents(f)) by {
      ToCentDecimal(wp, f);
    }
    SameDigitsSameCents(a, b);
  }

  /** ToCent's value depends on the amount only through the digits it hands to the parser. */
  lemma SameDigitsSameCents(a: string, b: string)
    requires CentDigits(a) == CentDigits(b)
    ensures ToCent(a).Success? <==> ToCent(b).Success?
    ensures ToCent(b).Success? ==> ToCent(a).value == ToCent(b).value
  {
  }

  /**
   * Whatever follows the second fraction digit is cut off unread, letters
   * included, so "1.23abc" is 123 cents.
   */
  lemma ToCentDropsTail(w: string, f: string, tail: string)
    requires AllDigits(w) && AllDigits(f) && |f| == 2
    requires '.' !in tail && ',' !in tail
    ensures CentDigits(w + "." + f + tail) == CentDigits(w + "." + f)
  {
    var amount := w + "." + f + tail;
    DigitsHaveNoMarks(w);
    DigitsHaveNoMarks(f);
    assert ',' !in amount;
    RemoveCharAbsent(amount, ',');
    assert amount == w + "." + (f + tail);
    LastPoint(w, f + tail);
    assert PadFraction(amount) == w + "." + f;
    RemoveCharJoin(w, '.', f);
    CentDigitsDecimal(w, f);
    assert TwoFractionDigits(f) == f;
  }

  /** A letter that reaches the parser makes the amount an error. */
  lemma ToCentRejectsLetter(w: string, c: char)
    requires AllDigits(w)
    requires !IsDigit(c) && c != ',' && c != '.' && c != '+' && c != '-'
    ensures ToCent(w + [c]).Failure?
  {
    var v := w + [c];
    DigitsHaveNoMarks(w);
    assert ',' !in v && '.' !in v;
    RemoveCharAbsent(v, ',');
    assert LastIndex(v, '.') == -1;
    var d := v + "00";
    assert '.' !in d;
    RemoveCharAbsent(d, '.');
    assert CentDigits(v) == d;
    assert d[|w|] == c;
    if d[0] == '+' || d[0] == '-' {
      assert false;
    }
    assert Unsigned(d) == d;
  }

  /** A quote after digits w within 2^64 - 1 makes the amount fail with a syntax error on the digits w + "\"00". */
  lemma ToCentQuoteFails(w: string)
    requires AllDigits(w) && DecValue(w) <= MaxUint64
    ensures ToCent(w + "\"") == Failure(ParseAmountError(w + "\"", w + "\"00", ErrSyntax))
  {
    var d := QuotedCentDigits(w);
    QuotedDigitsSyntax(w, d);
  }

  lemma QuotedDigitsSyntax(w: string, d: string)
    requires AllDigits(w) && DecValue(w) <= MaxUint64 && d == w + "\"00"
    ensures ParseInt(d) == Failure(ErrSyntax)
  {
    DigitRunOf(w, "\"00");
    assert d[..|w|] == w && d[|w|] == '"';
    if w != [] {
      assert d[0] == w[0];
    }
    JunkBody(d, d);
  }

  /** Digits w past 2^64 - 1 before the quote make a range error instead: strconv stops at the overflowing digit. */
  lemma ToCentQuoteOverflows(w: string)
    requires AllDigits(w) && DecValue(w) > MaxUint64
    ensures ToCent(w + "\"") == Failure(ParseAmountError(w + "\"", w + "\"00", ErrRange))
  {
    var d := QuotedCentDigits(w);
    ParseIntRangeBeforeJunk(w, "\"00");
  }

  /** The digits ToCent hands to the parser for digits w followed by a quote. */
  lemma QuotedCentDigits(w: string) returns (d: string)
    requires AllDigits(w)
    ensures d == w + "\"00" && CentDigits(w + "\"") == d
  {
    var v := w + "\"";
    d := v + "00";
    DigitsHaveNoMarks(w);
    assert ',' !in v && '.' !in v;
    RemoveCharAbsent(v, ',');
    assert LastIndex(v, '.') == -1;
    RemoveCharAbsent(d, '.');
    assert d == w + "\"00";
  }

  /**
   * The syntax error strconv.ParseInt gives for those digits, which ToCent's
   * own message ends with, shows them as strconv.Quote writes them: the
   * quote comes out behind a backslash.
   */
  lemma QuotedDigits(w: string) returns (q: string)
    requires AllDigits(w)
    ensures q == "\"" + w + "\\\"" + "00" + "\"" && Quote(w + "\"00") == q
  {
    assert forall i :: 0 <= i < |w| ==> PrintableAscii(w[i]) && w[i] != '"' && w[i] != '\\' by {
      assert forall i :: 0 <= i < |w| ==> IsDigit(w[i]);
    }
    QuoteEscapesQuote(w, "00");
    assert w + "\"" + "00" == w + "\"00";
    q := "\"" + w + "\\\"" + "00" + "\"";
  }

  lemma ToCentCauseQuoted(w: string)
    requires AllDigits(w)
    ensures ErrorText(NumError("ParseInt", w + "\"00", ErrSyntax)) ==
      "strconv.ParseInt: parsing " + "\"" + w + "\\\"00\"" + ": invalid syntax"
  {
    var q := QuotedDigits(w);
    assert "strconv." + "ParseInt" + ": parsing " == "strconv.ParseInt: parsing ";
    assert ": " + "invalid syntax" == ": invalid syntax";
    assert "\"" + w + "\\\"" + "00" + "\"" == "\"" + w + "\\\"00\"";
  }
}
