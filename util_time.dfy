/**
 * util/time.go: Unix timestamps as text, in seconds (10 digits) or
 * milliseconds (13 digits).
 */
module UtilTime {
  import opened Wrappers
  import opened Text
  import opened Go

  /** time.Time.Unix(): whole seconds since the epoch, rounded down. */
  function Unix(t: Instant): int {
    t / Second
  }

  /** util.FormatUnixTime: the Unix seconds in decimal, text strconv.ParseInt reads back. */
  function FormatUnixTime(t: Instant): (s: string)
    ensures IsInt64(Unix(t)) ==> ParseInt(s) == Success(Unix(t))
  {
    if IsInt64(Unix(t)) then ParseFormatInt(Unix(t)); FormatInt(Unix(t)) else FormatInt(Unix(t))
  }

  /**
   * util.TimeUnixMills: UnixNano divided by a million with Go's truncating
   * division, so it rounds toward zero before the epoch.
   */
  function TimeUnixMills(t: Instant): (ms: int)
    ensures t >= 0 ==> ms * Millisecond <= t < (ms + 1) * Millisecond
    ensures t < 0 ==> (ms - 1) * Millisecond < t <= ms * Millisecond
  {
    GoDiv(t, Millisecond)
  }

  /** The text ParseUnixTime reads a timestamp from, for the dynamic types it accepts. */
  function TimestampText(val: Value): (r: Option<string>)
    requires val.Uint64? ==> val.u < 0x1_0000_0000_0000_0000
    ensures r.Some? <==> val.Int? || val.Int64? || val.Uint64? || val.Str?
  {
    match val
    case Int(i) => Some(FormatInt(i))
    case Int64(i) => Some(FormatInt(i))
    case Uint64(u) => Some(FormatInt(Uint64ToInt64(u)))
    case Str(s) => Some(s)
    case _ => None
  }

  /**
   * util.ParseUnixTime. `show` renders a value as fmt's %v does. A text of
   * 13 bytes is read as milliseconds and one of 10 bytes as seconds; any
   * other length in bytes (Go's len), text that is not a decimal int64, or a
   * value of any other type is an error.
   */
  function ParseUnixTime(val: Value, show: Value -> string): (r: Result<Instant, Error>)
    requires val.Uint64? ==> val.u < 0x1_0000_0000_0000_0000
    ensures !(val.Int? || val.Int64? || val.Uint64? || val.Str?) ==> r.Failure?
    ensures r.Success? ==> TimestampText(val).Some?
    ensures TimestampText(val).Some? && ByteLen(TimestampText(val).value) !in {10, 13} ==>
      r == Failure(Plain("invalid unix timestamp '" + show(val) + "', it's length must be 10/13"))
    ensures r.Success? ==> |TimestampText(val).value| in {10, 13}
    ensures r.Success? ==> ParseInt(TimestampText(val).value).Success?
    ensures r.Success? && |TimestampText(val).value| == 13 ==>
      r.value == ParseInt(TimestampText(val).value).value * Millisecond
    ensures r.Success? && |TimestampText(val).value| == 10 ==>
      r.value == ParseInt(TimestampText(val).value).value * Second
  {
    match TimestampText(val)
    case None =>
      Failure(Plain("invalid unix timestamp data type '" + TypeName(val) + "(" + show(val) + ")'"))
    case Some(tss) =>
      var n := ByteLen(tss);
      if n != 10 && n != 13 then
        Failure(Plain("invalid unix timestamp '" + show(val) + "', it's length must be 10/13"))
      else
        match ParseInt(tss)
        case Failure(_) => Failure(Plain("invalid unix timestamp val '" + show(val) + "'"))
        case Success(ts) =>
          DecimalByteLen(tss);
          Success(if n == 13 then ts * Millisecond else ts * Second)
  }

  /** A 10-digit number of seconds converts to that many seconds. */
  lemma ParseSeconds(sec: int, show: Value -> string)
    requires 1_000_000_000 <= sec < 10_000_000_000
    ensures ParseUnixTime(Int64(sec), show) == Success(sec * Second)
    ensures ParseUnixTime(Int(sec), show) == Success(sec * Second)
    ensures ParseUnixTime(Str(FormatInt(sec)), show) == Success(sec * Second)
  {
    assert Pow10(9) == 1_000_000_000 && Pow10(10) == 10_000_000_000;
    NatToDecLength(sec, 10);
    ParseFormatInt(sec);
    DecimalByteLen(FormatInt(sec));
  }

  /** A 13-digit number of milliseconds converts to that many milliseconds. */
  lemma ParseMillis(ms: int, show: Value -> string)
    requires 1_000_000_000_000 <= ms < 10_000_000_000_000
    ensures ParseUnixTime(Int64(ms), show) == Success(ms * Millisecond)
    ensures ParseUnixTime(Str(FormatInt(ms)), show) == Success(ms * Millisecond)
  {
    assert Pow10(12) == 1_000_000_000_000 && Pow10(13) == 10_000_000_000_000 by {
      assert Pow10(10) == 10_000_000_000;
    }
    NatToDecLength(ms, 13);
    ParseFormatInt(ms);
    DecimalByteLen(FormatInt(ms));
  }

  /**
   * FormatUnixTime and ParseUnixTime round-trip an instant to the second
   * (for 10-digit second counts, September 2001 to November 2286).
   */
  lemma FormatParseUnixTime(t: Instant, show: Value -> string)
    requires 1_000_000_000 <= Unix(t) < 10_000_000_000
    ensures ParseUnixTime(Str(FormatUnixTime(t)), show).Success?
    ensures var r := ParseUnixTime(Str(FormatUnixTime(t)), show).value; r <= t < r + Second
  {
    ParseSeconds(Unix(t), show);
  }

  /**
   * TimeUnixMills and ParseUnixTime round-trip an instant to the millisecond
   * (for 13-digit millisecond counts).
   */
  lemma MillisParseUnixTime(t: Instant, show: Value -> string)
    requires 1_000_000_000_000 <= TimeUnixMills(t) < 10_000_000_000_000
    ensures ParseUnixTime(Int64(TimeUnixMills(t)), show).Success?
    ensures var r := ParseUnixTime(Int64(TimeUnixMills(t)), show).value; r <= t < r + Millisecond
  {
    ParseMillis(TimeUnixMills(t), show);
  }

  /** A sign counts toward the length: "-123456789" is ten bytes and accepted. */
  lemma ParseNegativeTenChars(show: Value -> string)
    ensures ParseUnixTime(Str(FormatInt(-123456789)), show) == Success(-123456789 * Second)
  {
    assert Pow10(8) == 100_000_000 && Pow10(9) == 1_000_000_000;
    NatToDecLength(123456789, 9);
    ParseFormatInt(-123456789);
    DecimalByteLen(FormatInt(-123456789));
  }

  /**
   * The length is counted in bytes: eight digits and a two-byte character
   * such as "12345678é" are nine characters but ten bytes, so they pass the
   * length test and fail as an unparsable value.
   */
  lemma NonAsciiCountsBytes(w: string, c: char, show: Value -> string)
    requires |w| == 8 && AllDigits(w) && 0x80 <= c as int < 0x800
    ensures ParseUnixTime(Str(w + [c]), show)
      == Failure(Plain("invalid unix timestamp val '" + show(Str(w + [c])) + "'"))
  {
    var s := w + [c];
    assert IsAscii(w) by { assert forall i :: 0 <= i < |w| ==> IsDigit(w[i]); }
    AsciiByteLen(w);
    assert s[..|s| - 1] == w;
    assert ByteLen(s) == 10;
    assert !AllDigits(Unsigned(s)) by {
      assert IsDigit(s[0]);
      assert !IsDigit(s[8]);
    }
  }
}
