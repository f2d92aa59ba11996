/** http/mw_err_handler.go: turning the errors a request collected into one HTTP error. */
module HttpMwErrHandler {
  import opened Wrappers
  import opened Text
  import opened Go
  import UtilError
  import UString
  import opened HttpErrors

  /** How sendErrRsp answers: through the send hook, with the error as JSON, or with it under rspErrField. */
  datatype ErrRsp = ByHook | AsJson | UnderField(field: string)

  /** A *gin.Error as c.Errors holds it. */
  datatype GinError = GinError(bind: bool, err: Error) {
    function AsError(): Error { Gin(bind, err) }
  }

  class MWErrorHandler {
    var enableLog400Err: bool
    var enableParseHttpStatusFromErrCode: bool
    var rspErrField: string
    /** The ToHttpErr hook, as a function of the request's errors. */
    var toHttpErrHook: Option<seq<GinError> -> Option<HttpError>>
    var hasSendRspHook: bool

    /** NewMWErrorHandler: status parsing on, 400 logging off, no hooks. */
    constructor ()
      ensures enableParseHttpStatusFromErrCode && !enableLog400Err
      ensures rspErrField == "" && toHttpErrHook.None? && !hasSendRspHook
    {
      enableLog400Err := false;
      enableParseHttpStatusFromErrCode := true;
      rspErrField := "";
      toHttpErrHook := None;
      hasSendRspHook := false;
    }

    method EnableLog400Err(enable: bool) returns (h: MWErrorHandler)
      modifies this
      ensures h == this && enableLog400Err == enable
      ensures enableParseHttpStatusFromErrCode == old(enableParseHttpStatusFromErrCode)
      ensures rspErrField == old(rspErrField) && toHttpErrHook == old(toHttpErrHook) && hasSendRspHook == old(hasSendRspHook)
    {
      enableLog400Err := enable;
      h := this;
    }

    method EnableParseHttpStatusFromErrCode(enable: bool) returns (h: MWErrorHandler)
      modifies this
      ensures h == this && enableParseHttpStatusFromErrCode == enable
      ensures enableLog400Err == old(enableLog400Err)
      ensures rspErrField == old(rspErrField) && toHttpErrHook == old(toHttpErrHook) && hasSendRspHook == old(hasSendRspHook)
    {
      enableParseHttpStatusFromErrCode := enable;
      h := this;
    }

    method WithRspErrField(field: string) returns (h: MWErrorHandler)
      modifies this
      ensures h == this && rspErrField == field
      ensures enableLog400Err == old(enableLog400Err) && enableParseHttpStatusFromErrCode == old(enableParseHttpStatusFromErrCode)
      ensures toHttpErrHook == old(toHttpErrHook) && hasSendRspHook == old(hasSendRspHook)
    {
      rspErrField := field;
      h := this;
    }

    method WithSendRspHook(hook: bool) returns (h: MWErrorHandler)
      modifies this
      ensures h == this && hasSendRspHook == hook
      ensures enableLog400Err == old(enableLog400Err) && enableParseHttpStatusFromErrCode == old(enableParseHttpStatusFromErrCode)
      ensures rspErrField == old(rspErrField) && toHttpErrHook == old(toHttpErrHook)
    {
      hasSendRspHook := hook;
      h := this;
    }

    /**
     * sendErrRsp: nothing for a nil error; otherwise whether it is logged (a
     * status of 400 or less only when 400 logging is on) and how the answer
     * is sent: by the send hook when one is set, else as JSON, wrapped under
     * rspErrField unless that is blank.
     */
    function SendErrRsp(httpErr: Option<HttpError>): (r: Option<(bool, ErrRsp)>)
      reads this
      ensures r.None? <==> httpErr.None?
      ensures r.Some? ==> (r.value.0 <==> enableLog400Err || httpErr.value.status > 400)
      ensures r.Some? && hasSendRspHook ==> r.value.1 == ByHook
      ensures r.Some? && !hasSendRspHook && AllSpace(rspErrField) ==> r.value.1 == AsJson
      ensures r.Some? && !hasSendRspHook && !AllSpace(rspErrField) ==> r.value.1 == UnderField(rspErrField)
    {
      match httpErr
      case None => None
      case Some(e) =>
        var logged := enableLog400Err || e.status > 400;
        if hasSendRspHook then Some((logged, ByHook))
        else if UString.Empty(rspErrField) then Some((logged, AsJson))
        else Some((logged, UnderField(rspErrField)))
    }

    method WithToHttpErrHook(fn: Option<seq<GinError> -> Option<HttpError>>) returns (h: MWErrorHandler)
      modifies this
      ensures h == this && toHttpErrHook == fn
      ensures enableLog400Err == old(enableLog400Err) && enableParseHttpStatusFromErrCode == old(enableParseHttpStatusFromErrCode)
      ensures rspErrField == old(rspErrField) && hasSendRspHook == old(hasSendRspHook)
    {
      toHttpErrHook := fn;
      h := this;
    }

    /** IsValidationErr: a bind error, or a validation error from either validator. */
    function IsValidationErr(err: Error): (r: bool)
      ensures err.Gin? && err.bind ==> r
      ensures !err.Gin? ==> (r <==> (err.FieldErrors? || err.RuleErrors? || err.RuleError?))
    {
      if err.Gin? && err.bind then true
      else
        var e := if err.Gin? then err.err else err;
        e.FieldErrors? || e.RuleErrors? || e.RuleError?
    }

    /**
     * ToHttpErrCode: the numeric code of a (first) validation rule, else the
     * business code of the error's chain.
     */
    function ToHttpErrCode(err: Error): (r: int)
      ensures var e := if err.Gin? then err.err else err;
        !e.RuleErrors? && !e.RuleError? ==> r == UtilError.GetBizErrCode(Some(e))
      ensures var e := if err.Gin? then err.err else err;
        e.RuleError? ==> r == if ParseInt(e.ruleCode).Success? then ParseInt(e.ruleCode).value else UtilError.GetBizErrCode(Some(e))
      ensures var e := if err.Gin? then err.err else err;
        e.RuleErrors? && e.entries != [] && e.entries[0].RuleError? ==>
          r == if ParseInt(e.entries[0].ruleCode).Success? then ParseInt(e.entries[0].ruleCode).value
               else UtilError.GetBizErrCode(Some(e.entries[0]))
      ensures var e := if err.Gin? then err.err else err;
        e.RuleErrors? && e.entries != [] && !e.entries[0].RuleError? ==> r == UtilError.GetBizErrCode(Some(e.entries[0]))
      ensures var e := if err.Gin? then err.err else err;
        e.RuleErrors? && e.entries == [] ==> r == UtilError.GetBizErrCode(Some(e))
    {
      var e0 := if err.Gin? then err.err else err;
      var e := if e0.RuleErrors? && |e0.entries| > 0 then e0.entries[0] else e0;
      if e.RuleError? && ParseInt(e.ruleCode).Success? then ParseInt(e.ruleCode).value
      else UtilError.GetBizErrCode(Some(e))
    }

    /**
     * toHttpErrStatus: codes of four or more digits name their status in
     * their first three digits (when enabled); other codes use ToHttpStatus.
     */
    function ToHttpErrStatus(code: int): (r: int)
      reads this
      ensures !enableParseHttpStatusFromErrCode || code <= 999 ==> r == UtilError.ToHttpStatus(code)
      ensures code <= 999 ==> r in {200, 400, 401, 403, 429, 500}
      ensures !enableParseHttpStatusFromErrCode ==> (r == 200 <==> code == UtilError.ErrCodeOK)
    {
      if !enableParseHttpStatusFromErrCode || code <= 999 then UtilError.ToHttpStatus(code)
      else
        var d := NatToDec(code);
        var s := if |d| >= 3 then ParseInt(d[..3]) else Failure(ErrSyntax);
        if s.Success? then s.value else 0
    }

    /**
     * ToHttpErr: nothing when the request has no errors; the hook's answer if
     * one is set; the *Error on the last error's chain as is; otherwise a new
     * error, 400 for validation failures.
     */
    function ToHttpErr(errs: seq<GinError>): (r: Option<HttpError>)
      reads this
      ensures errs == [] ==> r.None?
      ensures errs != [] && toHttpErrHook.None? && !IsError(Some(errs[|errs| - 1].AsError())) ==>
        r.Some? && r.value.msg == ErrorText(errs[|errs| - 1].AsError()) && r.value.cause.None?
      ensures (errs != [] && toHttpErrHook.None? && !IsError(Some(errs[|errs| - 1].AsError()))
               && IsValidationErr(errs[|errs| - 1].AsError())) ==>
        r.value.status == StatusBadRequest && r.value.code == ToHttpErrCode(errs[|errs| - 1].AsError())
      ensures errs != [] && toHttpErrHook.Some? ==> r == toHttpErrHook.value(errs)
      ensures errs != [] && toHttpErrHook.None? && IsError(Some(errs[|errs| - 1].AsError())) ==>
        r == AsError(Some(errs[|errs| - 1].AsError())).value
      ensures (errs != [] && toHttpErrHook.None? && !IsError(Some(errs[|errs| - 1].AsError()))
               && !IsValidationErr(errs[|errs| - 1].AsError())) ==>
        var code := ToHttpErrCode(errs[|errs| - 1].AsError());
        r.value.status == ToHttpErrStatus(code) && r.value.code == code
    {
      if errs == [] then None
      else if toHttpErrHook.Some? then toHttpErrHook.value(errs)
      else
        var err := errs[|errs| - 1].AsError();
        match AsError(Some(err))
        case Some(e) => e
        case None =>
          var code := ToHttpErrCode(err);
          if IsValidationErr(err) then Some(New400Error(code, None, ErrorText(err)))
          else Some(NewError(ToHttpErrStatus(code), code, None, ErrorText(err)))
    }
  }

  /**
   * An *Error the request recorded, wrapped in its *gin.Error, is what
   * ToHttpErr answers, unchanged, when no hook is set.
   */
  lemma HttpErrorPassesThrough(h: MWErrorHandler, errs: seq<GinError>, bind: bool, e: Option<HttpError>)
    requires h.toHttpErrHook.None?
    ensures h.ToHttpErr(errs + [GinError(bind, Http(e))]) == e
  {
    var last := (errs + [GinError(bind, Http(e))])[|errs|];
    assert AsHttp(last.AsError()) == AsHttp(Http(e));
  }

  /**
   * A validation.Error whose code is a number, as the repository's HTTP test
   * gives one, sets the code of the 400 error, also when it is the first of
   * a validation.Errors.
   */
  lemma RuleCodeSetsCode(h: MWErrorHandler, errs: seq<GinError>, bind: bool, text: string, rest: seq<Error>, all: string)
    requires h.toHttpErrHook.None?
    ensures var r := h.ToHttpErr(errs + [GinError(bind, RuleError("400900", text))]);
      r.Some? && r.value.status == StatusBadRequest && r.value.code == 400900
    ensures var r := h.ToHttpErr(errs + [GinError(bind, RuleErrors([RuleError("400900", text)] + rest, all))]);
      r.Some? && r.value.status == StatusBadRequest && r.value.code == 400900
  {
    RuleCodeParses();
    var one := GinError(bind, RuleError("400900", text));
    assert (errs + [one])[|errs|] == one;
    assert AsHttp(one.AsError()) == AsHttp(RuleError("400900", text)) == None;
    assert h.IsValidationErr(one.AsError());
    assert h.ToHttpErrCode(one.AsError()) == 400900;
    var many := GinError(bind, RuleErrors([RuleError("400900", text)] + rest, all));
    assert (errs + [many])[|errs|] == many;
    assert AsHttp(many.AsError()) == AsHttp(many.err) == None;
    assert h.IsValidationErr(many.AsError());
    assert h.ToHttpErrCode(many.AsError()) == 400900;
  }

  /** The rule code the repository's HTTP test gives a validation rule, "400900", reads as 400900. */
  lemma RuleCodeParses()
    ensures ParseInt("400900") == Success(400900)
  {
    assert NatToDec(4) == "4";
    assert NatToDec(40) == "40";
    assert NatToDec(400) == "400";
    assert NatToDec(4009) == "4009";
    assert NatToDec(40090) == "40090";
    assert NatToDec(400900) == "400900";
    ParseFormatInt(400900);
  }

  /** One more digit at the end scales the bracket by ten. */
  lemma ScaleBracket(n: nat, p: int, w: int)
    requires w >= 1 && p * w <= n / 10 < (p + 1) * w
    ensures p * (10 * w) <= n < (p + 1) * (10 * w)
  {
    var m := n / 10;
    assert n == 10 * m + n % 10;
    var a, b := p * w, (p + 1) * w;
    assert p * (10 * w) == 10 * a;
    assert (p + 1) * (10 * w) == 10 * b;
    assert m + 1 <= b;
  }

  /**
   * The first three digits of a number of three or more digits, read as a
   * number p, bracket it: p * 10^(L-3) <= n < (p + 1) * 10^(L-3).
   */
  lemma {:induction false} LeadingDigits(n: nat)
    requires n >= 100
    ensures |NatToDec(n)| >= 3
    ensures var s := NatToDec(n); var p := DecValue(s[..3]); var w := Pow10(|s| - 3);
      p * w <= n < (p + 1) * w
    decreases n
  {
    if n < 1000 {
      ThreeDigits(n);
    } else {
      LeadingDigits(n / 10);
      LeadingDigitsStep(n);
    }
  }

  /** A number of three digits is its own three leading digits, with no scale. */
  lemma ThreeDigits(n: nat)
    requires 100 <= n < 1000
    ensures |NatToDec(n)| >= 3
    ensures var s := NatToDec(n); var p := DecValue(s[..3]); var w := Pow10(|s| - 3);
      p * w <= n < (p + 1) * w
  {
    var s := NatToDec(n);
    NatToDecMagnitude(n);
    if |s| < 3 {
      assert false;
    }
    if |s| > 3 {
      assert Pow10(|s| - 1) >= Pow10(3) by { PowMonotone(3, |s| - 1); }
      assert false;
    }
    DecValueOfNatToDec(n);
    assert s[..3] == s;
    assert Pow10(|s| - 3) == 1;
  }

  /** The bracket of n / 10 carries over to n: one more digit scales it by 10. */
  lemma LeadingDigitsStep(n: nat)
    requires n >= 1000
    requires |NatToDec(n / 10)| >= 3
    requires var t := NatToDec(n / 10); var p := DecValue(t[..3]); var w := Pow10(|t| - 3);
      p * w <= n / 10 < (p + 1) * w
    ensures |NatToDec(n)| >= 3
    ensures var s := NatToDec(n); var p := DecValue(s[..3]); var w := Pow10(|s| - 3);
      p * w <= n < (p + 1) * w
  {
    var s := NatToDec(n);
    var t := NatToDec(n / 10);
    assert s == t + [DigitChar(n % 10)];
    assert s[..3] == t[..3];
    var w := Pow10(|t| - 3);
    assert Pow10(|s| - 3) == 10 * w;
    ScaleBracket(n, DecValue(t[..3]), w);
  }

  /** The three leading digits name a number between 100 and 999, and ParseInt reads it. */
  lemma ParseLeadingDigits(n: nat)
    requires n > 999
    ensures |NatToDec(n)| >= 4
    ensures var s := NatToDec(n); var w := Pow10(|s| - 3);
      ParseInt(s[..3]) == Success(n / w) && 100 <= n / w <= 999
  {
    LeadingDigits(n);
    NatToDecMagnitude(n);
    var s := NatToDec(n);
    if |s| < 4 {
      assert false;
    }
    var p := DecValue(s[..3]);
    var w := Pow10(|s| - 3);
    DivUnique(n, w, p);
    assert Pow10(|s| - 1) == 100 * w;
    assert Pow10(|s|) == 1000 * w;
    assert p >= 100 by {
      if p < 100 { MulLe(p + 1, 100, w); }
    }
    assert p <= 999 by {
      if p > 999 { MulLe(1000, p, w); }
    }
    var v := s[..3];
    assert IsDigit(v[0]);
    assert Unsigned(v) == v;
  }

  /** A code of four or more digits yields the status its first three digits spell. */
  lemma StatusFromLeadingDigits(h: MWErrorHandler, code: int)
    requires h.enableParseHttpStatusFromErrCode && code > 999
    ensures |NatToDec(code)| >= 4
    ensures h.ToHttpErrStatus(code) == code / Pow10(|NatToDec(code)| - 3)
    ensures 100 <= h.ToHttpErrStatus(code) <= 999
  {
    ParseLeadingDigits(code);
  }

  /** The two codes of the validation test: 400901 answers 400, 902 answers 500. */
  lemma StatusOfTestCodes(h: MWErrorHandler)
    requires h.enableParseHttpStatusFromErrCode
    ensures h.ToHttpErrStatus(400901) == 400
    ensures h.ToHttpErrStatus(902) == 500
  {
    StatusFromLeadingDigits(h, 400901);
    assert NatToDec(400901) == "400901";
  }
}
