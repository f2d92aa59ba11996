/** util/error.go: business errors that carry a numeric code. */
module UtilError {
  import opened Wrappers
  import opened Text
  import opened Go

  const ErrCodeUnknown: int := -1
  const ErrCodeOK: int := 0
  const ErrCodeNil: int := 1
  const ErrCodeInternal: int := 2
  const ErrCodeAssertFail: int := 3
  const ErrCodeIllegalArg: int := 4
  const ErrCodeIllegalState: int := 5
  const ErrCodeTypeCast: int := 6
  const ErrCodeForbidden: int := 7
  const ErrCodeTimeout: int := 8
  const ErrCodeTooOften: int := 9
  const ErrCodeLogout: int := 10
  const ErrCodeRedis: int := 100
  const ErrCodeDB: int := 200

  /** The message prefix that names the code, "(code)". */
  function CodePrefix(code: int): string {
    "(" + FormatInt(code) + ")"
  }

  /**
   * NewBizError(code, args...): `cause` is the leading error argument if any,
   * `text` what util.Sprintf makes of the remaining arguments.
   */
  function NewBizError(code: int, cause: Option<Error>, text: string): (r: BizError)
    ensures r.code == code && r.cause == cause
    ensures HasPrefix(r.msg, CodePrefix(code) + text)
    ensures cause.None? ==> r.msg == CodePrefix(code) + text
    ensures cause.Some? ==> r.msg == CodePrefix(code) + text + "->" + ErrorText(cause.value)
  {
    var msg := CodePrefix(code) + text;
    BizError(code, if cause.Some? then msg + "->" + ErrorText(cause.value) else msg, cause)
  }

  function NewNilError(cause: Option<Error>, text: string): (r: BizError)
    ensures r.code == ErrCodeNil && r.cause == cause
  { NewBizError(ErrCodeNil, cause, text) }

  function NewAssertFailError(cause: Option<Error>, text: string): (r: BizError)
    ensures r.code == ErrCodeAssertFail && r.cause == cause
  { NewBizError(ErrCodeAssertFail, cause, text) }

  function NewInternalError(cause: Option<Error>, text: string): (r: BizError)
    ensures r.code == ErrCodeInternal && r.cause == cause
  { NewBizError(ErrCodeInternal, cause, text) }

  function NewIllegalArgError(cause: Option<Error>, text: string): (r: BizError)
    ensures r.code == ErrCodeIllegalArg && r.cause == cause
  { NewBizError(ErrCodeIllegalArg, cause, text) }

  function NewIllegalStateError(cause: Option<Error>, text: string): (r: BizError)
    ensures r.code == ErrCodeIllegalState && r.cause == cause
  { NewBizError(ErrCodeIllegalState, cause, text) }

  function NewTypeCastError(cause: Option<Error>, text: string): (r: BizError)
    ensures r.code == ErrCodeTypeCast && r.cause == cause
  { NewBizError(ErrCodeTypeCast, cause, text) }

  function NewForbiddenError(cause: Option<Error>, text: string): (r: BizError)
    ensures r.code == ErrCodeForbidden && r.cause == cause
  { NewBizError(ErrCodeForbidden, cause, text) }

  function NewTooOftenError(cause: Option<Error>, text: string): (r: BizError)
    ensures r.code == ErrCodeTooOften && r.cause == cause
  { NewBizError(ErrCodeTooOften, cause, text) }

  function NewRedisError(cause: Option<Error>, text: string): (r: BizError)
    ensures r.code == ErrCodeRedis && r.cause == cause
  { NewBizError(ErrCodeRedis, cause, text) }

  function NewDBError(cause: Option<Error>, text: string): (r: BizError)
    ensures r.code == ErrCodeDB && r.cause == cause
  { NewBizError(ErrCodeDB, cause, text) }

  /** (*BizError).Error(), safe on a nil pointer. */
  function BizErrorText(e: Option<BizError>): (r: string)
    ensures e.None? ==> r == ""
  {
    if e.Some? then e.value.msg else ""
  }

  /** (*BizError).Code(), safe on a nil pointer. */
  function BizErrorCode(e: Option<BizError>): (r: int)
    ensures e.None? ==> r == ErrCodeOK
  {
    if e.Some? then e.value.code else ErrCodeOK
  }

  /** (*BizError).Unwrap(), safe on a nil pointer. */
  function BizErrorUnwrap(e: Option<BizError>): (r: Option<Error>)
    ensures e.None? ==> r.None?
  {
    if e.Some? then e.value.cause else None
  }

  /** AsBizError: the first *BizError on the chain of a possibly nil error. */
  function AsBizError(err: Option<Error>): (r: Option<Option<BizError>>)
    ensures err.None? ==> r.None?
    ensures err.Some? && err.value.Biz? ==> r == Some(err.value.biz)
  {
    if err.None? then None else AsBiz(err.value)
  }

  /** ToBizError: the BizError on the chain, or a fresh one that wraps the text. */
  function ToBizError(err: Option<Error>): (r: BizError)
    ensures err.None? ==> r.code == ErrCodeOK && r.cause.None?
  {
    match AsBizError(err)
    case Some(Some(e)) => e
    case _ =>
      if err.None? then NewBizError(ErrCodeOK, None, "")
      else NewBizError(ErrCodeUnknown, None, ErrorText(err.value))
  }

  function IsBizError(err: Option<Error>): (r: bool)
    ensures r <==> AsBizError(err).Some?
  {
    AsBizError(err).Some?
  }

  /** GetBizErrCode: OK for nil, the chain's code, otherwise Unknown. */
  function GetBizErrCode(err: Option<Error>): (r: int)
    ensures err.None? ==> r == ErrCodeOK
    ensures err.Some? && AsBizError(err).None? ==> r == ErrCodeUnknown
  {
    if err.None? then ErrCodeOK
    else match AsBizError(err)
      case Some(e) => BizErrorCode(e)
      case None => ErrCodeUnknown
  }

  /** HasErrCode: whether the chain's code equals code (nil counts as OK). */
  function HasErrCode(err: Option<Error>, code: int): (r: bool)
    ensures err.None? ==> (r <==> code == ErrCodeOK)
  {
    if err.None? then code == ErrCodeOK
    else match AsBizError(err)
      case Some(e) => BizErrorCode(e) == code
      case None => false
  }

  function HasErrCodeOK(err: Option<Error>): (r: bool)
    ensures r <==> HasErrCode(err, ErrCodeOK)
  { HasErrCode(err, ErrCodeOK) }

  function HasErrCodeNil(err: Option<Error>): (r: bool)
    ensures r <==> HasErrCode(err, ErrCodeNil)
  { HasErrCode(err, ErrCodeNil) }

  /** ToHttpStatus: the HTTP status for a business code. */
  function ToHttpStatus(code: int): (r: int)
    ensures r in {200, 400, 401, 403, 429, 500}
    ensures r == 200 <==> code == ErrCodeOK
    ensures r == 400 <==> code == ErrCodeIllegalArg
    ensures r == 401 <==> code == ErrCodeLogout
    ensures r == 403 <==> code == ErrCodeForbidden
    ensures r == 429 <==> code == ErrCodeTooOften
  {
    if code == ErrCodeIllegalArg then 400
    else if code == ErrCodeLogout then 401
    else if code == ErrCodeForbidden then 403
    else if code == ErrCodeTooOften then 429
    else if code == ErrCodeOK then 200
    else 500
  }

  /**
   * HasErrCode agrees with GetBizErrCode, except that an error with no
   * BizError on its chain has no code at all, not even Unknown.
   */
  lemma HasErrCodeMatchesGet(err: Option<Error>, code: int)
    ensures HasErrCode(err, code) <==> (GetBizErrCode(err) == code && (err.None? || IsBizError(err)))
  {
  }

  /**
   * ToBizError keeps the code GetBizErrCode reports, unless the chain holds a
   * nil *BizError: that reads as OK but is converted to a fresh Unknown error.
   */
  lemma ToBizErrorKeepsCode(err: Option<Error>)
    ensures AsBizError(err) != Some(None) ==> ToBizError(err).code == GetBizErrCode(err)
    ensures AsBizError(err) == Some(None) ==> GetBizErrCode(err) == ErrCodeOK && ToBizError(err).code == ErrCodeUnknown
  {
  }

  /** An error reached by wrapping a BizError still reports that BizError's code. */
  lemma {:induction false} WrappedBizCode(b: BizError, texts: seq<string>)
    ensures AsBiz(WrapAll(Biz(Some(b)), texts)) == Some(Some(b))
    ensures GetBizErrCode(Some(WrapAll(Biz(Some(b)), texts))) == b.code
    ensures ToBizError(Some(WrapAll(Biz(Some(b)), texts))) == b
  {
    if texts != [] {
      WrappedBizCode(b, texts[1..]);
    }
  }

  /** The error after wrapping e with fmt.Errorf("...%w") once per text, innermost first. */
  function WrapAll(e: Error, texts: seq<string>): Error {
    if texts == [] then e else Wrapped(texts[0], WrapAll(e, texts[1..]))
  }
}
