/** http/error.go: HTTP errors with a status, a business code and a message. */
module HttpErrors {
  import opened Wrappers
  import opened Go

  const ErrCodeOK: int := 0
  const StatusOK: int := 200
  const StatusBadRequest: int := 400
  const StatusInternalServerError: int := 500

  /**
   * NewError(status, code, args...): `cause` is the leading error argument if
   * any, `text` what util.Sprintf makes of the remaining arguments.
   */
  function NewError(status: int, code: int, cause: Option<Error>, text: string): (r: HttpError)
    ensures r.status == status && r.code == code && r.cause == cause
    ensures cause.None? ==> r.msg == text
    ensures cause.Some? ==> r.msg == text + "->" + ErrorText(cause.value)
  {
    HttpError(status, code, if cause.Some? then text + "->" + ErrorText(cause.value) else text, cause)
  }

  function New400Error(code: int, cause: Option<Error>, text: string): (r: HttpError)
    ensures r.status == StatusBadRequest && r.code == code && r.cause == cause
  {
    NewError(StatusBadRequest, code, cause, text)
  }

  function New500Error(code: int, cause: Option<Error>, text: string): (r: HttpError)
    ensures r.status == StatusInternalServerError && r.code == code && r.cause == cause
  {
    NewError(StatusInternalServerError, code, cause, text)
  }

  /** (*Error).Error(), safe on a nil pointer. */
  function ErrorOf(e: Option<HttpError>): (r: string)
    ensures e.None? ==> r == ""
  {
    if e.Some? then e.value.msg else ""
  }

  /** (*Error).Status(): a nil error is 200 OK. */
  function StatusOf(e: Option<HttpError>): (r: int)
    ensures e.None? ==> r == StatusOK
  {
    if e.Some? then e.value.status else StatusOK
  }

  /** (*Error).Code(): a nil error has code 0. */
  function CodeOf(e: Option<HttpError>): (r: int)
    ensures e.None? ==> r == ErrCodeOK
  {
    if e.Some? then e.value.code else ErrCodeOK
  }

  /** (*Error).Unwrap(), safe on a nil pointer. */
  function UnwrapOf(e: Option<HttpError>): (r: Option<Error>)
    ensures e.None? ==> r.None?
  {
    if e.Some? then e.value.cause else None
  }

  /** (*Error).OK(): nil, or status 200. */
  function OK(e: Option<HttpError>): (r: bool)
    ensures r <==> StatusOf(e) == StatusOK
  {
    e.None? || e.value.status == StatusOK
  }

  /** The JSON document: null, or an object with status, code and msg. */
  datatype Json = JNull | JObject(status: int, code: int, msg: string)

  /** MarshalJSON: nil is null; otherwise status, code and msg, without the cause. */
  function MarshalJSON(e: Option<HttpError>): (j: Json)
    ensures e.None? <==> j.JNull?
  {
    if e.None? then JNull else JObject(e.value.status, e.value.code, e.value.msg)
  }

  /**
   * UnmarshalJSON into an existing error: status, code and msg are replaced
   * by the document's (zero for null), the cause is kept.
   */
  function UnmarshalJSON(e: HttpError, j: Json): (r: HttpError)
    ensures r.cause == e.cause
  {
    match j
    case JNull => e.(status := 0, code := 0, msg := "")
    case JObject(s, c, m) => e.(status := s, code := c, msg := m)
  }

  /** Marshal then unmarshal carries status, code and message across; the cause stays behind. */
  lemma JsonRoundTrip(e: HttpError, target: HttpError)
    ensures UnmarshalJSON(target, MarshalJSON(Some(e))) == e.(cause := target.cause)
    ensures UnmarshalJSON(target, MarshalJSON(None)) == HttpError(0, 0, "", target.cause)
  {
  }

  /** AsError: the first *Error on the chain (Some(None) for a nil pointer). */
  function AsError(err: Option<Error>): (r: Option<Option<HttpError>>)
    ensures err.None? ==> r.None?
    ensures err.Some? && err.value.Http? ==> r == Some(err.value.http)
  {
    if err.None? then None else AsHttp(err.value)
  }

  function IsError(err: Option<Error>): (r: bool)
    ensures err.Some? && err.value.Http? ==> r
    ensures err.None? ==> !r
  {
    AsError(err).Some?
  }
}
