/**
 * Go notions the utilities are written against: the dynamic `interface{}`
 * value, the `error` values the packages create and inspect, instants of
 * time, and gRPC status codes.
 */
module Go {
  import opened Wrappers
  import opened Text

  /** An instant as nanoseconds since the Unix epoch (time.Time). */
  type Instant = int

  /** A duration in nanoseconds (time.Duration). */
  type Duration = int

  /** Go's int64 (and int, which is 64 bits wide on the platforms the code targets). */
  newtype int64 = x: int | -0x8000_0000_0000_0000 <= x <= 0x7fff_ffff_ffff_ffff

  /** Go's int32. */
  newtype int32 = x: int | -0x8000_0000 <= x <= 0x7fff_ffff

  const Millisecond: Duration := 1_000_000
  const Second: Duration := 1_000_000_000
  const Minute: Duration := 60 * Second

  /** time.Time{}: 00:00:00 UTC on 1 January of year 1. */
  const ZeroTime: Instant := -62_135_596_800 * Second

  /** A value stored in an `interface{}`, tagged with its dynamic type. */
  datatype Value =
    | Nil
    | Bool(b: bool)
    | Int(i: int)        // Go int, 64 bits wide
    | Int8(i: int)
    | Int16(i: int)
    | Int32(i: int)
    | Int64(i: int)
    | Uint8(u: nat)       // byte
    | Uint64(u: nat)
    | Str(s: string)
    | Bytes(bs: seq<byte>)      // []byte
    | Time(t: Instant)
    | Slice(items: seq<Value>)  // any slice, seen element by element through reflection
    | ErrVal(e: Error)
    | Other(tag: string)        // any other dynamic type

  /**
   * The name fmt's %T verb prints. Slices other than []byte are seen as
   * []interface {}, and every error value as the interface type `error`.
   */
  function TypeName(v: Value): string {
    match v
    case Nil => "<nil>"
    case Bool(_) => "bool"
    case Int(_) => "int"
    case Int8(_) => "int8"
    case Int16(_) => "int16"
    case Int32(_) => "int32"
    case Int64(_) => "int64"
    case Uint8(_) => "uint8"
    case Uint64(_) => "uint64"
    case Str(_) => "string"
    case Bytes(_) => "[]uint8"
    case Time(_) => "time.Time"
    case Slice(_) => "[]interface {}"
    case ErrVal(_) => "error"
    case Other(tag) => tag
  }

  /**
   * Whether a value can key a Go map[interface{}]: hashing a slice,
   * []byte included, panics with "hash of unhashable type".
   */
  predicate Hashable(v: Value) {
    !v.Bytes? && !v.Slice?
  }

  /** *util.BizError: a business error code, its message and an optional cause. */
  datatype BizError = BizError(code: int, msg: string, cause: Option<Error>)

  /** *http.Error: an HTTP status, a business code, a message and an optional cause. */
  datatype HttpError = HttpError(status: int, code: int, msg: string, cause: Option<Error>)

  /** The non-nil `error` values the utilities create or inspect. */
  datatype Error =
    | Plain(text: string)                       // errors.New, fmt.Errorf without %w
    | Wrapped(text: string, inner: Error)       // fmt.Errorf with %w
    | Canceled                                  // context.Canceled
    | DeadlineExceeded                          // context.DeadlineExceeded
    | TypeCast                                  // async.TypeCastErr
    | KeyNotExist                               // store.ErrKeyNotExist
    | NumError(fn: string, num: string, kind: NumErrKind)  // *strconv.NumError
    | Biz(biz: Option<BizError>)                // a *util.BizError, None when the pointer is nil
    | Http(http: Option<HttpError>)             // a *http.Error, None when the pointer is nil
    | Status(code: nat, msg: string)            // a gRPC status error
    | Gin(bind: bool, err: Error)               // *gin.Error; bind when its type is ErrorTypeBind
    | FieldErrors(text: string)                 // validator.ValidationErrors
    | RuleErrors(entries: seq<Error>, text: string)  // validation.Errors, entries in iteration order
    | RuleError(ruleCode: string, text: string) // validation.Error

  /** The text of err.Error(). */
  function ErrorText(e: Error): string {
    match e
    case Plain(t) => t
    case Wrapped(t, _) => t
    case Canceled => "context canceled"
    case DeadlineExceeded => "context deadline exceeded"
    case TypeCast => "type cast err"
    case KeyNotExist => "key not exist"
    case NumError(fn, num, kind) =>
      "strconv." + fn + ": parsing " + Quote(num) + ": "
      + (if kind == ErrSyntax then "invalid syntax" else "value out of range")
    case Biz(b) => if b.Some? then b.value.msg else ""
    case Http(h) => if h.Some? then h.value.msg else ""
    case Status(c, m) => "rpc error: code = " + CodeString(c) + " desc = " + m
    case Gin(_, inner) => ErrorText(inner)
    case FieldErrors(t) => t
    case RuleErrors(_, t) => t
    case RuleError(_, t) => t
  }

  /** The text of an optional error, as fmt prints a nil error. */
  function OptErrorText(e: Option<Error>): string {
    if e.Some? then ErrorText(e.value) else "<nil>"
  }

  /** errors.Unwrap: the next error of the chain. */
  function Unwrap(e: Error): (r: Option<Error>)
    ensures r.Some? ==> r.value < e
  {
    match e
    case Wrapped(_, inner) => Some(inner)
    case Biz(b) => if b.Some? then b.value.cause else None
    case Http(h) => if h.Some? then h.value.cause else None
    case Gin(_, inner) => Some(inner)
    case _ => None
  }

  /**
   * errors.As(err, &target) with a *util.BizError target: the first BizError
   * on the chain, None when there is none; Some(None) for a nil pointer.
   */
  function AsBiz(e: Error): (r: Option<Option<BizError>>)
    ensures e.Biz? ==> r == Some(e.biz)
    decreases e
  {
    if e.Biz? then Some(e.biz)
    else match Unwrap(e)
      case None => None
      case Some(next) => AsBiz(next)
  }

  /** errors.As(err, &target) with a *http.Error target. */
  function AsHttp(e: Error): (r: Option<Option<HttpError>>)
    ensures e.Http? ==> r == Some(e.http)
    decreases e
  {
    if e.Http? then Some(e.http)
    else match Unwrap(e)
      case None => None
      case Some(next) => AsHttp(next)
  }

  // ------------------------------------------------------------ gRPC codes

  const CodeOK: nat := 0
  const CodeCanceled: nat := 1
  const CodeUnknown: nat := 2
  const CodeInvalidArgument: nat := 3
  const CodeDeadlineExceeded: nat := 4
  const CodeNotFound: nat := 5
  const CodeAlreadyExists: nat := 6
  const CodePermissionDenied: nat := 7
  const CodeResourceExhausted: nat := 8
  const CodeFailedPrecondition: nat := 9
  const CodeAborted: nat := 10
  const CodeOutOfRange: nat := 11
  const CodeUnimplemented: nat := 12
  const CodeInternal: nat := 13
  const CodeUnavailable: nat := 14
  const CodeDataLoss: nat := 15
  const CodeUnauthenticated: nat := 16

  /** codes.Code(i): the conversion of an int to the uint32 code type. */
  function ToCode(i: int): (c: nat)
    ensures c < 0x1_0000_0000
    ensures 0 <= i < 0x1_0000_0000 ==> c == i
  {
    i % 0x1_0000_0000
  }

  /** codes.Code.String() */
  function CodeString(c: nat): string {
    var names := ["OK", "Canceled", "Unknown", "InvalidArgument", "DeadlineExceeded",
      "NotFound", "AlreadyExists", "PermissionDenied", "ResourceExhausted",
      "FailedPrecondition", "Aborted", "OutOfRange", "Unimplemented", "Internal",
      "Unavailable", "DataLoss", "Unauthenticated"];
    if c < |names| then names[c] else "Code(" + FormatInt(c) + ")"
  }
}
