/** rpc/mw_logger.go: the log level chosen for a gRPC result code. */
module RpcMwLogger {
  import opened Go

  /** zapcore levels. */
  datatype Level = DebugLevel | InfoLevel | WarnLevel | ErrorLevel

  /** CodeToLogLevel: OK is debug, the client-side failures warn, the rest are errors. */
  function CodeToLogLevel(code: nat): (r: Level)
    ensures r == DebugLevel <==> code == CodeOK
    ensures r == WarnLevel <==> code in {CodeCanceled, CodeUnknown, CodeDeadlineExceeded}
    ensures r == ErrorLevel <==> code !in {CodeOK, CodeCanceled, CodeUnknown, CodeDeadlineExceeded}
    ensures r != InfoLevel
  {
    if code == CodeOK then DebugLevel
    else if code == CodeCanceled || code == CodeUnknown || code == CodeDeadlineExceeded then WarnLevel
    else ErrorLevel
  }
}
