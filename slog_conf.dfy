/** slog/conf.go: logger configuration and its defaults. */
module SlogConf {
  const DefaultEncoding: string := "console"
  const DefaultLogFilePath: string := "./log/app.log"

  datatype Conf = Conf(
    debug: bool,
    level: int,
    encoding: string,
    writeToConsole: bool,
    writeToLogFile: bool,
    disableColor: bool,
    disableCaller: bool,
    enableShortCaller: bool,
    enableStackTrace: bool,
    callerSkip: int,
    logFilePath: string,
    logFileMaxSize: int,
    logFileMaxAge: int,
    logFileMaxBackups: int,
    compressLogFile: bool)

  /** Conf.Normalize: an empty encoding becomes console, an empty log path ./log/app.log. */
  function Normalize(c: Conf): (r: Conf)
    ensures r.encoding != "" && r.logFilePath != ""
    ensures c.encoding == "" ==> r.encoding == DefaultEncoding
    ensures c.logFilePath == "" ==> r.logFilePath == DefaultLogFilePath
    ensures c.encoding != "" ==> r.encoding == c.encoding
    ensures c.logFilePath != "" ==> r.logFilePath == c.logFilePath
    ensures r == c.(encoding := r.encoding, logFilePath := r.logFilePath)
  {
    var c1 := if c.encoding == "" then c.(encoding := DefaultEncoding) else c;
    if c1.logFilePath == "" then c1.(logFilePath := DefaultLogFilePath) else c1
  }

  /** Normalizing twice is normalizing once. */
  lemma NormalizeIdempotent(c: Conf)
    ensures Normalize(Normalize(c)) == Normalize(c)
  {
  }
}
