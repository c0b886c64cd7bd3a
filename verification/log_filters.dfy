/** `LogFilter`: decides whether a log line is printed. Only two kinds of
    line can be excluded: access logs and Datadog logs. */
module LogFilters {
  import opened Wrappers
  import opened RubyText
  import opened Values
  import opened Validation
  import opened Json

  datatype LogFilter = LogFilter(excludeAccessLogs: bool, excludeDdLogs: bool)

  const AccessLogsTag: string := "access-logs"
  const DdLogsTag: string := "dd-logs"

  /** `LogFilter.new`: both flags must be booleans, the access-log flag is
      checked first. */
  function New(excludeAccessLogs: Value, excludeDdLogs: Value): (r: Result<LogFilter>)
    ensures r.Success? <==> IsBoolean(excludeAccessLogs) && IsBoolean(excludeDdLogs)
    ensures r.Success? ==> r.value == LogFilter(excludeAccessLogs.b, excludeDdLogs.b)
    ensures !IsBoolean(excludeAccessLogs) ==>
      r == Failure("Invalid exclude_access_logs: " + ToS(excludeAccessLogs) + ".")
    ensures IsBoolean(excludeAccessLogs) && !IsBoolean(excludeDdLogs) ==>
      r == Failure("Invalid exclude_dd_logs: " + ToS(excludeDdLogs) + ".")
  {
    var check := AndThen(
      ValidateBoolean(excludeAccessLogs, "Invalid exclude_access_logs: " + ToS(excludeAccessLogs) + "."),
      ValidateBoolean(excludeDdLogs, "Invalid exclude_dd_logs: " + ToS(excludeDdLogs) + "."));
    if check.Fail? then Failure(check.error)
    else Success(LogFilter(excludeAccessLogs.b, excludeDdLogs.b))
  }

  /** `LogFilter.create`: each exclusion is switched on by its tag; other
      tags are ignored, and construction never fails. */
  function Create(exclude: seq<string>): (r: Result<LogFilter>)
    ensures r.Success?
    ensures r.value.excludeAccessLogs <==> AccessLogsTag in exclude
    ensures r.value.excludeDdLogs <==> DdLogsTag in exclude
  {
    New(Bool(AccessLogsTag in exclude), Bool(DdLogsTag in exclude))
  }

  /** `access_log?`: the line parses and carries an HTTP status field; a line
      that does not parse is not an access log. */
  predicate IsAccessLog(parse: Parser, log: string) {
    match parse(log)
    case None => false
    case Some(o) => "http.response.status_code" in o || "http_status" in o
  }

  /** `dd_log?`: the line mentions a Datadog tag. */
  predicate IsDdLog(log: string) {
    Contains(log, "[dd") || Contains(log, "[datadog]")
  }

  /** `test`: true when the line should be printed. */
  predicate Test(f: LogFilter, parse: Parser, log: string) {
    if f.excludeAccessLogs && IsAccessLog(parse, log) then false
    else if f.excludeDdLogs && IsDdLog(log) then false
    else true
  }

  /** A line is dropped exactly when an enabled exclusion recognises it. */
  lemma TestRejectsExactlyEnabledMatches(f: LogFilter, parse: Parser, log: string)
    ensures !Test(f, parse, log) <==>
      (f.excludeAccessLogs && IsAccessLog(parse, log)) || (f.excludeDdLogs && IsDdLog(log))
  {
  }

  /** With both exclusions off, every line is printed. */
  lemma NoExclusionAcceptsAll(parse: Parser, log: string)
    ensures Test(LogFilter(false, false), parse, log)
  {
  }

  /** Switching on more exclusions never lets through a line that was
      dropped before. */
  lemma MoreExclusionsRejectMore(f: LogFilter, g: LogFilter, parse: Parser, log: string)
    requires f.excludeAccessLogs ==> g.excludeAccessLogs
    requires f.excludeDdLogs ==> g.excludeDdLogs
    ensures Test(g, parse, log) ==> Test(f, parse, log)
  {
  }

  /** `dd_log?` holds exactly when one of the two tags occurs somewhere in
      the line. */
  lemma DdLogIffTagOccurs(log: string)
    ensures IsDdLog(log) <==> (exists i :: OccursAt(log, "[dd", i)) || (exists i :: OccursAt(log, "[datadog]", i))
  {
    ContainsIffOccurs(log, "[dd");
    ContainsIffOccurs(log, "[datadog]");
  }
}
