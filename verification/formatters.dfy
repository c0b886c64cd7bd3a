/** The formatters a pod reader passes each log line through: the identity
    (`NoOpFormatter`), the JSON prettifier (`JsonFormatter`) and the
    pod/container prefix (`PodMetadataFormatter`) wrapped around either. */
module Formatters {
  import opened Wrappers
  import opened RubyText
  import opened Validation
  import opened Json
  import Painter

  // ---------------------------------------------------------------------------
  // Badges shared by status codes and log levels
  // ---------------------------------------------------------------------------

  /** The three badges the JSON formatter draws. */
  datatype Severity = Info | Warn | Error

  function BadgeText(s: Severity): string {
    match s
    case Info => " I "
    case Warn => " W "
    case Error => " E "
  }

  function BadgeColour(s: Severity): string {
    match s
    case Info => Painter.HighlightBlueCode
    case Warn => Painter.HighlightYellowCode
    case Error => Painter.HighlightRedCode
  }

  /** The formatter's own `colorize`: Painter's colouring padded with one
      space on each side. */
  function Colorize(text: string, code: string): (r: string)
    ensures r == " " + [Painter.Escape] + "[" + code + "m" + text + [Painter.Escape] + "[0m "
  {
    " " + Painter.Colorize(text, code) + " "
  }

  function Badge(s: Severity): string {
    Colorize(BadgeText(s), BadgeColour(s))
  }

  /** Different severities draw different badges. */
  lemma BadgesDiffer(s: Severity, t: Severity)
    requires s != t
    ensures Badge(s) != Badge(t)
  {
    var bs := Badge(s);
    var bt := Badge(t);
    assert bs[9] != bt[9] || bs[12] != bt[12];
  }

  // ---------------------------------------------------------------------------
  // JsonFormatter
  // ---------------------------------------------------------------------------

  const StatusKey: string := "http.response.status_code"
  const LevelKey: string := "log.level"

  /** The badge a status code earns: informational for [200, 400), a warning
      for [400, 500), an error strictly above 500. Codes below 200, and 500
      itself, get none. */
  function StatusSeverity(code: real): Option<Severity> {
    if 200.0 <= code < 400.0 then Some(Info)
    else if 400.0 <= code < 500.0 then Some(Warn)
    else if code > 500.0 then Some(Error)
    else None
  }

  /** The values Ruby compares with Integers: Integers and Floats. */
  predicate IsNumber(v: JVal) {
    v.JInt? || v.JFloat?
  }

  function NumberValue(v: JVal): real
    requires IsNumber(v)
  {
    if v.JInt? then v.i as real else v.x
  }

  /** `http_status_code`: the badge and the bracketed code, or the bare code
      padded with spaces, the code written as interpolation writes it. An
      Integer or a Float is compared by value; any other status makes the
      comparison raise. */
  function StatusSegment(code: JVal): (r: Result<string>)
    ensures r.Success? <==> IsNumber(code)
    ensures IsNumber(code) && StatusSeverity(NumberValue(code)).Some? ==>
      r.value == Badge(StatusSeverity(NumberValue(code)).value) + "[" + Interpolate(code) + "] "
    ensures IsNumber(code) && StatusSeverity(NumberValue(code)).None? ==> r.value == " " + Interpolate(code) + " "
  {
    match code
    case JInt(c) => Success(NumberSegment(c as real, IntToString(c)))
    case JFloat(c, text) => Success(NumberSegment(c, text))
    case _ => Failure("comparison of the status code with Integer failed")
  }

  /** The three comparisons of `http_status_code` on a number `c` written
      as `text`. */
  function NumberSegment(c: real, text: string): string {
    if c >= 200.0 && c < 400.0 then Badge(Info) + "[" + text + "] "
    else if c >= 400.0 && c < 500.0 then Badge(Warn) + "[" + text + "] "
    else if c > 500.0 then Badge(Error) + "[" + text + "] "
    else " " + text + " "
  }

  /** A Float status is badged like the Integer of the same range: 404.0 is
      a warning, and 500.5, being above 500, an error. */
  lemma FloatStatusBadged()
    ensures StatusSegment(JFloat(404.0, "404.0")) == Success(Badge(Warn) + "[404.0] ")
    ensures StatusSegment(JFloat(500.5, "500.5")) == Success(Badge(Error) + "[500.5] ")
    ensures StatusSegment(JFloat(500.0, "500.0")) == Success(" 500.0 ")
  {
    assert Badge(Warn) + "[" + "404.0" + "] " == Badge(Warn) + "[404.0] ";
    assert Badge(Error) + "[" + "500.5" + "] " == Badge(Error) + "[500.5] ";
    assert " " + "500.0" + " " == " 500.0 ";
  }

  /** A String status, even one of digits, raises. */
  lemma StringStatusRaises()
    ensures StatusSegment(JStr("200")).Failure?
  {
  }

  /** The badge a log level earns. */
  function LevelSeverity(level: string): Option<Severity> {
    if level == "INFO" then Some(Info)
    else if level == "WARN" then Some(Warn)
    else if level == "ERROR" then Some(Error)
    else None
  }

  /** `log_level`: nothing for a missing or blank level, a badge for INFO,
      WARN and ERROR, the level itself padded with spaces otherwise. A level
      that is neither `nil` nor a String makes `strip` raise. */
  function LevelSegment(level: JVal): (r: Result<string>)
    ensures r.Success? <==> level.JNull? || level.JStr?
    ensures level.JNull? ==> r.value == ""
    ensures level.JStr? && Blank(level.s) ==> r.value == ""
    ensures level.JStr? && !Blank(level.s) && LevelSeverity(level.s).Some? ==>
      r.value == Badge(LevelSeverity(level.s).value)
    ensures level.JStr? && !Blank(level.s) && LevelSeverity(level.s).None? ==>
      r.value == " " + level.s + " "
  {
    match level
    case JNull => Success("")
    case JStr(s) =>
      StripEmptyIffBlank(s);
      if Strip(s) == "" then Success("")
      else if s == "INFO" then Success(Badge(Info))
      else if s == "WARN" then Success(Badge(Warn))
      else if s == "ERROR" then Success(Badge(Error))
      else Success(" " + s + " ")
    case _ => Failure("undefined method 'strip' for the log level")
  }

  /** `format_access_log`. */
  function FormatAccessLog(o: JObject): Result<string> {
    match StatusSegment(Get(o, StatusKey))
    case Failure(e) => Failure(e)
    case Success(status) =>
      Success(Field(o, "@timestamp") + status + Field(o, "http.request.method") + " " + Field(o, "url.path"))
  }

  /** `format_application_log`. */
  function FormatApplicationLog(o: JObject): Result<string> {
    match LevelSegment(Get(o, LevelKey))
    case Failure(e) => Failure(e)
    case Success(level) => Success(Field(o, "@timestamp") + level + Field(o, "message"))
  }

  /** `JsonFormatter#format`: a line that does not parse is passed through;
      an object with a status code uses the access-log layout, any other
      object the application-log layout. */
  function JsonFormat(parse: Parser, log: string): Result<string> {
    match parse(log)
    case None => Success(log)
    case Some(o) => if StatusKey in o then FormatAccessLog(o) else FormatApplicationLog(o)
  }

  /** Input that does not parse comes back unchanged. */
  lemma JsonPassesUnparsedThrough(parse: Parser, log: string)
    requires parse(log).None?
    ensures JsonFormat(parse, log) == Success(log)
  {
  }

  /** An access log with an Integer or Float status renders as timestamp,
      status segment, method, a space and the path. */
  lemma AccessLogLayout(parse: Parser, log: string)
    requires parse(log).Some? && IsNumber(Get(parse(log).value, StatusKey))
    ensures var o := parse(log).value;
      JsonFormat(parse, log) == Success(Field(o, "@timestamp") + StatusSegment(Get(o, StatusKey)).value
        + Field(o, "http.request.method") + " " + Field(o, "url.path"))
  {
  }

  /** An object without a status renders as timestamp, level segment and
      message, as long as its level is a String or absent. */
  lemma ApplicationLogLayout(parse: Parser, log: string)
    requires parse(log).Some? && StatusKey !in parse(log).value
    requires Get(parse(log).value, LevelKey).JNull? || Get(parse(log).value, LevelKey).JStr?
    ensures var o := parse(log).value;
      JsonFormat(parse, log) == Success(Field(o, "@timestamp") + LevelSegment(Get(o, LevelKey)).value + Field(o, "message"))
  {
  }

  /** Status 500 falls between the warning range and the "above 500" error
      range and is printed bare, like a code below 200. */
  lemma Status500IsBare()
    ensures StatusSegment(JInt(500)) == Success(" 500 ")
    ensures StatusSegment(JInt(199)) == Success(" 199 ")
  {
    DecimalExamples();
    assert StatusSegment(JInt(500)).value == " " + IntToString(500) + " ";
    assert " " + IntToString(500) + " " == " 500 ";
    assert StatusSegment(JInt(199)).value == " " + IntToString(199) + " ";
    assert " " + IntToString(199) + " " == " 199 ";
  }

  /** The blue badge, character for character. */
  lemma InfoBadgeText()
    ensures Badge(Info) == " \U{1B}[1;30;44m I \U{1B}[0m "
  {
    assert Painter.Open(Painter.HighlightBlueCode) == "\U{1B}[1;30;44m";
    assert Painter.Colorize(" I ", Painter.HighlightBlueCode) == "\U{1B}[1;30;44m" + " I " + "\U{1B}[0m";
  }

  lemma InfoLevelSegment()
    ensures LevelSegment(JStr("INFO")) == Success(Badge(Info))
  {
    assert !Blank("INFO") by { assert !IsStripSpace("INFO"[0]); }
  }

  /** The application log of the JSON formatter test, character for
      character: timestamp, blue " I " badge, message. */
  lemma ApplicationLogExample(parse: Parser, log: string)
    requires parse(log).Some? && StatusKey !in parse(log).value
    requires Get(parse(log).value, "@timestamp") == JStr("2024-11-09T19:42:55.088Z")
    requires Get(parse(log).value, LevelKey) == JStr("INFO")
    requires Get(parse(log).value, "message") == JStr("Time is 2024-11-09T19:42:55.088Z")
    ensures JsonFormat(parse, log) == Success(
      "2024-11-09T19:42:55.088Z" + " \U{1B}[1;30;44m I \U{1B}[0m " + "Time is 2024-11-09T19:42:55.088Z")
  {
    InfoLevelSegment();
    ApplicationLogLayout(parse, log);
    InfoBadgeText();
  }

  /** Status 200 earns the blue badge and "[200] ". */
  lemma Status200Segment()
    ensures StatusSegment(JInt(200)) == Success(" \U{1B}[1;30;44m I \U{1B}[0m " + "[200] ")
  {
    DecimalExamples();
    InfoBadgeText();
    assert StatusSegment(JInt(200)).value == Badge(Info) + "[" + IntToString(200) + "] ";
    assert "[" + "200" + "] " == "[200] ";
    assert Badge(Info) + "[" + "200" + "] " == Badge(Info) + ("[" + "200" + "] ");
  }

  /** The access log of the JSON formatter test, character for character:
      timestamp, blue " I " badge, bracketed status, method and path. */
  lemma AccessLogExample(parse: Parser, log: string)
    requires parse(log).Some? && Get(parse(log).value, StatusKey) == JInt(200)
    requires Get(parse(log).value, "@timestamp") == JStr("2024-11-09T19:42:55.088Z")
    requires Get(parse(log).value, "http.request.method") == JStr("GET")
    requires Get(parse(log).value, "url.path") == JStr("/foobar")
    ensures JsonFormat(parse, log) == Success(
      "2024-11-09T19:42:55.088Z" + " \U{1B}[1;30;44m I \U{1B}[0m " + "[200] " + "GET /foobar")
  {
    AccessLogLayout(parse, log);
    Status200Segment();
    var ts, badge, status := "2024-11-09T19:42:55.088Z", " \U{1B}[1;30;44m I \U{1B}[0m ", "[200] ";
    var request := "GET" + " " + "/foobar";
    assert JsonFormat(parse, log).value == ts + (badge + status) + "GET" + " " + "/foobar";
    assert ts + (badge + status) + "GET" + " " + "/foobar" == ts + badge + status + request;
    assert request == "GET /foobar";
  }

  /** The decimal renderings the examples rely on. */
  lemma DecimalExamples()
    ensures IntToString(200) == "200" && IntToString(500) == "500" && IntToString(199) == "199"
  {
    assert DigitChar(0) == '0' && DigitChar(1) == '1' && DigitChar(2) == '2';
    assert DigitChar(5) == '5' && DigitChar(9) == '9';
    assert NatToString(20) == NatToString(2) + [DigitChar(0)];
    assert NatToString(50) == NatToString(5) + [DigitChar(0)];
    assert NatToString(19) == NatToString(1) + [DigitChar(9)];
  }

  // ---------------------------------------------------------------------------
  // Formatter composition
  // ---------------------------------------------------------------------------

  /** A formatter: the identity, the JSON prettifier, or the pod/container
      prefix around another formatter. */
  datatype Formatter = NoOp | JsonPretty | PodMetadata(podName: string, containerName: string, inner: Formatter)

  /** The text `PodMetadataFormatter` puts in front of every line. */
  function Prefix(podName: string, containerName: string): string {
    podName + "/" + containerName + " | "
  }

  /** `format`, dispatched on the formatter. A failure is an exception that
      escapes the formatter. */
  function Format(f: Formatter, parse: Parser, log: string): Result<string> {
    match f
    case NoOp => Success(log)
    case JsonPretty => JsonFormat(parse, log)
    case PodMetadata(pod, container, inner) =>
      match Format(inner, parse, log)
      case Failure(e) => Failure(e)
      case Success(s) => Success(Prefix(pod, container) + s)
  }

  /** `NoOpFormatter#format` returns the line unchanged. */
  lemma NoOpIsIdentity(parse: Parser, log: string)
    ensures Format(NoOp, parse, log) == Success(log)
  {
  }

  /** Formatting twice with the identity is formatting once. */
  lemma NoOpIsIdempotent(parse: Parser, log: string)
    ensures Format(NoOp, parse, Format(NoOp, parse, log).value) == Format(NoOp, parse, log)
  {
  }

  /** The prefix formatter fails exactly when its inner formatter does, and
      otherwise its output is the prefix followed by the inner output, which
      dropping the prefix recovers. */
  lemma PodMetadataWraps(pod: string, container: string, inner: Formatter, parse: Parser, log: string)
    ensures var r := Format(PodMetadata(pod, container, inner), parse, log);
      var s := Format(inner, parse, log);
      && (r.Success? <==> s.Success?)
      && (r.Success? ==>
            StartsWith(r.value, Prefix(pod, container)) && r.value[|Prefix(pod, container)|..] == s.value)
      && (r.Failure? ==> r == s)
  {
    var r := Format(PodMetadata(pod, container, inner), parse, log);
    if r.Success? {
      assert r.value == Prefix(pod, container) + Format(inner, parse, log).value;
    }
  }

  /** The example of the prefix formatter test. */
  lemma PodMetadataExample(parse: Parser)
    ensures Format(PodMetadata("some-pod", "some-container", NoOp), parse, "some log")
      == Success("some-pod/some-container | some log")
  {
    assert Prefix("some-pod", "some-container") == "some-pod/some-container | ";
    var r := Format(PodMetadata("some-pod", "some-container", NoOp), parse, "some log");
    assert r.Success?;
    assert r.value == "some-pod/some-container | " + "some log";
    assert r.value == "some-pod/some-container | some log";
    assert r == Success("some-pod/some-container | some log");
  }

  /** `PodMetadataFormatter.new`: pod name, container name and inner
      formatter are checked in that order. */
  function NewPodMetadata(podName: Option<string>, containerName: Option<string>, inner: Option<Formatter>): (r: Result<Formatter>)
    ensures r.Success? <==>
      podName.Some? && !Blank(podName.value) && containerName.Some? && !Blank(containerName.value) && inner.Some?
    ensures r.Success? ==> r.value == PodMetadata(podName.value, containerName.value, inner.value)
    ensures (podName.None? || Blank(podName.value)) ==> r == Failure("Pod name not set.")
    ensures podName.Some? && !Blank(podName.value) && (containerName.None? || Blank(containerName.value)) ==>
      r == Failure("Container name not set.")
    ensures podName.Some? && !Blank(podName.value) && containerName.Some? && !Blank(containerName.value) && inner.None? ==>
      r == Failure("Formatter not set.")
  {
    var check := AndThen(RaiseIfBlank(podName, "Pod name not set."),
                 AndThen(RaiseIfBlank(containerName, "Container name not set."),
                         RaiseIfNil(inner, "Formatter not set.")));
    if check.Fail? then Failure(check.error)
    else Success(PodMetadata(podName.value, containerName.value, inner.value))
  }
}
