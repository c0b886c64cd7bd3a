/** `Reader::K8sPodReader`: prints the logs of one container of one pod,
    either its recent history or, when following, the live stream from the
    point where the history ends. The Kubernetes API is a parameter: the
    answers to the successive history requests and the lines of the watch
    stream are given to the model. */
module PodReader {
  import opened Wrappers
  import opened RubyText
  import opened Values
  import opened Validation
  import opened Json
  import opened Formatters
  import LogFilters
  import K8sOptions

  // ---------------------------------------------------------------------------
  // Construction
  // ---------------------------------------------------------------------------

  /** A validated reader with the formatter and the filter derived from its
      options. */
  datatype PodReader = PodReader(
    podName: string,
    containerName: string,
    opts: K8sOptions.K8sOpts,
    formatter: Formatter,
    filter: LogFilters.LogFilter)

  /** `create_formatter`: the identity in raw mode and the JSON prettifier
      otherwise, wrapped in the pod/container prefix when names are shown. */
  function CreateFormatter(opts: K8sOptions.K8sOpts, podName: string, containerName: string): (r: Formatter)
    ensures r.PodMetadata? <==> opts.displayNames
    ensures r.PodMetadata? ==> r.podName == podName && r.containerName == containerName
    ensures var base := if r.PodMetadata? then r.inner else r;
      (base == NoOp <==> opts.raw) && (base == JsonPretty <==> !opts.raw)
  {
    var base := if opts.raw then NoOp else JsonPretty;
    if opts.displayNames then PodMetadata(podName, containerName, base) else base
  }

  /** In raw mode without names every line comes out unchanged; with names
      every line that formats comes out behind the pod/container prefix. */
  lemma FormatterOfOptions(opts: K8sOptions.K8sOpts, podName: string, containerName: string, parse: Parser, log: string)
    ensures var r := Format(CreateFormatter(opts, podName, containerName), parse, log);
      && (opts.raw && !opts.displayNames ==> r == Success(log))
      && (opts.raw && opts.displayNames ==> r == Success(Prefix(podName, containerName) + log))
      && (!opts.raw && !opts.displayNames ==> r == JsonFormat(parse, log))
      && (opts.displayNames && r.Success? ==> StartsWith(r.value, Prefix(podName, containerName)))
  {
    var f := CreateFormatter(opts, podName, containerName);
    if opts.displayNames {
      PodMetadataWraps(podName, containerName, f.inner, parse, log);
    }
  }

  /** The list-valued readers that `K8sOpts` defines; sending any other name
      raises `NoMethodError`. */
  function ListAttribute(opts: K8sOptions.K8sOpts, name: string): (r: Result<seq<string>>)
    ensures r.Success? <==> name == "excludes" || name == "mdcs"
    ensures name == "excludes" ==> r == Success(opts.excludes)
    ensures name == "mdcs" ==> r == Success(opts.mdcs)
  {
    if name == "excludes" then Success(opts.excludes)
    else if name == "mdcs" then Success(opts.mdcs)
    else Failure("undefined method '" + name + "' for an instance of Kubetailrb::K8sOpts")
  }

  /** `validate`: pod name, container name, then options. */
  function Check(podName: Option<string>, containerName: Option<string>, opts: Option<K8sOptions.K8sOpts>): (r: Outcome)
    ensures r == Pass <==> podName.Some? && !Blank(podName.value) && containerName.Some? && !Blank(containerName.value) && opts.Some?
  {
    AndThen(RaiseIfBlank(podName, "Pod name not set."),
    AndThen(RaiseIfBlank(containerName, "Container name not set."),
            RaiseIfNil(opts, "Opts not set.")))
  }

  /** The constructor, reading the exclusion tags through the reader called
      `excludeReader`. */
  function Build(podName: Option<string>, containerName: Option<string>, opts: Option<K8sOptions.K8sOpts>,
                 excludeReader: string): Result<PodReader>
  {
    var check := Check(podName, containerName, opts);
    if check.Fail? then Failure(check.error)
    else
      var formatter := CreateFormatter(opts.value, podName.value, containerName.value);
      match ListAttribute(opts.value, excludeReader)
      case Failure(e) => Failure(e)
      case Success(tags) => Success(PodReader(podName.value, containerName.value, opts.value, formatter,
                                              LogFilters.Create(tags).value))
  }

  /** `K8sPodReader.new` as written: the filter is built from `opts.exclude`,
      a reader `K8sOpts` does not define. */
  function NewAsWritten(podName: Option<string>, containerName: Option<string>, opts: Option<K8sOptions.K8sOpts>): Result<PodReader> {
    Build(podName, containerName, opts, "exclude")
  }

  /** As written, no arguments build a reader: the ones that pass validation
      reach the undefined `exclude` and raise. */
  lemma NewAsWrittenNeverSucceeds(podName: Option<string>, containerName: Option<string>, opts: Option<K8sOptions.K8sOpts>)
    ensures NewAsWritten(podName, containerName, opts).Failure?
    ensures Check(podName, containerName, opts) == Pass ==>
      NewAsWritten(podName, containerName, opts)
        == Failure("undefined method '" + "exclude" + "' for an instance of Kubetailrb::K8sOpts")
  {
  }

  /** `K8sPodReader.new` as intended: validation in the order pod name,
      container name, options; the filter excludes exactly the kinds tagged
      in `opts.excludes`. */
  function New(podName: Option<string>, containerName: Option<string>, opts: Option<K8sOptions.K8sOpts>): (r: Result<PodReader>)
    ensures r.Success? <==>
      podName.Some? && !Blank(podName.value) && containerName.Some? && !Blank(containerName.value) && opts.Some?
    ensures (podName.None? || Blank(podName.value)) ==> r == Failure("Pod name not set.")
    ensures podName.Some? && !Blank(podName.value) && (containerName.None? || Blank(containerName.value)) ==>
      r == Failure("Container name not set.")
    ensures podName.Some? && !Blank(podName.value) && containerName.Some? && !Blank(containerName.value) && opts.None? ==>
      r == Failure("Opts not set.")
    ensures r.Success? ==>
      && r.value.podName == podName.value && r.value.containerName == containerName.value
      && r.value.opts == opts.value
      && r.value.formatter == CreateFormatter(opts.value, podName.value, containerName.value)
      && (r.value.filter.excludeAccessLogs <==> LogFilters.AccessLogsTag in opts.value.excludes)
      && (r.value.filter.excludeDdLogs <==> LogFilters.DdLogsTag in opts.value.excludes)
  {
    Build(podName, containerName, opts, "excludes")
  }

  // ---------------------------------------------------------------------------
  // Printing
  // ---------------------------------------------------------------------------

  /** What a run writes to standard output, and the message of the
      exception that ended it early, if any. */
  datatype Run = Run(out: string, crash: Option<string>)

  const Quiet: Run := Run("", None)

  /** Runs `a` then `b`; an exception in `a` stops everything. */
  function Then(a: Run, b: Run): (r: Run)
    ensures a.crash.Some? ==> r == a
    ensures a.crash.None? ==> r.out == a.out + b.out && r.crash == b.crash
  {
    if a.crash.Some? then a else Run(a.out + b.out, b.crash)
  }

  /** The history is what `get_pod_log` returns; after 120 failed attempts
      the retry loop returns the Integer 120 instead. */
  datatype Logs = Text(s: string) | RetryCount(n: int)

  /** The base case of `print_logs`: a single line is printed, formatted,
      when the filter keeps it. */
  function PrintLine(reader: PodReader, parse: Parser, line: string): (r: Run)
    ensures !LogFilters.Test(reader.filter, parse, line) ==> r == Quiet
    ensures LogFilters.Test(reader.filter, parse, line) ==>
      match Format(reader.formatter, parse, line)
      case Success(t) => r == Run(Puts(t), None)
      case Failure(e) => r == Run("", Some(e))
  {
    if !LogFilters.Test(reader.filter, parse, line) then Quiet
    else match Format(reader.formatter, parse, line)
      case Success(t) => Run(Puts(t), None)
      case Failure(e) => Run("", Some(e))
  }

  /** The lines `print_logs` handles one by one: the fragments of `split`
      when the text holds a line feed, else the text itself. */
  function Fragments(s: string): (r: seq<string>)
    ensures forall k :: 0 <= k < |r| ==> '\n' !in r[k]
    ensures '\n' !in s ==> r == [s]
  {
    SplitHasNoNewline(s);
    if '\n' in s then Split(s) else [s]
  }

  /** Prints each line in turn, stopping at the first exception. */
  function PrintLines(reader: PodReader, parse: Parser, lines: seq<string>): Run
    decreases |lines|
  {
    if |lines| == 0 then Quiet
    else Then(PrintLine(reader, parse, lines[0]), PrintLines(reader, parse, lines[1..]))
  }

  /** The two exception messages raised when an Integer reaches code that
      expects a String. */
  const IntegerNotString: string := "no implicit conversion of Integer into String"
  const IntegerHasNoInclude: string := "undefined method 'include?' for an instance of Integer"

  /** `format` applied to an Integer: the identity returns it, the prefix
      formatter interpolates it, the JSON formatter cannot parse it. */
  function FormatCount(f: Formatter, n: int): (r: Result<string>)
    ensures r.Success? <==> (f == NoOp || (f.PodMetadata? && FormatCount(f.inner, n).Success?))
  {
    match f
    case NoOp => Success(IntToString(n))
    case JsonPretty => Failure(IntegerNotString)
    case PodMetadata(pod, container, inner) =>
      match FormatCount(inner, n)
      case Failure(e) => Failure(e)
      case Success(s) => Success(Prefix(pod, container) + s)
  }

  /** `test` applied to an Integer: either enabled exclusion raises. */
  function TestCount(f: LogFilters.LogFilter): (r: Outcome)
    ensures r == Pass <==> !f.excludeAccessLogs && !f.excludeDdLogs
  {
    if f.excludeAccessLogs then Fail(IntegerNotString)
    else if f.excludeDdLogs then Fail(IntegerHasNoInclude)
    else Pass
  }

  /** `print_logs`: a text with line feeds is printed fragment by fragment,
      anything else as one line. */
  function PrintLogs(reader: PodReader, parse: Parser, logs: Logs): Run {
    match logs
    case Text(s) => PrintLines(reader, parse, Fragments(s))
    case RetryCount(n) =>
      match TestCount(reader.filter)
      case Fail(e) => Run("", Some(e))
      case Pass =>
        match FormatCount(reader.formatter, n)
        case Success(t) => Run(Puts(t), None)
        case Failure(e) => Run("", Some(e))
  }

  /** A reader that keeps every line and does not format prints each
      line-feed-free line followed by a line feed: the lines joined back. */
  lemma {:induction false} PlainLinesAreJoined(reader: PodReader, parse: Parser, lines: seq<string>)
    requires reader.formatter == NoOp && reader.filter == LogFilters.LogFilter(false, false)
    requires |lines| > 0 && forall k :: 0 <= k < |lines| ==> '\n' !in lines[k]
    ensures PrintLines(reader, parse, lines) == Run(JoinLines(lines) + "\n", None)
    decreases |lines|
  {
    var x := lines[0];
    PlainLineIsPut(reader, parse, x);
    if |lines| > 1 {
      var rest := JoinLines(lines[1..]);
      PlainLinesAreJoined(reader, parse, lines[1..]);
      assert PrintLines(reader, parse, lines) == Then(Run(x + "\n", None), Run(rest + "\n", None));
      assert x + "\n" + (rest + "\n") == x + "\n" + rest + "\n";
    }
  }

  /** Such a reader puts a line-feed-free line as it is. */
  lemma PlainLineIsPut(reader: PodReader, parse: Parser, x: string)
    requires reader.formatter == NoOp && reader.filter == LogFilters.LogFilter(false, false)
    requires '\n' !in x
    ensures PrintLine(reader, parse, x) == Run(x + "\n", None)
  {
    assert |x| > 0 ==> x[|x| - 1] in x;
    assert Puts(x) == x + "\n";
    assert LogFilters.Test(reader.filter, parse, x);
    assert Format(reader.formatter, parse, x) == Success(x);
  }

  /** Raw mode without names and without exclusions prints a history whose
      lines each end with a line feed (and which has no trailing blank line)
      exactly as received. */
  lemma RawHistoryIsVerbatim(reader: PodReader, parse: Parser, s: string)
    requires reader.formatter == NoOp && reader.filter == LogFilters.LogFilter(false, false)
    requires |s| >= 2 && s[|s| - 1] == '\n' && s[|s| - 2] != '\n'
    ensures PrintLogs(reader, parse, Text(s)) == Run(s, None)
  {
    assert s[|s| - 1] in s;
    assert Fragments(s) == Split(s);
    SplitOfTerminated(s);
    FieldsHaveNoNewline(s[..|s| - 1]);
    assert |Split(s)| > 0;
    PlainLinesAreJoined(reader, parse, Split(s));
    assert PrintLines(reader, parse, Split(s)) == Run(s, None);
  }

  /** A line the filter drops prints nothing, whatever the formatter. */
  lemma DroppedLinePrintsNothing(reader: PodReader, parse: Parser, line: string)
    requires '\n' !in line && !LogFilters.Test(reader.filter, parse, line)
    ensures PrintLogs(reader, parse, Text(line)) == Quiet
  {
    assert Fragments(line) == [line];
    assert PrintLines(reader, parse, [line]) == Then(Quiet, Quiet);
  }

  // ---------------------------------------------------------------------------
  // Fetching the history
  // ---------------------------------------------------------------------------

  /** One answer of `get_pod_log`: an HTTP error or a body. */
  datatype Response = HttpError(message: string) | Body(text: string)

  const MaxAttempts: nat := 120

  /** A text with a character other than a line feed. */
  predicate HasContent(s: string)
    decreases |s|
  {
    |s| > 0 && (s[0] != '\n' || HasContent(s[1..]))
  }

  lemma {:induction false} HasContentIffSomeNonNewline(s: string)
    ensures HasContent(s) <==> exists i :: 0 <= i < |s| && s[i] != '\n'
    decreases |s|
  {
    if |s| > 0 {
      HasContentIffSomeNonNewline(s[1..]);
      if exists i :: 0 <= i < |s| && s[i] != '\n' {
        var i :| 0 <= i < |s| && s[i] != '\n';
        if i > 0 {
          assert s[1..][i - 1] == s[i];
        }
      }
      if exists i :: 0 <= i < |s[1..]| && s[1..][i] != '\n' {
        var i :| 0 <= i < |s[1..]| && s[1..][i] != '\n';
        assert s[i + 1] == s[1..][i];
      }
    }
  }

  /** An answer the retry loop accepts: a body whose `split("\n")` is not
      empty. */
  predicate Ready(resp: Response) {
    resp.Body? && HasContent(resp.text)
  }

  lemma ReadyIffSplitNonEmpty(resp: Response)
    ensures Ready(resp) <==> resp.Body? && Split(resp.text) != []
  {
    if resp.Body? {
      HasContentIffSomeNonNewline(resp.text);
      SplitEmptyIffAllNewlines(resp.text);
    }
  }

  /** What is printed for a failed attempt. */
  function Complaint(resp: Response, podName: string, containerName: string): string {
    match resp
    case HttpError(m) => m
    case Body(_) => "No log returned from " + podName + "/" + containerName
  }

  /** What `read_pod_logs` returns from attempt `from` on: the first ready
      body, or the count once all 120 attempts have failed. */
  function History(responses: nat -> Response, from: nat): (r: Logs)
    requires from <= MaxAttempts
    ensures r.RetryCount? ==> r == RetryCount(120)
    ensures from < MaxAttempts && Ready(responses(from)) ==> r == Text(responses(from).text)
    decreases MaxAttempts - from
  {
    if from == MaxAttempts then RetryCount(120)
    else if Ready(responses(from)) then Text(responses(from).text)
    else History(responses, from + 1)
  }

  /** What `read_pod_logs` prints from attempt `from` on, one `puts` per
      message: the complaint of every failed attempt, in order. */
  function Complaints(podName: string, containerName: string, responses: nat -> Response, from: nat): (r: seq<string>)
    requires from <= MaxAttempts
    ensures from < MaxAttempts && Ready(responses(from)) ==> r == []
    ensures |r| <= MaxAttempts - from
    decreases MaxAttempts - from
  {
    if from == MaxAttempts || Ready(responses(from)) then []
    else [Complaint(responses(from), podName, containerName)] + Complaints(podName, containerName, responses, from + 1)
  }

  /** The first attempt from `from` on whose answer is ready, or 120 when
      there is none. */
  function FirstReady(responses: nat -> Response, from: nat): (r: nat)
    requires from <= MaxAttempts
    ensures from <= r <= MaxAttempts
    decreases MaxAttempts - from
  {
    if from == MaxAttempts || Ready(responses(from)) then from else FirstReady(responses, from + 1)
  }

  /** `FirstReady` is the first ready attempt: every earlier one failed. */
  lemma {:induction false} FirstReadyIsFirst(responses: nat -> Response, from: nat)
    requires from <= MaxAttempts
    ensures var stop := FirstReady(responses, from);
      (stop == MaxAttempts || Ready(responses(stop))) && forall j :: from <= j < stop ==> !Ready(responses(j))
    decreases MaxAttempts - from
  {
    if from < MaxAttempts && !Ready(responses(from)) {
      FirstReadyIsFirst(responses, from + 1);
    }
  }

  /** One message is printed per failed attempt before the first ready
      answer, or per attempt when none is ready. */
  lemma {:induction false} ComplaintsCount(podName: string, containerName: string, responses: nat -> Response, from: nat)
    requires from <= MaxAttempts
    ensures |Complaints(podName, containerName, responses, from)| == FirstReady(responses, from) - from
    decreases MaxAttempts - from
  {
    if from < MaxAttempts && !Ready(responses(from)) {
      ComplaintsCount(podName, containerName, responses, from + 1);
    }
  }

  /** The `k`-th message printed is the complaint of attempt `from + k`: the
      HTTP error's message, or "No log returned from pod/container". */
  lemma {:induction false} ComplaintsAt(podName: string, containerName: string, responses: nat -> Response, from: nat, k: nat)
    requires from <= MaxAttempts && from + k < FirstReady(responses, from)
    ensures |Complaints(podName, containerName, responses, from)| > k
    ensures Complaints(podName, containerName, responses, from)[k] == Complaint(responses(from + k), podName, containerName)
    decreases k
  {
    assert from < MaxAttempts && !Ready(responses(from));
    var rest := Complaints(podName, containerName, responses, from + 1);
    assert Complaints(podName, containerName, responses, from)
      == [Complaint(responses(from), podName, containerName)] + rest;
    if k > 0 {
      assert FirstReady(responses, from + 1) == FirstReady(responses, from);
      ComplaintsAt(podName, containerName, responses, from + 1, k - 1);
    }
  }

  /** The count comes back exactly when no answer is ready. */
  lemma {:induction false} HistoryExhaustedIffNoneReady(responses: nat -> Response, from: nat)
    requires from <= MaxAttempts
    ensures History(responses, from).RetryCount? <==> forall i :: from <= i < MaxAttempts ==> !Ready(responses(i))
    decreases MaxAttempts - from
  {
    if from < MaxAttempts && !Ready(responses(from)) {
      HistoryExhaustedIffNoneReady(responses, from + 1);
      if forall i :: from + 1 <= i < MaxAttempts ==> !Ready(responses(i)) {
        forall i | from <= i < MaxAttempts ensures !Ready(responses(i)) {
          if i > from {
            assert from + 1 <= i;
          }
        }
      }
    }
  }

  /** Otherwise the history is the body of the first ready answer. */
  lemma {:induction false} HistoryIsFirstReady(responses: nat -> Response, from: nat) returns (i: nat)
    requires from <= MaxAttempts && History(responses, from).Text?
    ensures from <= i < MaxAttempts && Ready(responses(i))
    ensures responses(i) == Body(History(responses, from).s)
    ensures forall j :: from <= j < i ==> !Ready(responses(j))
    decreases MaxAttempts - from
  {
    if Ready(responses(from)) {
      i := from;
    } else {
      i := HistoryIsFirstReady(responses, from + 1);
    }
  }

  // ---------------------------------------------------------------------------
  // Following
  // ---------------------------------------------------------------------------

  /** `pod_logs.to_s.split("\n").first`: the first history line, which marks
      where the live stream starts to be printed. */
  function FirstLog(logs: Logs): (r: Option<string>)
    ensures logs.Text? && Split(logs.s) != [] ==> r == Some(Split(logs.s)[0])
    ensures logs.Text? && Split(logs.s) == [] ==> r == None
    ensures logs.RetryCount? ==> r == Some(IntToString(logs.n))
  {
    match logs
    case Text(s) => if Split(s) == [] then None else Some(Split(s)[0])
    case RetryCount(n) => Some(IntToString(n))
  }

  /** Prints each stream line with `print_logs`, stopping at the first
      exception. */
  function PrintStream(reader: PodReader, parse: Parser, stream: seq<string>): Run
    decreases |stream|
  {
    if |stream| == 0 then Quiet
    else Then(PrintLogs(reader, parse, Text(stream[0])), PrintStream(reader, parse, stream[1..]))
  }

  /** The block given to `watch_pod_log`: the flag turns on at the first line
      equal to the marker and stays on; lines are printed while it is on. */
  function Stitch(reader: PodReader, parse: Parser, marker: Option<string>, on: bool, stream: seq<string>): Run
    decreases |stream|
  {
    if |stream| == 0 then Quiet
    else
      var on' := on || Some(stream[0]) == marker;
      Then(if on' then PrintLogs(reader, parse, Text(stream[0])) else Quiet,
           Stitch(reader, parse, marker, on', stream[1..]))
  }

  /** The position of the first occurrence of `x`. */
  function FirstIndex(xs: seq<string>, x: string): (r: nat)
    requires x in xs
    ensures r < |xs| && xs[r] == x && forall j :: 0 <= j < r ==> xs[j] != x
  {
    if xs[0] == x then 0 else 1 + FirstIndex(xs[1..], x)
  }

  /** Once the flag is on, every line is printed. */
  lemma {:induction false} StitchOnPrintsAll(reader: PodReader, parse: Parser, marker: Option<string>, stream: seq<string>)
    ensures Stitch(reader, parse, marker, true, stream) == PrintStream(reader, parse, stream)
    decreases |stream|
  {
    if |stream| > 0 {
      StitchOnPrintsAll(reader, parse, marker, stream[1..]);
    }
  }

  /** Following prints the stream from the first line equal to the marker
      on, and nothing when no line is. */
  lemma {:induction false} StitchFromMarker(reader: PodReader, parse: Parser, marker: Option<string>, stream: seq<string>)
    ensures marker.Some? && marker.value in stream ==>
      Stitch(reader, parse, marker, false, stream) == PrintStream(reader, parse, stream[FirstIndex(stream, marker.value)..])
    ensures !(marker.Some? && marker.value in stream) ==> Stitch(reader, parse, marker, false, stream) == Quiet
    decreases |stream|
  {
    if |stream| > 0 {
      if Some(stream[0]) == marker {
        StitchOnPrintsAll(reader, parse, marker, stream[1..]);
        assert stream[0..] == stream;
      } else {
        StitchFromMarker(reader, parse, marker, stream[1..]);
        if marker.Some? && marker.value in stream {
          assert marker.value in stream[1..];
          assert FirstIndex(stream, marker.value) == 1 + FirstIndex(stream[1..], marker.value);
          assert stream[1..][FirstIndex(stream[1..], marker.value)..] == stream[FirstIndex(stream, marker.value)..];
        }
      }
    }
  }

  // ---------------------------------------------------------------------------
  // read
  // ---------------------------------------------------------------------------

  /** `read`: fetch the history, then either print it, or follow the stream
      starting at the first history line. */
  function Read(reader: PodReader, parse: Parser, responses: nat -> Response, stream: seq<string>): Run {
    var said := PutsAll(Complaints(reader.podName, reader.containerName, responses, 0));
    var logs := History(responses, 0);
    Then(Run(said, None),
         if !reader.opts.follow then PrintLogs(reader, parse, logs)
         else Stitch(reader, parse, FirstLog(logs), false, stream))
  }

  /** Without following, a history ready on the first attempt is printed
      and nothing else is. */
  lemma ReadHistory(reader: PodReader, parse: Parser, responses: nat -> Response, stream: seq<string>)
    requires !reader.opts.follow && Ready(responses(0))
    ensures Read(reader, parse, responses, stream) == PrintLogs(reader, parse, Text(responses(0).text))
  {
    var r := PrintLogs(reader, parse, Text(responses(0).text));
    assert "" + r.out == r.out;
  }

  /** When following, the complaints of the failed attempts are printed,
      then the history itself is not: the stream is, from the first line
      equal to the first history line on. After 120 failed attempts that
      line is "120", the text of the count. */
  lemma ReadFollowing(reader: PodReader, parse: Parser, responses: nat -> Response, stream: seq<string>)
    requires reader.opts.follow
    ensures var said := PutsAll(Complaints(reader.podName, reader.containerName, responses, 0));
      var logs := History(responses, 0);
      var marker := FirstLog(logs);
      && marker.Some?
      && (logs.RetryCount? ==> marker == Some("120"))
      && (logs.Text? ==> Split(logs.s) != [] && marker == Some(Split(logs.s)[0]))
      && (marker.value in stream ==>
            Read(reader, parse, responses, stream)
              == Then(Run(said, None), PrintStream(reader, parse, stream[FirstIndex(stream, marker.value)..])))
      && (marker.value !in stream ==> Read(reader, parse, responses, stream) == Run(said, None))
  {
    var said := PutsAll(Complaints(reader.podName, reader.containerName, responses, 0));
    var logs := History(responses, 0);
    if logs.Text? {
      var i := HistoryIsFirstReady(responses, 0);
      ReadyIffSplitNonEmpty(responses(i));
    } else {
      Decimal120();
    }
    StitchFromMarker(reader, parse, FirstLog(logs), stream);
    assert said + "" == said;
  }

  /** Raw mode, without names, exclusions or following, prints a ready
      history exactly as received. */
  lemma RawReadIsVerbatim(reader: PodReader, parse: Parser, responses: nat -> Response, stream: seq<string>)
    requires !reader.opts.follow && Ready(responses(0))
    requires reader.formatter == NoOp && reader.filter == LogFilters.LogFilter(false, false)
    requires var s := responses(0).text; |s| >= 2 && s[|s| - 1] == '\n' && s[|s| - 2] != '\n'
    ensures Read(reader, parse, responses, stream) == Run(responses(0).text, None)
  {
    ReadHistory(reader, parse, responses, stream);
    RawHistoryIsVerbatim(reader, parse, responses(0).text);
  }

  /** The retry count reaching `print_logs`: a raw reader without
      exclusions prints "120", the JSON formatter raises. */
  lemma RetryCountPrinted(reader: PodReader, parse: Parser)
    ensures reader.formatter == NoOp && reader.filter == LogFilters.LogFilter(false, false) ==>
      PrintLogs(reader, parse, RetryCount(120)) == Run("120\n", None)
    ensures reader.formatter == JsonPretty && reader.filter == LogFilters.LogFilter(false, false) ==>
      PrintLogs(reader, parse, RetryCount(120)) == Run("", Some(IntegerNotString))
  {
    if reader.formatter == NoOp && reader.filter == LogFilters.LogFilter(false, false) {
      Decimal120();
      assert Puts("120") == "120\n";
    }
  }

  /** When every attempt fails, the 120 complaints are followed by whatever
      printing the retry count gives. */
  lemma ExhaustedRetriesPrintTheCount(reader: PodReader, parse: Parser, responses: nat -> Response)
    requires forall i :: 0 <= i < MaxAttempts ==> !Ready(responses(i))
    requires !reader.opts.follow
    ensures History(responses, 0) == RetryCount(120)
    ensures |Complaints(reader.podName, reader.containerName, responses, 0)| == 120
    ensures Read(reader, parse, responses, [])
      == Then(Run(PutsAll(Complaints(reader.podName, reader.containerName, responses, 0)), None),
              PrintLogs(reader, parse, RetryCount(120)))
  {
    HistoryExhaustedIffNoneReady(responses, 0);
    FirstReadyIsFirst(responses, 0);
    ComplaintsCount(reader.podName, reader.containerName, responses, 0);
  }

  lemma Decimal120()
    ensures IntToString(120) == "120"
  {
    assert NatToString(1) == [DigitChar(1)] == "1";
    assert NatToString(12) == NatToString(1) + [DigitChar(2)] == "12";
    assert NatToString(120) == NatToString(12) + [DigitChar(0)] == "120";
  }
}
