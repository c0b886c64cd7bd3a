# kubetailrb in Dafny

A Dafny model of the core of kubetailrb, a Ruby tool that tails the logs of
Kubernetes pods (and of local files). The model covers:

- the backward tail scan and the follow loop of `FileReader`;
- the per-container log pipeline of `Reader::K8sPodReader`:
  - the bounded retry of the history fetch;
  - `print_logs` splitting, filtering and formatting;
  - the stitching of the live stream onto the history;
- pod selection and pod-event handling in `Reader::K8sPodsReader`;
- the filters and formatters (`LogFilter`, both `JsonFormatter`s,
  `PodMetadataFormatter`, both `NoOpFormatter`s, `Painter`);
- argument validation (`Validated`, `Boolean`, `K8sOpts`);
- the first-generation `K8sPodReader` and `K8sPodsReader`;
- command-line parsing (`Cmd::K8s`, `Cmd::Help`, `Cmd::Version`,
  `OptsParser`).

Each Ruby exception is modelled as its message, carried in `Result`/`Outcome`
(`wrappers.dfy`). Arguments that are checked by type (line counts, flags) are a `Value`
datatype (`nil`, String, Integer, Float, Boolean, Array), with the
`to_s`/`inspect` renderings that the error messages interpolate. Arguments
that are checked for blankness (pod, container and namespace names, the pod
query) are optional Strings.

Several parts of the system are parameters of the model rather than code in it:

- The Ruby string primitives the code relies on are written out in
  `ruby_text.dfy`:
  - `strip`, which also removes NUL;
  - `split("\n")`, which drops trailing empty fields;
  - `to_i`, `include?` and `puts`.
- `JSON.parse` is an oracle `string -> Option<JObject>`.
- Regexp matching of the pod query is an oracle `(query, name) -> bool`.
- Compiling the pod query with `Regexp.new` is an oracle `string -> Option<string>`. It gives nothing when the pattern compiles, and otherwise the message of the `RegexpError` raised.
- The Kubernetes API appears as the sequence of answers to the history
  requests, the lines of the log watch stream, and the list of pods and pod
  events.
- The file system appears as the file's content, whether it exists, and a
  sequence of later looks at the file (content and mtime).

Starting a reader in a thread is recorded as an action in a list.

How the pod reader joins its history to the live stream, and how statuses
are badged:

- The live stream is stitched onto the history at the FIRST line of the
  history (lib/kubetailrb/reader/k8s_pod_reader.rb:42).
- Printing starts with that line included.
- Nothing is printed when that line never appears in the stream.
- HTTP status 500 gets no badge, because the error range is `code > 500`.

## Model

| member | source | states |
|---|---|---|
| RubyText.StripEmptyIffBlank | lib/kubetailrb/validated.rb:7 | `strip` leaves nothing exactly when every character is whitespace or NUL |
| RubyText.SplitEmptyIffAllNewlines | lib/kubetailrb/reader/k8s_pod_reader.rb:83 | `split("\n")` is empty exactly when the text consists of line feeds only (including the empty text) |
| RubyText.SplitOfTerminated | lib/kubetailrb/reader/k8s_pod_reader.rb:64 | for a text ending in one line feed, joining the split fragments with line feeds and adding the final one gives the text back |
| RubyText.ContainsIffOccurs | lib/kubetailrb/filter/log_filter.rb:58 | `include?` holds exactly when the substring occurs at some position |
| RubyText.ToIIntToString | lib/kubetailrb/cmd/k8s.rb:97 | `to_i` reads back any Integer written with `to_s`, sign included |
| RubyText.DecimalPrefixSkipped | lib/kubetailrb/cmd/k8s.rb:97 | `to_i` skips a "0d" or "0D" radix prefix after an optional minus sign: "0d" followed by digits reads as the digits alone |
| RubyText.Puts | lib/kubetailrb/reader/k8s_pod_reader.rb:68 | `puts` output starts with the text and ends with a line feed, adding at most one character; the text comes out unchanged exactly when it already ends with a line feed |
| RubyText.PutsAll | lib/kubetailrb/k8s_pod_reader.rb:25-27 | a `puts` per line: a non-empty list prints output ending in a line feed |
| Values.IsBoolean | lib/boolean.rb:9-22 | `is_a?(Boolean)` holds for `true` and `false` and for nothing else |
| Values.NonBooleansOfTheTests | lib/boolean.rb:9-22 | nil, `[]`, 0, -1 and a String are not Booleans |
| Values.FlagListInterpolation | lib/kubetailrb/cmd/k8s.rb:69 | interpolating the namespace flag list gives `["-n", "--namespace"]` |
| Validation.RaiseIfBlank | lib/kubetailrb/validated.rb:6-8 | passes exactly for a present String with a non-blank character; otherwise fails with the caller's message |
| Validation.BlankExamples | lib/kubetailrb/validated.rb:6-8 | nil, "" and "   " are rejected; a name surrounded by blanks is accepted |
| Validation.RaiseIfNil | lib/kubetailrb/validated.rb:10-12 | fails, with the caller's message, exactly for nil |
| Validation.ValidateLastNbLines | lib/kubetailrb/validated.rb:14-17 | passes exactly for Integers of at least 1; otherwise fails with "Invalid last_nb_lines: X." |
| Validation.FloatLinesRejected | lib/kubetailrb/validated.rb:14-17 | the Float 5.0 is not an Integer and is rejected with "Invalid last_nb_lines: 5.0." |
| Validation.ValidateBoolean | lib/kubetailrb/validated.rb:19-21 | passes exactly for `true` and `false`; otherwise fails with the caller's message |
| Painter.Colorize | lib/kubetailrb/painter.rb:28-30 | the coloured text is 7 characters longer than the text and the colour code together |
| Painter.UncolorizeColorize | lib/kubetailrb/painter.rb:28-30 | stripping the escape prefix of the colour and the reset suffix recovers the text, with no padding |
| Painter.HelperColours | lib/kubetailrb/painter.rb:6-24 | each of the five helpers paints with its own code: 34, 31, 1;30;44, 1;30;43, 1;30;41 |
| Json.Field | lib/kubetailrb/formatter/json_formatter.rb:28 | a missing key interpolates as the empty text |
| LogFilters.New | lib/kubetailrb/filter/log_filter.rb:41-44 | accepted exactly when both flags are Booleans; the access-log flag is checked first, each message carrying the value |
| LogFilters.Create | lib/kubetailrb/filter/log_filter.rb:12-14 | never fails; each exclusion is on exactly when its tag is in the list, and other tags are ignored |
| LogFilters.TestRejectsExactlyEnabledMatches | lib/kubetailrb/filter/log_filter.rb:24-29 | a line is dropped exactly when an enabled exclusion recognises it |
| LogFilters.NoExclusionAcceptsAll | lib/kubetailrb/filter/log_filter.rb:24-29 | with both exclusions off every line is kept |
| LogFilters.MoreExclusionsRejectMore | lib/kubetailrb/filter/log_filter.rb:24-29 | enabling more exclusions never turns a dropped line into a kept one |
| LogFilters.DdLogIffTagOccurs | lib/kubetailrb/filter/log_filter.rb:56-59 | a Datadog log is exactly a line in which "[dd" or "[datadog]" occurs |
| Formatters.Colorize | lib/kubetailrb/formatter/json_formatter.rb:51-53 | the badge colouring is `" \e[" + code + "m" + text + "\e[0m "` |
| Formatters.BadgesDiffer | lib/kubetailrb/formatter/json_formatter.rb:55-65 | the blue, yellow and red badges are pairwise different |
| Formatters.StatusSegment | lib/kubetailrb/formatter/json_formatter.rb:31-39 | an Integer or Float status, compared by value, in [200,400), [400,500) or above 500 gets the I, W or E badge and the code as interpolated between brackets; other numbers get the bare code between spaces; a status of any other type raises |
| Formatters.FloatStatusBadged | lib/kubetailrb/formatter/json_formatter.rb:34-38 | 404.0 gets the W badge and "[404.0] ", 500.5 the E badge, 500.0 is bare |
| Formatters.StringStatusRaises | lib/kubetailrb/formatter/json_formatter.rb:34 | a String status, even "200", makes the comparison raise |
| Formatters.Status500IsBare | lib/kubetailrb/formatter/json_formatter.rb:34-38 | statuses 500 and 199 are printed as " 500 " and " 199 " |
| Formatters.LevelSegment | lib/kubetailrb/formatter/json_formatter.rb:41-49 | nil or a blank level gives nothing; INFO, WARN and ERROR give their badges; any other level is printed between spaces; a non-String level raises |
| Formatters.JsonPassesUnparsedThrough | lib/kubetailrb/formatter/json_formatter.rb:7-15 | a line that does not parse comes back unchanged |
| Formatters.AccessLogLayout | lib/kubetailrb/formatter/json_formatter.rb:7-25 | an object whose status code is an Integer or Float renders as timestamp, status segment, method, a space and the path |
| Formatters.ApplicationLogLayout | lib/kubetailrb/formatter/json_formatter.rb:7-29 | an object without a status code renders as timestamp, level segment and message |
| Formatters.ApplicationLogExample | test/kubetailrb/formatter/json_formatter_test.rb:13-26 | the application log of the test renders character for character as expected |
| Formatters.AccessLogExample | test/kubetailrb/formatter/json_formatter_test.rb:28-42 | the access log of the test renders character for character as expected |
| Formatters.NoOpIsIdentity | lib/kubetailrb/formatter/no_op_formatter.rb:7-9 | the identity formatter returns the line unchanged |
| Formatters.NoOpIsIdempotent | lib/kubetailrb/formatter/no_op_formatter.rb:7-9 | formatting twice with the identity is formatting once |
| Formatters.PodMetadataWraps | lib/kubetailrb/formatter/pod_metadata_formatter.rb:19-21 | the prefix formatter fails exactly when its inner one does; otherwise it outputs "pod/container &#124; " followed by the inner output, which dropping the prefix recovers |
| Formatters.PodMetadataExample | test/kubetailrb/formatter/pod_metadata_formatter_test.rb:46-54 | the identity wrapped in the prefix formatter turns "some log" into "some-pod/some-container &#124; some log" |
| Formatters.NewPodMetadata | lib/kubetailrb/formatter/pod_metadata_formatter.rb:25-29 | built exactly when pod name and container name are not blank and a formatter is given; otherwise the first failing check's message, in the order pod, container, formatter |
| LegacyFormatters.JsonFieldsRecoverable | lib/kubetailrb/json_formatter.rb:8 | the output holds timestamp, level and message in this order, separated by single spaces that remain when a key is missing: splitting at the first two spaces recovers all three when the first two hold no space |
| LegacyFormatters.JsonPassesUnparsedThrough | lib/kubetailrb/json_formatter.rb:9-10 | a line that does not parse comes back unchanged |
| LegacyFormatters.JsonExample | test/kubetailrb/json_formatter_test.rb:12-25 | the example record renders as "ts INFO message" |
| LegacyFormatters.NoOpFormat | lib/kubetailrb/no_op_formatter.rb:6-8 | every line, the empty one included, comes back unchanged |
| LegacyFormatters.NoOpFormattersAgree | lib/kubetailrb/no_op_formatter.rb:6-8 | the old and the new identity formatters agree on every line |
| K8sOptions.New | lib/kubetailrb/k8s_opts.rb:15-57 | built exactly when every field is valid, and the accessors then return the arguments unchanged |
| K8sOptions.DefaultsAreValid | lib/kubetailrb/k8s_opts.rb:10-23 | the defaults (namespace "default", 10 lines, flags off, empty lists) pass validation |
| K8sOptions.FirstFailureWins | lib/kubetailrb/k8s_opts.rb:49-57 | the message is that of the first failing check, in the order namespace, line count, follow, raw, display names, excludes, MDCs |
| K8sOptions.ZeroLinesRejected | test/kubetailrb/k8s_opts_test.rb:25-38 | a line count of 0 is rejected with "Invalid last_nb_lines: 0." |
| K8sOptions.NegativeLinesRejected | test/kubetailrb/k8s_opts_test.rb:25-38 | a line count of -1 is rejected with "Invalid last_nb_lines: -1." |
| FileReader.New | lib/kubetailrb/file_reader.rb:30-38 | built exactly for an existing file, a positive Integer count and a Boolean flag; checked in that order with "X not found", "Invalid last_nb_lines: X." and "Invalid follow: X." |
| FileReader.ReadLastNbLines | lib/kubetailrb/file_reader.rb:87-112 | an empty file prints nothing. Otherwise the scan stops at the unique tail start and `puts` the suffix from there. It reads every character from the line feed before the start to the end, and never the first character. |
| FileReader.TailStartUnique | lib/kubetailrb/file_reader.rb:93-108 | at most one position qualifies as the start of the tail: either the file start (when the text after the first character holds at most n line feeds) or the position just after the line feed that leaves exactly n behind it |
| FileReader.ShortFileIsPrintedWhole | lib/kubetailrb/file_reader.rb:93-111 | a file with no more than n line feeds is printed from its first character |
| FileReader.TailOfFiveLines | lib/kubetailrb/file_reader.rb:93-111 | asking for 3 lines of a newline-terminated five-line file prints its last three lines |
| FileReader.Poll | lib/kubetailrb/file_reader.rb:69-76 | an unchanged file prints nothing. A changed one records the new stats and prints everything from the cursor to the end, leaving the cursor at the end. Right afterwards the file no longer counts as changed. |
| FileReader.UnchangedFilePrintsNothing | lib/kubetailrb/file_reader.rb:119-121 | a look with the recorded mtime and size changes nothing and prints nothing |
| FileReader.FollowPrintsAppended | lib/kubetailrb/file_reader.rb:69-76 | while the file only grows, following prints exactly the appended text, once and in order, and ends with the cursor at the end |
| FileReader.Read | lib/kubetailrb/file_reader.rb:64-85 | prints the tail. When following, it then prints exactly what was appended, then the line `puts ''` writes on interruption. |
| PodReader.CreateFormatter | lib/kubetailrb/reader/k8s_pod_reader.rb:94-109 | raw picks the identity, otherwise the JSON formatter; the prefix formatter wraps it exactly when names are displayed |
| PodReader.FormatterOfOptions | lib/kubetailrb/reader/k8s_pod_reader.rb:94-109 | raw without names prints lines unchanged; raw with names prints them behind "pod/container &#124; "; without raw or names the JSON formatter applies |
| PodReader.ListAttribute | lib/kubetailrb/k8s_opts.rb:13 | `K8sOpts` answers `excludes` and `mdcs` and raises NoMethodError for any other list reader |
| PodReader.NewAsWrittenNeverSucceeds | lib/kubetailrb/reader/k8s_pod_reader.rb:26 | as written, construction always raises: arguments that pass validation reach the undefined `opts.exclude` |
| PodReader.New | lib/kubetailrb/reader/k8s_pod_reader.rb:19-28 | rejects a blank pod name, then a blank container name, then nil options, with their messages; otherwise it keeps the arguments and derives the formatter and a filter excluding exactly the tagged kinds |
| PodReader.PrintLine | lib/kubetailrb/reader/k8s_pod_reader.rb:68 | a line the filter drops prints nothing; a kept line prints its formatted form with `puts`, or raises with the formatter |
| PodReader.Fragments | lib/kubetailrb/reader/k8s_pod_reader.rb:63-64 | the pieces handled one by one hold no line feed, and a text without line feed is handled whole |
| PodReader.PlainLinesAreJoined | lib/kubetailrb/reader/k8s_pod_reader.rb:62-70 | without formatting and filtering, lines are printed in order, each followed by a line feed |
| PodReader.RawHistoryIsVerbatim | lib/kubetailrb/reader/k8s_pod_reader.rb:62-70 | in raw mode a newline-terminated history is printed exactly as received |
| PodReader.DroppedLinePrintsNothing | lib/kubetailrb/reader/k8s_pod_reader.rb:68 | a line the filter drops prints nothing, whatever the formatter |
| PodReader.FormatCount | lib/kubetailrb/reader/k8s_pod_reader.rb:68 | formatting the Integer returned by an exhausted fetch succeeds exactly with the identity, possibly behind the prefix |
| PodReader.TestCount | lib/kubetailrb/filter/log_filter.rb:46-59 | filtering that Integer passes exactly when no exclusion is on |
| PodReader.HasContentIffSomeNonNewline | lib/kubetailrb/reader/k8s_pod_reader.rb:83 | a text has content exactly when one of its characters is not a line feed |
| PodReader.ReadyIffSplitNonEmpty | lib/kubetailrb/reader/k8s_pod_reader.rb:83 | an answer is accepted exactly when it is a body whose `split("\n")` is not empty |
| PodReader.History | lib/kubetailrb/reader/k8s_pod_reader.rb:72-92 | the fetch returns a ready body as soon as it arrives, and the Integer 120 when none does |
| PodReader.Complaints | lib/kubetailrb/reader/k8s_pod_reader.rb:75-91 | from a ready answer on, no message is printed, and at most one message is printed per remaining attempt |
| PodReader.FirstReadyIsFirst | lib/kubetailrb/reader/k8s_pod_reader.rb:75-87 | the attempt the loop stops at is ready, or is the 121st, and every attempt before it failed |
| PodReader.ComplaintsCount | lib/kubetailrb/reader/k8s_pod_reader.rb:75-91 | exactly one message is printed per failed attempt before the first ready answer, or 120 when none is ready |
| PodReader.ComplaintsAt | lib/kubetailrb/reader/k8s_pod_reader.rb:83-89 | the k-th message is the complaint of the k-th failed attempt: the HTTP error's message, or "No log returned from pod/container" |
| PodReader.HistoryExhaustedIffNoneReady | lib/kubetailrb/reader/k8s_pod_reader.rb:75-92 | the fetch gives up exactly when none of the 120 answers is ready |
| PodReader.HistoryIsFirstReady | lib/kubetailrb/reader/k8s_pod_reader.rb:75-87 | otherwise it returns the body of the first ready answer, all earlier ones being unready |
| PodReader.FirstLog | lib/kubetailrb/reader/k8s_pod_reader.rb:42 | the marker is the first line of a text history, and the text of the count, "120", once every attempt has failed |
| PodReader.StitchOnPrintsAll | lib/kubetailrb/reader/k8s_pod_reader.rb:43-50 | once the print flag is on it stays on and every later line is printed |
| PodReader.StitchFromMarker | lib/kubetailrb/reader/k8s_pod_reader.rb:42-51 | the stream is printed from its first line equal to the marker, that line included, and not at all when no line is |
| PodReader.ReadHistory | lib/kubetailrb/reader/k8s_pod_reader.rb:30-35 | without following, a history ready at once is printed and nothing of the stream is |
| PodReader.ReadFollowing | lib/kubetailrb/reader/k8s_pod_reader.rb:30-52 | when following, whatever the answers: one complaint per failed attempt is printed, the history itself is not, and the stream is printed from its first line equal to the first line of the history (or to "120" when every attempt failed); nothing more when no line is |
| PodReader.RawReadIsVerbatim | test/kubetailrb/reader/k8s_pod_reader_test.rb:97-112 | in raw mode, without exclusions, the pod's output is its history verbatim |
| PodReader.RetryCountPrinted | lib/kubetailrb/reader/k8s_pod_reader.rb:72-92 | after an exhausted fetch, a raw reader prints "120" and the JSON formatter raises |
| PodReader.ExhaustedRetriesPrintTheCount | lib/kubetailrb/reader/k8s_pod_reader.rb:72-92 | when every attempt fails, exactly 120 complaints are printed, followed by the printing of the count |
| PodsReader.New | lib/kubetailrb/reader/k8s_pods_reader.rb:17-24 | a blank query is rejected with "Pod query not set.", then nil options with "Opts not set.", then a query `Regexp.new` cannot compile with its `RegexpError` message; otherwise the reader is built |
| PodsReader.FindPods | lib/kubetailrb/reader/k8s_pods_reader.rb:49-53 | exactly the listed pods whose name matches are kept |
| PodsReader.FindPodsAppend | lib/kubetailrb/reader/k8s_pods_reader.rb:49-53 | selection keeps list order: selecting from a concatenation concatenates the selections |
| PodsReader.StartsForMembership | lib/kubetailrb/reader/k8s_pods_reader.rb:30-34 | every start for a pod names that pod; a container gets a start exactly when the pod has that container |
| PodsReader.StartAllAppend | lib/kubetailrb/reader/k8s_pods_reader.rb:29-35 | pods are handled in list order: the starts for two lists in turn are those for their concatenation |
| PodsReader.StartAllCount | lib/kubetailrb/reader/k8s_pods_reader.rb:29-35 | as many readers start as the selected pods have containers all together |
| PodsReader.StartAllMembership | lib/kubetailrb/reader/k8s_pods_reader.rb:29-35 | a reader starts for a pod and container exactly when a selected pod has that name and container |
| PodsReader.OnNewPodEvent | lib/kubetailrb/reader/k8s_pods_reader.rb:84-94 | for the k-th container of an added pod, its announcement comes at position 2k and its start right after |
| PodsReader.NewPodEventStartsAsFound | lib/kubetailrb/reader/k8s_pods_reader.rb:84-94 | an added pod gets the same reader starts, in the same order, as a pod found at start |
| PodsReader.NewPodEventMembership | lib/kubetailrb/reader/k8s_pods_reader.rb:88-93 | readers start for exactly the added pod's containers |
| PodsReader.AnnouncementPrinted | lib/kubetailrb/reader/k8s_pods_reader.rb:91 | the announcement before the k-th container of an added pod prints "+ pod/container" followed by a line feed, which `puts` leaves out when the container name already ends with one |
| PodsReader.NewPodEventPaired | lib/kubetailrb/reader/k8s_pods_reader.rb:88-93 | each start is preceded by "+ pod/container" for the same container |
| PodsReader.WatchAnnouncesEachStart | lib/kubetailrb/reader/k8s_pods_reader.rb:68-94 | over the whole watch, every reader start is announced just before |
| PodsReader.WatchStartsExactlyAddedMatches | lib/kubetailrb/reader/k8s_pods_reader.rb:68-82 | while watching, a reader starts exactly for the containers of ADDED Pod events whose name matches |
| PodsReader.ReadStartsMatchingPods | lib/kubetailrb/reader/k8s_pods_reader.rb:25-40 | readers start for the matching pods' containers and, only when following, for the added ones |
| PodsReader.NothingFoundStartsNothing | lib/kubetailrb/reader/k8s_pods_reader.rb:25-40 | no pods and no events start nothing |
| LegacyReaders.New | lib/kubetailrb/k8s_pod_reader.rb:39-55 | built exactly when client, pod name, namespace, count and flag are valid; checked in that order with their messages |
| LegacyReaders.MissingClientWins | lib/kubetailrb/k8s_pod_reader.rb:39-40 | a missing client is reported first, whatever else is wrong |
| LegacyReaders.Read | lib/kubetailrb/k8s_pod_reader.rb:20-31 | without following, one request for the last lines is made and its body printed; when following, no such request is made and each watch line gets its own `puts` |
| LegacyReaders.FollowPrintsStreamVerbatim | lib/kubetailrb/k8s_pod_reader.rb:23-27 | following prints the stream lines unchanged, each followed by a line feed |
| LegacyReaders.NewPods | lib/kubetailrb/k8s_pods_reader.rb:15-22 | checks query, formatter and options in that order, with their messages, then fails with the `RegexpError` message of a query that does not compile; otherwise the reader is built |
| LegacyReaders.ReadPods | lib/kubetailrb/k8s_pods_reader.rb:24-42 | at most one reader per listed pod |
| LegacyReaders.ReadPodsAppend | lib/kubetailrb/k8s_pods_reader.rb:24-42 | pods are handled in list order: the readers for two lists in turn are those for their concatenation |
| LegacyReaders.ReadPodsMembership | lib/kubetailrb/k8s_pods_reader.rb:54-58 | a reader starts for a name exactly when a listed pod with that name matches |
| LegacyReaders.NoPodsNoReaders | lib/kubetailrb/k8s_pods_reader.rb:24-42 | no pods give no readers |
| Cmd.FindFlag | lib/kubetailrb/cmd/k8s.rb:67 | `find_index` finds the first argument that is one of the flags, or reports that none is |
| Cmd.ParsePodName | lib/kubetailrb/cmd/k8s.rb:44-51 | the pod name is an argument not starting with '-', and there is none exactly when every argument starts with '-' |
| Cmd.PodNameIsFirstPlainArgument | lib/kubetailrb/cmd/k8s.rb:44-51 | the pod name is the first such argument |
| Cmd.ParseNamespace | lib/kubetailrb/cmd/k8s.rb:64-72 | "default" without a namespace flag; otherwise the argument after the first one, or the missing-value error |
| Cmd.ParseNbLines | lib/kubetailrb/cmd/k8s.rb:90-102 | 10 without `--tail`. Otherwise the `to_i` of the next argument, which must exist; zero is rejected with the raw text, and negatives pass. |
| Cmd.TailValueRoundTrip | lib/kubetailrb/cmd/k8s.rb:93-101 | a non-zero count written after the first `--tail` is read back |
| Cmd.ParseFollow | lib/kubetailrb/cmd/k8s.rb:104-110 | follow is on exactly when `-f` or `--follow` appears anywhere |
| Cmd.Create | lib/kubetailrb/cmd/k8s.rb:35-42 | namespace errors come first, then count errors. Once both parse, a reader is built exactly when a non-blank pod name was given, the namespace is non-blank and the count is positive; otherwise the reader's own message is given. A built reader carries exactly the parsed values |
| Cmd.NegativeTailRejected | lib/kubetailrb/k8s_pod_reader.rb:46-48 | `--tail -3` parses, and the reader rejects it with "Invalid last_nb_lines: -3." |
| Cmd.FollowFlagAloneNamesNoPod | lib/kubetailrb/k8s_pod_reader.rb:42 | `-f` alone gives no pod name and is rejected with "Pod name not set." |
| Cmd.CreateWithDefaults | test/kubetailrb/cmd/k8s_test.rb:9-19 | a pod name alone gives namespace "default", 10 lines, no follow |
| Cmd.AllFlagsParsed | test/kubetailrb/cmd/k8s_test.rb:21-31 | each parser's result on the full flag set of the test |
| Cmd.CreateWithAllFlags | test/kubetailrb/cmd/k8s_test.rb:21-31 | the full flag set of the test builds the expected reader |
| Cmd.TailWithDecimalPrefix | lib/kubetailrb/cmd/k8s.rb:97-101 | `--tail 0d5` asks for 5 lines, since `to_i` skips the radix prefix |
| Cmd.InvalidTailValue | test/kubetailrb/cmd/k8s_test.rb:45-51 | "--tail invalid" is rejected with "Invalid --tail value: invalid." |
| Cmd.MissingTailValue | test/kubetailrb/cmd/k8s_test.rb:53-59 | a trailing `--tail` is rejected with "Missing --tail value." |
| Cmd.MissingNamespaceValue | lib/kubetailrb/cmd/k8s.rb:69 | a trailing `-n` is rejected with `Missing ["-n", "--namespace"] value.` |
| Cmd.HelpApplicable | lib/kubetailrb/cmd/help.rb:29-41 | help applies exactly when there are no arguments or `-h`/`--help` appears |
| Cmd.HelpExamples | test/kubetailrb/cmd/help_test.rb:35-52 | the argument lists of the test with and without a help flag |
| Cmd.VersionApplicable | lib/kubetailrb/cmd/version.rb:13-15 | version applies exactly when `-v`/`--version` appears, so never for no arguments |
| Cmd.ApplicabilityIgnoresOrder | lib/kubetailrb/cmd/help.rb:39-41 | reordering the arguments changes neither decision |
| Cmd.VersionOutput | lib/kubetailrb/cmd/version.rb:9-11 | the version is printed followed by a line feed |
| Cmd.Parse | lib/kubetailrb/opts_parser.rb:13-19 | help whenever it applies, else version whenever it applies, else the file command with the arguments |
| Cmd.ParseExamples | test/kubetailrb/opts_parser_test.rb:8-58 | no arguments and `-v -h` give help; a version flag alone gives version; other arguments give the file command |

## Left out

- Threads: concurrency, thread spawning and joins are not modelled. Starting a pod reader is an action in a list, and the pod watch is taken to end before the readers of the pods found at start are launched.
- The Kubernetes client (`get_pods`, `get_pod_log`, `watch_pod_log`, `watch_pods`), kubeconfig loading (`create_k8s_client`) and `with_k8s_client.rb`: their answers are inputs.
- File-system calls (`File.open`, `seek`, `stat`, `File.exist?`, closing) are not modelled: the file is its content, an mtime and an existence flag.
- `naive_read`, the unused `wc -l` variant of the tail, is not modelled.
- `sleep 1` between fetch attempts, the busy spin of the follow loop and the `SignalException` rescue are not modelled. The rescue appears only as the final empty line.
- `JSON.parse`, Regexp compilation and Regexp matching are oracles. JSON documents that parse to something other than an object are treated like parse failures.
- Json.Interpolate: arrays and nested objects keep an opaque rendering.
- Json.JVal: the text `Float#to_s` gives for a Float is carried with it rather than computed. A number too large for a Float, which Ruby reads as Infinity, has no value here.
- Values.Inspect does not escape special characters inside strings.
- Validation.RaiseIfBlank takes an optional String, so a non-nil argument that is not a String cannot be given. For such an argument Ruby's `arg.strip` raises NoMethodError (lib/kubetailrb/validated.rb:7), and that error is not modelled.
- Values.Value: as for JSON numbers, a Float carries the text `Float#to_s` gives for it rather than computing it.
- Exception classes are not modelled, only messages. Some messages are raised by Ruby itself rather than by the code (NoMethodError, TypeError), and their wording is an approximation.
- The help text (`Help#execute`), `cli.rb`, `cmd/file.rb` and the k3d demo applications are not modelled.
- Cmd.Create builds the first-generation pod reader with the client taken as created.
- LegacyReaders.ReadPods lists the readers to start but does not model their construction. The old `K8sPodsReader` passes `formatter:` and `opts:` to the old `K8sPodReader`, which does not accept these keywords, so each such reader raises in its thread. `threads.each(&:join)` (lib/kubetailrb/k8s_pods_reader.rb:41) raises that error again in the caller, so `read` itself raises as soon as one pod matches.
- Behaviour that only the test suites describe, with no matching code, is not modelled:
  - container-query filtering;
  - stack-trace rendering;
  - `Cmd::File`.
- FileReader.Read: when the file shrinks or is rewritten while followed, the exact output is not stated; only the append-only case is.

## Findings

| source | as written | input that shows it | evidently intended | confidence | as-written member | corrected member |
|---|---|---|---|---|---|---|
| lib/kubetailrb/reader/k8s_pod_reader.rb:26 | the filter is built from `opts.exclude`, but `K8sOpts` only defines `excludes` (lib/kubetailrb/k8s_opts.rb:13) | any valid pod name, container name and `K8sOpts.new` raise NoMethodError on construction | `opts.excludes` | high, not executed | PodReader.NewAsWrittenNeverSucceeds | PodReader.New |
