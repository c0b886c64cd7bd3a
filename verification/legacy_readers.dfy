/** The first-generation readers, kept beside the current ones: a reader of
    one pod that needs an explicit client, namespace, line count and flag,
    and a reader of every pod whose name matches a query. */
module LegacyReaders {
  import opened Wrappers
  import opened RubyText
  import opened Values
  import opened Validation
  import PodsReader
  import K8sOptions

  // ---------------------------------------------------------------------------
  // One pod
  // ---------------------------------------------------------------------------

  /** A validated first-generation pod reader. */
  datatype PodReader = PodReader(podName: string, namespace: string, lastNbLines: nat, follow: bool)

  /** `validate`: client, pod name, namespace, line count, follow, in this
      order. The client matters only through whether it is set. */
  function New(clientSet: bool, podName: Option<string>, namespace: Option<string>,
               lastNbLines: Value, follow: Value): (r: Result<PodReader>)
    ensures r.Success? <==>
      && clientSet
      && podName.Some? && !Blank(podName.value)
      && namespace.Some? && !Blank(namespace.value)
      && lastNbLines.Int? && lastNbLines.i >= 1
      && IsBoolean(follow)
    ensures r.Success? ==> r.value == PodReader(podName.value, namespace.value, lastNbLines.i, follow.b)
    ensures !clientSet ==> r == Failure("K8s client not set.")
    ensures clientSet && (podName.None? || Blank(podName.value)) ==> r == Failure("Pod name not set.")
    ensures clientSet && podName.Some? && !Blank(podName.value) && (namespace.None? || Blank(namespace.value))
      ==> r == Failure("Namespace not set.")
    ensures clientSet && podName.Some? && !Blank(podName.value) && namespace.Some? && !Blank(namespace.value)
      && !(lastNbLines.Int? && lastNbLines.i >= 1)
      ==> r == Failure("Invalid last_nb_lines: " + ToS(lastNbLines) + ".")
    ensures clientSet && podName.Some? && !Blank(podName.value) && namespace.Some? && !Blank(namespace.value)
      && lastNbLines.Int? && lastNbLines.i >= 1 && !IsBoolean(follow)
      ==> r == Failure("Invalid follow: " + ToS(follow) + ".")
  {
    var check :=
      AndThen(if clientSet then Pass else Fail("K8s client not set."),
      AndThen(RaiseIfBlank(podName, "Pod name not set."),
      AndThen(RaiseIfBlank(namespace, "Namespace not set."),
      AndThen(ValidateLastNbLines(lastNbLines),
              ValidateBoolean(follow, "Invalid follow: " + ToS(follow) + ".")))));
    if check.Fail? then Failure(check.error)
    else Success(PodReader(podName.value, namespace.value, lastNbLines.i, follow.b))
  }

  /** The missing client is reported first, whatever else is wrong. */
  lemma MissingClientWins(podName: Option<string>, namespace: Option<string>, lastNbLines: Value, follow: Value)
    ensures New(false, podName, namespace, lastNbLines, follow) == Failure("K8s client not set.")
  {
  }

  /** What one request for the pod's log asks for. */
  datatype LogRequest = LogRequest(podName: string, namespace: string, tailLines: nat)

  /** `read`: when following, every line of the watch stream is printed as
      is, with no limit on the history; otherwise one request for the last
      lines is made and its body printed. */
  function Read(reader: PodReader, body: string, stream: seq<string>): (r: (Option<LogRequest>, string))
    ensures !reader.follow ==> r == (Some(LogRequest(reader.podName, reader.namespace, reader.lastNbLines)), Puts(body))
    ensures reader.follow ==> r == (None, PutsAll(stream))
  {
    if reader.follow then (None, PutsAll(stream))
    else (Some(LogRequest(reader.podName, reader.namespace, reader.lastNbLines)), Puts(body))
  }

  /** Following prints each stream line unchanged, followed by a line feed
      when it has none: lines without line feeds come out joined. */
  lemma {:induction false} FollowPrintsStreamVerbatim(lines: seq<string>)
    requires |lines| > 0 && forall k :: 0 <= k < |lines| ==> '\n' !in lines[k]
    ensures PutsAll(lines) == JoinLines(lines) + "\n"
    decreases |lines|
  {
    var x := lines[0];
    assert '\n' !in x;
    assert |x| > 0 ==> x[|x| - 1] in x;
    if |lines| > 1 {
      FollowPrintsStreamVerbatim(lines[1..]);
      assert x + "\n" + (JoinLines(lines[1..]) + "\n") == x + "\n" + JoinLines(lines[1..]) + "\n";
    }
  }

  // ---------------------------------------------------------------------------
  // Several pods
  // ---------------------------------------------------------------------------

  /** A validated first-generation multi-pod reader. The formatter is only
      passed on, so only its presence matters. */
  datatype MultiReader = MultiReader(podQuery: string, opts: K8sOptions.K8sOpts)

  /** `validate`: query, formatter, options, in this order; a valid query
      is then compiled. */
  function NewPods(podQuery: Option<string>, formatterSet: bool, opts: Option<K8sOptions.K8sOpts>,
                   compile: PodsReader.Compiler): (r: Result<MultiReader>)
    ensures r.Success? <==> podQuery.Some? && !Blank(podQuery.value) && formatterSet && opts.Some? && compile(podQuery.value).None?
    ensures r.Success? ==> r.value == MultiReader(podQuery.value, opts.value)
    ensures podQuery.None? || Blank(podQuery.value) ==> r == Failure("Pod query not set.")
    ensures podQuery.Some? && !Blank(podQuery.value) && !formatterSet ==> r == Failure("Formatter not set.")
    ensures podQuery.Some? && !Blank(podQuery.value) && formatterSet && opts.None? ==> r == Failure("Opts not set.")
    ensures podQuery.Some? && !Blank(podQuery.value) && formatterSet && opts.Some? && compile(podQuery.value).Some?
      ==> r == Failure(compile(podQuery.value).value)
  {
    var check :=
      AndThen(RaiseIfBlank(podQuery, "Pod query not set."),
      AndThen(if formatterSet then Pass else Fail("Formatter not set."),
              RaiseIfNil(opts, "Opts not set.")));
    if check.Fail? then Failure(check.error)
    else match compile(podQuery.value)
      case Some(e) => Failure(e)
      case None => Success(MultiReader(podQuery.value, opts.value))
  }

  /** `read`: one reader per matching pod, named after it, in list order,
      whatever the number of its containers. */
  function ReadPods(reader: MultiReader, matches: PodsReader.Matcher, pods: seq<PodsReader.Pod>): (r: seq<string>)
    ensures var found := PodsReader.FindPods(pods, matches, reader.podQuery);
      |r| == |found| && forall k :: 0 <= k < |r| ==> r[k] == found[k].name
    ensures |r| <= |pods|
  {
    var found := PodsReader.FindPods(pods, matches, reader.podQuery);
    seq(|found|, k requires 0 <= k < |found| => found[k].name)
  }

  /** A reader is started for a name exactly when a listed pod with that
      name matches. */
  lemma ReadPodsMembership(reader: MultiReader, matches: PodsReader.Matcher, pods: seq<PodsReader.Pod>, name: string)
    ensures name in ReadPods(reader, matches, pods)
      <==> exists p :: p in pods && matches(reader.podQuery, p.name) && p.name == name
  {
    var found := PodsReader.FindPods(pods, matches, reader.podQuery);
    var r := ReadPods(reader, matches, pods);
    if name in r {
      var k :| 0 <= k < |r| && r[k] == name;
      assert found[k] in found;
    }
    if exists p :: p in pods && matches(reader.podQuery, p.name) && p.name == name {
      var p :| p in pods && matches(reader.podQuery, p.name) && p.name == name;
      assert p in found;
      var k :| 0 <= k < |found| && found[k] == p;
      assert r[k] == name;
    }
  }

  /** Pods are handled in list order: the readers of two lists one after the
      other are those of their concatenation. */
  lemma ReadPodsAppend(reader: MultiReader, matches: PodsReader.Matcher, a: seq<PodsReader.Pod>, b: seq<PodsReader.Pod>)
    ensures ReadPods(reader, matches, a + b) == ReadPods(reader, matches, a) + ReadPods(reader, matches, b)
  {
    PodsReader.FindPodsAppend(a, b, matches, reader.podQuery);
  }

  /** Reading starts one reader per matching pod: with no pods, none. */
  lemma NoPodsNoReaders(reader: MultiReader, matches: PodsReader.Matcher)
    ensures ReadPods(reader, matches, []) == []
  {
  }
}
