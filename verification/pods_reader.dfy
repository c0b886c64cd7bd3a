/** `Reader::K8sPodsReader`: starts one pod reader per container of every
    pod whose name matches a query and, when following, one more for each
    container of every matching pod added later. The pod list, the stream of
    pod events and the compiled query are parameters; starting a reader is
    recorded as an action rather than run in a thread. */
module PodsReader {
  import opened Wrappers
  import opened RubyText
  import opened Validation
  import K8sOptions

  /** A validated reader: a non-blank query and options. */
  datatype PodsReader = PodsReader(podQuery: string, opts: K8sOptions.K8sOpts)

  /** `Regexp.new` of a pattern: `None` when it compiles, otherwise the
      message of the `RegexpError` it raises. */
  type Compiler = string -> Option<string>

  /** `K8sPodsReader.new`: the query is checked before the options, and a
      valid query is then compiled. */
  function New(podQuery: Option<string>, opts: Option<K8sOptions.K8sOpts>, compile: Compiler): (r: Result<PodsReader>)
    ensures r.Success? <==> podQuery.Some? && !Blank(podQuery.value) && opts.Some? && compile(podQuery.value).None?
    ensures r.Success? ==> r.value == PodsReader(podQuery.value, opts.value)
    ensures podQuery.None? || Blank(podQuery.value) ==> r == Failure("Pod query not set.")
    ensures podQuery.Some? && !Blank(podQuery.value) && opts.None? ==> r == Failure("Opts not set.")
    ensures podQuery.Some? && !Blank(podQuery.value) && opts.Some? && compile(podQuery.value).Some?
      ==> r == Failure(compile(podQuery.value).value)
  {
    var check := AndThen(RaiseIfBlank(podQuery, "Pod query not set."), RaiseIfNil(opts, "Opts not set."));
    if check.Fail? then Failure(check.error)
    else match compile(podQuery.value)
      case Some(e) => Failure(e)
      case None => Success(PodsReader(podQuery.value, opts.value))
  }

  /** What the model needs of a Kubernetes pod: its name, its kind and the
      names of its containers. */
  datatype Pod = Pod(name: string, kind: string, containers: seq<string>)

  /** A pod event of `watch_pods`. */
  datatype Notice = Notice(eventType: string, resource: Pod)

  /** `match?` of the pod query, compiled with `Regexp.new`, against a pod
      name. */
  type Matcher = (string, string) -> bool

  /** What reading does, in order: announce a container with
      "+ pod/container", or start a pod reader for it. */
  datatype Action = Announce(pod: string, container: string) | StartReader(pod: string, container: string)

  /** The line an announcement prints. */
  function AnnouncementText(a: Action): string
    requires a.Announce?
  {
    Puts("+ " + a.pod + "/" + a.container)
  }

  // ---------------------------------------------------------------------------
  // The pods present at start
  // ---------------------------------------------------------------------------

  /** `find_pods`: the listed pods whose name matches, in list order. */
  function FindPods(pods: seq<Pod>, matches: Matcher, query: string): (r: seq<Pod>)
    ensures forall p :: p in r <==> p in pods && matches(query, p.name)
    ensures |r| <= |pods|
  {
    if |pods| == 0 then []
    else (if matches(query, pods[0].name) then [pods[0]] else []) + FindPods(pods[1..], matches, query)
  }

  /** Selecting from two lists one after the other selects from their
      concatenation. */
  lemma {:induction false} FindPodsAppend(a: seq<Pod>, b: seq<Pod>, matches: Matcher, query: string)
    ensures FindPods(a + b, matches, query) == FindPods(a, matches, query) + FindPods(b, matches, query)
    decreases |a|
  {
    if |a| > 0 {
      assert (a + b)[1..] == a[1..] + b;
      FindPodsAppend(a[1..], b, matches, query);
    } else {
      assert a + b == b;
    }
  }

  /** One reader start per container of the pod, in container order. */
  function StartsFor(pod: Pod): (r: seq<Action>)
    ensures |r| == |pod.containers|
    ensures forall k :: 0 <= k < |r| ==> r[k] == StartReader(pod.name, pod.containers[k])
  {
    seq(|pod.containers|, k requires 0 <= k < |pod.containers| => StartReader(pod.name, pod.containers[k]))
  }

  /** Every start for a pod names that pod, and a container gets one
      exactly when it is among the pod's containers. */
  lemma StartsForMembership(pod: Pod, container: string)
    ensures forall a :: a in StartsFor(pod) ==> a.StartReader? && a.pod == pod.name
    ensures StartReader(pod.name, container) in StartsFor(pod) <==> container in pod.containers
  {
    var r := StartsFor(pod);
    if container in pod.containers {
      var k :| 0 <= k < |pod.containers| && pod.containers[k] == container;
      assert r[k] == StartReader(pod.name, container);
    }
  }

  /** The `flat_map` over the selected pods. */
  function StartAll(pods: seq<Pod>): seq<Action>
    decreases |pods|
  {
    if |pods| == 0 then [] else StartsFor(pods[0]) + StartAll(pods[1..])
  }

  /** The number of containers of the pods, all together. */
  function ContainerCount(pods: seq<Pod>): nat
    decreases |pods|
  {
    if |pods| == 0 then 0 else |pods[0].containers| + ContainerCount(pods[1..])
  }

  /** Starting the readers of two lists one after the other starts those of
      their concatenation: pods are handled in list order. */
  lemma {:induction false} StartAllAppend(a: seq<Pod>, b: seq<Pod>)
    ensures StartAll(a + b) == StartAll(a) + StartAll(b)
    decreases |a|
  {
    if |a| == 0 {
      assert a + b == b;
    } else {
      assert (a + b)[1..] == a[1..] + b;
      StartAllAppend(a[1..], b);
    }
  }

  /** One reader per container, over all the pods. */
  lemma {:induction false} StartAllCount(pods: seq<Pod>)
    ensures |StartAll(pods)| == ContainerCount(pods)
    decreases |pods|
  {
    if |pods| > 0 {
      StartAllCount(pods[1..]);
    }
  }

  /** A reader is started for a pod and container exactly when some pod of
      the list carries that name and that container. */
  lemma {:induction false} StartAllMembership(pods: seq<Pod>, pod: string, container: string)
    ensures StartReader(pod, container) in StartAll(pods)
      <==> exists i :: 0 <= i < |pods| && pods[i].name == pod && container in pods[i].containers
    ensures forall a :: a in StartAll(pods) ==> a.StartReader?
    decreases |pods|
  {
    if |pods| > 0 {
      StartAllMembership(pods[1..], pod, container);
      var x := StartReader(pod, container);
      var head := StartsFor(pods[0]);
      assert x in head <==> pods[0].name == pod && container in pods[0].containers by {
        if x in head {
          var k :| 0 <= k < |head| && head[k] == x;
          assert pods[0].containers[k] == container;
        }
        if pods[0].name == pod && container in pods[0].containers {
          var k :| 0 <= k < |pods[0].containers| && pods[0].containers[k] == container;
          assert head[k] == x;
        }
      }
      if exists i :: 0 <= i < |pods| && pods[i].name == pod && container in pods[i].containers {
        var i :| 0 <= i < |pods| && pods[i].name == pod && container in pods[i].containers;
        if i > 0 {
          assert pods[1..][i - 1] == pods[i];
        }
      }
      if exists i :: 0 <= i < |pods[1..]| && pods[1..][i].name == pod && container in pods[1..][i].containers {
        var i :| 0 <= i < |pods[1..]| && pods[1..][i].name == pod && container in pods[1..][i].containers;
        assert pods[i + 1] == pods[1..][i];
      }
    }
  }

  // ---------------------------------------------------------------------------
  // Pods added later
  // ---------------------------------------------------------------------------

  /** `new_pod_event?`: a pod was added. */
  predicate IsNewPodEvent(n: Notice) {
    n.eventType == "ADDED" && n.resource.kind == "Pod"
  }

  /** `on_new_pod_event`: for each container, announce it, then start its
      reader. */
  function OnNewPodEvent(pod: Pod): (r: seq<Action>)
    ensures |r| == 2 * |pod.containers|
    ensures forall k :: 0 <= k < |pod.containers| ==>
      r[2 * k] == Announce(pod.name, pod.containers[k]) && r[2 * k + 1] == StartReader(pod.name, pod.containers[k])
    decreases |pod.containers|
  {
    if |pod.containers| == 0 then []
    else
      var c := pod.containers[0];
      [Announce(pod.name, c), StartReader(pod.name, c)] + OnNewPodEvent(Pod(pod.name, pod.kind, pod.containers[1..]))
  }

  /** The marker printed before the k-th container of an added pod is
      "+ pod/container" on a line of its own; `puts` adds no line feed when
      the container name already ends with one. */
  lemma AnnouncementPrinted(pod: Pod, k: nat)
    requires k < |pod.containers|
    ensures var c := pod.containers[k];
      && OnNewPodEvent(pod)[2 * k].Announce?
      && (|c| == 0 || c[|c| - 1] != '\n' ==> AnnouncementText(OnNewPodEvent(pod)[2 * k]) == "+ " + pod.name + "/" + c + "\n")
      && (|c| > 0 && c[|c| - 1] == '\n' ==> AnnouncementText(OnNewPodEvent(pod)[2 * k]) == "+ " + pod.name + "/" + c)
  {
    var c := pod.containers[k];
    var line := "+ " + pod.name + "/" + c;
    assert line[|line| - 1] == (if |c| == 0 then '/' else c[|c| - 1]);
  }

  /** The reader starts among some actions, in order. */
  function StartsOf(xs: seq<Action>): (r: seq<Action>)
    ensures forall a :: a in r <==> a in xs && a.StartReader?
    decreases |xs|
  {
    if |xs| == 0 then []
    else (if xs[0].StartReader? then [xs[0]] else []) + StartsOf(xs[1..])
  }

  /** A pod added while watching gets the same readers, in the same order,
      as a pod found at start; only the announcements differ. */
  lemma {:induction false} NewPodEventStartsAsFound(pod: Pod)
    ensures StartsOf(OnNewPodEvent(pod)) == StartsFor(pod)
    decreases |pod.containers|
  {
    if |pod.containers| > 0 {
      var c := pod.containers[0];
      var rest := Pod(pod.name, pod.kind, pod.containers[1..]);
      NewPodEventStartsAsFound(rest);
      assert OnNewPodEvent(pod) == [Announce(pod.name, c), StartReader(pod.name, c)] + OnNewPodEvent(rest);
      StartsOfPair(pod.name, c, OnNewPodEvent(rest));
      StartsForFirst(pod);
    }
  }

  /** An announcement is skipped and the start after it kept. */
  lemma StartsOfPair(pod: string, container: string, tail: seq<Action>)
    ensures StartsOf([Announce(pod, container), StartReader(pod, container)] + tail)
      == [StartReader(pod, container)] + StartsOf(tail)
  {
    var xs := [Announce(pod, container), StartReader(pod, container)] + tail;
    assert xs[1..] == [StartReader(pod, container)] + tail;
    assert xs[1..][1..] == tail;
  }

  /** The first container's start comes first. */
  lemma StartsForFirst(pod: Pod)
    requires |pod.containers| > 0
    ensures StartsFor(pod) == [StartReader(pod.name, pod.containers[0])] + StartsFor(Pod(pod.name, pod.kind, pod.containers[1..]))
  {
    var rest := StartsFor(Pod(pod.name, pod.kind, pod.containers[1..]));
    var r := StartsFor(pod);
    assert r[0] == StartReader(pod.name, pod.containers[0]);
    assert |r[1..]| == |rest|;
    forall k | 0 <= k < |rest| ensures r[1..][k] == rest[k] {
      assert r[1..][k] == r[k + 1];
      assert pod.containers[1..][k] == pod.containers[k + 1];
    }
    assert r[1..] == rest;
    assert r == [r[0]] + r[1..];
  }

  /** The block given to `watch_pods`: only added pods whose name matches
      are acted upon. */
  function OnNotice(n: Notice, matches: Matcher, query: string): seq<Action> {
    if matches(query, n.resource.name) && IsNewPodEvent(n) then OnNewPodEvent(n.resource) else []
  }

  /** `watch_for_new_pod_events` over the events received until the stream
      ends. */
  function WatchForNewPodEvents(notices: seq<Notice>, matches: Matcher, query: string): seq<Action>
    decreases |notices|
  {
    if |notices| == 0 then [] else OnNotice(notices[0], matches, query) + WatchForNewPodEvents(notices[1..], matches, query)
  }

  /** Announcements and starts alternate, each start preceded by the
      announcement of the same pod and container. */
  predicate Paired(xs: seq<Action>)
    decreases |xs|
  {
    |xs| == 0 || (|xs| >= 2 && xs[0].Announce? && xs[1] == StartReader(xs[0].pod, xs[0].container) && Paired(xs[2..]))
  }

  lemma {:induction false} PairedAppend(a: seq<Action>, b: seq<Action>)
    requires Paired(a) && Paired(b)
    ensures Paired(a + b)
    decreases |a|
  {
    if |a| == 0 {
      assert a + b == b;
    } else {
      PairedAppend(a[2..], b);
      assert (a + b)[2..] == a[2..] + b;
    }
  }

  lemma {:induction false} NewPodEventPaired(pod: Pod)
    ensures Paired(OnNewPodEvent(pod))
    decreases |pod.containers|
  {
    if |pod.containers| > 0 {
      var rest := Pod(pod.name, pod.kind, pod.containers[1..]);
      NewPodEventPaired(rest);
      var r := OnNewPodEvent(pod);
      assert r[2..] == OnNewPodEvent(rest);
    }
  }

  /** Every reader started while watching was announced just before. */
  lemma {:induction false} WatchAnnouncesEachStart(notices: seq<Notice>, matches: Matcher, query: string)
    ensures Paired(WatchForNewPodEvents(notices, matches, query))
    decreases |notices|
  {
    if |notices| > 0 {
      if matches(query, notices[0].resource.name) && IsNewPodEvent(notices[0]) {
        NewPodEventPaired(notices[0].resource);
      }
      WatchAnnouncesEachStart(notices[1..], matches, query);
      PairedAppend(OnNotice(notices[0], matches, query), WatchForNewPodEvents(notices[1..], matches, query));
    }
  }

  lemma {:induction false} NewPodEventMembership(pod: Pod, container: string)
    ensures StartReader(pod.name, container) in OnNewPodEvent(pod) <==> container in pod.containers
    ensures forall a :: a in OnNewPodEvent(pod) ==> a.pod == pod.name
    decreases |pod.containers|
  {
    if |pod.containers| > 0 {
      var rest := Pod(pod.name, pod.kind, pod.containers[1..]);
      NewPodEventMembership(rest, container);
      assert container in pod.containers <==> container == pod.containers[0] || container in pod.containers[1..] by {
        assert pod.containers == [pod.containers[0]] + pod.containers[1..];
      }
    }
  }

  /** While watching, a reader is started for a container exactly when an
      event added a matching pod with that container. */
  lemma {:induction false} WatchStartsExactlyAddedMatches(notices: seq<Notice>, matches: Matcher, query: string, pod: string, container: string)
    ensures StartReader(pod, container) in WatchForNewPodEvents(notices, matches, query)
      <==> exists i :: 0 <= i < |notices| && matches(query, notices[i].resource.name) && IsNewPodEvent(notices[i])
             && notices[i].resource.name == pod && container in notices[i].resource.containers
    decreases |notices|
  {
    if |notices| > 0 {
      var n := notices[0];
      WatchStartsExactlyAddedMatches(notices[1..], matches, query, pod, container);
      NewPodEventMembership(n.resource, container);
      var x := StartReader(pod, container);
      assert x in OnNotice(n, matches, query) <==>
        matches(query, n.resource.name) && IsNewPodEvent(n) && n.resource.name == pod && container in n.resource.containers;
      if exists i :: 0 <= i < |notices| && matches(query, notices[i].resource.name) && IsNewPodEvent(notices[i])
             && notices[i].resource.name == pod && container in notices[i].resource.containers {
        var i :| 0 <= i < |notices| && matches(query, notices[i].resource.name) && IsNewPodEvent(notices[i])
             && notices[i].resource.name == pod && container in notices[i].resource.containers;
        if i > 0 {
          assert notices[1..][i - 1] == notices[i];
        }
      }
      if exists i :: 0 <= i < |notices[1..]| && matches(query, notices[1..][i].resource.name) && IsNewPodEvent(notices[1..][i])
             && notices[1..][i].resource.name == pod && container in notices[1..][i].resource.containers {
        var i :| 0 <= i < |notices[1..]| && matches(query, notices[1..][i].resource.name) && IsNewPodEvent(notices[1..][i])
             && notices[1..][i].resource.name == pod && container in notices[1..][i].resource.containers;
        assert notices[i + 1] == notices[1..][i];
      }
    }
  }

  // ---------------------------------------------------------------------------
  // read
  // ---------------------------------------------------------------------------

  /** `read`: when following, the watch over pod events runs first and
      blocks until its stream ends; then one reader is started per container
      of every pod that matched at start. */
  function Read(reader: PodsReader, matches: Matcher, pods: seq<Pod>, notices: seq<Notice>): seq<Action> {
    (if reader.opts.follow then WatchForNewPodEvents(notices, matches, reader.podQuery) else [])
      + StartAll(FindPods(pods, matches, reader.podQuery))
  }

  /** The readers started at start are those of the matching pods, and the
      events matter only when following. */
  lemma ReadStartsMatchingPods(reader: PodsReader, matches: Matcher, pods: seq<Pod>, notices: seq<Notice>, pod: string, container: string)
    ensures StartReader(pod, container) in Read(reader, matches, pods, notices)
      <==> ((reader.opts.follow && StartReader(pod, container) in WatchForNewPodEvents(notices, matches, reader.podQuery))
           || (exists p :: p in pods && matches(reader.podQuery, p.name) && p.name == pod && container in p.containers))
    ensures !reader.opts.follow ==> forall a :: a in Read(reader, matches, pods, notices) ==> a.StartReader?
  {
    var found := FindPods(pods, matches, reader.podQuery);
    StartAllMembership(found, pod, container);
    if exists p :: p in pods && matches(reader.podQuery, p.name) && p.name == pod && container in p.containers {
      var p :| p in pods && matches(reader.podQuery, p.name) && p.name == pod && container in p.containers;
      var i :| 0 <= i < |found| && found[i] == p;
    }
  }

  /** No pods and no events: nothing is started and nothing is printed. */
  lemma NothingFoundStartsNothing(reader: PodsReader, matches: Matcher)
    ensures Read(reader, matches, [], []) == []
  {
  }
}
