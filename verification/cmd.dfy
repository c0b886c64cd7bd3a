/** Command-line handling: choosing between help, version and the file
    command, and turning the arguments of the pod command into a
    first-generation pod reader. */
module Cmd {
  import opened Wrappers
  import opened RubyText
  import opened Values
  import LegacyReaders

  const DefaultNbLines: int := 10
  const DefaultNamespace: string := "default"
  const NamespaceFlags: seq<string> := ["-n", "--namespace"]
  const TailFlag: string := "--tail"
  const FollowFlags: seq<string> := ["-f", "--follow"]
  const HelpFlags: seq<string> := ["-h", "--help"]
  const VersionFlags: seq<string> := ["-v", "--version"]

  // ---------------------------------------------------------------------------
  // Argument search
  // ---------------------------------------------------------------------------

  /** The position of the first argument that is one of `flags`. */
  function FindFlag(args: seq<string>, flags: seq<string>): (r: Option<nat>)
    ensures r.None? <==> forall k :: 0 <= k < |args| ==> args[k] !in flags
    ensures r.Some? ==> r.value < |args| && args[r.value] in flags
    ensures r.Some? ==> forall j :: 0 <= j < r.value ==> args[j] !in flags
    decreases |args|
  {
    if |args| == 0 then None
    else if args[0] in flags then Some(0)
    else
      match FindFlag(args[1..], flags)
      case None => None
      case Some(i) => Some(i + 1)
  }

  /** The search result is characterised by its contract: the first
      position holding a flag. */
  lemma FindFlagAt(args: seq<string>, flags: seq<string>, k: nat)
    requires k < |args| && args[k] in flags
    requires forall j :: 0 <= j < k ==> args[j] !in flags
    ensures FindFlag(args, flags) == Some(k)
  {
  }

  /** The argument right after the first of `flags`, if there is one. */
  function ValueAfter(args: seq<string>, flags: seq<string>): (r: Option<string>)
    requires FindFlag(args, flags).Some?
    ensures var i := FindFlag(args, flags).value;
      (r.Some? <==> i + 1 < |args|) && (r.Some? ==> r.value == args[i + 1])
  {
    var i := FindFlag(args, flags).value;
    if i + 1 < |args| then Some(args[i + 1]) else None
  }

  // ---------------------------------------------------------------------------
  // Cmd::K8s
  // ---------------------------------------------------------------------------

  /** `parse_pod_name`: the first argument that does not start with '-'. */
  function ParsePodName(args: seq<string>): (r: Option<string>)
    ensures r.None? <==> forall k :: 0 <= k < |args| ==> StartsWith(args[k], "-")
    ensures r.Some? ==> r.value in args && !StartsWith(r.value, "-")
    decreases |args|
  {
    if |args| == 0 then None
    else if !StartsWith(args[0], "-") then Some(args[0])
    else ParsePodName(args[1..])
  }

  /** The pod name is the first argument without a leading '-', even when a
      later one would be meant (as in `--tail 3 some-pod`). */
  lemma {:induction false} PodNameIsFirstPlainArgument(args: seq<string>, k: nat)
    requires k < |args| && !StartsWith(args[k], "-")
    requires forall j :: 0 <= j < k ==> StartsWith(args[j], "-")
    ensures ParsePodName(args) == Some(args[k])
    decreases k
  {
    if k > 0 {
      assert StartsWith(args[0], "-");
      assert args[1..][k - 1] == args[k];
      forall j | 0 <= j < k - 1 ensures StartsWith(args[1..][j], "-") {
        assert args[1..][j] == args[j + 1];
      }
      PodNameIsFirstPlainArgument(args[1..], k - 1);
    }
  }

  /** The message raised for a namespace flag without value. */
  function MissingNamespace(): string {
    "Missing " + ToS(Arr([Str("-n"), Str("--namespace")])) + " value."
  }

  /** `parse_namespace`: "default" without a namespace flag; otherwise the
      argument after the first one, which must exist. */
  function ParseNamespace(args: seq<string>): (r: Result<string>)
    ensures FindFlag(args, NamespaceFlags).None? ==> r == Success(DefaultNamespace)
    ensures FindFlag(args, NamespaceFlags).Some? ==>
      var v := ValueAfter(args, NamespaceFlags);
      (v.None? ==> r == Failure(MissingNamespace())) && (v.Some? ==> r == Success(v.value))
  {
    if FindFlag(args, NamespaceFlags).None? then Success(DefaultNamespace)
    else
      match ValueAfter(args, NamespaceFlags)
      case None => Failure(MissingNamespace())
      case Some(v) => Success(v)
  }

  /** `parse_nb_lines`: 10 without `--tail`; otherwise the argument after
      the first `--tail`, which must exist and read as a non-zero Integer
      (negative counts pass here). */
  function ParseNbLines(args: seq<string>): (r: Result<int>)
    ensures TailFlag !in args ==> r == Success(DefaultNbLines)
    ensures TailFlag in args && ValueAfter(args, [TailFlag]).None? ==> r == Failure("Missing --tail value.")
    ensures TailFlag in args && ValueAfter(args, [TailFlag]).Some? ==>
      var raw := ValueAfter(args, [TailFlag]).value;
      (ToI(raw) == 0 ==> r == Failure("Invalid --tail value: " + raw + "."))
      && (ToI(raw) != 0 ==> r == Success(ToI(raw)))
    ensures r.Success? ==> r.value != 0
  {
    if TailFlag !in args then Success(DefaultNbLines)
    else
      match ValueAfter(args, [TailFlag])
      case None => Failure("Missing --tail value.")
      case Some(raw) =>
        var n := ToI(raw);
        if n == 0 then Failure("Invalid --tail value: " + raw + ".") else Success(n)
  }

  /** A count written with `to_s` after the first `--tail` is read back. */
  lemma TailValueRoundTrip(before: seq<string>, i: int, after: seq<string>)
    requires i != 0 && TailFlag !in before
    ensures ParseNbLines(before + [TailFlag, IntToString(i)] + after) == Success(i)
  {
    var args := before + [TailFlag, IntToString(i)] + after;
    assert args[|before|] == TailFlag;
    assert FindFlag(args, [TailFlag]) == Some(|before|) by {
      var r := FindFlag(args, [TailFlag]);
      assert r.Some?;
      assert forall j :: 0 <= j < |before| ==> args[j] == before[j];
    }
    ToIIntToString(i);
  }

  /** `parse_follow`: a follow flag anywhere. */
  function ParseFollow(args: seq<string>): (r: bool)
    ensures r <==> "-f" in args || "--follow" in args
  {
    FindFlag(args, FollowFlags).Some?
  }

  /** `K8s.create`: the four parsers in keyword order, then the reader's own
      validation. The client is taken as created. */
  function Create(args: seq<string>): (r: Result<LegacyReaders.PodReader>)
    ensures ParseNamespace(args).Failure? ==> r == Failure(ParseNamespace(args).error)
    ensures ParseNamespace(args).Success? && ParseNbLines(args).Failure? ==> r == Failure(ParseNbLines(args).error)
    ensures r.Success? ==>
      && Some(r.value.podName) == ParsePodName(args)
      && Success(r.value.namespace) == ParseNamespace(args)
      && Success(r.value.lastNbLines as int) == ParseNbLines(args)
      && r.value.follow == ParseFollow(args)
    ensures ParseNamespace(args).Success? && ParseNbLines(args).Success? ==>
      var pod := ParsePodName(args);
      var namespace := ParseNamespace(args).value;
      var n := ParseNbLines(args).value;
      && (r.Success? <==> pod.Some? && !Blank(pod.value) && !Blank(namespace) && n > 0)
      && (pod.None? || Blank(pod.value) ==> r == Failure("Pod name not set."))
      && (pod.Some? && !Blank(pod.value) && Blank(namespace) ==> r == Failure("Namespace not set."))
      && (pod.Some? && !Blank(pod.value) && !Blank(namespace) && n <= 0
          ==> r == Failure("Invalid last_nb_lines: " + IntToString(n) + "."))
  {
    var podName := ParsePodName(args);
    match ParseNamespace(args)
    case Failure(e) => Failure(e)
    case Success(namespace) =>
      match ParseNbLines(args)
      case Failure(e) => Failure(e)
      case Success(n) =>
        LegacyReaders.New(true, podName, Some(namespace), Int(n), Bool(ParseFollow(args)))
  }

  /** A pod name alone gives the defaults. */
  lemma CreateWithDefaults()
    ensures Create(["some-pod"]) == Success(LegacyReaders.PodReader("some-pod", "default", 10, false))
  {
    var args := ["some-pod"];
    assert !StartsWith("some-pod", "-");
    assert FindFlag(args, NamespaceFlags).None?;
    assert !Blank("some-pod") by { assert !IsStripSpace("some-pod"[0]); }
    assert !Blank("default") by { assert !IsStripSpace("default"[0]); }
  }

  /** `--tail` without value is reported. */
  lemma MissingTailValue()
    ensures Create(["some-pod", "--tail"]) == Failure("Missing --tail value.")
  {
    var args := ["some-pod", "--tail"];
    assert FindFlag(args, NamespaceFlags).None?;
    assert FindFlag(args, [TailFlag]) == Some(1);
  }

  /** A `--tail` value without digits reads as 0 and is rejected as
      written. */
  lemma InvalidTailValue()
    ensures Create(["some-pod", "--tail", "invalid"]) == Failure("Invalid --tail value: " + "invalid" + ".")
  {
    var args := ["some-pod", "--tail", "invalid"];
    assert FindFlag(args, NamespaceFlags).None?;
    assert FindFlag(args, [TailFlag]) == Some(1);
    assert !IsLeadingSpace("invalid"[0]) && !IsDigit("invalid"[0]);
    assert ToI("invalid") == 0;
  }

  /** A negative `--tail` value parses as written. */
  lemma NegativeTailParsed(args: seq<string>)
    requires args == ["some-pod", "--tail", "-3"]
    ensures ParseNbLines(args) == Success(-3)
  {
    assert args[1] == TailFlag;
    assert FindFlag(args, [TailFlag]) == Some(1);
    MinusThreeText();
    ToIIntToString(-3);
  }

  lemma MinusThreeText()
    ensures IntToString(-3) == "-3"
  {
    assert NatToString(3) == [DigitChar(3)] == "3";
  }

  /** A negative `--tail` value parses, and the reader then rejects it. */
  lemma NegativeTailRejected(args: seq<string>)
    requires args == ["some-pod", "--tail", "-3"]
    ensures Create(args) == Failure("Invalid last_nb_lines: " + "-3" + ".")
  {
    assert !StartsWith(args[0], "-") by { assert args[0][0] == 's'; }
    assert ParsePodName(args) == Some("some-pod");
    assert FindFlag(args, NamespaceFlags).None?;
    assert ParseNamespace(args) == Success("default");
    NegativeTailParsed(args);
    assert !Blank("some-pod") by { assert !IsStripSpace("some-pod"[0]); }
    assert !Blank("default") by { assert !IsStripSpace("default"[0]); }
    MinusThreeText();
  }

  /** A follow flag alone names no pod. */
  lemma FollowFlagAloneNamesNoPod()
    ensures Create(["-f"]) == Failure("Pod name not set.")
  {
    var args := ["-f"];
    assert StartsWith("-f", "-");
    assert FindFlag(args, NamespaceFlags).None?;
    assert TailFlag !in args;
  }

  /** `to_i` skips a "0d" radix prefix, so `--tail 0d5` asks for five
      lines. */
  lemma TailWithDecimalPrefix(args: seq<string>)
    requires args == ["some-pod", "--tail", "0d5"]
    ensures ParseNbLines(args) == Success(5)
  {
    assert args[1] == TailFlag;
    assert FindFlag(args, [TailFlag]) == Some(1);
    DecimalPrefixSkipped("5");
    assert "0d" + "5" == "0d5";
    assert DigitsValue("5") == 5;
  }

  /** What each parser makes of the full set of flags of the test suite. */
  lemma AllFlagsParsed(args: seq<string>)
    requires args == ["some-pod", "--tail", "3", "--follow", "--namespace", "some-namespace"]
    ensures ParsePodName(args) == Some("some-pod")
    ensures ParseNamespace(args) == Success("some-namespace")
    ensures ParseNbLines(args) == Success(3)
    ensures ParseFollow(args)
  {
    assert !StartsWith(args[0], "-") by { assert args[0][0] == 's'; }
    PodNameIsFirstPlainArgument(args, 0);
    NamespaceOfAllFlags(args);
    TailOfAllFlags(args);
    FollowOfAllFlags(args);
  }

  /** The `--follow` of the full set of flags. */
  lemma FollowOfAllFlags(args: seq<string>)
    requires args == ["some-pod", "--tail", "3", "--follow", "--namespace", "some-namespace"]
    ensures ParseFollow(args)
  {
    assert args[3] == "--follow";
  }

  /** The `--namespace some-namespace` of the full set of flags. */
  lemma NamespaceOfAllFlags(args: seq<string>)
    requires args == ["some-pod", "--tail", "3", "--follow", "--namespace", "some-namespace"]
    ensures ParseNamespace(args) == Success("some-namespace")
  {
    FindFlagAt(args, NamespaceFlags, 4);
    assert ValueAfter(args, NamespaceFlags) == Some("some-namespace");
  }

  /** The `--tail 3` of the full set of flags. */
  lemma TailOfAllFlags(args: seq<string>)
    requires args == ["some-pod", "--tail", "3", "--follow", "--namespace", "some-namespace"]
    ensures ParseNbLines(args) == Success(3)
  {
    FindFlagAt(args, [TailFlag], 1);
    assert ValueAfter(args, [TailFlag]) == Some("3");
    assert IntToString(3) == "3" by { assert NatToString(3) == [DigitChar(3)]; }
    ToIIntToString(3);
  }

  /** The full set of flags of the test suite. */
  lemma CreateWithAllFlags(args: seq<string>)
    requires args == ["some-pod", "--tail", "3", "--follow", "--namespace", "some-namespace"]
    ensures Create(args) == Success(LegacyReaders.PodReader("some-pod", "some-namespace", 3, true))
  {
    AllFlagsParsed(args);
    assert !Blank("some-pod") by { assert !IsStripSpace("some-pod"[0]); }
    assert !Blank("some-namespace") by { assert !IsStripSpace("some-namespace"[0]); }
    var r := LegacyReaders.New(true, Some("some-pod"), Some("some-namespace"), Int(3), Bool(true));
    assert r == Success(LegacyReaders.PodReader("some-pod", "some-namespace", 3, true));
    assert Create(args) == r;
  }

  /** The missing-namespace message spells out both flags. */
  lemma MissingNamespaceText()
    ensures MissingNamespace() == "Missing [\"-n\", \"--namespace\"] value."
  {
    FlagListInterpolation();
  }

  /** A namespace flag without value is reported with both spellings. */
  lemma MissingNamespaceValue(args: seq<string>)
    requires args == ["some-pod", "-n"]
    ensures Create(args) == Failure("Missing [\"-n\", \"--namespace\"] value.")
  {
    assert FindFlag(args, NamespaceFlags) == Some(1);
    MissingNamespaceText();
  }

  // ---------------------------------------------------------------------------
  // Help, version and the dispatcher
  // ---------------------------------------------------------------------------

  /** `Help.applicable?`: no arguments at all, or a help flag anywhere. */
  function HelpApplicable(args: seq<string>): (r: bool)
    ensures r <==> |args| == 0 || "-h" in args || "--help" in args
  {
    |args| == 0 || FindFlag(args, HelpFlags).Some?
  }

  /** `Version.applicable?`: a version flag anywhere; never for no
      arguments. */
  function VersionApplicable(args: seq<string>): (r: bool)
    ensures r <==> "-v" in args || "--version" in args
    ensures |args| == 0 ==> !r
  {
    FindFlag(args, VersionFlags).Some?
  }

  /** The arguments of the test suite, with and without a help flag. */
  lemma HelpExamples()
    ensures HelpApplicable([]) && HelpApplicable(["-h"]) && HelpApplicable(["--help"])
    ensures HelpApplicable(["--some-flag", "-h"]) && HelpApplicable(["-h", "--some-flag"])
    ensures !HelpApplicable(["foobar"]) && !HelpApplicable(["--version"]) && !HelpApplicable(["foobar", "--follow"])
  {
    assert ["--some-flag", "-h"][1] == "-h";
  }

  /** Neither check depends on the order of the arguments. */
  lemma ApplicabilityIgnoresOrder(a: seq<string>, b: seq<string>)
    requires multiset(a) == multiset(b)
    ensures HelpApplicable(a) == HelpApplicable(b)
    ensures VersionApplicable(a) == VersionApplicable(b)
  {
    assert forall x :: x in a <==> x in multiset(a);
    assert forall x :: x in b <==> x in multiset(b);
    assert |a| == |multiset(a)| && |b| == |multiset(b)|;
  }

  /** `Version#execute` prints the version followed by a line feed. */
  function VersionOutput(version: string): (r: string)
    ensures |version| > 0 && version[|version| - 1] != '\n' ==> r == version + "\n"
  {
    Puts(version)
  }

  /** What `OptsParser#parse` returns. */
  datatype Command = ShowHelp | ShowVersion | ReadFile(args: seq<string>)

  /** `OptsParser#parse`: help wins over version, which wins over the file
      command. */
  function Parse(args: seq<string>): (r: Command)
    ensures r == ShowHelp <==> HelpApplicable(args)
    ensures r == ShowVersion <==> !HelpApplicable(args) && VersionApplicable(args)
    ensures r.ReadFile? <==> !HelpApplicable(args) && !VersionApplicable(args)
    ensures r.ReadFile? ==> r.args == args
  {
    if HelpApplicable(args) then ShowHelp
    else if VersionApplicable(args) then ShowVersion
    else ReadFile(args)
  }

  /** The dispatch cases of the test suite. */
  lemma ParseExamples()
    ensures Parse([]) == ShowHelp
    ensures Parse(["-v", "-h"]) == ShowHelp
    ensures Parse(["some-pod", "--version"]) == ShowVersion
    ensures Parse(["--some-flag", "-v"]) == ShowVersion
    ensures Parse(["foobar", "--follow"]) == ReadFile(["foobar", "--follow"])
  {
    assert ["-v", "-h"][1] == "-h";
    assert ["some-pod", "--version"][1] == "--version";
    assert ["--some-flag", "-v"][1] == "-v";
  }
}
