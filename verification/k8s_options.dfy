/** `K8sOpts`: the options shared by every pod reader, checked once when
    they are built. */
module K8sOptions {
  import opened Wrappers
  import opened RubyText
  import opened Values
  import opened Validation

  const DefaultNamespace: string := "default"
  const DefaultNbLines: int := 10

  /** A validated set of options: a non-blank namespace, a positive line
      count and strict booleans. */
  datatype K8sOpts = K8sOpts(
    namespace: string,
    lastNbLines: int,
    follow: bool,
    raw: bool,
    displayNames: bool,
    excludes: seq<string>,
    mdcs: seq<string>)

  /** Every check of `validate`, in its order; the first failure wins. */
  function Check(namespace: Option<string>, lastNbLines: Value, follow: Value, raw: Value,
                 displayNames: Value, excludes: Option<seq<string>>, mdcs: Option<seq<string>>): Outcome
  {
    AndThen(RaiseIfBlank(namespace, "Namespace not set."),
    AndThen(ValidateLastNbLines(lastNbLines),
    AndThen(ValidateBoolean(follow, "Invalid follow: " + ToS(follow) + "."),
    AndThen(ValidateBoolean(raw, "Invalid raw: " + ToS(raw) + "."),
    AndThen(ValidateBoolean(displayNames, "Invalid display names: " + ToS(displayNames) + "."),
    AndThen(RaiseIfNil(excludes, "Excludes not set."),
            RaiseIfNil(mdcs, "MDCs not set.")))))))
  }

  /** `K8sOpts.new`: the options are accepted exactly when every field is
      valid, and the accessors then return the arguments unchanged. */
  function New(namespace: Option<string>, lastNbLines: Value, follow: Value, raw: Value,
               displayNames: Value, excludes: Option<seq<string>>, mdcs: Option<seq<string>>): (r: Result<K8sOpts>)
    ensures r.Success? <==>
      && namespace.Some? && !Blank(namespace.value)
      && lastNbLines.Int? && lastNbLines.i >= 1
      && IsBoolean(follow) && IsBoolean(raw) && IsBoolean(displayNames)
      && excludes.Some? && mdcs.Some?
    ensures r.Success? ==>
      && r.value.namespace == namespace.value && r.value.lastNbLines == lastNbLines.i
      && r.value.follow == follow.b && r.value.raw == raw.b && r.value.displayNames == displayNames.b
      && r.value.excludes == excludes.value && r.value.mdcs == mdcs.value
  {
    var check := Check(namespace, lastNbLines, follow, raw, displayNames, excludes, mdcs);
    if check.Fail? then Failure(check.error)
    else Success(K8sOpts(namespace.value, lastNbLines.i, follow.b, raw.b, displayNames.b, excludes.value, mdcs.value))
  }

  /** The options built when every keyword is left at its default. */
  function Defaults(): Result<K8sOpts> {
    New(Some(DefaultNamespace), Int(DefaultNbLines), Bool(false), Bool(false), Bool(false), Some([]), Some([]))
  }

  /** The defaults pass validation: namespace "default", 10 lines, every
      flag off, no exclusions and no MDC fields. */
  lemma DefaultsAreValid()
    ensures Defaults() == Success(K8sOpts("default", 10, false, false, false, [], []))
  {
    assert !Blank(DefaultNamespace) by { assert !IsStripSpace(DefaultNamespace[0]); }
  }

  /** The message of the first failing check, in the order namespace, line
      count, follow, raw, display names, excludes, MDCs. */
  lemma FirstFailureWins(namespace: Option<string>, lastNbLines: Value, follow: Value, raw: Value,
                         displayNames: Value, excludes: Option<seq<string>>, mdcs: Option<seq<string>>)
    ensures var r := New(namespace, lastNbLines, follow, raw, displayNames, excludes, mdcs);
      if namespace.None? || Blank(namespace.value) then r == Failure("Namespace not set.")
      else if !(lastNbLines.Int? && lastNbLines.i >= 1) then r == Failure(InvalidLastNbLines(lastNbLines))
      else if !IsBoolean(follow) then r == Failure("Invalid follow: " + ToS(follow) + ".")
      else if !IsBoolean(raw) then r == Failure("Invalid raw: " + ToS(raw) + ".")
      else if !IsBoolean(displayNames) then r == Failure("Invalid display names: " + ToS(displayNames) + ".")
      else if excludes.None? then r == Failure("Excludes not set.")
      else if mdcs.None? then r == Failure("MDCs not set.")
      else r.Success?
  {
    var r := New(namespace, lastNbLines, follow, raw, displayNames, excludes, mdcs);
    var c1 := RaiseIfBlank(namespace, "Namespace not set.");
    var c2 := ValidateLastNbLines(lastNbLines);
    var c3 := ValidateBoolean(follow, "Invalid follow: " + ToS(follow) + ".");
    var c4 := ValidateBoolean(raw, "Invalid raw: " + ToS(raw) + ".");
    var c5 := ValidateBoolean(displayNames, "Invalid display names: " + ToS(displayNames) + ".");
    var c6 := RaiseIfNil(excludes, "Excludes not set.");
    var c7 := RaiseIfNil(mdcs, "MDCs not set.");
    var c := Check(namespace, lastNbLines, follow, raw, displayNames, excludes, mdcs);
    assert c == AndThen(c1, AndThen(c2, AndThen(c3, AndThen(c4, AndThen(c5, AndThen(c6, c7))))));
    assert r == if c.Fail? then Failure(c.error) else r;
  }

  /** A line count of zero is rejected with the value in the message. */
  lemma ZeroLinesRejected()
    ensures New(Some("some-namespace"), Int(0), Bool(false), Bool(false), Bool(false), Some([]), Some([]))
      == Failure("Invalid last_nb_lines: " + "0" + ".")
  {
    assert !Blank("some-namespace") by { assert !IsStripSpace("some-namespace"[0]); }
    assert NatToString(0) == [DigitChar(0)] == "0";
    assert ToS(Int(0)) == "0";
  }

  /** A negative line count is rejected with its sign in the message. */
  lemma NegativeLinesRejected()
    ensures New(Some("some-namespace"), Int(-1), Bool(false), Bool(false), Bool(false), Some([]), Some([]))
      == Failure("Invalid last_nb_lines: " + "-1" + ".")
  {
    assert !Blank("some-namespace") by { assert !IsStripSpace("some-namespace"[0]); }
    assert NatToString(1) == [DigitChar(1)] == "1";
    assert ToS(Int(-1)) == "-1";
  }
}
