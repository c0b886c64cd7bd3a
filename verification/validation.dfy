/** The shared argument checks every constructor runs before it stores its
    arguments. Each check either passes or raises `ArgumentError` carrying
    the caller's message. */
module Validation {
  import opened Wrappers
  import opened RubyText
  import opened Values

  /** `raise_if_blank`: rejects `nil` and strings whose `strip` is empty. */
  function RaiseIfBlank(arg: Option<string>, message: string): (r: Outcome)
    ensures r == Pass <==> arg.Some? && !Blank(arg.value)
    ensures r != Pass ==> r == Fail(message)
  {
    StripEmptyIffBlank(if arg.Some? then arg.value else "");
    if arg.None? || Strip(arg.value) == "" then Fail(message) else Pass
  }

  /** `raise_if_nil`: rejects `nil` only. */
  function RaiseIfNil<T>(arg: Option<T>, message: string): (r: Outcome)
    ensures r == Pass <==> arg.Some?
    ensures r != Pass ==> r == Fail(message)
  {
    if arg.None? then Fail(message) else Pass
  }

  /** The message `validate_last_nb_lines` raises with. */
  function InvalidLastNbLines(v: Value): string {
    "Invalid last_nb_lines: " + ToS(v) + "."
  }

  /** `validate_last_nb_lines`: accepts exactly the positive Integers. */
  function ValidateLastNbLines(v: Value): (r: Outcome)
    ensures r == Pass <==> v.Int? && v.i >= 1
    ensures r != Pass ==> r == Fail(InvalidLastNbLines(v))
  {
    if v.Int? && v.i > 0 then Pass else Fail(InvalidLastNbLines(v))
  }

  /** A Float count is not an Integer, however whole: 5.0 is rejected, and
      the message shows it as Ruby prints it. */
  lemma FloatLinesRejected()
    ensures ValidateLastNbLines(Float(5.0, "5.0")) == Fail("Invalid last_nb_lines: " + "5.0" + ".")
  {
  }

  /** `validate_boolean`: accepts exactly `true` and `false`. */
  function ValidateBoolean(v: Value, message: string): (r: Outcome)
    ensures r == Pass <==> v == Bool(true) || v == Bool(false)
    ensures r != Pass ==> r == Fail(message)
  {
    if IsBoolean(v) then Pass else Fail(message)
  }

  /** Runs two checks in order: the first failure wins. */
  function AndThen(first: Outcome, second: Outcome): (r: Outcome)
    ensures first.Fail? ==> r == first
    ensures first.Pass? ==> r == second
  {
    if first.Fail? then first else second
  }

  /** The invalid strings of the test suites (`nil`, "", "   ") are rejected,
      while a name with a visible character surrounded by blanks is not. */
  lemma BlankExamples(message: string)
    ensures RaiseIfBlank(None, message) == Fail(message)
    ensures RaiseIfBlank(Some(""), message) == Fail(message)
    ensures RaiseIfBlank(Some("   "), message) == Fail(message)
    ensures RaiseIfBlank(Some(" pod\t"), message) == Pass
  {
    assert !IsStripSpace(" pod\t"[1]);
  }
}
