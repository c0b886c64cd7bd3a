/** The first generation of formatters, kept beside the current ones:
    a JSON formatter that prints "timestamp level message" and an identity
    formatter. */
module LegacyFormatters {
  import opened Wrappers
  import opened Json
  import Formatters

  /** `JsonFormatter#format` (first generation): the three fields separated
      by single spaces, or the line itself when it does not parse. */
  function JsonFormat(parse: Parser, log: string): string {
    match parse(log)
    case None => log
    case Some(o) => Field(o, "@timestamp") + " " + Field(o, "log.level") + " " + Field(o, "message")
  }

  /** `NoOpFormatter#format` (first generation): accepts every line,
      including "", and returns it unchanged. */
  function NoOpFormat(log: string): (r: string)
    ensures r == log
  {
    log
  }

  /** The text before the first space, and what follows that space. */
  function SplitAtSpace(s: string): (string, string)
    decreases |s|
  {
    if |s| == 0 then ("", "")
    else if s[0] == ' ' then ("", s[1..])
    else
      var (head, tail) := SplitAtSpace(s[1..]);
      ([s[0]] + head, tail)
  }

  lemma {:induction false} SplitAtSpaceOf(a: string, b: string)
    requires ' ' !in a
    ensures SplitAtSpace(a + " " + b) == (a, b)
    decreases |a|
  {
    if |a| == 0 {
      assert a + " " + b == [' '] + b;
    } else {
      assert a[0] in a;
      assert forall c :: c in a[1..] ==> c in a;
      SplitAtSpaceOf(a[1..], b);
      var s := a + " " + b;
      assert s[0] == a[0] != ' ';
      assert s[1..] == a[1..] + " " + b;
      assert [a[0]] + a[1..] == a;
    }
  }

  /** The fields come out in the fixed order timestamp, level, message, each
      followed by its separating space, even when a key is missing: as long
      as the timestamp and the level hold no space, splitting the output at
      its first two spaces recovers all three. */
  lemma JsonFieldsRecoverable(parse: Parser, log: string)
    requires parse(log).Some?
    requires ' ' !in Field(parse(log).value, "@timestamp")
    requires ' ' !in Field(parse(log).value, "log.level")
    ensures var o := parse(log).value;
      var (ts, rest) := SplitAtSpace(JsonFormat(parse, log));
      && ts == Field(o, "@timestamp")
      && SplitAtSpace(rest) == (Field(o, "log.level"), Field(o, "message"))
  {
    var o := parse(log).value;
    var ts, level, msg := Field(o, "@timestamp"), Field(o, "log.level"), Field(o, "message");
    assert JsonFormat(parse, log) == ts + " " + (level + " " + msg);
    SplitAtSpaceOf(ts, level + " " + msg);
    SplitAtSpaceOf(level, msg);
  }

  /** A line that does not parse comes back unchanged. */
  lemma JsonPassesUnparsedThrough(parse: Parser, log: string)
    requires parse(log).None?
    ensures JsonFormat(parse, log) == log
  {
  }

  /** The example of the first-generation formatter test. */
  lemma JsonExample(parse: Parser, log: string)
    requires parse(log).Some?
    requires Get(parse(log).value, "@timestamp") == JStr("2024-11-09T19:42:55.088Z")
    requires Get(parse(log).value, "log.level") == JStr("INFO")
    requires Get(parse(log).value, "message") == JStr("Time is 2024-11-09T19:42:55.088Z")
    ensures JsonFormat(parse, log) == "2024-11-09T19:42:55.088Z" + " INFO " + "Time is 2024-11-09T19:42:55.088Z"
  {
    assert "2024-11-09T19:42:55.088Z" + " " + "INFO" + " " + "Time is 2024-11-09T19:42:55.088Z"
      == "2024-11-09T19:42:55.088Z" + (" " + "INFO" + " ") + "Time is 2024-11-09T19:42:55.088Z";
  }

  /** Both identity formatters behave the same on every line. */
  lemma NoOpFormattersAgree(parse: Parser, log: string)
    ensures Formatters.Format(Formatters.NoOp, parse, log) == Success(NoOpFormat(log))
  {
  }
}
