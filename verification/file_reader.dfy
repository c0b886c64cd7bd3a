/** `FileReader`: prints the last lines of a local file and, when asked to
    follow it, whatever is appended afterwards. The file system is a
    parameter: the file's content, whether it exists and its modification
    times are given to the model rather than read. */
module FileReader {
  import opened Wrappers
  import opened RubyText
  import opened Values
  import opened Validation

  // ---------------------------------------------------------------------------
  // Construction
  // ---------------------------------------------------------------------------

  /** A validated reader: an existing file, a positive line count, a flag. */
  datatype Reader = Reader(filepath: string, lastNbLines: nat, follow: bool)

  /** `FileReader.new`: the file must exist, then the line count must be a
      positive Integer, then `follow` must be a boolean. */
  function New(filepath: string, fileExists: bool, lastNbLines: Value, follow: Value): (r: Result<Reader>)
    ensures r.Success? <==> fileExists && lastNbLines.Int? && lastNbLines.i >= 1 && IsBoolean(follow)
    ensures r.Success? ==> r.value == Reader(filepath, lastNbLines.i, follow.b)
    ensures !fileExists ==> r == Failure(filepath + " not found")
    ensures fileExists && !(lastNbLines.Int? && lastNbLines.i >= 1) ==> r == Failure(InvalidLastNbLines(lastNbLines))
    ensures fileExists && lastNbLines.Int? && lastNbLines.i >= 1 && !IsBoolean(follow)
      ==> r == Failure("Invalid follow: " + ToS(follow) + ".")
  {
    if !fileExists then Failure(filepath + " not found")
    else
      var check := AndThen(ValidateLastNbLines(lastNbLines),
                           ValidateBoolean(follow, "Invalid follow: " + ToS(follow) + "."));
      if check.Fail? then Failure(check.error)
      else Success(Reader(filepath, lastNbLines.i, follow.b))
  }

  // ---------------------------------------------------------------------------
  // The last N lines
  // ---------------------------------------------------------------------------

  /** The number of line feeds in `s`. */
  function NewlineCount(s: string): (r: nat)
    ensures r <= |s|
  {
    if |s| == 0 then 0 else (if s[0] == '\n' then 1 else 0) + NewlineCount(s[1..])
  }

  /** Counting from position `i` adds the character at `i` to the count from
      `i + 1`. */
  lemma NewlineCountStep(s: string, i: nat)
    requires i < |s|
    ensures NewlineCount(s[i..]) == (if s[i] == '\n' then 1 else 0) + NewlineCount(s[i + 1..])
  {
    assert s[i..][1..] == s[i + 1..];
  }

  /** Counting from a later position never counts more. */
  lemma {:induction false} NewlineCountMonotone(s: string, i: nat, j: nat)
    requires i <= j <= |s|
    ensures NewlineCount(s[j..]) <= NewlineCount(s[i..])
    decreases j - i
  {
    if i < j {
      NewlineCountStep(s, i);
      NewlineCountMonotone(s, i + 1, j);
    }
  }

  /** Where the printed tail of a non-empty file starts: right after the line
      feed that leaves exactly `n` line feeds behind it, or at the beginning
      when the file (its first character aside) holds no more than `n`. The
      first character is never inspected, since the scan stops once the
      cursor reaches offset 0. */
  predicate IsTailStart(content: string, n: nat, start: nat) {
    || (start == 0 && |content| > 0 && NewlineCount(content[1..]) <= n)
    || (2 <= start <= |content| && content[start - 1] == '\n' && NewlineCount(content[start..]) == n)
  }

  /** At most one start qualifies. */
  lemma TailStartUnique(content: string, n: nat, s1: nat, s2: nat)
    requires IsTailStart(content, n, s1) && IsTailStart(content, n, s2)
    ensures s1 == s2
  {
    if s1 != s2 {
      if s1 == 0 || s2 == 0 {
        var s := if s1 == 0 then s2 else s1;
        NewlineCountStep(content, s - 1);
        NewlineCountMonotone(content, 1, s - 1);
      } else {
        var lo, hi := if s1 < s2 then s1 else s2, if s1 < s2 then s2 else s1;
        NewlineCountStep(content, hi - 1);
        NewlineCountMonotone(content, lo, hi - 1);
      }
    }
  }

  /** `read_last_nb_lines`: steps a cursor back from the end of the file one
      character at a time, counting line feeds, and stops either once it has
      passed `n + 1` of them or when it reaches the first character; then it
      `puts` everything after the cursor. An empty file prints nothing.
      `inspected` counts the characters read: those from the line feed just
      before the start to the end, and never the first character. */
  method ReadLastNbLines(content: string, n: nat) returns (start: nat, printed: string, inspected: nat)
    ensures |content| == 0 ==> start == 0 && printed == "" && inspected == 0
    ensures |content| > 0 ==> IsTailStart(content, n, start) && start <= |content|
    ensures |content| > 0 ==> printed == Puts(content[start..])
    ensures |content| > 0 ==> inspected == |content| - (if start == 0 then 1 else start - 1)
    ensures |content| > 0 ==> inspected <= |content| - 1
  {
    if |content| == 0 {
      return 0, "", 0;
    }
    var pos: int := 0;
    var count: nat := 0;
    inspected := 0;
    while true
      invariant -|content| < pos <= 0
      invariant count == NewlineCount(content[|content| + pos..])
      invariant count <= n
      invariant inspected == -pos
      decreases |content| + pos
    {
      pos := pos - 1;
      var tell := |content| + pos;
      if tell == 0 {
        NewlineCountStep(content, 0);
        start := 0;
        break;
      }
      NewlineCountStep(content, tell);
      inspected := inspected + 1;
      if content[tell] == '\n' {
        count := count + 1;
      }
      if count > n {
        start := tell + 1;
        break;
      }
    }
    printed := Puts(content[start..]);
  }

  /** In an example file of five lines, the tail of three starts at the
      third line. */
  lemma FiveLinesTailStart(content: string)
    requires content == "a\nb\nc\nd\ne\n"
    ensures IsTailStart(content, 3, 4) && content[4..] == "c\nd\ne\n"
  {
    assert NewlineCount(content[9..]) == 1 by { NewlineCountStep(content, 9); assert content[10..] == []; }
    NewlineCountStep(content, 8);
    NewlineCountStep(content, 7);
    NewlineCountStep(content, 6);
    NewlineCountStep(content, 5);
    NewlineCountStep(content, 4);
  }

  /** The output for an example file of five lines when three are asked
      for. */
  method TailOfFiveLines(content: string) returns (printed: string)
    requires content == "a\nb\nc\nd\ne\n"
    ensures printed == "c\nd\ne\n"
  {
    var start, inspected;
    start, printed, inspected := ReadLastNbLines(content, 3);
    FiveLinesTailStart(content);
    TailStartUnique(content, 3, start, 4);
    assert printed == Puts("c\nd\ne\n");
  }

  /** A file with fewer lines than asked for is printed whole, and a missing
      final line feed is added. */
  lemma ShortFileIsPrintedWhole(content: string, n: nat)
    requires |content| > 0 && NewlineCount(content) <= n
    ensures IsTailStart(content, n, 0)
  {
    NewlineCountMonotone(content, 0, 1);
    assert content[0..] == content;
  }

  // ---------------------------------------------------------------------------
  // Following the file
  // ---------------------------------------------------------------------------

  /** What `file.stat.mtime` and `file.size` report. */
  datatype Stats = Stats(mtime: int, size: nat)

  /** What the reader knows while following: the last stats it recorded and
      the offset of its read cursor. */
  datatype Follow = Follow(stats: Stats, offset: nat)

  /** One look at the file: its content and modification time at that
      moment. */
  datatype Snapshot = Snapshot(content: string, mtime: int)

  function StatsOf(snap: Snapshot): Stats {
    Stats(snap.mtime, |snap.content|)
  }

  /** `file_changed?`: the modification time or the size differ from the
      recorded ones. */
  predicate FileChanged(f: Follow, snap: Snapshot) {
    f.stats != StatsOf(snap)
  }

  /** One pass of the follow loop: when the file changed, record its stats
      and print everything from the cursor to the end of the file (nothing
      when the cursor is already past it), leaving the cursor at the end. */
  function Poll(f: Follow, snap: Snapshot): (r: (Follow, string))
    ensures !FileChanged(f, snap) ==> r == (f, "")
    ensures FileChanged(f, snap) ==> r.0.stats == StatsOf(snap)
    ensures !FileChanged(r.0, snap)
    ensures FileChanged(f, snap) && f.offset <= |snap.content| ==>
      r.0.offset == |snap.content| == r.0.stats.size && snap.content == snap.content[..f.offset] + r.1
    ensures f.offset > |snap.content| ==> r.1 == "" && r.0.offset == f.offset
  {
    if !FileChanged(f, snap) then (f, "")
    else if f.offset <= |snap.content| then (Follow(StatsOf(snap), |snap.content|), snap.content[f.offset..])
    else (Follow(StatsOf(snap), f.offset), "")
  }

  /** Runs the follow loop over a sequence of looks at the file. */
  function PollAll(f: Follow, snaps: seq<Snapshot>): (Follow, string)
    decreases |snaps|
  {
    if |snaps| == 0 then (f, "")
    else
      var (f1, out1) := Poll(f, snaps[0]);
      var (f2, out2) := PollAll(f1, snaps[1..]);
      (f2, out1 + out2)
  }

  /** Each look sees the previous content with something appended. */
  predicate AppendOnly(c0: string, snaps: seq<Snapshot>) {
    && (|snaps| > 0 ==> c0 <= snaps[0].content)
    && (forall i :: 0 < i < |snaps| ==> snaps[i - 1].content <= snaps[i].content)
  }

  /** While the file only grows, following prints exactly what was appended
      after the cursor, once and in order, and leaves the cursor at the end
      of the last content seen. */
  lemma {:induction false} FollowPrintsAppended(f: Follow, c0: string, snaps: seq<Snapshot>)
    requires f.offset == f.stats.size == |c0| && |snaps| > 0 && AppendOnly(c0, snaps)
    ensures c0 <= snaps[|snaps| - 1].content
    ensures var last := snaps[|snaps| - 1].content;
      PollAll(f, snaps).1 == last[|c0|..] && PollAll(f, snaps).0.offset == |last|
    decreases |snaps|
  {
    AppendOnlyLast(c0, snaps);
    var snap := snaps[0];
    var (f1, out1) := Poll(f, snap);
    assert out1 == snap.content[|c0|..] && f1.offset == |snap.content| by {
      if !FileChanged(f, snap) {
        assert |snap.content| == f.offset;
        assert snap.content[|c0|..] == "";
      }
    }
    if |snaps| > 1 {
      assert AppendOnly(snap.content, snaps[1..]) by {
        assert snaps[1..][0] == snaps[1];
        forall i | 0 < i < |snaps[1..]|
          ensures snaps[1..][i - 1].content <= snaps[1..][i].content
        {
          assert snaps[1..][i - 1] == snaps[i] && snaps[1..][i] == snaps[i + 1];
        }
      }
      FollowPrintsAppended(f1, snap.content, snaps[1..]);
      var last := snaps[|snaps| - 1].content;
      assert snaps[1..][|snaps[1..]| - 1] == snaps[|snaps| - 1];
      assert snap.content <= last by { AppendOnlyLast(c0, snaps); }
      assert last[|c0|..] == snap.content[|c0|..] + last[|snap.content|..];
    } else {
      assert PollAll(f1, snaps[1..]) == (f1, "");
    }
  }

  /** The first look's content is a prefix of every later one. */
  lemma {:induction false} AppendOnlyLast(c0: string, snaps: seq<Snapshot>)
    requires |snaps| > 0 && AppendOnly(c0, snaps)
    ensures c0 <= snaps[0].content <= snaps[|snaps| - 1].content
  {
    var k := 0;
    while k < |snaps| - 1
      invariant 0 <= k < |snaps|
      invariant snaps[0].content <= snaps[k].content
    {
      assert snaps[k].content <= snaps[k + 1].content;
      k := k + 1;
    }
  }

  /** A look that finds the file untouched prints nothing and changes
      nothing. */
  lemma UnchangedFilePrintsNothing(f: Follow, content: string)
    requires f.stats.size == |content|
    ensures Poll(f, Snapshot(content, f.stats.mtime)) == (f, "")
  {
  }

  // ---------------------------------------------------------------------------
  // read
  // ---------------------------------------------------------------------------

  /** What `read_last_nb_lines` prints for a tail starting at `start`. */
  function TailText(content: string, start: nat): string
    requires start <= |content|
  {
    if |content| == 0 then "" else Puts(content[start..])
  }

  /** `read`: the last lines of the file as it is when opened and, when
      following, everything printed by the follow loop over the later looks
      at the file, then the empty line `puts ''` writes once the user
      interrupts it. While the file only grows, what follows the tail is
      exactly the appended text. */
  method Read(reader: Reader, initial: Snapshot, later: seq<Snapshot>) returns (start: nat, output: string)
    ensures |initial.content| > 0 ==> IsTailStart(initial.content, reader.lastNbLines, start)
    ensures start <= |initial.content|
    ensures !reader.follow ==> output == TailText(initial.content, start)
    ensures reader.follow && |later| == 0 ==> output == TailText(initial.content, start) + "\n"
    ensures reader.follow && |later| > 0 && AppendOnly(initial.content, later) ==>
      initial.content <= later[|later| - 1].content &&
      output == TailText(initial.content, start) + later[|later| - 1].content[|initial.content|..] + "\n"
  {
    var printed, inspected;
    start, printed, inspected := ReadLastNbLines(initial.content, reader.lastNbLines);
    output := printed;
    if reader.follow {
      var f := Follow(StatsOf(initial), |initial.content|);
      var (_, appended) := PollAll(f, later);
      if |later| > 0 && AppendOnly(initial.content, later) {
        FollowPrintsAppended(f, initial.content, later);
      }
      output := output + appended + "\n";
    }
  }
}
