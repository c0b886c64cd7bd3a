/** The pieces of Ruby's String behaviour the tailer relies on: `strip`,
    `start_with?`, `include?`, `split("\n")`, `Integer#to_s`, `String#to_i`
    and the newline that `puts` appends. */
module RubyText {

  // ---------------------------------------------------------------------------
  // Whitespace, strip and blank strings
  // ---------------------------------------------------------------------------

  /** The characters `String#strip` removes: NUL, tab, line feed, vertical
      tab, form feed, carriage return and space. */
  predicate IsStripSpace(c: char) {
    c == '\0' || c == '\t' || c == '\n' || c == '\U{0B}' || c == '\U{0C}' || c == '\r' || c == ' '
  }

  /** The characters `String#to_i` skips before the number (C `isspace`). */
  predicate IsLeadingSpace(c: char) {
    c == '\t' || c == '\n' || c == '\U{0B}' || c == '\U{0C}' || c == '\r' || c == ' '
  }

  /** Reference notion: every character of `s` is whitespace. */
  predicate Blank(s: string) {
    forall i :: 0 <= i < |s| ==> IsStripSpace(s[i])
  }

  function LStrip(s: string): (r: string)
    ensures |r| <= |s| && r == s[|s| - |r|..]
    ensures |r| > 0 ==> !IsStripSpace(r[0])
    ensures Blank(s[..|s| - |r|])
  {
    if |s| > 0 && IsStripSpace(s[0]) then
      var r := LStrip(s[1..]);
      assert s[1..][..|s[1..]| - |r|] == s[1..|s| - |r|];
      r
    else s
  }

  function RStrip(s: string): (r: string)
    ensures |r| <= |s| && r == s[..|r|]
    ensures |r| > 0 ==> !IsStripSpace(r[|r| - 1])
    ensures Blank(s[|r|..])
  {
    if |s| > 0 && IsStripSpace(s[|s| - 1]) then
      var r := RStrip(s[..|s| - 1]);
      assert s[..|s| - 1][|r|..] == s[|r|..|s| - 1];
      r
    else s
  }

  /** `String#strip`: the infix left once leading and trailing whitespace is
      removed. */
  function Strip(s: string): (r: string)
    ensures |r| > 0 ==> !IsStripSpace(r[0]) && !IsStripSpace(r[|r| - 1])
  {
    RStrip(LStrip(s))
  }

  /** `s.strip.empty?` holds exactly for the strings made only of whitespace. */
  lemma StripEmptyIffBlank(s: string)
    ensures Strip(s) == [] <==> Blank(s)
  {
    var l := LStrip(s);
    if Strip(s) == [] {
      assert Blank(l[0..]);
      assert l[0..] == l;
      assert |l| == 0;
      assert s[..|s|] == s;
    } else {
      var r := Strip(s);
      assert r == l[..|r|];
      assert l == s[|s| - |l|..];
      assert r[0] == s[|s| - |l|];
    }
  }

  // ---------------------------------------------------------------------------
  // Prefixes and substrings
  // ---------------------------------------------------------------------------

  /** `s.start_with?(p)`. */
  predicate StartsWith(s: string, p: string) {
    |p| <= |s| && s[..|p|] == p
  }

  /** `s.include?(sub)`, computed by trying every start position in turn. */
  predicate Contains(s: string, sub: string)
    decreases |s|
  {
    StartsWith(s, sub) || (|s| > 0 && Contains(s[1..], sub))
  }

  /** Reference notion: `sub` occurs in `s` at offset `i`. */
  predicate OccursAt(s: string, sub: string, i: int) {
    0 <= i && i + |sub| <= |s| && s[i..i + |sub|] == sub
  }

  /** The scanning definition of `include?` agrees with "occurs at some offset". */
  lemma {:induction false} ContainsIffOccurs(s: string, sub: string)
    ensures Contains(s, sub) <==> exists i :: OccursAt(s, sub, i)
    decreases |s|
  {
    if StartsWith(s, sub) {
      assert OccursAt(s, sub, 0);
    } else if |s| == 0 {
    } else {
      ContainsIffOccurs(s[1..], sub);
      if Contains(s[1..], sub) {
        var i :| OccursAt(s[1..], sub, i);
        assert s[1..][i..i + |sub|] == s[i + 1..i + 1 + |sub|];
        assert OccursAt(s, sub, i + 1);
      }
      if exists i :: OccursAt(s, sub, i) {
        var i :| OccursAt(s, sub, i);
        assert i != 0;
        assert s[1..][i - 1..i - 1 + |sub|] == s[i..i + |sub|];
        assert OccursAt(s[1..], sub, i - 1);
      }
    }
  }

  // ---------------------------------------------------------------------------
  // split("\n")
  // ---------------------------------------------------------------------------

  /** Every field between two line feeds, including empty ones and the field
      after the last line feed; "" has the single empty field. */
  function Fields(s: string): (r: seq<string>)
    ensures |r| > 0
    decreases |s|
  {
    if |s| == 0 then [""]
    else
      var rest := Fields(s[1..]);
      if s[0] == '\n' then [""] + rest
      else [[s[0]] + rest[0]] + rest[1..]
  }

  /** Ruby drops trailing empty fields from the result of `split`. */
  function DropTrailingEmpty(xs: seq<string>): (r: seq<string>)
    ensures |r| <= |xs| && r == xs[..|r|]
    ensures |r| > 0 ==> r[|r| - 1] != ""
    ensures forall i :: |r| <= i < |xs| ==> xs[i] == ""
  {
    if |xs| > 0 && xs[|xs| - 1] == "" then DropTrailingEmpty(xs[..|xs| - 1]) else xs
  }

  /** `s.split("\n")`. */
  function Split(s: string): seq<string> {
    DropTrailingEmpty(Fields(s))
  }

  /** Re-inserts a line feed between consecutive fields. */
  function JoinLines(xs: seq<string>): string
    requires |xs| > 0
  {
    if |xs| == 1 then xs[0] else xs[0] + "\n" + JoinLines(xs[1..])
  }

  /** No field holds a line feed. */
  lemma {:induction false} FieldsHaveNoNewline(s: string)
    ensures forall k :: 0 <= k < |Fields(s)| ==> '\n' !in Fields(s)[k]
    decreases |s|
  {
    if |s| > 0 {
      FieldsHaveNoNewline(s[1..]);
    }
  }

  /** Joining the fields with line feeds gives back the string. */
  lemma {:induction false} JoinFields(s: string)
    ensures JoinLines(Fields(s)) == s
    decreases |s|
  {
    if |s| > 0 {
      var rest := Fields(s[1..]);
      JoinFields(s[1..]);
      if s[0] == '\n' {
        assert Fields(s)[1..] == rest;
        assert s == [s[0]] + s[1..];
      } else {
        JoinHead(rest, [s[0]]);
        assert s == [s[0]] + s[1..];
      }
    }
  }

  lemma {:induction false} JoinHead(xs: seq<string>, p: string)
    requires |xs| > 0
    ensures JoinLines([p + xs[0]] + xs[1..]) == p + JoinLines(xs)
  {
    var ys := [p + xs[0]] + xs[1..];
    if |xs| > 1 {
      assert ys[1..] == xs[1..];
    }
  }

  /** Every fragment of `split("\n")` is free of line feeds. */
  lemma SplitHasNoNewline(s: string)
    ensures forall k :: 0 <= k < |Split(s)| ==> '\n' !in Split(s)[k]
  {
    FieldsHaveNoNewline(s);
  }

  /** `split("\n")` returns nothing exactly when the string is made only of
      line feeds (the empty string included). */
  lemma {:induction false} SplitEmptyIffAllNewlines(s: string)
    ensures Split(s) == [] <==> (forall i :: 0 <= i < |s| ==> s[i] == '\n')
  {
    FieldsEmptyIffAllNewlines(s);
    var f := Fields(s);
    if Split(s) == [] {
      assert forall k :: 0 <= k < |f| ==> f[k] == "";
    } else {
      var r := Split(s);
      assert Fields(s)[|r| - 1] == r[|r| - 1];
      assert !(forall k :: 0 <= k < |Fields(s)| ==> Fields(s)[k] == "");
    }
  }

  lemma {:induction false} FieldsEmptyIffAllNewlines(s: string)
    ensures (forall k :: 0 <= k < |Fields(s)| ==> Fields(s)[k] == "")
        <==> (forall i :: 0 <= i < |s| ==> s[i] == '\n')
    decreases |s|
  {
    if |s| > 0 {
      FieldsEmptyIffAllNewlines(s[1..]);
      var rest := Fields(s[1..]);
      if s[0] == '\n' {
        assert Fields(s) == [""] + rest;
        if forall i :: 0 <= i < |s| ==> s[i] == '\n' {
          assert forall i :: 0 <= i < |s[1..]| ==> s[1..][i] == '\n' by {
            forall i | 0 <= i < |s[1..]| ensures s[1..][i] == '\n' {
              assert s[1..][i] == s[i + 1];
            }
          }
        }
        if forall k :: 0 <= k < |Fields(s)| ==> Fields(s)[k] == "" {
          forall k | 0 <= k < |rest| ensures rest[k] == "" {
            assert Fields(s)[k + 1] == rest[k];
          }
          forall i | 0 <= i < |s| ensures s[i] == '\n' {
            if i > 0 {
              assert s[1..][i - 1] == s[i];
            }
          }
        }
      } else {
        assert Fields(s)[0] != "";
      }
    }
  }

  /** A final line feed adds one empty field. */
  lemma {:induction false} FieldsOfTerminated(a: string)
    ensures Fields(a + "\n") == Fields(a) + [""]
    decreases |a|
  {
    if |a| > 0 {
      assert (a + "\n")[1..] == a[1..] + "\n";
      FieldsOfTerminated(a[1..]);
      assert (a + "\n")[0] == a[0];
    }
  }

  /** The last field of a string that does not end with a line feed is not
      empty. */
  lemma {:induction false} LastFieldNonEmpty(a: string)
    requires |a| > 0 && a[|a| - 1] != '\n'
    ensures Fields(a)[|Fields(a)| - 1] != ""
    decreases |a|
  {
    if |a| > 1 {
      assert a[1..][|a[1..]| - 1] == a[|a| - 1];
      LastFieldNonEmpty(a[1..]);
    }
  }

  /** A text whose last line is terminated by exactly one line feed splits
      into the fields of the text before that line feed, so joining them
      again and adding the line feed gives the text back. */
  lemma SplitOfTerminated(s: string)
    requires |s| >= 2 && s[|s| - 1] == '\n' && s[|s| - 2] != '\n'
    ensures Split(s) == Fields(s[..|s| - 1])
    ensures JoinLines(Split(s)) + "\n" == s
  {
    var a := s[..|s| - 1];
    assert s == a + "\n";
    FieldsOfTerminated(a);
    LastFieldNonEmpty(a);
    var f := Fields(a) + [""];
    assert f[..|f| - 1] == Fields(a);
    JoinFields(a);
  }

  // ---------------------------------------------------------------------------
  // Integers as text
  // ---------------------------------------------------------------------------

  predicate IsDigit(c: char) {
    '0' <= c <= '9'
  }

  function DigitChar(d: nat): (c: char)
    requires d < 10
    ensures IsDigit(c)
  {
    (48 + d) as char
  }

  function DigitValue(c: char): nat
    requires IsDigit(c)
  {
    (c as int) - 48
  }

  /** Decimal digits of a natural number, most significant first. */
  function NatToString(n: nat): (r: string)
    ensures |r| > 0
    ensures forall i :: 0 <= i < |r| ==> IsDigit(r[i])
  {
    if n < 10 then [DigitChar(n)] else NatToString(n / 10) + [DigitChar(n % 10)]
  }

  /** `Integer#to_s`, as used by string interpolation. */
  function IntToString(i: int): string {
    if i < 0 then "-" + NatToString(-i) else NatToString(i)
  }

  /** The number a string of decimal digits denotes. */
  function DigitsValue(ds: string): nat
    requires forall i :: 0 <= i < |ds| ==> IsDigit(ds[i])
  {
    if |ds| == 0 then 0 else DigitsValue(ds[..|ds| - 1]) * 10 + DigitValue(ds[|ds| - 1])
  }

  /** The digits `to_i` consumes from the front of `s`: a run of digits in
      which a single underscore may separate two digits. Underscores are
      dropped from the result. */
  function LeadingDigits(s: string): (r: string)
    ensures forall i :: 0 <= i < |r| ==> IsDigit(r[i])
    decreases |s|
  {
    if |s| == 0 || !IsDigit(s[0]) then []
    else if |s| >= 3 && s[1] == '_' && IsDigit(s[2]) then [s[0]] + LeadingDigits(s[2..])
    else [s[0]] + LeadingDigits(s[1..])
  }

  function SkipLeadingSpace(s: string): (r: string)
    ensures |r| <= |s|
    ensures |r| > 0 ==> !IsLeadingSpace(r[0])
  {
    if |s| > 0 && IsLeadingSpace(s[0]) then SkipLeadingSpace(s[1..]) else s
  }

  /** The base-10 radix prefix "0d" or "0D", which `to_i` skips after the
      sign. */
  function SkipDecimalPrefix(s: string): (r: string)
    ensures |r| <= |s|
  {
    if |s| >= 2 && s[0] == '0' && (s[1] == 'd' || s[1] == 'D') then s[2..] else s
  }

  /** `String#to_i`: optional leading whitespace, an optional sign, an
      optional "0d" prefix, then the leading digits; 0 when there are none. */
  function ToI(s: string): int {
    var t := SkipLeadingSpace(s);
    if |t| > 0 && t[0] == '-' then 0 - DigitsValue(LeadingDigits(SkipDecimalPrefix(t[1..]))) as int
    else if |t| > 0 && t[0] == '+' then DigitsValue(LeadingDigits(SkipDecimalPrefix(t[1..])))
    else DigitsValue(LeadingDigits(SkipDecimalPrefix(t)))
  }

  /** Digits that follow no prefix are read as they are. */
  lemma DigitsSkipNothing(ds: string)
    requires |ds| > 0 && forall i :: 0 <= i < |ds| ==> IsDigit(ds[i])
    ensures SkipDecimalPrefix(ds) == ds && LeadingDigits(ds) == ds
  {
    LeadingDigitsOfDigits(ds);
    if |ds| >= 2 {
      assert IsDigit(ds[1]);
    }
  }

  /** The text after a "0d" or "0D" prefix is what is read. */
  lemma PrefixSkipped(p: string, ds: string)
    requires p == "0d" || p == "0D"
    ensures SkipLeadingSpace(p + ds) == p + ds
    ensures SkipDecimalPrefix(p + ds) == ds
  {
    assert (p + ds)[0] == '0' && (p + ds)[1] == p[1];
    assert (p + ds)[2..] == ds;
  }

  /** Without leading whitespace or sign, the text after the prefix is
      read. */
  lemma ToIUnsigned(t: string)
    requires |t| > 0 && !IsLeadingSpace(t[0]) && t[0] != '-' && t[0] != '+'
    ensures ToI(t) == DigitsValue(LeadingDigits(SkipDecimalPrefix(t)))
  {
  }

  /** A "0d" or "0D" prefix, after an optional minus sign, does not change
      the number read: "0d5" and "5" both read as 5. */
  lemma DecimalPrefixSkipped(ds: string)
    requires |ds| > 0 && forall i :: 0 <= i < |ds| ==> IsDigit(ds[i])
    ensures ToI("0d" + ds) == ToI(ds) == DigitsValue(ds)
    ensures ToI("0D" + ds) == DigitsValue(ds)
    ensures ToI("-0d" + ds) == -(DigitsValue(ds) as int)
  {
    DigitsSkipNothing(ds);
    assert !IsLeadingSpace(ds[0]) && ds[0] != '-' && ds[0] != '+';
    ToIUnsigned(ds);
    PrefixedDigits("0d", ds);
    PrefixedDigits("0D", ds);
    NegativePrefixedDigits(ds);
  }

  lemma PrefixedDigits(p: string, ds: string)
    requires p == "0d" || p == "0D"
    requires |ds| > 0 && forall i :: 0 <= i < |ds| ==> IsDigit(ds[i])
    ensures ToI(p + ds) == DigitsValue(ds)
  {
    DigitsSkipNothing(ds);
    PrefixSkipped(p, ds);
    ToIUnsigned(p + ds);
  }

  lemma NegativePrefixedDigits(ds: string)
    requires |ds| > 0 && forall i :: 0 <= i < |ds| ==> IsDigit(ds[i])
    ensures ToI("-0d" + ds) == -(DigitsValue(ds) as int)
  {
    DigitsSkipNothing(ds);
    PrefixSkipped("0d", ds);
    var m := "-0d" + ds;
    assert m[0] == '-' && !IsLeadingSpace(m[0]);
    assert SkipLeadingSpace(m) == m;
    assert m[1..] == "0d" + ds;
  }

  lemma {:induction false} LeadingDigitsOfDigits(ds: string)
    requires forall i :: 0 <= i < |ds| ==> IsDigit(ds[i])
    ensures LeadingDigits(ds) == ds
    decreases |ds|
  {
    if |ds| > 0 {
      LeadingDigitsOfDigits(ds[1..]);
      assert ds == [ds[0]] + ds[1..];
    }
  }

  lemma {:induction false} DigitsValueOfNatToString(n: nat)
    ensures DigitsValue(NatToString(n)) == n
  {
    if n >= 10 {
      var r := NatToString(n);
      DigitsValueOfNatToString(n / 10);
      assert r[..|r| - 1] == NatToString(n / 10);
    }
  }

  /** `to_i` reads back what `to_s` wrote. */
  lemma ToIIntToString(i: int)
    ensures ToI(IntToString(i)) == i
  {
    var n: nat := if i < 0 then -i else i;
    var ds := NatToString(n);
    LeadingDigitsOfDigits(ds);
    DigitsValueOfNatToString(n);
    assert SkipDecimalPrefix(ds) == ds by {
      if |ds| >= 2 {
        assert IsDigit(ds[1]);
      }
    }
    if i < 0 {
      assert IntToString(i)[1..] == ds;
    }
  }

  // ---------------------------------------------------------------------------
  // puts
  // ---------------------------------------------------------------------------

  /** The text `puts s` writes: `s`, followed by a line feed unless `s`
      already ends with one. */
  function Puts(s: string): (r: string)
    ensures |r| > 0 && r[|r| - 1] == '\n'
    ensures |s| <= |r| <= |s| + 1 && r[..|s|] == s
    ensures r == s <==> |s| > 0 && s[|s| - 1] == '\n'
  {
    if |s| > 0 && s[|s| - 1] == '\n' then s else s + "\n"
  }

  /** `puts` of each line in turn. */
  function PutsAll(lines: seq<string>): (r: string)
    ensures |lines| > 0 ==> |r| > 0 && r[|r| - 1] == '\n'
    decreases |lines|
  {
    if |lines| == 0 then "" else Puts(lines[0]) + PutsAll(lines[1..])
  }
}
