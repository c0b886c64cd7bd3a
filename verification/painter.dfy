/** ANSI colouring of console text (`Painter`). */
module Painter {
  import opened Wrappers
  import opened RubyText

  const Escape: char := '\U{1B}'

  /** The "reset all attributes" sequence that closes a coloured span. */
  const Reset: string := [Escape] + "[0m"

  const BlueCode: string := "34"
  const RedCode: string := "31"
  const HighlightBlueCode: string := "1;30;44"
  const HighlightYellowCode: string := "1;30;43"
  const HighlightRedCode: string := "1;30;41"

  /** The escape sequence that opens a span in colour `code`. */
  function Open(code: string): string {
    [Escape] + "[" + code + "m"
  }

  /** `colorize`: the text wrapped in the colour's opening sequence and the
      reset sequence, with no padding. */
  function Colorize(text: string, code: string): (r: string)
    ensures |r| == |text| + |code| + 7
  {
    Open(code) + text + Reset
  }

  function Blue(text: string): string { Colorize(text, BlueCode) }
  function Red(text: string): string { Colorize(text, RedCode) }
  function HighlightBlue(text: string): string { Colorize(text, HighlightBlueCode) }
  function HighlightYellow(text: string): string { Colorize(text, HighlightYellowCode) }
  function HighlightRed(text: string): string { Colorize(text, HighlightRedCode) }

  /** Undoes `Colorize`: the text between the opening sequence of `code` and
      the reset sequence, if `s` is shaped that way. */
  function Uncolorize(s: string, code: string): Option<string> {
    var n := |Open(code)|;
    if |s| >= n + |Reset| && s[..n] == Open(code) && s[|s| - |Reset|..] == Reset
    then Some(s[n..|s| - |Reset|])
    else None
  }

  /** Removing the escape prefix and the reset suffix recovers the text. */
  lemma UncolorizeColorize(text: string, code: string)
    ensures Uncolorize(Colorize(text, code), code) == Some(text)
  {
    var s := Colorize(text, code);
    var n := |Open(code)|;
    assert s[..n] == Open(code);
    assert s[|s| - |Reset|..] == Reset;
    assert s[n..|s| - |Reset|] == text;
  }

  /** Each helper paints with its own colour code: decoding with that code
      recovers the text. */
  lemma HelperColours(text: string)
    ensures Uncolorize(Blue(text), "34") == Some(text)
    ensures Uncolorize(Red(text), "31") == Some(text)
    ensures Uncolorize(HighlightBlue(text), "1;30;44") == Some(text)
    ensures Uncolorize(HighlightYellow(text), "1;30;43") == Some(text)
    ensures Uncolorize(HighlightRed(text), "1;30;41") == Some(text)
  {
    UncolorizeColorize(text, BlueCode);
    UncolorizeColorize(text, RedCode);
    UncolorizeColorize(text, HighlightBlueCode);
    UncolorizeColorize(text, HighlightYellowCode);
    UncolorizeColorize(text, HighlightRedCode);
  }
}
