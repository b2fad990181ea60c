/**
 The constant glyph tables of src/widgets.rs. A frame is a sequence of
 rows, each a sequence of one-cell strings; the digit frames are 5x5,
 "X" for a filled cell and " " for an empty one.
 */
module Frames {
  import opened Wrappers

  type Frame = seq<seq<string>>

  /** Exactly 5 rows of exactly 5 entries. */
  predicate IsBox(f: Frame)
  {
    |f| == 5 && forall y :: 0 <= y < 5 ==> |f[y]| == 5
  }

  predicate GlyphEntry(s: string)
  {
    s == " " || s == "X"
  }

  /** Every entry is a blank or a filled cell. */
  predicate IsGlyph(f: Frame)
  {
    forall y, x :: 0 <= y < |f| && 0 <= x < |f[y]| ==> GlyphEntry(f[y][x])
  }

  /** The separator glyph: one column, dots on rows 1 and 3. */
  function ColonFrame(): (f: Frame)
    ensures |f| == 5
    ensures forall y :: 0 <= y < 5 ==> |f[y]| == 1
    ensures forall y :: 0 <= y < 5 ==> f[y][0] == (if y == 1 || y == 3 then "O" else " ")
  {
    [[" "], ["O"], [" "], ["O"], [" "]]
  }

  /** The blank box that clears a widget before a digit is drawn. */
  function EmptyFrame(): (f: Frame)
    ensures IsBox(f)
    ensures forall y, x :: 0 <= y < 5 && 0 <= x < 5 ==> f[y][x] == " "
  {
    [
      [" ", " ", " ", " ", " "],
      [" ", " ", " ", " ", " "],
      [" ", " ", " ", " ", " "],
      [" ", " ", " ", " ", " "],
      [" ", " ", " ", " ", " "]
    ]
  }

  function OneFrame(): (f: Frame)
    ensures IsBox(f) && IsGlyph(f)
  {
    [
      [" ", " ", " ", "X", " "],
      [" ", " ", "X", "X", " "],
      [" ", " ", " ", "X", " "],
      [" ", " ", " ", "X", " "],
      [" ", " ", " ", "X", " "]
    ]
  }

  function TwoFrame(): (f: Frame)
    ensures IsBox(f) && IsGlyph(f)
  {
    [
      ["X", "X", "X", "X", " "],
      [" ", " ", " ", "X", "X"],
      [" ", "X", "X", "X", " "],
      ["X", "X", " ", " ", " "],
      ["X", "X", "X", "X", "X"]
    ]
  }

  function ThreeFrame(): (f: Frame)
    ensures IsBox(f) && IsGlyph(f)
  {
    [
      ["X", "X", "X", "X", " "],
      [" ", " ", " ", "X", "X"],
      [" ", "X", "X", "X", " "],
      [" ", " ", " ", "X", "X"],
      ["X", "X", "X", "X", " "]
    ]
  }

  function FourFrame(): (f: Frame)
    ensures IsBox(f) && IsGlyph(f)
  {
    [
      [" ", "X", " ", " ", "X"],
      [" ", "X", " ", " ", "X"],
      [" ", "X", "X", "X", "X"],
      [" ", " ", " ", " ", "X"],
      [" ", " ", " ", " ", "X"]
    ]
  }

  function FiveFrame(): (f: Frame)
    ensures IsBox(f) && IsGlyph(f)
  {
    [
      [" ", "X", "X", "X", "X"],
      [" ", "X", " ", " ", " "],
      [" ", "X", "X", "X", "X"],
      [" ", " ", " ", " ", "X"],
      [" ", "X", "X", "X", "X"]
    ]
  }

  /** The digit-6 frame carries an empty string as its last entry, where
      every other entry of every digit frame is a one-character string. */
  function SixFrame(): (f: Frame)
    ensures IsBox(f)
    ensures f[4][4] == ""
    ensures forall y, x :: 0 <= y < 5 && 0 <= x < 5 && (y, x) != (4, 4) ==> GlyphEntry(f[y][x])
  {
    [
      [" ", "X", "X", "X", " "],
      ["X", " ", " ", " ", " "],
      ["X", "X", "X", "X", " "],
      ["X", " ", " ", " ", "X"],
      [" ", "X", "X", "X", ""]
    ]
  }

  function SevenFrame(): (f: Frame)
    ensures IsBox(f) && IsGlyph(f)
  {
    [
      [" ", "X", "X", "X", "X"],
      [" ", " ", " ", "X", " "],
      [" ", " ", "X", " ", " "],
      [" ", " ", "X", " ", " "],
      [" ", " ", "X", " ", " "]
    ]
  }

  function EightFrame(): (f: Frame)
    ensures IsBox(f) && IsGlyph(f)
  {
    [
      [" ", "X", "X", "X", " "],
      ["X", " ", " ", " ", "X"],
      [" ", "X", "X", "X", " "],
      ["X", " ", " ", " ", "X"],
      [" ", "X", "X", "X", " "]
    ]
  }

  function NineFrame(): (f: Frame)
    ensures IsBox(f) && IsGlyph(f)
  {
    [
      [" ", "X", "X", "X", " "],
      ["X", " ", " ", " ", "X"],
      [" ", "X", "X", "X", "X"],
      [" ", " ", " ", " ", "X"],
      [" ", "X", "X", "X", " "]
    ]
  }

  function ZeroFrame(): (f: Frame)
    ensures IsBox(f) && IsGlyph(f)
  {
    [
      [" ", "X", "X", "X", " "],
      ["X", " ", " ", " ", "X"],
      ["X", " ", " ", " ", "X"],
      ["X", " ", " ", " ", "X"],
      [" ", "X", "X", "X", " "]
    ]
  }

  /** The digit dispatch of Widget5x5::draw: a frame for 0..9, nothing for
      any other number. */
  function FrameFor(n: int): (r: Option<Frame>)
    ensures r.Some? <==> 0 <= n <= 9
    ensures r.Some? ==> IsBox(r.value)
    ensures r.Some? && n != 6 ==> IsGlyph(r.value)
    ensures n == 6 ==> r.value[4][4] == ""
    ensures n == 6 ==> forall y, x :: 0 <= y < 5 && 0 <= x < 5 && (y, x) != (4, 4) ==> GlyphEntry(r.value[y][x])
  {
    match n
    case 0 => Some(ZeroFrame())
    case 1 => Some(OneFrame())
    case 2 => Some(TwoFrame())
    case 3 => Some(ThreeFrame())
    case 4 => Some(FourFrame())
    case 5 => Some(FiveFrame())
    case 6 => Some(SixFrame())
    case 7 => Some(SevenFrame())
    case 8 => Some(EightFrame())
    case 9 => Some(NineFrame())
    case _ => None
  }

  /** No two digits share a frame, so changing the digit always changes
      what is painted. */
  lemma DigitFramesDistinct(a: int, b: int)
    requires 0 <= a <= 9 && 0 <= b <= 9 && a != b
    ensures FrameFor(a) != FrameFor(b)
  {
    KeyCodeOfDigit(a);
    KeyCodeOfDigit(b);
    KeyCodesDistinct(a, b);
  }

  lemma KeyCodesDistinct(a: int, b: int)
    requires 0 <= a <= 9 && 0 <= b <= 9 && a != b
    ensures KeyCodes[a] != KeyCodes[b]
  {
  }

  /** Five cells that already tell the ten digit frames apart, read as a
      binary number ("X" is 1). */
  function KeyCode(f: Frame): nat
    requires IsBox(f)
  {
    Bit(f[0][0]) * 16 + Bit(f[0][2]) * 8 + Bit(f[1][4]) * 4 + Bit(f[2][1]) * 2 + Bit(f[3][0])
  }

  function Bit(s: string): nat
  {
    if s == "X" then 1 else 0
  }

  const KeyCodes: seq<nat> := [13, 0, 31, 30, 6, 10, 11, 8, 15, 14]

  lemma KeyCodeOfDigit(n: int)
    requires 0 <= n <= 9
    ensures KeyCode(FrameFor(n).value) == KeyCodes[n]
  {
    match n
    case 0 => {}
    case 1 => {}
    case 2 => {}
    case 3 => {}
    case 4 => {}
    case 5 => {}
    case 6 => {}
    case 7 => {}
    case 8 => {}
    case 9 => {}
  }
}
