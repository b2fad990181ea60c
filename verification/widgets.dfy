/**
 The digit widget of src/widgets.rs. Painting a frame walks it row by
 row; every entry goes to the anchor-relative quarter turn of its
 glyph-local position. A widget remembers the number it last drew and
 skips a draw of the same number.
 */
module Widgets {
  import opened Wrappers
  import opened Geometry
  import opened Frames
  import opened Canvas

  /** `i32::MAX`, the number a fresh widget pretends to show. */
  const I32Max: int := 0x7FFF_FFFF

  /** The cell that glyph-local position (x, y) of a frame anchored at
      (sx, sy) is painted at. */
  function CellOf(sx: int, sy: int, x: int, y: int): Cell
  {
    (sx + sy - y, sy + x - sx)
  }

  /** The cell of each entry is `rotate(anchor, (x, y))`, as in the
      `MoveTo` of `draw_widget`. */
  lemma CellOfIsRotate(sx: int, sy: int, x: int, y: int)
    ensures CellOf(sx, sy, x, y) == Rotate((sx, sy), (x, y))
  {
  }

  function PaintAt(sx: int, sy: int, x: int, y: int, s: string): Event
  {
    var c := CellOf(sx, sy, x, y);
    Paint(c.0, c.1, s)
  }

  /** The paints of row `y`, left to right: entry x goes to CellOf(x, y). */
  function RowTrace(sx: int, sy: int, y: int, row: seq<string>): (t: Trace)
    ensures |t| == |row|
    ensures forall x :: 0 <= x < |row| ==> t[x] == PaintAt(sx, sy, x, y, row[x])
    decreases |row|
  {
    if |row| == 0 then []
    else RowTrace(sx, sy, y, row[..|row| - 1]) + [PaintAt(sx, sy, |row| - 1, y, row[|row| - 1])]
  }

  /** Number of entries of a frame. */
  function CellCount(f: Frame): nat
    decreases |f|
  {
    if |f| == 0 then 0 else CellCount(f[..|f| - 1]) + |f[|f| - 1]|
  }

  /** The paints of a whole frame, row after row; one per entry. */
  function FrameTrace(sx: int, sy: int, f: Frame): (t: Trace)
    ensures |t| == CellCount(f)
    ensures forall k :: 0 <= k < |t| ==> t[k].Paint?
    decreases |f|
  {
    if |f| == 0 then []
    else FrameTrace(sx, sy, f[..|f| - 1]) + RowTrace(sx, sy, |f| - 1, f[|f| - 1])
  }

  /** `draw_widget`: all paints of the frame, then one flush; the flush
      is the only event that is not a paint. */
  function DrawWidgetTrace(sx: int, sy: int, f: Frame): (t: Trace)
    ensures |t| == CellCount(f) + 1 && t[|t| - 1] == Flush
    ensures forall k :: 0 <= k < |t| - 1 ==> t[k].Paint?
  {
    FrameTrace(sx, sy, f) + [Flush]
  }

  /** `draw_empty`: a " " painted at the cell of every position of the
      5x5 box in row-major order, then a flush. */
  function DrawEmpty(sx: int, sy: int): (t: Trace)
    ensures |t| == 26 && t[25] == Flush
    ensures forall y, x :: 0 <= y < 5 && 0 <= x < 5 ==> t[5 * y + x] == PaintAt(sx, sy, x, y, " ")
  {
    BlankRowMajor(sx, sy);
    DrawWidgetTrace(sx, sy, EmptyFrame())
  }

  lemma BlankRowMajor(sx: int, sy: int)
    ensures var t := DrawWidgetTrace(sx, sy, EmptyFrame());
      |t| == 26 && t[25] == Flush
      && forall y, x :: 0 <= y < 5 && 0 <= x < 5 ==> t[5 * y + x] == PaintAt(sx, sy, x, y, " ")
  {
    DrawWidgetRowMajor(sx, sy, EmptyFrame());
    forall y, x | 0 <= y < 5 && 0 <= x < 5
      ensures DrawWidgetTrace(sx, sy, EmptyFrame())[5 * y + x] == PaintAt(sx, sy, x, y, " ")
    {
      assert EmptyFrame()[y][x] == " ";
    }
  }

  /** `draw_widget` as the nested enumerate loops of the source. */
  method DrawWidget(sx: int, sy: int, frame: Frame) returns (trace: Trace)
    ensures trace == DrawWidgetTrace(sx, sy, frame)
    ensures PaintCount(trace) == CellCount(frame)
  {
    trace := [];
    var y := 0;
    while y < |frame|
      invariant 0 <= y <= |frame|
      invariant trace == FrameTrace(sx, sy, frame[..y])
    {
      var row := frame[y];
      var x := 0;
      while x < |row|
        invariant 0 <= x <= |row|
        invariant trace == FrameTrace(sx, sy, frame[..y]) + RowTrace(sx, sy, y, row[..x])
      {
        assert row[..x + 1][..x] == row[..x];
        trace := trace + [PaintAt(sx, sy, x, y, row[x])];
        x := x + 1;
      }
      assert row[..x] == row;
      assert frame[..y + 1][..y] == frame[..y];
      y := y + 1;
    }
    assert frame[..y] == frame;
    PaintCountOfPaints(FrameTrace(sx, sy, frame));
    PaintCountAppend(FrameTrace(sx, sy, frame), [Flush]);
    assert [Flush][..0] == [];
    trace := trace + [Flush];
  }

  /** A trace made only of paints counts one paint per event. */
  lemma {:induction false} PaintCountOfPaints(t: Trace)
    requires forall k :: 0 <= k < |t| ==> t[k].Paint?
    ensures PaintCount(t) == |t|
    decreases |t|
  {
    if |t| > 0 {
      PaintCountOfPaints(t[..|t| - 1]);
    }
  }

  /** Entry (y, x) of the frame is painted at position
      CellCount(f[..y]) + x of the frame's trace, at CellOf(x, y). */
  lemma {:induction false} FrameTraceIndex(sx: int, sy: int, f: Frame, y: int, x: int)
    requires 0 <= y < |f| && 0 <= x < |f[y]|
    ensures CellCount(f[..y]) + x < |FrameTrace(sx, sy, f)|
    ensures FrameTrace(sx, sy, f)[CellCount(f[..y]) + x] == PaintAt(sx, sy, x, y, f[y][x])
    decreases |f|
  {
    var n := |f|;
    var init := f[..n - 1];
    var a, b := FrameTrace(sx, sy, init), RowTrace(sx, sy, n - 1, f[n - 1]);
    assert FrameTrace(sx, sy, f) == a + b;
    if y == n - 1 {
      assert f[..y] == init;
      var k := |a| + x;
      assert k == CellCount(f[..y]) + x;
      assert (a + b)[k] == b[x] == PaintAt(sx, sy, x, y, f[y][x]);
    } else {
      assert f[..y] == init[..y];
      assert init[y] == f[y];
      FrameTraceIndex(sx, sy, init, y, x);
      var k := CellCount(init[..y]) + x;
      assert a[k] == PaintAt(sx, sy, x, y, f[y][x]);
      assert (a + b)[k] == a[k];
    }
  }

  /** In a 5x5 frame the rows before row y hold 5*y entries. */
  lemma {:induction false} BoxPrefixCount(f: Frame, y: int)
    requires IsBox(f) && 0 <= y <= 5
    ensures CellCount(f[..y]) == 5 * y
    decreases y
  {
    if y > 0 {
      assert f[..y][..y - 1] == f[..y - 1];
      BoxPrefixCount(f, y - 1);
    }
  }

  /** draw_widget on a 5x5 frame: 25 paints in row-major order, entry
      (y, x) at index 5*y + x and at CellOf(x, y), then a flush. */
  lemma DrawWidgetRowMajor(sx: int, sy: int, f: Frame)
    requires IsBox(f)
    ensures |DrawWidgetTrace(sx, sy, f)| == 26
    ensures DrawWidgetTrace(sx, sy, f)[25] == Flush
    ensures forall y, x :: 0 <= y < 5 && 0 <= x < 5 ==>
      DrawWidgetTrace(sx, sy, f)[5 * y + x] == PaintAt(sx, sy, x, y, f[y][x])
  {
    BoxPrefixCount(f, 5);
    assert f[..5] == f;
    forall y, x | 0 <= y < 5 && 0 <= x < 5
      ensures DrawWidgetTrace(sx, sy, f)[5 * y + x] == PaintAt(sx, sy, x, y, f[y][x])
    {
      BoxPrefixCount(f, y);
      FrameTraceIndex(sx, sy, f, y, x);
    }
  }

  /** The screen shows frame `f` drawn at anchor (sx, sy). */
  predicate ShowsFrame(s: Screen, sx: int, sy: int, f: Frame)
  {
    forall y, x :: 0 <= y < |f| && 0 <= x < |f[y]| ==> At(s, CellOf(sx, sy, x, y)) == Some(f[y][x])
  }

  lemma RowTraceShows(s: Screen, sx: int, sy: int, y: int, row: seq<string>)
    ensures forall x :: 0 <= x < |row| ==> At(Apply(s, RowTrace(sx, sy, y, row)), CellOf(sx, sy, x, y)) == Some(row[x])
  {
    var t := RowTrace(sx, sy, y, row);
    forall x | 0 <= x < |row|
      ensures At(Apply(s, t), CellOf(sx, sy, x, y)) == Some(row[x])
    {
      ApplyLastWrite(s, t, x);
    }
  }

  lemma RowTraceAvoids(sx: int, sy: int, y: int, row: seq<string>, p: Cell)
    requires forall x :: 0 <= x < |row| ==> CellOf(sx, sy, x, y) != p
    ensures Avoids(RowTrace(sx, sy, y, row), p)
  {
  }

  /** Painting a frame never writes outside the cells of its entries. */
  lemma {:induction false} FrameTraceAvoids(sx: int, sy: int, f: Frame, p: Cell)
    requires forall y, x :: 0 <= y < |f| && 0 <= x < |f[y]| ==> CellOf(sx, sy, x, y) != p
    ensures Avoids(FrameTrace(sx, sy, f), p)
    decreases |f|
  {
    if |f| > 0 {
      var n := |f|;
      FrameTraceAvoids(sx, sy, f[..n - 1], p);
      RowTraceAvoids(sx, sy, n - 1, f[n - 1], p);
      AvoidsAppend(FrameTrace(sx, sy, f[..n - 1]), RowTrace(sx, sy, n - 1, f[n - 1]), p);
    }
  }

  /** After a frame is painted, every entry's cell shows that entry,
      whatever the screen showed before. */
  lemma {:induction false} FrameTraceShows(s: Screen, sx: int, sy: int, f: Frame)
    ensures ShowsFrame(Apply(s, FrameTrace(sx, sy, f)), sx, sy, f)
    decreases |f|
  {
    if |f| > 0 {
      var n := |f|;
      var init := f[..n - 1];
      var row := f[n - 1];
      var s1 := Apply(s, FrameTrace(sx, sy, init));
      FrameTraceShows(s, sx, sy, init);
      ApplyAppend(s, FrameTrace(sx, sy, init), RowTrace(sx, sy, n - 1, row));
      RowTraceShows(s1, sx, sy, n - 1, row);
      forall y, x | 0 <= y < n && 0 <= x < |f[y]|
        ensures At(Apply(s1, RowTrace(sx, sy, n - 1, row)), CellOf(sx, sy, x, y)) == Some(f[y][x])
      {
        if y < n - 1 {
          RowTraceAvoids(sx, sy, n - 1, row, CellOf(sx, sy, x, y));
          ApplyUntouched(s1, RowTrace(sx, sy, n - 1, row), CellOf(sx, sy, x, y));
          assert init[y] == f[y];
        }
      }
    }
  }

  /** Cell `p` lies outside the 5x5 box anchored at (sx, sy). */
  predicate OutsideBox(sx: int, sy: int, p: Cell)
  {
    forall y, x :: 0 <= y < 5 && 0 <= x < 5 ==> CellOf(sx, sy, x, y) != p
  }

  /** draw_widget of a 5x5 frame shows the frame and leaves every cell
      outside its box as it was. */
  lemma DrawWidgetEffect(s: Screen, sx: int, sy: int, f: Frame)
    requires IsBox(f)
    ensures ShowsFrame(Apply(s, DrawWidgetTrace(sx, sy, f)), sx, sy, f)
    ensures forall p :: OutsideBox(sx, sy, p) ==> At(Apply(s, DrawWidgetTrace(sx, sy, f)), p) == At(s, p)
  {
    var t := FrameTrace(sx, sy, f);
    ApplyAppend(s, t, [Flush]);
    assert [Flush][..0] == [];
    assert Apply(Apply(s, t), [Flush]) == Apply(s, t);
    FrameTraceShows(s, sx, sy, f);
    forall p | OutsideBox(sx, sy, p)
      ensures At(Apply(s, t), p) == At(s, p)
    {
      FrameTraceAvoids(sx, sy, f, p);
      ApplyUntouched(s, t, p);
    }
  }

  /** The `as u16` cast applied to a paint coordinate: truncation to the
      low 16 bits, so a negative coordinate wraps to a large one. */
  function AsU16(i: int): (c: int)
    ensures 0 <= c < 0x1_0000
    ensures (i - c) % 0x1_0000 == 0
  {
    i % 0x1_0000
  }

  // ---------------------------------------------------------------------
  // Widget5x5

  /** A 5x5 box anchored at (x, y) that remembers the number it drew. */
  datatype Widget5x5 = Widget5x5(x: int, y: int, curNum: int)

  datatype Status = Ok | WrongNumber

  datatype DrawOutcome = DrawOutcome(widget: Widget5x5, trace: Trace, status: Status)

  /** `Widget5x5::new`: the sentinel is not a digit, so the widget shows
      no number yet. */
  function NewWidget(x: int, y: int): (w: Widget5x5)
    ensures w.x == x && w.y == y
    ensures FrameFor(w.curNum).None?
    ensures w.curNum == I32Max
  {
    Widget5x5(x, y, I32Max)
  }

  /** `Widget5x5::draw`. The same number: nothing happens. Otherwise the
      box is blanked first; a digit is then drawn and remembered, any
      other number is refused with the box left blank and the old number
      still remembered. The anchor never changes. */
  function Draw(w: Widget5x5, number: int): (r: DrawOutcome)
    ensures r.widget.x == w.x && r.widget.y == w.y
    ensures r.status == Ok <==> number == w.curNum || 0 <= number <= 9
    ensures r.status == Ok ==> r.widget.curNum == number
    ensures r.status == WrongNumber ==> r.widget == w && r.trace == DrawEmpty(w.x, w.y)
    ensures r.trace == [] <==> number == w.curNum
  {
    if number == w.curNum then DrawOutcome(w, [], Ok)
    else
      var blank := DrawEmpty(w.x, w.y);
      match FrameFor(number)
      case None => DrawOutcome(w, blank, WrongNumber)
      case Some(f) => DrawOutcome(w.(curNum := number), blank + DrawWidgetTrace(w.x, w.y, f), Ok)
  }

  /** A new digit: 25 blank paints and a flush, then the digit frame's 25
      paints in row-major order and a flush. */
  lemma DrawNewDigit(w: Widget5x5, n: int)
    requires 0 <= n <= 9 && n != w.curNum
    ensures var r := Draw(w, n);
      && |r.trace| == 52
      && r.trace[25] == Flush && r.trace[51] == Flush
      && (forall y, x :: 0 <= y < 5 && 0 <= x < 5 ==>
            r.trace[5 * y + x] == PaintAt(w.x, w.y, x, y, " "))
      && (forall y, x :: 0 <= y < 5 && 0 <= x < 5 ==>
            r.trace[26 + 5 * y + x] == PaintAt(w.x, w.y, x, y, FrameFor(n).value[y][x]))
      && PaintCount(r.trace) == 50
  {
    var f := FrameFor(n).value;
    assert Draw(w, n).trace == DrawEmpty(w.x, w.y) + DrawWidgetTrace(w.x, w.y, f);
    BlankThenFrame(w.x, w.y, f);
  }

  lemma BlankThenFrame(sx: int, sy: int, f: Frame)
    requires IsBox(f)
    ensures var t := DrawEmpty(sx, sy) + DrawWidgetTrace(sx, sy, f);
      && |t| == 52
      && t[25] == Flush && t[51] == Flush
      && (forall y, x :: 0 <= y < 5 && 0 <= x < 5 ==> t[5 * y + x] == PaintAt(sx, sy, x, y, " "))
      && (forall y, x :: 0 <= y < 5 && 0 <= x < 5 ==> t[26 + 5 * y + x] == PaintAt(sx, sy, x, y, f[y][x]))
      && PaintCount(t) == 50
  {
    var blank := DrawEmpty(sx, sy);
    var digit := DrawWidgetTrace(sx, sy, f);
    var t := blank + digit;
    DrawWidgetRowMajor(sx, sy, EmptyFrame());
    DrawWidgetRowMajor(sx, sy, f);
    forall y, x | 0 <= y < 5 && 0 <= x < 5
      ensures t[5 * y + x] == PaintAt(sx, sy, x, y, " ")
    {
      assert t[5 * y + x] == blank[5 * y + x];
      assert EmptyFrame()[y][x] == " ";
    }
    forall y, x | 0 <= y < 5 && 0 <= x < 5
      ensures t[26 + 5 * y + x] == PaintAt(sx, sy, x, y, f[y][x])
    {
      assert t[26 + 5 * y + x] == digit[5 * y + x];
    }
    assert t[51] == digit[25];
    DrawWidgetPaintCount(sx, sy, EmptyFrame());
    DrawWidgetPaintCount(sx, sy, f);
    PaintCountAppend(blank, digit);
  }

  lemma DrawWidgetPaintCount(sx: int, sy: int, f: Frame)
    requires IsBox(f)
    ensures PaintCount(DrawWidgetTrace(sx, sy, f)) == 25
  {
    PaintCountOfPaints(FrameTrace(sx, sy, f));
    BoxPrefixCount(f, 5);
    assert f[..5] == f;
    assert [Flush][..0] == [];
    PaintCountAppend(FrameTrace(sx, sy, f), [Flush]);
  }

  /** A fresh widget paints on its first draw of any digit, and a draw of
      the sentinel itself is a silent success. */
  lemma FreshWidgetDraw(x: int, y: int, n: int)
    requires 0 <= n <= 9
    ensures Draw(NewWidget(x, y), n).status == Ok
    ensures PaintCount(Draw(NewWidget(x, y), n).trace) == 50
    ensures Draw(NewWidget(x, y), I32Max) == DrawOutcome(NewWidget(x, y), [], Ok)
  {
    DrawNewDigit(NewWidget(x, y), n);
  }

  /** Drawing the same number twice: after a success the second draw is a
      no-op, so the pair behaves like one draw; after a refusal the second
      draw is refused the same way and blanks the box again. */
  lemma DrawTwice(w: Widget5x5, n: int)
    ensures var r1 := Draw(w, n);
      var r2 := Draw(r1.widget, n);
      && (r1.status == Ok ==> r2 == DrawOutcome(r1.widget, [], Ok))
      && (r1.status == WrongNumber ==> r2 == r1)
  {
  }

  /** The screen shows, in the widget's box, the frame of the digit the
      widget remembers (nothing is claimed before the first digit). */
  predicate Displays(s: Screen, w: Widget5x5)
  {
    FrameFor(w.curNum).Some? ==> ShowsFrame(s, w.x, w.y, FrameFor(w.curNum).value)
  }

  /** A successful draw keeps the widget's box in step with the number it
      remembers, and writes nothing outside that box. */
  lemma DrawEffect(s: Screen, w: Widget5x5, n: int)
    ensures var r := Draw(w, n);
      r.status == Ok && Displays(s, w) ==> Displays(Apply(s, r.trace), r.widget)
    ensures var r := Draw(w, n);
      forall p :: OutsideBox(w.x, w.y, p) ==> At(Apply(s, r.trace), p) == At(s, p)
  {
    var r := Draw(w, n);
    if n != w.curNum {
      var blank := DrawEmpty(w.x, w.y);
      DrawWidgetEffect(s, w.x, w.y, EmptyFrame());
      if 0 <= n <= 9 {
        var f := FrameFor(n).value;
        var s1 := Apply(s, blank);
        ApplyAppend(s, blank, DrawWidgetTrace(w.x, w.y, f));
        DrawWidgetEffect(s1, w.x, w.y, f);
      }
    }
  }

  /** Two widgets whose boxes lie in disjoint column ranges. */
  predicate Far(w: Widget5x5, v: Widget5x5)
  {
    w.x + w.y + 5 <= v.x + v.y || v.x + v.y + 5 <= w.x + w.y
  }

  lemma FarBoxesDisjoint(w: Widget5x5, v: Widget5x5)
    requires Far(w, v)
    ensures forall y, x :: 0 <= y < 5 && 0 <= x < 5 ==> OutsideBox(w.x, w.y, CellOf(v.x, v.y, x, y))
  {
  }

  /** Drawing on one widget does not disturb what a far widget displays. */
  lemma DrawKeepsFarDisplay(s: Screen, w: Widget5x5, n: int, v: Widget5x5)
    requires Far(w, v) && Displays(s, v)
    ensures Displays(Apply(s, Draw(w, n).trace), v)
  {
    DrawEffect(s, w, n);
    FarBoxesDisjoint(w, v);
  }

  /** Every digit frame has a filled cell at (y, x) = InkCell(n). */
  function InkCell(n: int): (c: (int, int))
    requires 0 <= n <= 9
    ensures 0 <= c.0 < 5 && 0 <= c.1 < 5
    ensures FrameFor(n).value[c.0][c.1] == "X"
  {
    if n == 4 then (0, 1) else (0, 3)
  }

  /** The refused draw breaks the remembered-number invariant: the box is
      blank but the widget still remembers its old digit, so a later draw
      of that digit is skipped and the box stays blank. */
  lemma RefusedDrawLeavesStaleNumber(s: Screen, w: Widget5x5, n: int)
    requires 0 <= w.curNum <= 9
    requires n != w.curNum && !(0 <= n <= 9)
    ensures var r := Draw(w, n);
      && r.status == WrongNumber
      && r.widget.curNum == w.curNum
      && ShowsFrame(Apply(s, r.trace), w.x, w.y, EmptyFrame())
      && !Displays(Apply(s, r.trace), r.widget)
      && Draw(r.widget, w.curNum).trace == []
  {
    var r := Draw(w, n);
    DrawWidgetEffect(s, w.x, w.y, EmptyFrame());
    var c := InkCell(w.curNum);
    assert At(Apply(s, r.trace), CellOf(w.x, w.y, c.1, c.0)) == Some(" ");
  }
}
