/**
 The terminal as seen by the clock: every `queue!(MoveTo(col, row),
 Print(s))` becomes a Paint event, every `flush` a Flush event, and a
 separator draw an opaque ColonDraw event. A screen maps cells to the
 last string painted there; replaying a trace on a screen gives the
 screen after the writes.
 */
module Canvas {
  import opened Wrappers

  datatype Event =
    | Paint(col: int, row: int, text: string)
    | Flush
    | ColonDraw(x: int, y: int)

  type Trace = seq<Event>

  type Cell = (int, int)

  type Screen = map<Cell, string>

  /** What the screen shows at a cell, if anything was painted there. */
  function At(s: Screen, p: Cell): Option<string>
  {
    if p in s then Some(s[p]) else None
  }

  /** The event writes to cell `p`. */
  predicate Touches(e: Event, p: Cell)
  {
    e.Paint? && (e.col, e.row) == p
  }

  /** No event of the trace writes to cell `p`. */
  predicate Avoids(t: Trace, p: Cell)
  {
    forall j :: 0 <= j < |t| ==> !Touches(t[j], p)
  }

  /** The effect of one event: a paint overwrites its cell and nothing
      else; flushes and separator draws leave the screen as it is. */
  function ApplyEvent(s: Screen, e: Event): (s': Screen)
    ensures e.Paint? ==> At(s', (e.col, e.row)) == Some(e.text)
    ensures forall p :: !Touches(e, p) ==> At(s', p) == At(s, p)
  {
    match e
    case Paint(c, r, text) => s[(c, r) := text]
    case _ => s
  }

  function Apply(s: Screen, t: Trace): Screen
    decreases |t|
  {
    if |t| == 0 then s else ApplyEvent(Apply(s, t[..|t| - 1]), t[|t| - 1])
  }

  /** Replaying a concatenation replays the parts in order. */
  lemma {:induction false} ApplyAppend(s: Screen, a: Trace, b: Trace)
    ensures Apply(s, a + b) == Apply(Apply(s, a), b)
    decreases |b|
  {
    if |b| == 0 {
      assert a + b == a;
    } else {
      assert (a + b)[..|a + b| - 1] == a + b[..|b| - 1];
      ApplyAppend(s, a, b[..|b| - 1]);
    }
  }

  /** A cell that no event writes keeps its content. */
  lemma {:induction false} ApplyUntouched(s: Screen, t: Trace, p: Cell)
    requires Avoids(t, p)
    ensures At(Apply(s, t), p) == At(s, p)
    decreases |t|
  {
    if |t| > 0 {
      ApplyUntouched(s, t[..|t| - 1], p);
    }
  }

  /** A cell shows the text of the last event that wrote it. */
  lemma {:induction false} ApplyLastWrite(s: Screen, t: Trace, k: nat)
    requires k < |t| && t[k].Paint?
    requires forall j :: k < j < |t| ==> !Touches(t[j], (t[k].col, t[k].row))
    ensures At(Apply(s, t), (t[k].col, t[k].row)) == Some(t[k].text)
    decreases |t|
  {
    if k < |t| - 1 {
      ApplyLastWrite(s, t[..|t| - 1], k);
    }
  }

  lemma AvoidsAppend(a: Trace, b: Trace, p: Cell)
    requires Avoids(a, p) && Avoids(b, p)
    ensures Avoids(a + b, p)
  {
    forall j | 0 <= j < |a + b|
      ensures !Touches((a + b)[j], p)
    {
      if j >= |a| {
        assert (a + b)[j] == b[j - |a|];
      }
    }
  }

  /** Number of Paint events in a trace. */
  function PaintCount(t: Trace): nat
    decreases |t|
  {
    if |t| == 0 then 0
    else PaintCount(t[..|t| - 1]) + (if t[|t| - 1].Paint? then 1 else 0)
  }

  lemma {:induction false} PaintCountAppend(a: Trace, b: Trace)
    ensures PaintCount(a + b) == PaintCount(a) + PaintCount(b)
    decreases |b|
  {
    if |b| == 0 {
      assert a + b == a;
    } else {
      assert (a + b)[..|a + b| - 1] == a + b[..|b| - 1];
      PaintCountAppend(a, b[..|b| - 1]);
    }
  }
}
