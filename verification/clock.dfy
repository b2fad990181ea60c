/**
 One iteration of the clock loop of src/main.rs as a pure step: the
 pending-event check, the 1000 ms timer fed with the elapsed time, the
 digit refresh of the six widgets, and the two separator draws.
 Wall-clock time, the elapsed time and the event poll are inputs.
 */
module Clock {
  import opened Frames
  import opened Canvas
  import opened Widgets

  /** Anchors of the six digit widgets: hours tens and units, minutes
      tens and units, seconds tens and units. */
  const Layout: seq<(int, int)> := [(1, 1), (8, 1), (18, 1), (25, 1), (36, 1), (43, 1)]

  /** Anchors of the two separators. */
  const Colon1: (int, int) := (15, 1)
  const Colon2: (int, int) := (33, 1)

  /** Period of the digit-refresh timer. */
  const ClockDelayMs: nat := 1000

  /** The two separator draws that end every iteration, left one first.
      Neither event is a paint; what the separator widget paints is not
      modelled. */
  function ColonTicks(): (t: Trace)
    ensures |t| == 2 && t[0] == ColonDraw(15, 1) && t[1] == ColonDraw(33, 1)
    ensures PaintCount(t) == 0
  {
    var t := [ColonDraw(Colon1.0, Colon1.1), ColonDraw(Colon2.0, Colon2.1)];
    assert t[..1][..0] == [] && t[..1] == [t[0]];
    assert PaintCount(t[..1][..0]) == 0;
    assert PaintCount(t[..1]) == 0;
    t
  }

  /** `current_time`: hour, minute and second each split into tens and
      units. The digits are returned in display order. */
  function CurrentTime(hour: nat, minute: nat, second: nat): (d: seq<int>)
    ensures |d| == 6
    ensures 10 * d[0] + d[1] == hour && 10 * d[2] + d[3] == minute && 10 * d[4] + d[5] == second
    ensures forall i :: 0 <= i < 6 ==> 0 <= d[i]
    ensures d[1] <= 9 && d[3] <= 9 && d[5] <= 9
    ensures hour <= 23 && minute <= 59 && second <= 59 ==> forall i :: 0 <= i < 6 ==> d[i] <= 9
  {
    [hour / 10, hour % 10, minute / 10, minute % 10, second / 10, second % 10]
  }

  /** The refresh timer, seen only through accumulate / ready / reset. */
  datatype Timer = Timer(elapsedMs: nat)

  function TimerUpdate(t: Timer, deltaMs: nat): Timer
  {
    Timer(t.elapsedMs + deltaMs)
  }

  predicate TimerReady(t: Timer)
  {
    t.elapsedMs >= ClockDelayMs
  }

  function TimerReset(): Timer
  {
    Timer(0)
  }

  datatype LoopState = LoopState(clockDelay: Timer, force: bool, widgets: seq<Widget5x5>)

  /** Same number of widgets, each keeping its anchor. */
  predicate SameAnchors(a: seq<Widget5x5>, b: seq<Widget5x5>)
  {
    |a| == |b| && forall i :: 0 <= i < |a| ==> a[i].x == b[i].x && a[i].y == b[i].y
  }

  /** Six widgets anchored as in Layout. */
  predicate AtLayout(ws: seq<Widget5x5>)
  {
    |ws| == 6 && forall i :: 0 <= i < 6 ==> (ws[i].x, ws[i].y) == Layout[i]
  }

  /** The state before the first iteration: a fresh timer, the forced
      first refresh pending, six fresh widgets at the layout anchors. */
  function InitialState(): (st: LoopState)
    ensures st.force && st.clockDelay.elapsedMs == 0
    ensures AtLayout(st.widgets)
    ensures forall i :: 0 <= i < 6 ==> FrameFor(st.widgets[i].curNum).None?
  {
    LoopState(Timer(0), true, [
      NewWidget(1, 1), NewWidget(8, 1),
      NewWidget(18, 1), NewWidget(25, 1),
      NewWidget(36, 1), NewWidget(43, 1)
    ])
  }

  /** Glyph-local positions are turned about the anchor before painting,
      so the widgets do not paint where their anchors suggest: every widget
      after the first paints only at negative rows, which the `as u16` cast
      wraps to the top of the 16-bit range, and the first widget paints its
      two lowest glyph rows at negative columns. */
  lemma LayoutPaintsWrap()
    ensures forall i, y, x :: 1 <= i < 6 && 0 <= y < 5 && 0 <= x < 5 ==>
      var row := CellOf(Layout[i].0, Layout[i].1, x, y).1;
      row < 0 && AsU16(row) == 0x1_0000 + row
    ensures forall y, x :: 3 <= y < 5 && 0 <= x < 5 ==>
      var col := CellOf(Layout[0].0, Layout[0].1, x, y).0;
      col < 0 && AsU16(col) == 0x1_0000 + col
  {
    forall i, y, x | 1 <= i < 6 && 0 <= y < 5 && 0 <= x < 5
      ensures CellOf(Layout[i].0, Layout[i].1, x, y).1 < 0
    {
      assert Layout[i].0 >= 8 && Layout[i].1 == 1;
    }
    forall i, y, x | 1 <= i < 6 && 0 <= y < 5 && 0 <= x < 5
      ensures AsU16(CellOf(Layout[i].0, Layout[i].1, x, y).1) == 0x1_0000 + CellOf(Layout[i].0, Layout[i].1, x, y).1
    {
      assert Layout[i].0 <= 43 && Layout[i].1 == 1;
      AsU16Negative(CellOf(Layout[i].0, Layout[i].1, x, y).1);
    }
    forall y, x | 3 <= y < 5 && 0 <= x < 5
      ensures AsU16(CellOf(Layout[0].0, Layout[0].1, x, y).0) == 0x1_0000 + CellOf(Layout[0].0, Layout[0].1, x, y).0
    {
      AsU16Negative(CellOf(Layout[0].0, Layout[0].1, x, y).0);
    }
  }

  lemma AsU16Negative(v: int)
    requires -0x1_0000 <= v < 0
    ensures AsU16(v) == 0x1_0000 + v
  {
  }

  /** The widget accepts the number: a repeat, or a digit. */
  predicate Accepts(w: Widget5x5, n: int)
  {
    n == w.curNum || 0 <= n <= 9
  }

  datatype Refresh = Refresh(widgets: seq<Widget5x5>, trace: Trace, ok: bool)

  /** The six `draw(..).unwrap()` calls: each widget gets its digit in
      order; the first refusal aborts, after that widget's blank paints. */
  function DrawAll(ws: seq<Widget5x5>, ds: seq<int>): (r: Refresh)
    requires |ds| == |ws|
    ensures SameAnchors(ws, r.widgets)
    ensures r.ok <==> forall i :: 0 <= i < |ws| ==> Accepts(ws[i], ds[i])
    ensures r.ok ==> forall i :: 0 <= i < |ws| ==> r.widgets[i].curNum == ds[i]
    decreases |ws|
  {
    if |ws| == 0 then Refresh([], [], true)
    else
      var d := Draw(ws[0], ds[0]);
      if d.status != Ok then Refresh(ws, d.trace, false)
      else
        var rest := DrawAll(ws[1..], ds[1..]);
        assert [ws[0]] + ws[1..] == ws && [ds[0]] + ds[1..] == ds;
        RefreshCons(ws[0], ds[0], ws[1..], ds[1..], d.widget, rest.widgets, rest.ok);
        Refresh([d.widget] + rest.widgets, d.trace + rest.trace, rest.ok)
  }

  /** The inductive step of DrawAll: a first widget that accepts its
      number, in front of a refresh of the rest. */
  lemma RefreshCons(w: Widget5x5, n: int, ws: seq<Widget5x5>, ds: seq<int>,
                    v: Widget5x5, rest: seq<Widget5x5>, ok: bool)
    requires |ds| == |ws| && SameAnchors(ws, rest)
    requires v.x == w.x && v.y == w.y && Accepts(w, n) && v.curNum == n
    requires ok <==> forall i :: 0 <= i < |ws| ==> Accepts(ws[i], ds[i])
    requires ok ==> forall i :: 0 <= i < |ws| ==> rest[i].curNum == ds[i]
    ensures SameAnchors([w] + ws, [v] + rest)
    ensures ok <==> forall i :: 0 <= i < |ws| + 1 ==> Accepts(([w] + ws)[i], ([n] + ds)[i])
    ensures ok ==> forall i :: 0 <= i < |ws| + 1 ==> ([v] + rest)[i].curNum == ([n] + ds)[i]
  {
    var wsAll, dsAll, restAll := [w] + ws, [n] + ds, [v] + rest;
    assert forall i :: 1 <= i < |wsAll| ==>
      wsAll[i] == ws[i - 1] && dsAll[i] == ds[i - 1] && restAll[i] == rest[i - 1];
    if forall i :: 0 <= i < |wsAll| ==> Accepts(wsAll[i], dsAll[i]) {
      forall i | 0 <= i < |ws|
        ensures Accepts(ws[i], ds[i])
      {
        assert wsAll[i + 1] == ws[i] && dsAll[i + 1] == ds[i];
      }
    }
  }

  /** Numbers every widget already remembers: the refresh succeeds, draws
      nothing and leaves the widgets as they were. */
  lemma {:induction false} DrawAllRepeat(ws: seq<Widget5x5>, ds: seq<int>)
    requires |ds| == |ws|
    requires forall i :: 0 <= i < |ws| ==> ds[i] == ws[i].curNum
    ensures DrawAll(ws, ds) == Refresh(ws, [], true)
    decreases |ws|
  {
    if |ws| > 0 {
      assert forall i :: 0 <= i < |ws| - 1 ==> ds[1..][i] == ws[1..][i].curNum;
      DrawAllRepeat(ws[1..], ds[1..]);
      assert [ws[0]] + ws[1..] == ws;
    }
  }

  /** Index of the first widget that refuses its number, or the number of
      widgets when every one accepts. */
  function FirstRefusal(ws: seq<Widget5x5>, ds: seq<int>): (k: nat)
    requires |ds| == |ws|
    ensures k <= |ws|
    ensures forall i :: 0 <= i < k ==> Accepts(ws[i], ds[i])
    ensures k < |ws| ==> !Accepts(ws[k], ds[k])
    decreases |ws|
  {
    if |ws| == 0 || !Accepts(ws[0], ds[0]) then 0
    else
      var k := 1 + FirstRefusal(ws[1..], ds[1..]);
      assert forall i :: 1 <= i < |ws| ==> ws[1..][i - 1] == ws[i] && ds[1..][i - 1] == ds[i];
      k
  }

  /** The traces of `draw` on widgets 0 .. n-1, each with its own number,
      concatenated in widget order. */
  function DrawnPrefix(ws: seq<Widget5x5>, ds: seq<int>, n: nat): Trace
    requires |ds| == |ws| && n <= |ws|
    decreases n
  {
    if n == 0 then [] else Draw(ws[0], ds[0]).trace + DrawnPrefix(ws[1..], ds[1..], n - 1)
  }

  /** The refresh trace is the widgets' own draw traces in widget order,
      up to the first refusal, which contributes only its blank paints and
      ends the refresh (see RefreshTrace). */
  lemma {:induction false} DrawAllTrace(ws: seq<Widget5x5>, ds: seq<int>)
    requires |ds| == |ws|
    ensures DrawAll(ws, ds).trace == RefreshTrace(ws, ds)
    decreases |ws|
  {
    if |ws| > 0 && Accepts(ws[0], ds[0]) {
      DrawAllTrace(ws[1..], ds[1..]);
      RefreshTraceCons(ws, ds);
    }
  }

  /** The expected refresh trace: the draws of the widgets before the
      first refusal, in widget order, then the refusing widget's blank
      paints if there is one. */
  function RefreshTrace(ws: seq<Widget5x5>, ds: seq<int>): Trace
    requires |ds| == |ws|
  {
    var k := FirstRefusal(ws, ds);
    DrawnPrefix(ws, ds, k) + (if k < |ws| then DrawEmpty(ws[k].x, ws[k].y) else [])
  }

  /** RefreshTrace of a first widget that accepts its number is that
      widget's draw followed by RefreshTrace of the rest. */
  lemma RefreshTraceCons(ws: seq<Widget5x5>, ds: seq<int>)
    requires |ds| == |ws| > 0 && Accepts(ws[0], ds[0])
    ensures RefreshTrace(ws, ds) == Draw(ws[0], ds[0]).trace + RefreshTrace(ws[1..], ds[1..])
  {
    var tws, tds := ws[1..], ds[1..];
    var k := FirstRefusal(tws, tds);
    var tail := if k < |tws| then DrawEmpty(tws[k].x, tws[k].y) else [];
    assert FirstRefusal(ws, ds) == 1 + k;
    assert k < |tws| ==> tws[k] == ws[1 + k];
    AppendAssoc(Draw(ws[0], ds[0]).trace, DrawnPrefix(tws, tds, k), tail);
  }

  lemma AppendAssoc(a: Trace, b: Trace, c: Trace)
    ensures a + (b + c) == (a + b) + c
  {
  }

  /** After a successful refresh every widget is the one its own draw
      returned. */
  lemma {:induction false} DrawAllWidgets(ws: seq<Widget5x5>, ds: seq<int>)
    requires |ds| == |ws| && DrawAll(ws, ds).ok
    ensures forall i :: 0 <= i < |ws| ==> DrawAll(ws, ds).widgets[i] == Draw(ws[i], ds[i]).widget
    decreases |ws|
  {
    if |ws| > 0 {
      var tws, tds := ws[1..], ds[1..];
      var rest := DrawAll(tws, tds);
      assert DrawAll(ws, ds).widgets == [Draw(ws[0], ds[0]).widget] + rest.widgets;
      DrawAllWidgets(tws, tds);
      assert forall i :: 1 <= i < |ws| ==> tws[i - 1] == ws[i] && tds[i - 1] == ds[i];
    }
  }

  /** What one iteration observes: the event poll, the elapsed time since
      the previous iteration, and the wall-clock time. */
  datatype Input = Input(eventPending: bool, deltaMs: nat, hour: nat, minute: nat, second: nat)

  /** The loop breaks, a widget draw panics, or the loop goes on. */
  datatype StepResult =
    | Exit
    | Panicked(trace: Trace)
    | Running(state: LoopState, trace: Trace)

  /** The digits are redrawn in this iteration: the timer is ready after
      the update, or the first draw is still forced. */
  predicate RefreshDue(st: LoopState, deltaMs: nat)
  {
    st.force || TimerReady(TimerUpdate(st.clockDelay, deltaMs))
  }

  /** One iteration of the loop in `main`. */
  function Step(st: LoopState, input: Input): (r: StepResult)
    requires |st.widgets| == 6
    ensures r.Exit? <==> input.eventPending
    ensures r.Running? ==> !r.state.force && SameAnchors(st.widgets, r.state.widgets)
    ensures r.Running? ==> |r.trace| >= 2 && r.trace[|r.trace| - 2..] == ColonTicks()
    ensures !input.eventPending && !RefreshDue(st, input.deltaMs) ==>
      r == Running(st.(clockDelay := TimerUpdate(st.clockDelay, input.deltaMs)), ColonTicks())
    ensures !input.eventPending && RefreshDue(st, input.deltaMs) ==>
      var d := CurrentTime(input.hour, input.minute, input.second);
      && (r.Panicked? <==> exists i :: 0 <= i < 6 && !Accepts(st.widgets[i], d[i]))
      && (r.Running? ==> r.state.clockDelay == Timer(0))
      && (r.Running? ==> forall i :: 0 <= i < 6 ==> r.state.widgets[i].curNum == d[i])
  {
    if input.eventPending then Exit
    else
      var timer := TimerUpdate(st.clockDelay, input.deltaMs);
      if TimerReady(timer) || st.force then
        var digits := CurrentTime(input.hour, input.minute, input.second);
        var refresh := DrawAll(st.widgets, digits);
        if !refresh.ok then Panicked(refresh.trace)
        else
          var t := refresh.trace + ColonTicks();
          assert t[|t| - 2..] == ColonTicks();
          Running(LoopState(TimerReset(), false, refresh.widgets), t)
      else Running(st.(clockDelay := timer), ColonTicks())
  }

  /** A refresh iteration's trace: the widgets' draws in widget order up
      to the first refusal, whose blank paints end a panicking iteration;
      an iteration that does not panic then draws the two separators. */
  lemma StepTrace(st: LoopState, input: Input)
    requires |st.widgets| == 6 && !input.eventPending && RefreshDue(st, input.deltaMs)
    ensures var d := CurrentTime(input.hour, input.minute, input.second);
      var r := Step(st, input);
      && (r.Running? ==> r.trace == RefreshTrace(st.widgets, d) + ColonTicks())
      && (r.Panicked? ==> r.trace == RefreshTrace(st.widgets, d))
  {
    DrawAllTrace(st.widgets, CurrentTime(input.hour, input.minute, input.second));
  }
}
