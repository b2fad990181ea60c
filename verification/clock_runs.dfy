/**
 Properties of the clock loop over one and over many iterations: the
 loop invariant of `main`, the forced first refresh, the refresh
 schedule, and the display invariant that every widget's box shows the
 digit the widget remembers.
 */
module ClockRuns {
  import opened Frames
  import opened Canvas
  import opened Widgets
  import opened Clock

  /** The invariant of the loop in `main`: widgets at the layout anchors
      and less than one timer period accumulated. */
  predicate Wf(st: LoopState)
  {
    AtLayout(st.widgets) && st.clockDelay.elapsedMs < ClockDelayMs
  }

  /** The time the clock library reports: hours 0..23, minutes and
      seconds 0..59. */
  predicate ValidTime(input: Input)
  {
    input.hour <= 23 && input.minute <= 59 && input.second <= 59
  }

  /** The numbers the six widgets remember, in layout order. */
  function Shown(ws: seq<Widget5x5>): (d: seq<int>)
    ensures |d| == |ws|
    ensures forall i :: 0 <= i < |ws| ==> d[i] == ws[i].curNum
  {
    seq(|ws|, i requires 0 <= i < |ws| => ws[i].curNum)
  }

  lemma InitialWf()
    ensures Wf(InitialState())
  {
  }

  lemma StepPreservesWf(st: LoopState, input: Input)
    requires Wf(st)
    ensures Step(st, input).Running? ==> Wf(Step(st, input).state)
  {
  }

  /** With a clock-library time every digit is 0..9, so no widget refuses
      its number and the loop never panics. */
  lemma StepNeverPanics(st: LoopState, input: Input)
    requires |st.widgets| == 6 && ValidTime(input)
    ensures !Step(st, input).Panicked?
  {
    var d := CurrentTime(input.hour, input.minute, input.second);
    assert forall i :: 0 <= i < 6 ==> Accepts(st.widgets[i], d[i]);
  }

  /** The state at start-up, or any state like it: the forced refresh
      pending and no widget showing a digit. */
  predicate StartLike(st: LoopState)
  {
    |st.widgets| == 6 && st.force && forall i :: 0 <= i < 6 ==> FrameFor(st.widgets[i].curNum).None?
  }

  lemma InitialStartLike()
    ensures StartLike(InitialState())
  {
  }

  /** The first iteration that does not exit refreshes all six digits,
      whatever time has elapsed, and clears the forced-refresh flag. */
  lemma FirstStepRefreshes(st: LoopState, input: Input)
    requires StartLike(st) && !input.eventPending && ValidTime(input)
    ensures var r := Step(st, input);
      && r.Running?
      && !r.state.force
      && r.state.clockDelay == Timer(0)
      && Shown(r.state.widgets) == CurrentTime(input.hour, input.minute, input.second)
  {
    StepNeverPanics(st, input);
  }

  /** Any two distinct widgets have boxes in disjoint column ranges. */
  predicate Separated(ws: seq<Widget5x5>)
  {
    forall i, j :: 0 <= i < |ws| && 0 <= j < |ws| && i != j ==> Far(ws[i], ws[j])
  }

  lemma LayoutSeparated(ws: seq<Widget5x5>)
    requires AtLayout(ws)
    ensures Separated(ws)
  {
  }

  /** Every widget's box shows the digit the widget remembers. */
  predicate DisplaysAll(s: Screen, ws: seq<Widget5x5>)
  {
    forall i :: 0 <= i < |ws| ==> Displays(s, ws[i])
  }

  /** A refresh writes only inside the boxes of the widgets. */
  lemma {:induction false} DrawAllOutside(s: Screen, ws: seq<Widget5x5>, ds: seq<int>, p: Cell)
    requires |ds| == |ws|
    requires forall i :: 0 <= i < |ws| ==> OutsideBox(ws[i].x, ws[i].y, p)
    ensures At(Apply(s, DrawAll(ws, ds).trace), p) == At(s, p)
    decreases |ws|
  {
    if |ws| > 0 {
      var d := Draw(ws[0], ds[0]);
      DrawEffect(s, ws[0], ds[0]);
      if d.status == Ok {
        var rest := DrawAll(ws[1..], ds[1..]);
        ApplyAppend(s, d.trace, rest.trace);
        DrawAllOutside(Apply(s, d.trace), ws[1..], ds[1..], p);
      }
    }
  }

  /** A successful refresh of separated widgets leaves every box showing
      the digit its widget now remembers. */
  lemma {:induction false} DrawAllKeepsDisplay(s: Screen, ws: seq<Widget5x5>, ds: seq<int>)
    requires |ds| == |ws| && Separated(ws) && DisplaysAll(s, ws)
    requires DrawAll(ws, ds).ok
    ensures DisplaysAll(Apply(s, DrawAll(ws, ds).trace), DrawAll(ws, ds).widgets)
    decreases |ws|
  {
    if |ws| > 0 {
      var w := ws[0];
      var d := Draw(w, ds[0]);
      var rest := DrawAll(ws[1..], ds[1..]);
      var s1 := Apply(s, d.trace);
      DrawEffect(s, w, ds[0]);
      forall i | 1 <= i < |ws|
        ensures Displays(s1, ws[i])
      {
        DrawKeepsFarDisplay(s, w, ds[0], ws[i]);
      }
      assert DisplaysAll(s1, ws[1..]);
      DrawAllKeepsDisplay(s1, ws[1..], ds[1..]);
      ApplyAppend(s, d.trace, rest.trace);
      var s2 := Apply(s1, rest.trace);
      forall y, x | 0 <= y < 5 && 0 <= x < 5
        ensures At(s2, CellOf(w.x, w.y, x, y)) == At(s1, CellOf(w.x, w.y, x, y))
      {
        forall i | 0 <= i < |ws| - 1
          ensures OutsideBox(ws[1..][i].x, ws[1..][i].y, CellOf(w.x, w.y, x, y))
        {
          FarBoxesDisjoint(ws[1 + i], w);
        }
        DrawAllOutside(s1, ws[1..], ds[1..], CellOf(w.x, w.y, x, y));
      }
      assert Displays(s2, d.widget);
      assert DrawAll(ws, ds).widgets == [d.widget] + rest.widgets;
    }
  }

  /** Separator draws paint no cell of the model's screen. */
  lemma ColonTicksPaintNothing(s: Screen)
    ensures Apply(s, ColonTicks()) == s
  {
    var t := ColonTicks();
    assert t[..1][..0] == [];
    assert t[..1] == [t[0]];
  }

  /** One iteration keeps every box showing its widget's digit. */
  lemma StepKeepsDisplay(s: Screen, st: LoopState, input: Input)
    requires Wf(st) && DisplaysAll(s, st.widgets)
    ensures var r := Step(st, input);
      r.Running? ==> DisplaysAll(Apply(s, r.trace), r.state.widgets)
  {
    var r := Step(st, input);
    if r.Running? {
      ColonTicksPaintNothing(s);
      if RefreshDue(st, input.deltaMs) {
        var refresh := DrawAll(st.widgets, CurrentTime(input.hour, input.minute, input.second));
        LayoutSeparated(st.widgets);
        DrawAllKeepsDisplay(s, st.widgets, CurrentTime(input.hour, input.minute, input.second));
        ApplyAppend(s, refresh.trace, ColonTicks());
        ColonTicksPaintNothing(Apply(s, refresh.trace));
      }
    }
  }

  // ---------------------------------------------------------------------
  // Runs of the loop

  datatype RunEnd = Ongoing | LoopExited | LoopPanicked

  datatype RunResult = RunResult(state: LoopState, trace: Trace, end: RunEnd)

  /** Iterate the loop over a sequence of inputs until an event is pending
      or a draw panics; inputs after that are never read. */
  function Run(st: LoopState, inputs: seq<Input>): (r: RunResult)
    requires |st.widgets| == 6
    ensures SameAnchors(st.widgets, r.state.widgets)
    ensures r.state.force ==> r.state == st
    decreases |inputs|
  {
    if |inputs| == 0 then RunResult(st, [], Ongoing)
    else
      match Step(st, inputs[0])
      case Exit => RunResult(st, [], LoopExited)
      case Panicked(t) => RunResult(st, t, LoopPanicked)
      case Running(next, t) =>
        var rest := Run(next, inputs[1..]);
        RunResult(rest.state, t + rest.trace, rest.end)
  }

  /** Over any run with clock-library times: no panic, the loop invariant
      holds, and every box shows the digit its widget remembers. */
  lemma {:induction false} RunKeepsDisplay(s: Screen, st: LoopState, inputs: seq<Input>)
    requires Wf(st) && DisplaysAll(s, st.widgets)
    requires forall k :: 0 <= k < |inputs| ==> ValidTime(inputs[k])
    ensures var r := Run(st, inputs);
      && r.end != LoopPanicked
      && Wf(r.state)
      && DisplaysAll(Apply(s, r.trace), r.state.widgets)
    decreases |inputs|
  {
    if |inputs| > 0 {
      var input := inputs[0];
      var r := Step(st, input);
      StepNeverPanics(st, input);
      if r.Running? {
        var next := r.state;
        StepPreservesWf(st, input);
        StepKeepsDisplay(s, st, input);
        var s1 := Apply(s, r.trace);
        assert forall k :: 0 <= k < |inputs[1..]| ==> ValidTime(inputs[1..][k]);
        RunKeepsDisplay(s1, next, inputs[1..]);
        var rest := Run(next, inputs[1..]);
        assert Run(st, inputs) == RunResult(rest.state, r.trace + rest.trace, rest.end);
        ApplyAppend(s, r.trace, rest.trace);
      }
    }
  }

  /** From start-up on a blank screen, whatever the inputs, the clock
      shows on screen exactly the digits its widgets remember. */
  lemma ClockShowsRememberedDigits(inputs: seq<Input>)
    requires forall k :: 0 <= k < |inputs| ==> ValidTime(inputs[k])
    ensures var r := Run(InitialState(), inputs);
      r.end != LoopPanicked && DisplaysAll(Apply(map[], r.trace), r.state.widgets)
  {
    InitialWf();
    RunKeepsDisplay(map[], InitialState(), inputs);
  }

  /** Total elapsed time fed to the timer by a sequence of inputs. */
  function TotalDelay(inputs: seq<Input>): nat
    decreases |inputs|
  {
    if |inputs| == 0 then 0 else inputs[0].deltaMs + TotalDelay(inputs[1..])
  }

  /** `n` iterations' worth of separator draws. */
  function RepeatTicks(n: nat): Trace
  {
    if n == 0 then [] else ColonTicks() + RepeatTicks(n - 1)
  }

  lemma {:induction false} RepeatTicksPaintNothing(n: nat)
    ensures PaintCount(RepeatTicks(n)) == 0
    ensures |RepeatTicks(n)| == 2 * n
  {
    if n > 0 {
      RepeatTicksPaintNothing(n - 1);
      PaintCountAppend(ColonTicks(), RepeatTicks(n - 1));
      assert ColonTicks()[..1][..0] == [];
      assert ColonTicks()[..1] == [ColonTicks()[0]];
    }
  }

  /** After the forced refresh, iterations whose elapsed times add up to
      less than one period only draw the separators: no digit paint, the
      widgets unchanged, the time accumulated. */
  lemma {:induction false} QuietRun(st: LoopState, inputs: seq<Input>)
    requires |st.widgets| == 6 && !st.force
    requires forall k :: 0 <= k < |inputs| ==> !inputs[k].eventPending
    requires st.clockDelay.elapsedMs + TotalDelay(inputs) < ClockDelayMs
    ensures Run(st, inputs) ==
      RunResult(st.(clockDelay := Timer(st.clockDelay.elapsedMs + TotalDelay(inputs))), RepeatTicks(|inputs|), Ongoing)
    ensures PaintCount(Run(st, inputs).trace) == 0
    decreases |inputs|
  {
    RepeatTicksPaintNothing(|inputs|);
    if |inputs| > 0 {
      var input, tail := inputs[0], inputs[1..];
      var next := st.(clockDelay := TimerUpdate(st.clockDelay, input.deltaMs));
      QuietStep(st, input);
      assert forall k :: 0 <= k < |tail| ==> !tail[k].eventPending;
      QuietRun(next, tail);
      var rest := Run(next, tail);
      assert Run(st, inputs) == RunResult(rest.state, ColonTicks() + rest.trace, rest.end);
      assert TotalDelay(inputs) == input.deltaMs + TotalDelay(tail);
      assert RepeatTicks(|inputs|) == ColonTicks() + RepeatTicks(|tail|);
    }
  }

  /** One iteration before the period is up, with the first refresh done:
      only the timer advances and only the separators are drawn. */
  lemma QuietStep(st: LoopState, input: Input)
    requires |st.widgets| == 6 && !st.force && !input.eventPending
    requires st.clockDelay.elapsedMs + input.deltaMs < ClockDelayMs
    ensures Step(st, input) == Running(st.(clockDelay := Timer(st.clockDelay.elapsedMs + input.deltaMs)), ColonTicks())
  {
    assert !RefreshDue(st, input.deltaMs);
  }

  /** Number of widgets whose number changes. */
  function Changed(ws: seq<Widget5x5>, ds: seq<int>): nat
    requires |ds| == |ws|
    decreases |ws|
  {
    if |ws| == 0 then 0
    else (if ds[0] != ws[0].curNum then 1 else 0) + Changed(ws[1..], ds[1..])
  }

  /** Only the last widget's number changes. */
  lemma {:induction false} ChangedOnlyLast(ws: seq<Widget5x5>, ds: seq<int>)
    requires |ds| == |ws| > 0
    requires forall i :: 0 <= i < |ws| - 1 ==> ds[i] == ws[i].curNum
    requires ds[|ws| - 1] != ws[|ws| - 1].curNum
    ensures Changed(ws, ds) == 1
    decreases |ws|
  {
    if |ws| > 1 {
      ChangedOnlyLast(ws[1..], ds[1..]);
    }
  }

  /** A refresh with digits paints 50 cells for each widget whose digit
      changes and none for the others. */
  lemma {:induction false} DrawAllPaintCount(ws: seq<Widget5x5>, ds: seq<int>)
    requires |ds| == |ws|
    requires forall i :: 0 <= i < |ds| ==> 0 <= ds[i] <= 9
    ensures PaintCount(DrawAll(ws, ds).trace) == 50 * Changed(ws, ds)
    decreases |ws|
  {
    if |ws| > 0 {
      var d := Draw(ws[0], ds[0]);
      var rest := DrawAll(ws[1..], ds[1..]);
      DrawAllPaintCount(ws[1..], ds[1..]);
      PaintCountAppend(d.trace, rest.trace);
      if ds[0] != ws[0].curNum {
        DrawNewDigit(ws[0], ds[0]);
      }
    }
  }

  /** Widgets that show no digit yet all change on a refresh with digits. */
  lemma {:induction false} ChangedFresh(ws: seq<Widget5x5>, ds: seq<int>)
    requires |ds| == |ws|
    requires forall i :: 0 <= i < |ds| ==> 0 <= ds[i] <= 9 && FrameFor(ws[i].curNum).None?
    ensures Changed(ws, ds) == |ws|
    decreases |ws|
  {
    if |ws| > 0 {
      ChangedFresh(ws[1..], ds[1..]);
    }
  }

  /** A refresh of six widgets that show no digit yet paints all six
      boxes: 300 paints, then the separators. */
  lemma FreshRefreshPaintsAll(st: LoopState, input: Input)
    requires |st.widgets| == 6 && st.force && !input.eventPending && ValidTime(input)
    requires forall i :: 0 <= i < 6 ==> FrameFor(st.widgets[i].curNum).None?
    ensures Step(st, input).Running?
    ensures PaintCount(Step(st, input).trace) == 300
  {
    var d := CurrentTime(input.hour, input.minute, input.second);
    var refresh := DrawAll(st.widgets, d);
    StepNeverPanics(st, input);
    assert Step(st, input).trace == refresh.trace + ColonTicks();
    DrawAllPaintCount(st.widgets, d);
    ChangedFresh(st.widgets, d);
    PaintCountAppend(refresh.trace, ColonTicks());
  }

  lemma ScenarioDigits()
    ensures CurrentTime(14, 9, 5) == [1, 4, 0, 9, 0, 5]
    ensures CurrentTime(10, 0, 0) == [1, 0, 0, 0, 0, 0]
    ensures CurrentTime(10, 0, 1) == [1, 0, 0, 0, 0, 1]
  {
  }

  /** Start-up at 14:09:05: the first iteration, forced, draws 1 4 0 9 0 5
      whatever the elapsed time, painting all six boxes. */
  lemma FirstIterationAt140905(st: LoopState, deltaMs: nat)
    requires StartLike(st)
    ensures var r := Step(st, Input(false, deltaMs, 14, 9, 5));
      && r.Running?
      && Shown(r.state.widgets) == [1, 4, 0, 9, 0, 5]
      && PaintCount(r.trace) == 300
  {
    var input := Input(false, deltaMs, 14, 9, 5);
    FirstStepRefreshes(st, input);
    FreshRefreshPaintsAll(st, input);
    ScenarioDigits();
  }

  /** From start-up at 10:00:00, two iterations 600 ms apart: the second
      only draws the separators; the third, at 10:00:01 with 1200 ms
      accumulated, refreshes once and repaints only the seconds-units box. */
  lemma OneRefreshIn1200Ms(st: LoopState)
    requires StartLike(st)
    ensures var r1 := Step(st, Input(false, 0, 10, 0, 0));
      && r1.Running?
      && Shown(r1.state.widgets) == [1, 0, 0, 0, 0, 0]
      && var r2 := Step(r1.state, Input(false, 600, 10, 0, 0));
      && r2 == Running(r1.state.(clockDelay := Timer(600)), ColonTicks())
      && var r3 := Step(r2.state, Input(false, 600, 10, 0, 1));
      && r3.Running?
      && Shown(r3.state.widgets) == [1, 0, 0, 0, 0, 1]
      && r3.state.clockDelay == Timer(0)
      && PaintCount(r3.trace) == 50
  {
    var in1 := Input(false, 0, 10, 0, 0);
    var in2 := Input(false, 600, 10, 0, 0);
    var in3 := Input(false, 600, 10, 0, 1);
    ScenarioDigits();
    FirstStepRefreshes(st, in1);
    var r1 := Step(st, in1);
    QuietStep(r1.state, in2);
    var st2 := r1.state.(clockDelay := Timer(600));
    assert Step(r1.state, in2) == Running(st2, ColonTicks());
    SecondsUnitsRefresh(st2, in3);
  }

  /** A due refresh that changes only the seconds units paints one box. */
  lemma SecondsUnitsRefresh(st: LoopState, input: Input)
    requires |st.widgets| == 6 && !input.eventPending && ValidTime(input)
    requires RefreshDue(st, input.deltaMs)
    requires var d := CurrentTime(input.hour, input.minute, input.second);
      && (forall i :: 0 <= i < 5 ==> st.widgets[i].curNum == d[i])
      && st.widgets[5].curNum != d[5]
    ensures Step(st, input).Running?
    ensures PaintCount(Step(st, input).trace) == 50
  {
    StepNeverPanics(st, input);
    var ws := st.widgets;
    var d := CurrentTime(input.hour, input.minute, input.second);
    var refresh := DrawAll(ws, d);
    assert Step(st, input).trace == refresh.trace + ColonTicks();
    DrawAllPaintCount(ws, d);
    ChangedOnlyLast(ws, d);
    PaintCountAppend(refresh.trace, ColonTicks());
  }

  /** Had the separators been drawn as `colon_frame` through `draw_widget`
      at their anchors, each separator's row-1 "O" would land on a digit
      box: the left one's on widget 3's entry (y, x) = (4, 3), the right
      one's on widget 5's. The row-3 "O" of each would miss all six boxes.
      The separator model therefore assumes that the separator widget
      paints outside every digit box. */
  lemma ColonFrameWouldHitDigits()
    ensures ColonFrame()[1][0] == "O" && ColonFrame()[3][0] == "O"
    ensures CellOf(Colon1.0, Colon1.1, 0, 1) == CellOf(Layout[2].0, Layout[2].1, 3, 4)
    ensures CellOf(Colon2.0, Colon2.1, 0, 1) == CellOf(Layout[4].0, Layout[4].1, 3, 4)
    ensures forall i :: 0 <= i < |Layout| ==> OutsideBox(Layout[i].0, Layout[i].1, CellOf(Colon1.0, Colon1.1, 0, 3))
    ensures forall i :: 0 <= i < |Layout| ==> OutsideBox(Layout[i].0, Layout[i].1, CellOf(Colon2.0, Colon2.1, 0, 3))
  {
  }
}
