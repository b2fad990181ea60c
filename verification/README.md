# myclock core in Dafny

This project models the core of a terminal clock, GDC ("Great Digital Clock"). The clock shows hours, minutes and seconds as six 5x5 ASCII-art digits with two separators. The model has two parts:

- **The digit widget** (`src/widgets.rs`). `Widget5x5` is an anchor `(x, y)` and the number it last drew, `cur_num`. That number starts as the sentinel `i32::MAX`. `draw(n)` does nothing when `n` equals `cur_num`. Otherwise it paints the blank 5x5 frame, then paints the frame of digit `n` and remembers `n`. A number outside 0..9 is refused, but only after the box has been blanked. `draw_widget` walks a frame row by row. Each entry goes to `rotate(anchor, (x, y))`, a counter-clockwise quarter turn of the glyph-local position about the anchor, built from `Pos::translate`, `Pos::rot90`, `Pos::multiply` and `Matrix2x2::matrix90counterclockwise`. The eleven glyph frames and the colon frame are constant tables.
- **One iteration of the clock loop** (`src/main.rs`). If an event is pending, the loop stops. Otherwise the elapsed time is fed to a 1000 ms timer. When the timer is ready, or on the forced first pass, the timer is reset and the six digits of the current time go to the six widgets. Then both separators are drawn.

The terminal is replaced by a trace of events:

- `Paint(col, row, text)` for each `MoveTo` + `Print`.
- `Flush` for each `flush` at the end of `draw_widget`.
- `ColonDraw(x, y)` for each `FancyColon::draw`.

A screen maps cells to the last string painted there, and `Canvas.Apply` replays a trace on a screen. Separator events leave the model's screen unchanged. The widget's doc comment (src/widgets.rs:7-11) says a box knows how to draw the number given to it and will not redraw an identical, already drawn number. On this screen, that means every widget's box shows the frame of the digit the widget remembers. `ClockRuns.RunKeepsDisplay` proves that this holds over any run of the loop with times the clock library can report, provided the separator widget paints outside every digit box (see "## Left out").

Modules:

- `Wrappers`: `Option`.
- `Geometry`: positions, the matrix and `rotate`.
- `Frames`: the glyph tables and the digit dispatch.
- `Canvas`: events, traces and the screen.
- `Widgets`: `draw_widget`, `draw_empty` and `Widget5x5`.
- `Clock`: `current_time`, the layout, the timer and the loop step.
- `ClockRuns`: properties of one iteration and of many.

The model follows the code as written, including these behaviours that the doc comments at src/widgets.rs:7-11 and src/main.rs:27-31 do not mention:

- An out-of-range number does paint. It blanks the box before `bail!`, so `cur_num` no longer matches the screen (`Widgets.RefusedDrawLeavesStaleNumber`).
- A refused digit in the loop makes `unwrap()` panic, and the remaining widgets are not drawn (`Clock.DrawAllTrace`, `Clock.StepTrace`).
- The rotation is applied to every painted cell. Because glyph-local positions are turned about the anchor, every widget after the first paints only at negative rows. The `as u16` cast wraps those rows to the top of the 16-bit range, and the first widget's two lowest glyph rows land at negative columns (`Clock.LayoutPaintsWrap`).
- The digit-6 frame keeps its `""` last entry, and the model's screen records `""` at that cell. On a terminal, `Print("")` writes nothing, so that cell keeps the " " that `draw_empty` painted: here the model's cell content differs from the terminal's.

## Model

| member | source | states |
|---|---|---|
| Geometry.TranslateRoundTrip | src/widgets.rs:84-88 | `Geometry.Translate` (`Pos::translate`): translating by an offset and then by its opposite restores the position |
| Geometry.Rot90 | src/widgets.rs:90-118 | `Geometry.Multiply` (`Pos::multiply`) by `Geometry.Matrix90CounterClockwise` (`matrix90counterclockwise`) sends (x, y) to (-y, x) |
| Geometry.Rot90PreservesNorm | src/widgets.rs:90-118 | the quarter turn keeps the squared distance to the origin |
| Geometry.Rot90FourTimes | src/widgets.rs:90-118 | four quarter turns are the identity |
| Geometry.Rotate | src/widgets.rs:70-77 | translate, turn, translate back comes to rotate(s, p) = (sx+sy-py, sy+px-sx) |
| Geometry.RotateIsQuarterTurn | src/widgets.rs:70-77 | seen from the anchor, rotate is the quarter turn about the origin: rotate(s, p) - s = Rot90(p - s) |
| Geometry.RotateFixesStart | src/widgets.rs:70-77 | rotate(s, s) = s |
| Geometry.RotateFourTimes | src/widgets.rs:70-77 | rotating four times about the same anchor returns the point |
| Geometry.RotateBack | src/widgets.rs:70-77 | an independent clockwise turn whose result rotate maps back to its input |
| Geometry.RotateRoundTrip | src/widgets.rs:70-77 | RotateBack undoes rotate, so rotate is injective: distinct glyph positions go to distinct cells |
| Geometry.RotatePreservesDistance | src/widgets.rs:70-77 | rotate keeps squared distances between points |
| Frames.ColonFrame | src/widgets.rs:122-124 | 5 rows of 1 entry, "O" exactly on rows 1 and 3 and " " elsewhere |
| Frames.EmptyFrame | src/widgets.rs:127-135 | 5x5 and every entry is " " |
| Frames.OneFrame | src/widgets.rs:138-146 | 5x5 with every entry " " or "X" |
| Frames.TwoFrame | src/widgets.rs:149-157 | 5x5 with every entry " " or "X" |
| Frames.ThreeFrame | src/widgets.rs:160-168 | 5x5 with every entry " " or "X" |
| Frames.FourFrame | src/widgets.rs:171-179 | 5x5 with every entry " " or "X" |
| Frames.FiveFrame | src/widgets.rs:182-190 | 5x5 with every entry " " or "X" |
| Frames.SixFrame | src/widgets.rs:193-201 | 5x5; the last entry is the empty string and every other entry is " " or "X" |
| Frames.SevenFrame | src/widgets.rs:204-212 | 5x5 with every entry " " or "X" |
| Frames.EightFrame | src/widgets.rs:215-223 | 5x5 with every entry " " or "X" |
| Frames.NineFrame | src/widgets.rs:226-234 | 5x5 with every entry " " or "X" |
| Frames.ZeroFrame | src/widgets.rs:237-245 | 5x5 with every entry " " or "X" |
| Frames.FrameFor | src/widgets.rs:32-43 | the digit dispatch yields a frame exactly for 0..9, always 5x5; glyph entries only, except the "" of digit 6 |
| Frames.DigitFramesDistinct | src/widgets.rs:137-245 | no two digits share a frame |
| Widgets.CellOfIsRotate | src/widgets.rs:60 | the cell painted for entry (y, x) is rotate(anchor, (x, y)) |
| Widgets.DrawWidgetTrace | src/widgets.rs:56-64 | one event per frame entry and then a flush, the only event that is not a paint |
| Widgets.DrawEmpty | src/widgets.rs:50-53 | 26 events: a " " painted at the cell of each box position in row-major order, then a flush |
| Widgets.RowTrace | src/widgets.rs:58-61 | one paint per entry of the row, entry x at index x and at the rotated cell of (x, y) |
| Widgets.FrameTrace | src/widgets.rs:56-62 | one paint per frame entry, and nothing but paints |
| Widgets.DrawWidget | src/widgets.rs:56-64 | the nested enumerate loops emit the frame's paints in row-major order, then a flush; one paint per entry |
| Widgets.FrameTraceIndex | src/widgets.rs:57-61 | entry (y, x) is painted at position (entries of earlier rows) + x, at the rotated cell of (x, y) with that entry's string |
| Widgets.DrawWidgetRowMajor | src/widgets.rs:56-64 | for a 5x5 frame: 26 events, entry (y, x) at index 5y+x, a flush last |
| Widgets.RowTraceShows | src/widgets.rs:58-61 | after a row is painted, each entry's cell shows that entry |
| Widgets.FrameTraceShows | src/widgets.rs:56-62 | after a frame is painted, each entry's cell shows that entry, whatever the screen showed before |
| Widgets.FrameTraceAvoids | src/widgets.rs:56-62 | painting a frame writes no cell outside its entries' cells |
| Widgets.DrawWidgetEffect | src/widgets.rs:56-64 | draw_widget of a 5x5 frame shows the frame and leaves every cell outside the box unchanged |
| Widgets.AsU16 | src/widgets.rs:60 | the `as u16` cast: the result is in 0..65535 and congruent to the input modulo 2^16 |
| Widgets.NewWidget | src/widgets.rs:19-25 | a new widget keeps its anchor and remembers `i32::MAX`, which is no digit |
| Widgets.Draw | src/widgets.rs:27-47 | anchor never changes; Ok iff the number is the remembered one or a digit; on Ok the number is remembered; a refusal leaves the widget as it was with only the blank box painted; no events iff the number is the remembered one |
| Widgets.DrawNewDigit | src/widgets.rs:31-46 | a new digit gives 52 events: 25 blank paints in row-major order, a flush, the digit frame's 25 paints in row-major order, a flush; 50 paints |
| Widgets.BlankThenFrame | src/widgets.rs:31-42 | the blank frame followed by a 5x5 frame, laid out index by index |
| Widgets.DrawWidgetPaintCount | src/widgets.rs:56-64 | draw_widget of a 5x5 frame paints 25 cells |
| Widgets.FreshWidgetDraw | src/widgets.rs:19-30 | a new widget's first draw of any digit succeeds with 50 paints; drawing `i32::MAX` on it is Ok and paints nothing |
| Widgets.DrawTwice | src/widgets.rs:28-47 | after a successful draw, drawing the same number again is a no-op; after a refusal it is refused again the same way |
| Widgets.DrawEffect | src/widgets.rs:27-47 | a successful draw keeps the box showing the remembered digit; no draw writes outside its box |
| Widgets.FarBoxesDisjoint | src/main.rs:39-44 | widgets whose anchor sums differ by at least 5 have disjoint boxes |
| Widgets.DrawKeepsFarDisplay | src/widgets.rs:27-47 | drawing one widget does not disturb what a far widget displays |
| Widgets.InkCell | src/widgets.rs:137-245 | every digit frame has a filled cell |
| Widgets.RefusedDrawLeavesStaleNumber | src/widgets.rs:31-45 | a refused number blanks the box but the old digit stays remembered, so the display invariant breaks and a later draw of that digit is skipped |
| Clock.CurrentTime | src/main.rs:84-97 | six values in display order with 10*tens + units equal to hour, minute and second, units at most 9, all digits 0..9 for clock-library times |
| Clock.InitialState | src/main.rs:36-51 | timer at 0, first refresh forced, six widgets at the layout anchors showing no digit |
| Clock.LayoutPaintsWrap | src/main.rs:39-44 | widgets 2 to 6 paint only at negative rows, which the u16 cast wraps to 65536+row; widget 1's lowest two glyph rows land at negative columns |
| Clock.DrawAll | src/main.rs:66-72 | the six `draw(..).unwrap()` calls: anchors kept; success iff every widget accepts its number; on success each remembers its number |
| Clock.FirstRefusal | src/main.rs:66-72 | the index of the first widget that refuses its number (every earlier one accepts), or 6 when none refuses |
| Clock.DrawAllTrace | src/main.rs:66-72 | the refresh trace is each widget's own draw trace in widget order, up to the first refusal, whose blank paints end it |
| Clock.DrawAllWidgets | src/main.rs:66-72 | after a successful refresh, widget i is exactly what its own draw returned |
| Clock.DrawAllRepeat | src/main.rs:66-72 | when every widget is given the number it remembers, the refresh succeeds, draws nothing and changes no widget |
| Clock.ColonTicks | src/main.rs:74-75 | each iteration ends with two separator events, at (15,1) then (33,1), and neither is a paint |
| Clock.Step | src/main.rs:52-77 | exit iff an event is pending; a refresh iff ready-or-forced, resetting the timer and giving widget i digit i; otherwise only the timer advances; force is false afterwards; the trace ends with colon1 then colon2 |
| Clock.StepTrace | src/main.rs:63-75 | a refresh iteration emits the widgets' draws in widget order, up to the first refusal; if it panics, it ends with the refusing widget's blank paints; otherwise the two separator events follow |
| ClockRuns.InitialWf | src/main.rs:36-51 | the start state satisfies the loop invariant |
| ClockRuns.StepPreservesWf | src/main.rs:52-77 | an iteration keeps the anchors and leaves less than 1000 ms accumulated |
| ClockRuns.StepNeverPanics | src/main.rs:66-72 | with clock-library times no widget refuses its digit, so the bail branch is unreachable from the loop |
| ClockRuns.InitialStartLike | src/main.rs:39-51 | the start state has the forced refresh pending and no digit shown |
| ClockRuns.FirstStepRefreshes | src/main.rs:59-72 | the first non-exiting iteration refreshes all six digits for any elapsed time, resets the timer and clears force |
| ClockRuns.LayoutSeparated | src/main.rs:39-44 | the six layout anchors give pairwise disjoint boxes |
| ClockRuns.DrawAllOutside | src/main.rs:66-72 | a refresh writes only inside the widgets' boxes |
| ClockRuns.DrawAllKeepsDisplay | src/main.rs:66-72 | a successful refresh leaves every box showing its widget's digit |
| ClockRuns.ColonTicksPaintNothing | src/main.rs:74-75 | separator events leave the model's screen unchanged |
| ClockRuns.StepKeepsDisplay | src/main.rs:52-77 | an iteration keeps every box showing its widget's digit |
| ClockRuns.Run | src/main.rs:52-79 | iterating keeps the anchors; force is still set only if no iteration completed |
| ClockRuns.RunKeepsDisplay | src/main.rs:52-77 | over any run with clock-library times: no panic, the loop invariant holds, and every box shows its widget's digit |
| ClockRuns.ClockShowsRememberedDigits | src/main.rs:36-77 | from start-up on a blank screen the displayed digits always match the remembered ones |
| ClockRuns.RepeatTicksPaintNothing | src/main.rs:74-75 | n iterations' separator draws are 2n events and no paint |
| ClockRuns.QuietStep | src/main.rs:57-75 | an iteration after the first refresh whose time keeps the total under 1000 ms only advances the timer and draws the separators |
| ClockRuns.QuietRun | src/main.rs:57-75 | after the first refresh, iterations totalling under 1000 ms draw only the separators, leave the widgets alone and accumulate the time |
| ClockRuns.DrawAllPaintCount | src/main.rs:66-72 | a refresh with digits paints 50 cells per widget whose digit changes and none for the others |
| ClockRuns.ChangedFresh | src/main.rs:39-44 | on fresh widgets every digit counts as a change |
| ClockRuns.ChangedOnlyLast | src/main.rs:66-72 | when only the last digit differs, one widget changes |
| ClockRuns.FreshRefreshPaintsAll | src/main.rs:63-72 | the forced refresh of fresh widgets paints all 300 cells |
| ClockRuns.ScenarioDigits | src/main.rs:84-97 | 14:09:05 splits to 1 4 0 9 0 5; 10:00:00 to 1 0 0 0 0 0; 10:00:01 to 1 0 0 0 0 1 |
| ClockRuns.FirstIterationAt140905 | src/main.rs:51-75 | the first iteration at 14:09:05 draws 1 4 0 9 0 5 with 300 paints, whatever the elapsed time |
| ClockRuns.OneRefreshIn1200Ms | src/main.rs:59-75 | at 10:00:00 then 600 ms and 600 ms more at 10:00:01: the second iteration only advances the timer and draws the separators; the third resets the timer, shows 1 0 0 0 0 1 and paints 50 cells, one box |
| ClockRuns.SecondsUnitsRefresh | src/main.rs:61-72 | a due refresh that changes only the last digit paints exactly one box |
| ClockRuns.ColonFrameWouldHitDigits | src/main.rs:46-49 | drawn as the commented-out `colon_frame` at the separator anchors, each separator's row-1 "O" would land on entry (y, x) = (4, 3) of box 3 or box 5; its row-3 "O" would miss all six boxes |

## Left out

- Terminal setup and teardown (src/main.rs:107-118): raw mode, the alternate screen and cursor visibility are I/O with no logic to model.
- Escape-sequence output: `queue!`, `MoveTo`, `Print` and `flush` become `Paint` and `Flush` events. The screen ignores what `Print` of an empty or multi-character string does to the cursor, and it records a painted `""` as the cell's content, where a terminal would keep the previous character.
- The event poll (src/main.rs:100-104) is the `eventPending` input. A poll error is not modelled.
- `chrono::Local::now`, `Instant`, `Duration`, `thread::sleep` and `exit` are I/O or clock reads. The time is the `hour`, `minute` and `second` inputs, the elapsed time is `deltaMs`, and the 100 ms sleep is not modelled.
- `rusty_time::Timer` is not shown. It is modelled only as "accumulate elapsed milliseconds, ready at 1000 or more, reset to 0".
- `FancyColon` is used at src/main.rs:25 and src/main.rs:48-49 but is not defined in `src/widgets.rs`. Its draws are opaque `ColonDraw(x, y)` events at the anchors (15,1) and (33,1). Its animation phase is not modelled, a failing `colon.draw().unwrap()` is not modelled, and the screen does not record what it paints.
- Widgets.AsU16: the cast is stated as a function and applied only in `Clock.LayoutPaintsWrap`. `Paint` events keep the `int` coordinates that `rotate` returns, and the screen is keyed by those coordinates, not by wrapped ones.
- Geometry.Rotate: the 32-bit wrap-around of `i32` arithmetic is not modelled. With the layout's anchors (at most 43) and glyph positions 0..4, every intermediate value is far inside the `i32` range.
- The `usize`/`i32` difference between `current_time` and `Widget5x5::draw` is dropped. All numbers are `int`, and `i32::MAX` is kept as the sentinel constant.
- Clock.Step: its requires clause asks for six widgets, which `main` always has. A panic ends the model's iteration with the trace emitted up to the failing widget's blank paints (`Clock.StepTrace`). Process teardown after a panic is not modelled.
- ClockRuns.FirstIterationAt140905: stated for every state with the forced refresh pending and no digit shown. `ClockRuns.InitialStartLike` shows that the start state is one of them.
- ClockRuns.OneRefreshIn1200Ms: also stated for every such start-like state, for the same reason.
- ClockRuns.ColonTicksPaintNothing: it holds only because the model's screen ignores `ColonDraw` events. `FancyColon` is not part of this model. `ClockRuns.StepKeepsDisplay`, `ClockRuns.RunKeepsDisplay` and `ClockRuns.ClockShowsRememberedDigits` therefore assume that the separator widget paints outside all six digit boxes. Its commented-out predecessor at src/main.rs:46-47 would not: `ClockRuns.ColonFrameWouldHitDigits`.
