# Footfall counter: line-crossing core

This model covers the people-counting logic of a video footfall counter. Each
frame, an external tracker reports boxes `(x1, y1, x2, y2, track_id)`. For each
box, the counter compares the box's bottom edge with the bottom edge it last saw
for that id, measured against a fixed horizontal line `line_y`:

- Moving from strictly above the line to at or below it is an **Enter**.
- Moving from strictly below the line to at or above it is an **Exit**.

Image Y grows downward. An id is counted at most once per direction for the
whole run, through the two latch sets `entered_ids` and `exited_ids`. The
position history `prev_bottom_y` is overwritten on every observation. The two
totals are `in_count` and `out_count`.

Modules:

- `Wrappers` (wrappers.dfy): `Option`.
- `CrossingDetector` (crossing_detector.dfy): the pure decision `Classify` on a
  previous and a current bottom edge, with its properties.
- `Counting` (counting.dfy): the run state as a value (`State`), what one track
  does to it (`Fired`, `Step`), runs over tracks and frames (`RunTracks`,
  `RunFrames`), and the log of crossings (`Trace`). Its lemmas are the counting
  invariants.
- `Footfall` (counter.dfy): the class `Counter`. Its fields are the counter's
  variables, updated in place. `ProcessTrack` keeps the frame loop's own branch
  structure: an `if` on the Enter condition and the id's latch, an `elif` on the
  Exit condition, then an unconditional history write. Each method is proved to
  produce the state that `Counting` specifies. `CountFootfall` runs a whole
  video's frames from a fresh counter.
- `Scenarios` (scenarios.dfy): concrete runs for an arbitrary line position `L`.

The `print` lines for ENTER and EXIT are modelled as a returned log of
`Crossing(id, event)` entries. The frame number and the Y values are not in the
log entries.

## Model

| member | source | states |
|---|---|---|
| CrossingDetector.Classify | footfall_counter.py:93-103 | the guard on line 93 and the comparison chains of lines 97 and 103 (the latch tests on those lines are in `Counting.Fired`): Enter exactly when a previous position exists and `prev < line_y <= curr`; Exit exactly when `prev > line_y >= curr`; otherwise no event |
| CrossingDetector.ClassifyMirror | footfall_counter.py:97-103 | reflecting both positions about the line turns Enter into Exit and back, and no event into no event |
| CrossingDetector.NoEventOnFirstSight | footfall_counter.py:93 | with no previous position, no event fires for any current position |
| CrossingDetector.NoEventFromTheLine | footfall_counter.py:97-103 | a previous position exactly on the line fires nothing, wherever the track moves next; so resting on the line is not a crossing |
| CrossingDetector.EventIsAMove | footfall_counter.py:96-103 | an Enter is a move downward and an Exit is a move upward; a track that does not move fires nothing |
| CrossingDetector.Symmetry | footfall_counter.py:97-103 | `L-5 -> L+5` is Enter, `L+5 -> L-5` is Exit, `L -> L` is nothing |
| Counting.Fired | footfall_counter.py:93-105 | the event counted for a track: Enter exactly when it has a history entry with `prev < line_y <= y2` and its id is not in `entered_ids`; Exit exactly when `prev > line_y >= y2` and its id is not in `exited_ids` |
| Counting.BottomY | footfall_counter.py:82 | the reference coordinate is the box's bottom edge `y2`; used by `HistoryUpdate` and the rules |
| Counting.Init | footfall_counter.py:51-54 | the run's initial state: totals 0, empty latch sets, empty history; `CountsAreDistinctIds` starts from it and `Footfall.Counter.constructor` is proved to produce it |
| Counting.Step | footfall_counter.py:82-108 | the effect of one track; its properties are stated by `EnterRule`, `ExitRule`, `AtMostOneEvent`, `StepConsistent`, `LatchesPermanent`, `HistoryUpdate`, `OnlyOwnState` and `StepCommutes` |
| Counting.Emitted | footfall_counter.py:100-106 | the ENTER or EXIT log line of one track, if any; at most one line by `AtMostOneEvent`, none on first sight by `NoEventOnFirstSight` |
| Counting.RunTracks | footfall_counter.py:80-108 | the `for` loop over one frame's tracks; its properties are stated by `RunConsistent`, `RunMonotone`, `RunUntouched` and `SwapAdjacent` |
| Counting.Trace | footfall_counter.py:80-108 | the log lines written by the `for` loop; related to the latch sets by `TraceAccounting` and bounded per id by `AtMostOncePerDirection` |
| Counting.RunFrames | footfall_counter.py:61-108 | the `while` loop over frames; reduced to one pass over all tracks by `RunFramesFlatten` |
| Counting.NoEventOnFirstSight | footfall_counter.py:93-108 | an id with no history entry fires nothing and logs nothing; the only change is that its bottom edge is recorded |
| Counting.EnterRule | footfall_counter.py:97-99 | if the Enter condition holds and the id is not latched, `in_count` grows by one and the id joins `entered_ids`; otherwise both stay unchanged |
| Counting.ExitRule | footfall_counter.py:103-105 | the same for Exit, `out_count` and `exited_ids` |
| Counting.AtMostOneEvent | footfall_counter.py:97-105 | totals never decrease, together they grow by at most one per track, and at most one log line is written; a previous position on the line changes nothing except the history |
| Counting.StepConsistent | footfall_counter.py:51-108 | `in_count == len(entered_ids)` and `out_count == len(exited_ids)` are preserved by each track |
| Counting.LatchesPermanent | footfall_counter.py:97-105 | latch sets only grow; an id already in `entered_ids` is never counted in again, yet its first Exit still counts; symmetrically for Exit |
| Counting.HistoryUpdate | footfall_counter.py:82-108 | afterwards `prev_bottom_y[track_id] == y2` whatever fired; the keys gain only this id; every other entry is unchanged |
| Counting.OnlyOwnState | footfall_counter.py:93-108 | only this id can join a latch set, and the history of every other id is unchanged |
| Counting.FiredIsLocal | footfall_counter.py:93-105 | what a track fires depends only on its own id's history entry and latch membership |
| Counting.StepCommutes | footfall_counter.py:80-108 | two tracks with different ids give the same state in either order |
| Counting.SwapAdjacent | footfall_counter.py:80-108 | swapping two neighbouring tracks with different ids anywhere in a sequence does not change the final state |
| Counting.RunFramesFlatten | footfall_counter.py:61-108 | processing frame by frame equals processing all their tracks back to back, so frame boundaries do not matter |
| Counting.RunConsistent | footfall_counter.py:51-108 | the totals equal the latch-set sizes after any sequence of tracks |
| Counting.RunMonotone | footfall_counter.py:51-108 | over any run the totals never decrease, and latch sets and history keys are never shrunk |
| Counting.RunUntouched | footfall_counter.py:80-108 | an id that carries none of the run's tracks keeps its history entry and its latch memberships |
| Counting.TraceAccounting | footfall_counter.py:97-106 | the ids a run adds to `entered_ids` and `exited_ids` are exactly the ids its ENTER and EXIT log lines name |
| Counting.AtMostOncePerDirection | footfall_counter.py:97-106 | over any run each id is logged at most once per direction, and not at all in a direction it was already latched for |
| Counting.CountsAreDistinctIds | footfall_counter.py:51-108 | from the initial state, after any frames: each total equals the number of distinct ids logged in that direction, equal to the latch set, and no id is logged twice in one direction |
| Footfall.Counter.constructor | footfall_counter.py:51-54 | totals 0, empty latch sets and history, the given `line_y` |
| Footfall.Counter.ProcessTrack | footfall_counter.py:81-108 | the in-place update leaves the fields equal to `Step` of the old fields; it returns the event; totals still match the latch-set sizes |
| Footfall.Counter.ProcessFrame | footfall_counter.py:80-108 | the for-loop over a frame's tracks leaves the fields equal to `RunTracks` of the old fields; it returns that frame's log |
| Footfall.Counter.ProcessFrames | footfall_counter.py:61-108 | the frame loop leaves the fields equal to `RunFrames` of the old fields; it returns the whole log |
| Footfall.CountFootfall | footfall_counter.py:51-136 | a whole run from a fresh counter: the reported totals are the numbers of distinct ids logged entering and exiting, and the log names no id twice in one direction |
| Scenarios.WalkDown | footfall_counter.py:93-108 | `[L-20, L-5, L+5, L+30]` for one id gives one Enter, at the third observation, and no Exit |
| Scenarios.UpThenDown | footfall_counter.py:93-108 | `[L+10, L-10, L+10]` gives an Exit and then an Enter, one of each |
| Scenarios.TwoInOneFrame | footfall_counter.py:80-108 | two ids crossing down in the same frame are both counted, in either order within the frame |
| Scenarios.DownTwice | footfall_counter.py:97-105 | `[L-10, L+10, L-10, L+10]` counts the first downward crossing and the upward one, but not the second downward crossing |
| Scenarios.RestOnLine | footfall_counter.py:97-103 | a track resting on the line and then moving anywhere logs nothing |

## Left out

- YOLOv8 person detection and the confidence filter (lines 27, 68-74): an external model with floating-point scores. The model only sees the tracks.
- SORT tracking (lines 13, 28, 77): an external library. Each frame's tracks are an arbitrary input sequence, and an empty frame stands for "no detections".
- `line_y = int(height * LINE_HEIGHT_RATIO)` (line 46): floating-point arithmetic. `line_y` is a parameter of the counter. The code truncates with `int()`.
- The `map(int, track)` coercion (line 81): tracks are already integer tuples.
- Video capture, writing, display and the `q` quit key (lines 31-43, 62-64, 121-131): a run is the finite sequence of frames actually processed. Quitting early is the same as a shorter sequence.
- Drawing of boxes, ids, the line and totals (lines 85-90, 110-119): output only; it changes no counting state.
- Printed messages (lines 56-58, 100, 106, 133-139): the ENTER and EXIT lines are the returned log, without the frame index and Y values. The others are not modelled.
- Skipping malformed track tuples: the code does not skip them (a row that does not unpack into five values raises at line 81), so the model does not either.
- Evicting stale history entries, and a bidirectional-oscillation variant: the code has neither.
- Order independence within a frame: it is proved only for tracks with different ids. If one id appeared twice in a frame, the order would matter. The code does not guard against this.
