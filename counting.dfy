/**
 * The counting state of one run, as a value: the position history, the two
 * per-direction latch sets and the two totals, and the effect on them of one
 * track, one frame and a sequence of frames.
 */
module Counting {
  import opened Wrappers
  import opened CrossingDetector

  /** One tracked box as the tracker reports it: corners (x1, y1) and (x2, y2), and the identity. */
  datatype Track = Track(x1: int, y1: int, x2: int, y2: int, id: int)

  /** The reference coordinate of a track: the bottom edge of its box. */
  function BottomY(t: Track): int
  {
    t.y2
  }

  /**
   * inCount/outCount are the totals, entered/exited the ids already counted in
   * each direction, prev the last bottom edge seen for each id.
   */
  datatype State = State(inCount: int, outCount: int, entered: set<int>, exited: set<int>, prev: map<int, int>)

  /** One line of the run's log: which id crossed, and in which direction. */
  datatype Crossing = Crossing(id: int, event: Event)

  /** Both totals zero, no id latched, no position seen. */
  function Init(): State
  {
    State(0, 0, {}, {}, map[])
  }

  /** Each total is the number of ids latched for its direction. */
  predicate Consistent(s: State)
  {
    s.inCount == |s.entered| && s.outCount == |s.exited|
  }

  function Lookup(m: map<int, int>, k: int): Option<int>
  {
    if k in m then Some(m[k]) else None
  }

  /**
   * The event a track fires against the state it meets: the detector's verdict,
   * kept only when the id is not yet latched for that direction.
   */
  function Fired(s: State, lineY: int, t: Track): (e: Event)
    ensures e == Enter <==>
      t.id in s.prev && s.prev[t.id] < lineY && lineY <= BottomY(t) && t.id !in s.entered
    ensures e == Exit <==>
      t.id in s.prev && s.prev[t.id] > lineY && lineY >= BottomY(t) && t.id !in s.exited
  {
    match Classify(Lookup(s.prev, t.id), BottomY(t), lineY)
    case NoCrossing => NoCrossing
    case Enter => if t.id in s.entered then NoCrossing else Enter
    case Exit => if t.id in s.exited then NoCrossing else Exit
  }

  /** The state after one track: count and latch the fired event, then record the bottom edge. */
  function Step(s: State, lineY: int, t: Track): State
  {
    var e := Fired(s, lineY, t);
    State(
      if e == Enter then s.inCount + 1 else s.inCount,
      if e == Exit then s.outCount + 1 else s.outCount,
      if e == Enter then s.entered + {t.id} else s.entered,
      if e == Exit then s.exited + {t.id} else s.exited,
      s.prev[t.id := BottomY(t)])
  }

  /** The log lines one track produces: none, or its single crossing. */
  function Emitted(s: State, lineY: int, t: Track): seq<Crossing>
  {
    var e := Fired(s, lineY, t);
    if e == NoCrossing then [] else [Crossing(t.id, e)]
  }

  /** The state after the tracks, taken in order. */
  function RunTracks(s: State, lineY: int, ts: seq<Track>): State
    decreases |ts|
  {
    if ts == [] then s
    else Step(RunTracks(s, lineY, ts[..|ts| - 1]), lineY, ts[|ts| - 1])
  }

  /** The log those tracks produce. */
  function Trace(s: State, lineY: int, ts: seq<Track>): seq<Crossing>
    decreases |ts|
  {
    if ts == [] then []
    else Trace(s, lineY, ts[..|ts| - 1]) + Emitted(RunTracks(s, lineY, ts[..|ts| - 1]), lineY, ts[|ts| - 1])
  }

  /** All tracks of all frames, frame by frame. */
  function Flatten(frames: seq<seq<Track>>): seq<Track>
    decreases |frames|
  {
    if frames == [] then []
    else Flatten(frames[..|frames| - 1]) + frames[|frames| - 1]
  }

  /** The state after the frames, each frame's tracks taken in order. */
  function RunFrames(s: State, lineY: int, frames: seq<seq<Track>>): State
    decreases |frames|
  {
    if frames == [] then s
    else RunTracks(RunFrames(s, lineY, frames[..|frames| - 1]), lineY, frames[|frames| - 1])
  }

  /** The ids that the log shows crossing in direction e. */
  function IdsWith(log: seq<Crossing>, e: Event): set<int>
  {
    set c | c in log && c.event == e :: c.id
  }

  // ---------------------------------------------------------------------------
  // One track

  /** An id with no recorded position fires nothing and only gets its position recorded. */
  lemma NoEventOnFirstSight(s: State, lineY: int, t: Track)
    requires t.id !in s.prev
    ensures Fired(s, lineY, t) == NoCrossing && Emitted(s, lineY, t) == []
    ensures Step(s, lineY, t) == s.(prev := s.prev[t.id := BottomY(t)])
  {
  }

  /**
   * The Enter rule: in_count grows (by exactly one) precisely when the previous
   * edge is strictly above the line, the current one at or below it, and the id
   * is not yet latched; then the id is latched. Otherwise neither changes.
   */
  lemma EnterRule(s: State, lineY: int, t: Track)
    ensures var r := Step(s, lineY, t);
      var fires := t.id in s.prev && s.prev[t.id] < lineY <= BottomY(t) && t.id !in s.entered;
      (fires ==> r.inCount == s.inCount + 1 && r.entered == s.entered + {t.id}) &&
      (!fires ==> r.inCount == s.inCount && r.entered == s.entered)
  {
  }

  /** The Exit rule, symmetric to the Enter rule. */
  lemma ExitRule(s: State, lineY: int, t: Track)
    ensures var r := Step(s, lineY, t);
      var fires := t.id in s.prev && s.prev[t.id] > lineY >= BottomY(t) && t.id !in s.exited;
      (fires ==> r.outCount == s.outCount + 1 && r.exited == s.exited + {t.id}) &&
      (!fires ==> r.outCount == s.outCount && r.exited == s.exited)
  {
  }

  /**
   * A track fires at most one event, so at most one total grows, by at most one;
   * neither grows when the previous edge lies on the line.
   */
  lemma AtMostOneEvent(s: State, lineY: int, t: Track)
    ensures var r := Step(s, lineY, t);
      s.inCount <= r.inCount && s.outCount <= r.outCount &&
      (r.inCount - s.inCount) + (r.outCount - s.outCount) <= 1 &&
      |Emitted(s, lineY, t)| <= 1
    ensures t.id in s.prev && s.prev[t.id] == lineY ==> Step(s, lineY, t).(prev := s.prev) == s
  {
  }

  /** Totals and latch sets stay in step. */
  lemma StepConsistent(s: State, lineY: int, t: Track)
    requires Consistent(s)
    ensures Consistent(Step(s, lineY, t))
  {
  }

  /**
   * Latches are only ever added to. An id already latched for Enter is not
   * counted again on a second downward crossing, but can still be counted once
   * as an Exit; and symmetrically for an id already latched for Exit.
   */
  lemma LatchesPermanent(s: State, lineY: int, t: Track)
    ensures s.entered <= Step(s, lineY, t).entered && s.exited <= Step(s, lineY, t).exited
    ensures t.id in s.entered ==> Step(s, lineY, t).inCount == s.inCount
    ensures t.id in s.exited ==> Step(s, lineY, t).outCount == s.outCount
    ensures (t.id in s.entered && t.id !in s.exited && t.id in s.prev && s.prev[t.id] > lineY >= BottomY(t))
            ==> Step(s, lineY, t).outCount == s.outCount + 1
    ensures (t.id in s.exited && t.id !in s.entered && t.id in s.prev && s.prev[t.id] < lineY <= BottomY(t))
            ==> Step(s, lineY, t).inCount == s.inCount + 1
  {
  }

  /** The history holds the new bottom edge for this id, whatever fired, and is unchanged elsewhere. */
  lemma HistoryUpdate(s: State, lineY: int, t: Track)
    ensures t.id in Step(s, lineY, t).prev && Step(s, lineY, t).prev[t.id] == BottomY(t)
    ensures Step(s, lineY, t).prev.Keys == s.prev.Keys + {t.id}
    ensures forall k :: k in s.prev && k != t.id ==> Step(s, lineY, t).prev[k] == s.prev[k]
  {
  }

  /** Processing a track changes nothing that belongs to another id. */
  lemma OnlyOwnState(s: State, lineY: int, t: Track)
    ensures Step(s, lineY, t).entered - s.entered <= {t.id}
    ensures Step(s, lineY, t).exited - s.exited <= {t.id}
    ensures Step(s, lineY, t).prev - {t.id} == s.prev - {t.id}
  {
  }

  /** What a track fires depends only on its own id's history and latches. */
  lemma FiredIsLocal(s1: State, s2: State, lineY: int, t: Track)
    requires t.id in s1.prev <==> t.id in s2.prev
    requires t.id in s1.prev ==> s1.prev[t.id] == s2.prev[t.id]
    requires (t.id in s1.entered <==> t.id in s2.entered) && (t.id in s1.exited <==> t.id in s2.exited)
    ensures Fired(s1, lineY, t) == Fired(s2, lineY, t)
  {
  }

  /** Two tracks with different ids can be taken in either order. */
  lemma StepCommutes(s: State, lineY: int, a: Track, b: Track)
    requires a.id != b.id
    ensures Step(Step(s, lineY, a), lineY, b) == Step(Step(s, lineY, b), lineY, a)
  {
  }

  // ---------------------------------------------------------------------------
  // Sequences of tracks and frames

  lemma {:induction false} RunTracksAppend(s: State, lineY: int, a: seq<Track>, b: seq<Track>)
    ensures RunTracks(s, lineY, a + b) == RunTracks(RunTracks(s, lineY, a), lineY, b)
    decreases |b|
  {
    if b == [] {
      assert a + b == a;
    } else {
      var b' := b[..|b| - 1];
      assert (a + b)[..|a + b| - 1] == a + b';
      assert (a + b)[|a + b| - 1] == b[|b| - 1];
      RunTracksAppend(s, lineY, a, b');
    }
  }

  lemma {:induction false} TraceAppend(s: State, lineY: int, a: seq<Track>, b: seq<Track>)
    ensures Trace(s, lineY, a + b) == Trace(s, lineY, a) + Trace(RunTracks(s, lineY, a), lineY, b)
    decreases |b|
  {
    if b == [] {
      assert a + b == a;
    } else {
      var b' := b[..|b| - 1];
      assert (a + b)[..|a + b| - 1] == a + b';
      assert (a + b)[|a + b| - 1] == b[|b| - 1];
      TraceAppend(s, lineY, a, b');
      RunTracksAppend(s, lineY, a, b');
    }
  }

  /** Running frame by frame is running their tracks back to back: frame boundaries do not matter. */
  lemma {:induction false} RunFramesFlatten(s: State, lineY: int, frames: seq<seq<Track>>)
    ensures RunFrames(s, lineY, frames) == RunTracks(s, lineY, Flatten(frames))
    decreases |frames|
  {
    if frames != [] {
      var init := frames[..|frames| - 1];
      RunFramesFlatten(s, lineY, init);
      RunTracksAppend(s, lineY, Flatten(init), frames[|frames| - 1]);
    }
  }

  /** Swapping two neighbouring tracks of different ids inside a frame changes nothing. */
  lemma SwapAdjacent(s: State, lineY: int, before: seq<Track>, a: Track, b: Track, after: seq<Track>)
    requires a.id != b.id
    ensures RunTracks(s, lineY, before + [a, b] + after) == RunTracks(s, lineY, before + [b, a] + after)
  {
    var mid := RunTracks(s, lineY, before);
    RunTracksAppend(s, lineY, before + [a, b], after);
    RunTracksAppend(s, lineY, before + [b, a], after);
    RunTracksAppend(s, lineY, before, [a, b]);
    RunTracksAppend(s, lineY, before, [b, a]);
    assert [a, b][..1] == [a] && [b, a][..1] == [b] && [a][..0] == [] && [b][..0] == [];
    assert RunTracks(mid, lineY, [a]) == Step(mid, lineY, a);
    assert RunTracks(mid, lineY, [b]) == Step(mid, lineY, b);
    assert RunTracks(mid, lineY, [a, b]) == Step(Step(mid, lineY, a), lineY, b);
    assert RunTracks(mid, lineY, [b, a]) == Step(Step(mid, lineY, b), lineY, a);
    StepCommutes(mid, lineY, a, b);
  }

  /** Totals and latch sets stay in step over any run. */
  lemma {:induction false} RunConsistent(s: State, lineY: int, ts: seq<Track>)
    requires Consistent(s)
    ensures Consistent(RunTracks(s, lineY, ts))
    decreases |ts|
  {
    if ts != [] {
      RunConsistent(s, lineY, ts[..|ts| - 1]);
      StepConsistent(RunTracks(s, lineY, ts[..|ts| - 1]), lineY, ts[|ts| - 1]);
    }
  }

  /** Over any run the totals never decrease, and latches and history keys are never removed. */
  lemma {:induction false} RunMonotone(s: State, lineY: int, ts: seq<Track>)
    ensures var r := RunTracks(s, lineY, ts);
      s.inCount <= r.inCount && s.outCount <= r.outCount &&
      s.entered <= r.entered && s.exited <= r.exited && s.prev.Keys <= r.prev.Keys
    decreases |ts|
  {
    if ts != [] {
      RunMonotone(s, lineY, ts[..|ts| - 1]);
    }
  }

  /** An id that none of the tracks carries keeps its history entry and its latches. */
  lemma {:induction false} RunUntouched(s: State, lineY: int, ts: seq<Track>, id: int)
    requires forall i :: 0 <= i < |ts| ==> ts[i].id != id
    ensures var r := RunTracks(s, lineY, ts);
      (id in r.prev <==> id in s.prev) && (id in s.prev ==> r.prev[id] == s.prev[id]) &&
      (id in r.entered <==> id in s.entered) && (id in r.exited <==> id in s.exited)
    decreases |ts|
  {
    if ts != [] {
      RunUntouched(s, lineY, ts[..|ts| - 1], id);
    }
  }

  lemma IdsWithAppend(a: seq<Crossing>, b: seq<Crossing>, e: Event)
    ensures IdsWith(a + b, e) == IdsWith(a, e) + IdsWith(b, e)
  {
  }

  /** The latches gained over a run are exactly the ids the log shows crossing that way. */
  lemma {:induction false} TraceAccounting(s: State, lineY: int, ts: seq<Track>)
    ensures RunTracks(s, lineY, ts).entered == s.entered + IdsWith(Trace(s, lineY, ts), Enter)
    ensures RunTracks(s, lineY, ts).exited == s.exited + IdsWith(Trace(s, lineY, ts), Exit)
    decreases |ts|
  {
    if ts == [] {
      assert IdsWith([], Enter) == {} && IdsWith([], Exit) == {};
    } else {
      var init, t := ts[..|ts| - 1], ts[|ts| - 1];
      TraceAccounting(s, lineY, init);
      var mid := RunTracks(s, lineY, init);
      IdsWithAppend(Trace(s, lineY, init), Emitted(mid, lineY, t), Enter);
      IdsWithAppend(Trace(s, lineY, init), Emitted(mid, lineY, t), Exit);
      var e := Fired(mid, lineY, t);
      if e == NoCrossing {
        assert IdsWith([], Enter) == {} && IdsWith([], Exit) == {};
      } else {
        assert Emitted(mid, lineY, t) == [Crossing(t.id, e)];
        assert IdsWith([Crossing(t.id, e)], e) == {t.id};
        assert IdsWith([Crossing(t.id, e)], Mirror(e)) == {};
      }
    }
  }

  /**
   * Each id is logged at most once per direction over any run, and not at all in
   * a direction it was already latched for when the run began.
   */
  lemma {:induction false} AtMostOncePerDirection(s: State, lineY: int, ts: seq<Track>, id: int)
    ensures multiset(Trace(s, lineY, ts))[Crossing(id, Enter)] <= if id in s.entered then 0 else 1
    ensures multiset(Trace(s, lineY, ts))[Crossing(id, Exit)] <= if id in s.exited then 0 else 1
    decreases |ts|
  {
    if ts != [] {
      var init, t := ts[..|ts| - 1], ts[|ts| - 1];
      var mid := RunTracks(s, lineY, init);
      AtMostOncePerDirection(s, lineY, init, id);
      TraceAccounting(s, lineY, init);
      var before := Trace(s, lineY, init);
      var e := Fired(mid, lineY, t);
      if e != NoCrossing && t.id == id {
        assert id !in IdsWith(before, e);
        assert Crossing(id, e) !in before;
        assert multiset([Crossing(id, e)])[Crossing(id, Mirror(e))] == 0;
      }
    }
  }

  /**
   * A whole run from the initial state: each total equals the number of distinct
   * ids the log shows crossing that way, and the log names each id at most once
   * per direction.
   */
  lemma CountsAreDistinctIds(lineY: int, frames: seq<seq<Track>>)
    ensures var r := RunFrames(Init(), lineY, frames);
      var log := Trace(Init(), lineY, Flatten(frames));
      Consistent(r) &&
      r.entered == IdsWith(log, Enter) && r.exited == IdsWith(log, Exit) &&
      r.inCount == |IdsWith(log, Enter)| && r.outCount == |IdsWith(log, Exit)|
    ensures var log := Trace(Init(), lineY, Flatten(frames));
      forall id :: multiset(log)[Crossing(id, Enter)] <= 1 && multiset(log)[Crossing(id, Exit)] <= 1
  {
    var ts := Flatten(frames);
    RunFramesFlatten(Init(), lineY, frames);
    RunConsistent(Init(), lineY, ts);
    TraceAccounting(Init(), lineY, ts);
    forall id {
      AtMostOncePerDirection(Init(), lineY, ts, id);
    }
  }
}
