/**
 * The run-scoped counter that the frame loop drives: totals, latch sets and
 * position history as fields updated in place, with the per-track update
 * written in the branch structure of the frame loop (an `if` on the Enter
 * condition, an `elif` on the Exit condition, then the history overwrite).
 */
module Footfall {
  import opened CrossingDetector
  import opened Counting

  class Counter {
    const lineY: int
    var inCount: int
    var outCount: int
    var enteredIds: set<int>
    var exitedIds: set<int>
    var prevBottomY: map<int, int>

    /** The counter's fields as a value. */
    function Snapshot(): State
      reads this
    {
      State(inCount, outCount, enteredIds, exitedIds, prevBottomY)
    }

    ghost predicate Valid()
      reads this
    {
      Consistent(Snapshot())
    }

    /** Totals at zero, nothing latched, no history; the line is fixed for the run. */
    constructor (lineY: int)
      ensures Valid() && this.lineY == lineY && Snapshot() == Init()
    {
      this.lineY := lineY;
      inCount, outCount := 0, 0;
      enteredIds, exitedIds := {}, {};
      prevBottomY := map[];
    }

    /** One tracked box of the current frame; returns the event it logs, if any. */
    method ProcessTrack(track: Track) returns (fired: Event)
      requires Valid()
      modifies this
      ensures Valid()
      ensures Snapshot() == Step(old(Snapshot()), lineY, track)
      ensures fired == Fired(old(Snapshot()), lineY, track)
    {
      var bottomY := track.y2;
      fired := NoCrossing;
      if track.id in prevBottomY {
        var prevBy := prevBottomY[track.id];
        if prevBy < lineY <= bottomY && track.id !in enteredIds {
          inCount := inCount + 1;
          enteredIds := enteredIds + {track.id};
          fired := Enter;
        } else if prevBy > lineY >= bottomY && track.id !in exitedIds {
          outCount := outCount + 1;
          exitedIds := exitedIds + {track.id};
          fired := Exit;
        }
      }
      prevBottomY := prevBottomY[track.id := bottomY];
    }

    /** All tracks of one frame, in the order the tracker lists them; returns the frame's log. */
    method ProcessFrame(tracks: seq<Track>) returns (log: seq<Crossing>)
      requires Valid()
      modifies this
      ensures Valid()
      ensures Snapshot() == RunTracks(old(Snapshot()), lineY, tracks)
      ensures log == Trace(old(Snapshot()), lineY, tracks)
    {
      log := [];
      for i := 0 to |tracks|
        invariant Valid()
        invariant Snapshot() == RunTracks(old(Snapshot()), lineY, tracks[..i])
        invariant log == Trace(old(Snapshot()), lineY, tracks[..i])
      {
        ghost var before := Snapshot();
        var e := ProcessTrack(tracks[i]);
        if e != NoCrossing {
          log := log + [Crossing(tracks[i].id, e)];
        }
        assert tracks[..i + 1][..i] == tracks[..i];
        assert Emitted(before, lineY, tracks[i]) == if e == NoCrossing then [] else [Crossing(tracks[i].id, e)];
      }
      assert tracks[..|tracks|] == tracks;
    }

    /** Frames in arrival order, each processed completely before the next; returns the log. */
    method ProcessFrames(frames: seq<seq<Track>>) returns (log: seq<Crossing>)
      requires Valid()
      modifies this
      ensures Valid()
      ensures Snapshot() == RunFrames(old(Snapshot()), lineY, frames)
      ensures log == Trace(old(Snapshot()), lineY, Flatten(frames))
    {
      log := [];
      var i := 0;
      while i < |frames|
        invariant 0 <= i <= |frames|
        invariant Valid()
        invariant Snapshot() == RunFrames(old(Snapshot()), lineY, frames[..i])
        invariant log == Trace(old(Snapshot()), lineY, Flatten(frames[..i]))
      {
        ghost var before := Snapshot();
        var frameLog := ProcessFrame(frames[i]);
        log := log + frameLog;
        assert frames[..i + 1][..i] == frames[..i];
        RunFramesFlatten(old(Snapshot()), lineY, frames[..i]);
        TraceAppend(old(Snapshot()), lineY, Flatten(frames[..i]), frames[i]);
        i := i + 1;
      }
      assert frames[..|frames|] == frames;
    }
  }

  /**
   * A whole run on the given line: the final totals and the log. Each total is
   * the number of distinct ids logged crossing that way, and no id is logged
   * twice in one direction.
   */
  method CountFootfall(lineY: int, frames: seq<seq<Track>>) returns (inCount: int, outCount: int, log: seq<Crossing>)
    ensures log == Trace(Init(), lineY, Flatten(frames))
    ensures inCount == |IdsWith(log, Enter)| && outCount == |IdsWith(log, Exit)|
    ensures forall id :: multiset(log)[Crossing(id, Enter)] <= 1 && multiset(log)[Crossing(id, Exit)] <= 1
  {
    var counter := new Counter(lineY);
    log := counter.ProcessFrames(frames);
    inCount, outCount := counter.inCount, counter.outCount;
    CountsAreDistinctIds(lineY, frames);
  }
}
