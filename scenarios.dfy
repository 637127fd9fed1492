/**
 * Concrete runs on an arbitrary line position L, one frame per observation
 * unless stated otherwise.
 */
module Scenarios {
  import opened CrossingDetector
  import opened Counting

  /** A box whose bottom edge is at y; only the id and the bottom edge matter to the counter. */
  function At(id: int, y: int): Track
  {
    Track(0, y - 100, 40, y, id)
  }

  /**
   * One id walking down across the line: [L-20, L-5, L+5, L+30] gives one Enter, at the third frame:
   * the log is still empty after two frames and holds the Enter after three.
   */
  lemma WalkDown(L: int)
    ensures var frames := [[At(1, L - 20)], [At(1, L - 5)], [At(1, L + 5)], [At(1, L + 30)]];
      var r := RunFrames(Init(), L, frames);
      r.inCount == 1 && r.outCount == 0 &&
      Trace(Init(), L, Flatten(frames)) == [Crossing(1, Enter)]
    ensures var ts := [At(1, L - 20), At(1, L - 5), At(1, L + 5), At(1, L + 30)];
      Trace(Init(), L, ts[..2]) == [] && Trace(Init(), L, ts[..3]) == [Crossing(1, Enter)]
  {
    var ts := [At(1, L - 20), At(1, L - 5), At(1, L + 5), At(1, L + 30)];
    var frames := [[ts[0]], [ts[1]], [ts[2]], [ts[3]]];
    assert Flatten(frames) == ts by {
      assert frames[..3][..2][..1][..0] == [];
      assert frames[..3][..2][..1] == [[ts[0]]];
      assert frames[..3][..2] == [[ts[0]], [ts[1]]];
      assert frames[..3] == [[ts[0]], [ts[1]], [ts[2]]];
      assert Flatten(frames[..3][..2][..1]) == [ts[0]];
      assert Flatten(frames[..3][..2]) == [ts[0], ts[1]];
      assert Flatten(frames[..3]) == [ts[0], ts[1], ts[2]];
    }
    RunFramesFlatten(Init(), L, frames);
    var s1 := Step(Init(), L, ts[0]);
    var s2 := Step(s1, L, ts[1]);
    var s3 := Step(s2, L, ts[2]);
    assert ts[..3][..2][..1][..0] == [];
    assert ts[..3][..2][..1] == [ts[0]];
    assert ts[..3][..2] == [ts[0], ts[1]];
    assert ts[..3] == [ts[0], ts[1], ts[2]];
    assert RunTracks(Init(), L, [ts[0]]) == s1;
    assert RunTracks(Init(), L, [ts[0], ts[1]]) == s2;
    assert RunTracks(Init(), L, [ts[0], ts[1], ts[2]]) == s3;
    assert Trace(Init(), L, [ts[0]]) == [];
    assert Trace(Init(), L, [ts[0], ts[1]]) == [];
    assert Trace(Init(), L, [ts[0], ts[1], ts[2]]) == [Crossing(1, Enter)];
  }

  /** One id walking up, then down: [L+10, L-10, L+10] gives an Exit at frame 2, then an Enter at frame 3. */
  lemma UpThenDown(L: int)
    ensures var frames := [[At(2, L + 10)], [At(2, L - 10)], [At(2, L + 10)]];
      var r := RunFrames(Init(), L, frames);
      r.inCount == 1 && r.outCount == 1 &&
      Trace(Init(), L, Flatten(frames)) == [Crossing(2, Exit), Crossing(2, Enter)]
  {
    var ts := [At(2, L + 10), At(2, L - 10), At(2, L + 10)];
    var frames := [[ts[0]], [ts[1]], [ts[2]]];
    assert Flatten(frames) == ts by {
      assert frames[..2][..1][..0] == [];
      assert frames[..2][..1] == [[ts[0]]];
      assert frames[..2] == [[ts[0]], [ts[1]]];
      assert Flatten(frames[..2][..1]) == [ts[0]];
      assert Flatten(frames[..2]) == [ts[0], ts[1]];
    }
    RunFramesFlatten(Init(), L, frames);
    var s1 := Step(Init(), L, ts[0]);
    var s2 := Step(s1, L, ts[1]);
    assert ts[..2][..1][..0] == [];
    assert ts[..2][..1] == [ts[0]];
    assert ts[..2] == [ts[0], ts[1]];
    assert RunTracks(Init(), L, [ts[0]]) == s1;
    assert RunTracks(Init(), L, [ts[0], ts[1]]) == s2;
    assert Trace(Init(), L, [ts[0]]) == [];
    assert Trace(Init(), L, [ts[0], ts[1]]) == [Crossing(2, Exit)];
  }

  /**
   * Two ids crossing down in the same frame: both are counted, and listing them
   * in the other order inside the frame gives the same state.
   */
  lemma TwoInOneFrame(L: int)
    ensures var r := RunFrames(Init(), L, [[At(1, L - 3), At(2, L - 8)], [At(1, L + 4), At(2, L + 1)]]);
      r.inCount == 2 && r.outCount == 0 && r.entered == {1, 2}
    ensures RunFrames(Init(), L, [[At(1, L - 3), At(2, L - 8)], [At(1, L + 4), At(2, L + 1)]])
         == RunFrames(Init(), L, [[At(1, L - 3), At(2, L - 8)], [At(2, L + 1), At(1, L + 4)]])
  {
    var a1, b1, a2, b2 := At(1, L - 3), At(2, L - 8), At(1, L + 4), At(2, L + 1);
    var f := [[a1, b1], [a2, b2]];
    var g := [[a1, b1], [b2, a2]];
    assert f[..1][..0] == [] && f[..1] == [[a1, b1]];
    assert g[..1][..0] == [] && g[..1] == [[a1, b1]];
    assert [a1, b1][..1][..0] == [] && [a1, b1][..1] == [a1];
    assert [a2, b2][..1][..0] == [] && [a2, b2][..1] == [a2];
    var s0 := RunTracks(Init(), L, [a1, b1]);
    assert RunTracks(Init(), L, [a1]) == Step(Init(), L, a1);
    assert s0 == Step(Step(Init(), L, a1), L, b1);
    assert RunFrames(Init(), L, f[..1]) == s0;
    assert RunTracks(s0, L, [a2]) == Step(s0, L, a2);
    assert RunFrames(Init(), L, f) == Step(Step(s0, L, a2), L, b2);
    assert {1} + {2} == {1, 2};
    SwapAdjacent(s0, L, [], a2, b2, []);
    assert [] + [a2, b2] + [] == [a2, b2] && [] + [b2, a2] + [] == [b2, a2];
  }

  /**
   * One id crossing down twice: [L-10, L+10, L-10, L+10] counts only the first
   * downward crossing, while the upward crossing between them is counted.
   */
  lemma DownTwice(L: int)
    ensures var frames := [[At(3, L - 10)], [At(3, L + 10)], [At(3, L - 10)], [At(3, L + 10)]];
      var r := RunFrames(Init(), L, frames);
      r.inCount == 1 && r.outCount == 1 &&
      Trace(Init(), L, Flatten(frames)) == [Crossing(3, Enter), Crossing(3, Exit)]
  {
    var ts := [At(3, L - 10), At(3, L + 10), At(3, L - 10), At(3, L + 10)];
    var frames := [[ts[0]], [ts[1]], [ts[2]], [ts[3]]];
    assert Flatten(frames) == ts by {
      assert frames[..3][..2][..1][..0] == [];
      assert frames[..3][..2][..1] == [[ts[0]]];
      assert frames[..3][..2] == [[ts[0]], [ts[1]]];
      assert frames[..3] == [[ts[0]], [ts[1]], [ts[2]]];
      assert Flatten(frames[..3][..2][..1]) == [ts[0]];
      assert Flatten(frames[..3][..2]) == [ts[0], ts[1]];
      assert Flatten(frames[..3]) == [ts[0], ts[1], ts[2]];
    }
    RunFramesFlatten(Init(), L, frames);
    var s1 := Step(Init(), L, ts[0]);
    var s2 := Step(s1, L, ts[1]);
    var s3 := Step(s2, L, ts[2]);
    assert ts[..3][..2][..1][..0] == [];
    assert ts[..3][..2][..1] == [ts[0]];
    assert ts[..3][..2] == [ts[0], ts[1]];
    assert ts[..3] == [ts[0], ts[1], ts[2]];
    assert RunTracks(Init(), L, [ts[0]]) == s1;
    assert RunTracks(Init(), L, [ts[0], ts[1]]) == s2;
    assert RunTracks(Init(), L, [ts[0], ts[1], ts[2]]) == s3;
    assert Trace(Init(), L, [ts[0]]) == [];
    assert Trace(Init(), L, [ts[0], ts[1]]) == [Crossing(3, Enter)];
    assert Trace(Init(), L, [ts[0], ts[1], ts[2]]) == [Crossing(3, Enter), Crossing(3, Exit)];
  }

  /** A track resting exactly on the line, then leaving it either way, logs nothing. */
  lemma RestOnLine(L: int, y: int)
    ensures Trace(Init(), L, [At(4, L), At(4, L), At(4, y)]) == []
  {
    var ts := [At(4, L), At(4, L), At(4, y)];
    assert ts[..2][..1][..0] == [] && ts[..2][..1] == [ts[0]] && ts[..2] == [ts[0], ts[1]];
    assert RunTracks(Init(), L, [ts[0]]) == Step(Init(), L, ts[0]);
    assert Trace(Init(), L, [ts[0]]) == [];
    assert Trace(Init(), L, [ts[0], ts[1]]) == [];
  }
}
