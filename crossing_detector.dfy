/**
 * The crossing-event detector: for one track in one frame, decides from the
 * previous and the current bottom edge whether the track crossed the fixed
 * horizontal boundary line. Image Y grows downward, so "above the line" is a
 * smaller Y: moving down across the line is an Enter, moving up is an Exit.
 */
module CrossingDetector {
  import opened Wrappers

  datatype Event = NoCrossing | Enter | Exit

  /** The comparison chains of the per-track update; no event without a previous position. */
  function Classify(prevY: Option<int>, currY: int, lineY: int): (e: Event)
    ensures e == Enter <==> prevY.Some? && prevY.value < lineY && lineY <= currY
    ensures e == Exit <==> prevY.Some? && prevY.value > lineY && lineY >= currY
  {
    match prevY
    case None => NoCrossing
    case Some(p) =>
      if p < lineY <= currY then Enter
      else if p > lineY >= currY then Exit
      else NoCrossing
  }

  /** The event seen when the picture is flipped upside down about the line. */
  function Mirror(e: Event): Event
  {
    match e
    case NoCrossing => NoCrossing
    case Enter => Exit
    case Exit => Enter
  }

  /** Reflecting both positions about the line swaps Enter and Exit. */
  lemma ClassifyMirror(prevY: int, currY: int, lineY: int)
    ensures Classify(Some(2 * lineY - prevY), 2 * lineY - currY, lineY)
         == Mirror(Classify(Some(prevY), currY, lineY))
  {
  }

  /** A track seen for the first time never produces an event. */
  lemma NoEventOnFirstSight(currY: int, lineY: int)
    ensures Classify(None, currY, lineY) == NoCrossing
  {
  }

  /**
   * A track whose previous position lies exactly on the line produces no event,
   * wherever it moves next; in particular resting on the line is not a crossing.
   */
  lemma NoEventFromTheLine(currY: int, lineY: int)
    ensures Classify(Some(lineY), currY, lineY) == NoCrossing
  {
  }

  /** An event really is a move across the line in its own direction. */
  lemma EventIsAMove(prevY: int, currY: int, lineY: int)
    ensures Classify(Some(prevY), currY, lineY) == Enter ==> prevY < currY
    ensures Classify(Some(prevY), currY, lineY) == Exit ==> prevY > currY
    ensures prevY == currY ==> Classify(Some(prevY), currY, lineY) == NoCrossing
  {
  }

  /** Five pixels either side of the line: down is Enter, up is Exit. */
  lemma Symmetry(lineY: int)
    ensures Classify(Some(lineY - 5), lineY + 5, lineY) == Enter
    ensures Classify(Some(lineY + 5), lineY - 5, lineY) == Exit
    ensures Classify(Some(lineY), lineY, lineY) == NoCrossing
  {
  }
}
