/**
 * One card of the interaction stack: when it may be dragged, and how the end of
 * a vertical drag is turned into "close the active card", "open the next card"
 * or a bounce back to the card's target.
 */
module StackCard {

  datatype Orientation = Horizontal | Vertical

  datatype DragOutcome = RequestClose | RequestOpen | Bounce

  /** Where the card is animated to: its position on the orientation's axis, 0 on the other. */
  datatype Target = Target(x: real, y: real)

  const DefaultThreshold: real := 120.0

  /** Drag props are attached only to a vertical, draggable card that has a close or an open callback. */
  predicate DragEnabled(orientation: Orientation, isDraggable: bool, hasClose: bool, hasOpen: bool)
    ensures DragEnabled(orientation, isDraggable, hasClose, hasOpen) ==> orientation != Horizontal
    ensures !hasClose && !hasOpen ==> !DragEnabled(orientation, isDraggable, hasClose, hasOpen)
  {
    orientation == Vertical && isDraggable && (hasClose || hasOpen)
  }

  /**
   * `onDragEnd`: close wins when a close callback exists and the card was pulled
   * down by more than the threshold; otherwise open fires when an open callback
   * exists and the card was pushed up by more than the threshold; otherwise the
   * card bounces back. Both comparisons are strict.
   */
  function ClassifyDrag(hasClose: bool, hasOpen: bool, offsetY: real, threshold: real): (r: DragOutcome)
    ensures r == RequestClose <==> hasClose && offsetY > threshold
    ensures r == RequestOpen <==> !(hasClose && offsetY > threshold) && hasOpen && offsetY < -threshold
    ensures r == Bounce <==> !(hasClose && offsetY > threshold) && !(hasOpen && offsetY < -threshold)
  {
    if hasClose && offsetY > threshold then RequestClose
    else if hasOpen && offsetY < -threshold then RequestOpen
    else Bounce
  }

  /** A drag of exactly the threshold, either way, bounces. */
  lemma ThresholdBounces(hasClose: bool, hasOpen: bool, threshold: real)
    requires threshold >= 0.0
    ensures ClassifyDrag(hasClose, hasOpen, threshold, threshold) == Bounce
    ensures ClassifyDrag(hasClose, hasOpen, -threshold, threshold) == Bounce
  {
  }

  /**
   * With a non-negative threshold the two tests can never both pass, so checking
   * open before close would give the same outcome: close "winning" only
   * matters for a negative threshold.
   */
  lemma OrderIrrelevant(hasClose: bool, hasOpen: bool, offsetY: real, threshold: real)
    requires threshold >= 0.0
    ensures ClassifyDrag(hasClose, hasOpen, offsetY, threshold)
         == if hasOpen && offsetY < -threshold then RequestOpen
            else if hasClose && offsetY > threshold then RequestClose
            else Bounce
  {
  }

  /** A card with close but no open may not be dragged above its start (`dragConstraints: { top: 0 }`). */
  predicate TopConstrained(hasClose: bool, hasOpen: bool) {
    hasClose && !hasOpen
  }

  /**
   * Under the top constraint the drag offset is never negative, so the card
   * can only close (pulled down past the threshold) or bounce; it never
   * requests open.
   */
  lemma ConstrainedDrag(hasClose: bool, hasOpen: bool, offsetY: real, threshold: real)
    requires TopConstrained(hasClose, hasOpen) && offsetY >= 0.0
    ensures ClassifyDrag(hasClose, hasOpen, offsetY, threshold) != RequestOpen
    ensures ClassifyDrag(hasClose, hasOpen, offsetY, threshold) == RequestClose <==> offsetY > threshold
  {
  }

  /** The animation target: `pos` on the orientation's axis. */
  function AnimateTarget(orientation: Orientation, pos: real): (t: Target)
    ensures orientation == Horizontal ==> t.x == pos && t.y == 0.0
    ensures orientation == Vertical ==> t.y == pos && t.x == 0.0
  {
    if orientation == Horizontal then Target(pos, 0.0) else Target(0.0, pos)
  }
}
