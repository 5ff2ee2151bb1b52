/**
 * The page-stack project's card: the interaction card's drag rules, plus an
 * off-screen target until the card is ready, a background that depends on
 * orientation and focus, and a "Page n" label. Its drag enabling and its
 * `top: 0` drag constraint are the interaction card's, written identically, so
 * they are modelled once, by `StackCard.DragEnabled` and `StackCard.TopConstrained`.
 */
module ProjectCard {
  import StackCard
  import JsString

  /** A coordinate handed to the animation library: pixels, or the whole container ("100%"). */
  datatype Coord = Px(value: real) | Full

  datatype Target = Target(x: Coord, y: Coord)

  /** The project card runs the same drag classifier as the interaction card. */
  function DragOutcome(hasClose: bool, hasOpen: bool, offsetY: real, threshold: real): (r: StackCard.DragOutcome)
    ensures r == StackCard.ClassifyDrag(hasClose, hasOpen, offsetY, threshold)
    ensures r == StackCard.Bounce <==> !(hasClose && offsetY > threshold) && !(hasOpen && offsetY < -threshold)
  {
    if hasClose && offsetY > threshold then StackCard.RequestClose
    else if hasOpen && offsetY < -threshold then StackCard.RequestOpen
    else StackCard.Bounce
  }

  /** Until the card is ready it waits off-screen on its axis; then it goes to `pos`. */
  function AnimateTarget(orientation: StackCard.Orientation, pos: real, isReady: bool): (t: Target)
    ensures orientation == StackCard.Horizontal ==> t.y == Px(0.0) && t.x == (if isReady then Px(pos) else Full)
    ensures orientation == StackCard.Vertical ==> t.x == Px(0.0) && t.y == (if isReady then Px(pos) else Full)
  {
    if orientation == StackCard.Horizontal then
      if isReady then Target(Px(pos), Px(0.0)) else Target(Full, Px(0.0))
    else
      if isReady then Target(Px(0.0), Px(pos)) else Target(Px(0.0), Full)
  }

  /** Vertical cards are always `bg-base-100`; horizontal ones only while active. */
  function BackgroundClass(orientation: StackCard.Orientation, isActive: bool): (c: string)
    ensures c == "bg-base-100" <==> orientation.Vertical? || isActive
    ensures c == "bg-base-100" || c == "bg-base-200"
  {
    if orientation.Vertical? then "bg-base-100"
    else if isActive then "bg-base-100"
    else "bg-base-200"
  }

  /** "Page " followed by the one-based card number in decimal. */
  function Label(index: nat): (s: string)
    ensures |s| > 5 && s[..5] == "Page "
    ensures JsString.AllDigits(s[5..]) && JsString.DigitsValue(s[5..]) == index + 1
  {
    var s := "Page " + JsString.NatToString(index + 1);
    assert s[5..] == JsString.NatToString(index + 1);
    s
  }
}
