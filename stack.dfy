/**
 * The stack controller: it owns which card is active (`activeIndex`, -1 when
 * the stack is collapsed) and which is hovered (`peekedIndex`), turns clicks,
 * drags and hovers into transitions, and combines base and peek offsets into
 * one target per card. The card list is fixed for the controller's lifetime;
 * only the cards' widths matter here.
 */
module Stack {
  import opened Wrappers
  import Positions
  import StackCard

  const PeekHeight: real := 80.0
  const OffscreenMargin: real := 100.0
  const MobileBreakpoint: real := 768.0
  const DesktopMaxCardsOpen: int := 5
  const DesktopMaxCardsClosed: int := 2

  /** The measured size of the stack's container. */
  datatype Bounds = Bounds(width: real, height: real)

  predicate IsMobile(bounds: Bounds) {
    bounds.width < MobileBreakpoint
  }

  function OrientationOf(isMobile: bool): StackCard.Orientation {
    if isMobile then StackCard.Vertical else StackCard.Horizontal
  }

  // ---------------------------------------------------------------------------
  // Layout
  // ---------------------------------------------------------------------------

  /** A card on mobile: fully up (0), peeking from the bottom, or below the screen. */
  function MobilePosition(activeIndex: int, height: real, index: nat): real {
    var offscreenPos := height + OffscreenMargin;
    var peekPos := height - PeekHeight;
    if activeIndex == -1 then (if index == 0 then peekPos else offscreenPos)
    else if index <= activeIndex then 0.0
    else if index == activeIndex + 1 then peekPos
    else offscreenPos
  }

  function MobilePositions(activeIndex: int, n: nat, height: real): (r: seq<real>)
    ensures |r| == n
  {
    seq(n, i requires 0 <= i < n => MobilePosition(activeIndex, height, i))
  }

  /** Mobile and idle: card 0 peeks, every other card waits below the screen. */
  lemma MobileIdleLayout(n: nat, height: real, i: nat)
    requires i < n
    ensures MobilePositions(-1, n, height)[i]
         == if i == 0 then height - PeekHeight else height + OffscreenMargin
  {
  }

  /**
   * Mobile with card `k` active: cards up to `k` are fully up, card `k + 1`
   * peeks, the rest wait below the screen. So on a screen taller than the peek
   * height exactly the cards up to `k + 1` are (at least partly) visible.
   */
  lemma MobileActiveLayout(k: nat, n: nat, height: real, i: nat)
    requires i < n
    ensures MobilePositions(k, n, height)[i]
         == if i <= k then 0.0 else if i == k + 1 then height - PeekHeight else height + OffscreenMargin
    ensures height > PeekHeight ==> (MobilePositions(k, n, height)[i] < height <==> i <= k + 1)
  {
  }

  /** `baseStackPositions`: the mobile rule, or the layout engine with 5 open / 2 closed and the card widths. */
  function BasePositions(bounds: Bounds, activeIndex: int, widths: seq<real>): (r: seq<real>)
    requires -1 <= activeIndex < |widths|
    ensures |r| == |widths|
  {
    if IsMobile(bounds) then MobilePositions(activeIndex, |widths|, bounds.height)
    else Positions.StackPositions(activeIndex, |widths|, bounds.width,
                                  DesktopMaxCardsOpen, DesktopMaxCardsClosed, Some(widths))
  }

  /** `currentDynamicOffsets`: no peek on mobile, the peek engine on desktop. */
  function DynamicOffsets(isMobile: bool, peekedIndex: Option<int>, activeIndex: int, n: nat): (r: seq<int>)
    requires Positions.ValidPeek(peekedIndex, activeIndex, n)
    ensures |r| == n
    ensures isMobile ==> forall i :: 0 <= i < n ==> r[i] == 0
  {
    if isMobile then Positions.Zeros(n) else Positions.PeekOffsets(peekedIndex, activeIndex, n)
  }

  /** The coordinate handed to each card: base plus peek. */
  function CardPositions(bounds: Bounds, activeIndex: int, peekedIndex: Option<int>, widths: seq<real>): (r: seq<real>)
    requires Positions.ValidPeek(peekedIndex, activeIndex, |widths|)
    ensures |r| == |widths|
  {
    var base := BasePositions(bounds, activeIndex, widths);
    var peek := DynamicOffsets(IsMobile(bounds), peekedIndex, activeIndex, |widths|);
    seq(|widths|, i requires 0 <= i < |widths| => base[i] + peek[i] as real)
  }

  /**
   * On desktop each open card in the cap window shows at most its own width of
   * the card above before any peek is added, whatever is hovered; on mobile the
   * coordinate is the mobile rule alone.
   */
  lemma CardPositionsCombine(bounds: Bounds, activeIndex: int, peekedIndex: Option<int>, widths: seq<real>, i: nat)
    requires Positions.ValidPeek(peekedIndex, activeIndex, |widths|) && i < |widths|
    ensures IsMobile(bounds) ==>
      CardPositions(bounds, activeIndex, peekedIndex, widths)[i]
      == MobilePosition(activeIndex, bounds.height, i)
    ensures !IsMobile(bounds) && 0 <= activeIndex && activeIndex - DesktopMaxCardsOpen < i <= activeIndex ==>
      var base := BasePositions(bounds, activeIndex, widths);
      && CardPositions(bounds, activeIndex, peekedIndex, widths)[i]
         == base[i] + Positions.PeekOffsets(peekedIndex, activeIndex, |widths|)[i] as real
      && base[i] >= Positions.Reference(base, i, bounds.width) - widths[i]
  {
    if !IsMobile(bounds) && 0 <= activeIndex {
      Positions.CapClamp(activeIndex, |widths|, bounds.width, DesktopMaxCardsOpen, DesktopMaxCardsClosed, widths, i);
    }
  }

  // ---------------------------------------------------------------------------
  // Transitions on `activeIndex`
  // ---------------------------------------------------------------------------

  /** Mobile skips the state write when the clicked card is already active. */
  predicate ClickWritesState(activeIndex: int, index: nat, isMobile: bool) {
    !(isMobile && index == activeIndex)
  }

  /** `handleClickOutside`: collapse, unless the target is inside an info drawer. */
  function ActiveAfterClickOutside(activeIndex: int, targetInInfoDrawer: bool): (r: int)
    ensures r == -1 || r == activeIndex
    ensures r == activeIndex <==> targetInInfoDrawer || activeIndex == -1
  {
    if targetInInfoDrawer then activeIndex else -1
  }

  /** `requestClose`: one level down. */
  function ActiveAfterRequestClose(activeIndex: int): (r: int)
    ensures activeIndex >= 0 ==> -1 <= r < activeIndex
    ensures r + 1 == activeIndex
  {
    activeIndex - 1
  }

  /** `requestOpen`: one level up, never past the last card. */
  function ActiveAfterRequestOpen(activeIndex: int, n: nat): (r: int)
    ensures activeIndex < n - 1 ==> r == activeIndex + 1
    ensures activeIndex >= n - 1 ==> r == n - 1
    ensures r <= n - 1
  {
    Positions.Min(activeIndex + 1, n - 1)
  }

  /**
   * What the end of a drag on card `index` does. The card gets `isDraggable`
   * only on mobile and only when it is the active card or the one after it;
   * `onRequestClose` goes to the active card, `onRequestOpen` to the next one.
   * So a drag is acted on exactly on mobile, on one of those two cards.
   */
  function DragOutcome(activeIndex: int, index: nat, isMobile: bool, offsetY: real): (r: Option<StackCard.DragOutcome>)
    ensures r.Some? <==> isMobile && (index == activeIndex || index == activeIndex + 1)
    ensures r.Some? ==> r.value != StackCard.RequestOpen || (index == activeIndex + 1 && offsetY < -StackCard.DefaultThreshold)
    ensures r.Some? ==> r.value != StackCard.RequestClose || (index == activeIndex && offsetY > StackCard.DefaultThreshold)
  {
    var hasClose := index == activeIndex;
    var hasOpen := index == activeIndex + 1;
    var isDraggable := isMobile && (hasClose || hasOpen);
    if StackCard.DragEnabled(OrientationOf(isMobile), isDraggable, hasClose, hasOpen)
    then Some(StackCard.ClassifyDrag(hasClose, hasOpen, offsetY, StackCard.DefaultThreshold))
    else None
  }

  /**
   * A drag changes the active card only on mobile: pulling the active card
   * down by more than 120 closes it, pushing the next card up by more than 120
   * opens it; every other drag leaves the active card alone.
   */
  function ActiveAfterDrag(activeIndex: int, n: nat, index: nat, isMobile: bool, offsetY: real): (r: int)
    ensures index < n ==>
      r == if isMobile && index == activeIndex && offsetY > StackCard.DefaultThreshold then activeIndex - 1
           else if isMobile && index == activeIndex + 1 && offsetY < -StackCard.DefaultThreshold then activeIndex + 1
           else activeIndex
  {
    match DragOutcome(activeIndex, index, isMobile, offsetY)
    case Some(RequestClose) => ActiveAfterRequestClose(activeIndex)
    case Some(RequestOpen) => ActiveAfterRequestOpen(activeIndex, n)
    case _ => activeIndex
  }

  /** Mobile, three cards, card 1 active: a 150 px pull closes it, an 80 px pull bounces. */
  lemma DragScenario()
    ensures ActiveAfterDrag(1, 3, 1, true, 150.0) == 0
    ensures DragOutcome(1, 1, true, 80.0) == Some(StackCard.Bounce)
    ensures ActiveAfterDrag(1, 3, 1, true, 80.0) == 1
  {
  }

  /** Every transition keeps `activeIndex` in `[-1, n - 1]`. */
  lemma TransitionsStayInRange(activeIndex: int, n: nat, index: nat, isMobile: bool, offsetY: real, inDrawer: bool)
    requires -1 <= activeIndex < n && index < n
    ensures -1 <= ActiveAfterClickOutside(activeIndex, inDrawer) < n
    ensures -1 <= ActiveAfterRequestOpen(activeIndex, n) < n
    ensures activeIndex >= 0 ==> -1 <= ActiveAfterRequestClose(activeIndex) < n
    ensures -1 <= ActiveAfterDrag(activeIndex, n, index, isMobile, offsetY) < n
  {
  }

  // ---------------------------------------------------------------------------
  // The controller's state
  // ---------------------------------------------------------------------------

  class StackController {
    const widths: seq<real>
    var activeIndex: int
    var peekedIndex: Option<int>

    ghost predicate Valid()
      reads this
    {
      Positions.ValidPeek(peekedIndex, activeIndex, |widths|)
    }

    /** At mount nothing is open and nothing is hovered. */
    constructor (widths: seq<real>)
      ensures this.widths == widths
      ensures activeIndex == -1 && peekedIndex == None
      ensures Valid()
    {
      this.widths := widths;
      activeIndex := -1;
      peekedIndex := None;
    }

    /** The coordinate of every card for the given container size. */
    function CurrentPositions(bounds: Bounds): (r: seq<real>)
      reads this
      requires Valid()
      ensures |r| == |widths|
    {
      CardPositions(bounds, activeIndex, peekedIndex, widths)
    }

    method HandleCardClick(index: nat, isMobile: bool) returns (wrote: bool)
      requires Valid() && index < |widths|
      modifies this
      ensures Valid()
      ensures activeIndex == index
      ensures wrote == ClickWritesState(old(activeIndex), index, isMobile)
      ensures peekedIndex == old(peekedIndex)
    {
      wrote := false;
      if isMobile {
        if index != activeIndex {
          activeIndex := index;
          wrote := true;
        }
      } else {
        activeIndex := index;
        wrote := true;
      }
    }

    method HandleClickOutside(targetInInfoDrawer: bool)
      requires Valid()
      modifies this
      ensures Valid()
      ensures activeIndex == ActiveAfterClickOutside(old(activeIndex), targetInInfoDrawer)
      ensures peekedIndex == old(peekedIndex)
    {
      if targetInInfoDrawer {
        return;
      }
      activeIndex := -1;
    }

    /** Wired only to the active card, so there is one to close. */
    method RequestClose()
      requires Valid() && activeIndex >= 0
      modifies this
      ensures Valid()
      ensures activeIndex == ActiveAfterRequestClose(old(activeIndex))
      ensures peekedIndex == old(peekedIndex)
    {
      activeIndex := activeIndex - 1;
    }

    method RequestOpen()
      requires Valid()
      modifies this
      ensures Valid()
      ensures activeIndex == ActiveAfterRequestOpen(old(activeIndex), |widths|)
      ensures peekedIndex == old(peekedIndex)
    {
      activeIndex := Positions.Min(activeIndex + 1, |widths| - 1);
    }

    /** `onMouseEnter`: hovering never changes the active card. */
    method HoverEnter(index: nat)
      requires Valid() && index < |widths|
      modifies this
      ensures Valid()
      ensures peekedIndex == Some(index) && activeIndex == old(activeIndex)
    {
      peekedIndex := Some(index);
    }

    /** `onMouseLeave`. */
    method HoverLeave()
      requires Valid()
      modifies this
      ensures Valid()
      ensures peekedIndex == None && activeIndex == old(activeIndex)
    {
      peekedIndex := None;
    }

    /** The end of a drag on card `index`, routed through the card's classifier to the callbacks it was given. */
    method HandleDragEnd(index: nat, isMobile: bool, offsetY: real) returns (outcome: Option<StackCard.DragOutcome>)
      requires Valid() && index < |widths|
      modifies this
      ensures Valid()
      ensures outcome == DragOutcome(old(activeIndex), index, isMobile, offsetY)
      ensures activeIndex == ActiveAfterDrag(old(activeIndex), |widths|, index, isMobile, offsetY)
      ensures peekedIndex == old(peekedIndex)
    {
      var hasClose := index == activeIndex;
      var hasOpen := index == activeIndex + 1;
      var draggable := isMobile && (index == activeIndex || index == activeIndex + 1);
      if !StackCard.DragEnabled(OrientationOf(isMobile), draggable, hasClose, hasOpen) {
        return None;
      }
      var kind := StackCard.ClassifyDrag(hasClose, hasOpen, offsetY, StackCard.DefaultThreshold);
      outcome := Some(kind);
      match kind
      case RequestClose => RequestClose();
      case RequestOpen => RequestOpen();
      case Bounce =>
    }
  }
}
