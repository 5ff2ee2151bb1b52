/**
 * The card-stack layout engine: the 1-D target offset of every card along the
 * stack axis (`GetStackPositions`) and the additive hover "peek" offsets
 * (`GetStackPeekOffsets`). Pixel arithmetic is exact (`real`), so
 * `viewportWidth * 0.2` is exactly a fifth of the width.
 */
module Positions {
  import opened Wrappers

  const StackIncrement: int := 30
  const ClosedApproachingOffsets: seq<int> := [20, 0]
  const OpenApproachingOffsets: seq<int> := [80, 40, 20, 10, 0]
  const CollapsedApproachingOffsets: seq<int> := [180, 90, 30, 0]

  const PeekOffsetLeft: int := -20
  const PeekOffsetRightMap: seq<int> := [20, 30, 40, 50, 60]

  const MaxCardsOpen: int := 5
  const MaxCardsClosed: int := 2
  const MaxCardsCollapsed: int := 4

  function Min(a: int, b: int): int { if a <= b then a else b }

  function Max(a: int, b: int): int { if a >= b then a else b }

  function MaxReal(a: real, b: real): real { if a >= b then a else b }

  /** Left-most position of an open card: 20% of the viewport width. */
  function BaseOpenPosition(viewportWidth: real): real {
    viewportWidth * 0.2
  }

  // ---------------------------------------------------------------------------
  // Per-card formula (`calculateApproachingOffset`, `calculateIncrement`,
  // `getPosition`)
  // ---------------------------------------------------------------------------

  function OffsetTable(isInOpenStack: bool, isCollapsed: bool): seq<int> {
    if isCollapsed then CollapsedApproachingOffsets
    else if isInOpenStack then OpenApproachingOffsets
    else ClosedApproachingOffsets
  }

  /** How far a card is from the end of the table it reads. */
  function ApproachingCount(index: int, total: int, isInOpenStack: bool, isCollapsed: bool): int {
    if isCollapsed then index else if isInOpenStack then total - index - 1 else index
  }

  /**
   * The extra offset a card gets for approaching the focus. Each table ends in
   * 0, so a card at or past the table's reach gets none.
   */
  function ApproachingOffset(index: int, total: int, isInOpenStack: bool, isCollapsed: bool): (r: int)
    requires ApproachingCount(index, total, isInOpenStack, isCollapsed) >= 0
    ensures r in OffsetTable(isInOpenStack, isCollapsed)
    ensures 0 <= r <= 180
    ensures r == 0 <==> ApproachingCount(index, total, isInOpenStack, isCollapsed) >= |OffsetTable(isInOpenStack, isCollapsed)| - 1
  {
    var offsets := OffsetTable(isInOpenStack, isCollapsed);
    var count := ApproachingCount(index, total, isInOpenStack, isCollapsed);
    offsets[Min(count, |offsets| - 1)]
  }

  /** Multiples of the stack increment; in the open stack never negative. */
  function Increment(index: int, total: int, isInOpenStack: bool, isCollapsed: bool,
                     maxCardsOpen: int, maxCardsClosed: int): (r: int)
    requires index >= 0
    ensures r % StackIncrement == 0
    ensures !isCollapsed && isInOpenStack ==> r >= 0
  {
    var multiplier :=
      if isCollapsed then MaxCardsCollapsed - index
      else if isInOpenStack then
        (if total <= maxCardsOpen then index else Max(0, maxCardsOpen - total + index))
      else if maxCardsClosed <= 0 then -1 - index
      else maxCardsClosed - index;
    multiplier * StackIncrement
  }

  /**
   * `getPosition`: the offset of card `index` of its segment. An open card
   * never sits left of the base open position; a collapsed card is on screen
   * iff it is among the first four; a closed card is on screen iff it is among
   * the first `maxCardsClosed` of its segment (none when that is not positive).
   */
  function Position(index: int, totalInSegment: int, isInOpenStack: bool, viewportWidth: real,
                    isCollapsed: bool, maxCardsOpen: int, maxCardsClosed: int): (r: real)
    requires 0 <= index
    requires !isCollapsed && isInOpenStack ==> index < totalInSegment
    ensures !isCollapsed && isInOpenStack ==> r >= BaseOpenPosition(viewportWidth)
    ensures isCollapsed ==> (r < viewportWidth <==> index < MaxCardsCollapsed)
    ensures !isCollapsed && !isInOpenStack && maxCardsClosed > 0 ==>
              (r < viewportWidth <==> index < maxCardsClosed)
    ensures !isCollapsed && !isInOpenStack && maxCardsClosed <= 0 ==> r > viewportWidth
  {
    var effectiveIsInOpenStack := if isCollapsed then false else isInOpenStack;
    if !isCollapsed && isInOpenStack && totalInSegment > maxCardsOpen
       && index < totalInSegment - maxCardsOpen + 1
    then
      // non-visible open cards: no approaching offset, no increment
      BaseOpenPosition(viewportWidth)
    else
      var approachingOffset := ApproachingOffset(index, totalInSegment, effectiveIsInOpenStack, isCollapsed);
      var increment := Increment(index, totalInSegment, effectiveIsInOpenStack, isCollapsed,
                                 maxCardsOpen, maxCardsClosed);
      if !isCollapsed && isInOpenStack then
        BaseOpenPosition(viewportWidth) + approachingOffset as real + increment as real
      else
        viewportWidth - approachingOffset as real - increment as real
  }

  // ---------------------------------------------------------------------------
  // `getStackPositions` as a specification
  // ---------------------------------------------------------------------------

  /** Callers hand the engine an active index in range (or any index when there is no card). */
  predicate ValidActive(activeIndex: int, total: nat) {
    total > 0 ==> -1 <= activeIndex < total
  }

  /** The value `getStackPositions` writes for card `i` before the width cap. */
  function BasePosition(activeIndex: int, total: nat, viewportWidth: real,
                        maxCardsOpen: int, maxCardsClosed: int, i: nat): real
    requires -1 <= activeIndex < total && i < total
  {
    if activeIndex == -1 then
      Position(i, total, false, viewportWidth, true, maxCardsOpen, maxCardsClosed)
    else if i <= activeIndex then
      Position(i, activeIndex + 1, true, viewportWidth, false, maxCardsOpen, maxCardsClosed)
    else
      Position(i - (activeIndex + 1), total - (activeIndex + 1), false, viewportWidth, false,
               maxCardsOpen, maxCardsClosed)
  }

  function BasePositions(activeIndex: int, total: nat, viewportWidth: real,
                         maxCardsOpen: int, maxCardsClosed: int): seq<real>
    requires -1 <= activeIndex < total
  {
    seq(total, i requires 0 <= i < total =>
      BasePosition(activeIndex, total, viewportWidth, maxCardsOpen, maxCardsClosed, i))
  }

  /** The card a card is capped against: the next one, or the viewport edge for the last. */
  function Reference(p: seq<real>, i: nat, viewportWidth: real): real {
    if i + 1 < |p| then p[i + 1] else viewportWidth
  }

  predicate InCapWindow(activeIndex: int, maxCardsOpen: int, k: int) {
    activeIndex - maxCardsOpen < k <= activeIndex
  }

  /** One turn of the cap loop; cards at or below `activeIndex - maxCardsOpen` are skipped. */
  function CapStep(p: seq<real>, widths: seq<real>, viewportWidth: real,
                   activeIndex: int, maxCardsOpen: int, i: nat): seq<real>
    requires i < |p| == |widths|
  {
    if !InCapWindow(activeIndex, maxCardsOpen, i) then p
    else p[i := MaxReal(p[i], Reference(p, i, viewportWidth) - widths[i])]
  }

  /** The cap loop run from `activeIndex` down to `i`. */
  function CapFrom(p: seq<real>, widths: seq<real>, viewportWidth: real,
                   activeIndex: int, maxCardsOpen: int, i: nat): (r: seq<real>)
    requires i <= activeIndex + 1 <= |p| == |widths|
    ensures |r| == |p|
    decreases activeIndex + 1 - i
  {
    if i > activeIndex then p
    else CapStep(CapFrom(p, widths, viewportWidth, activeIndex, maxCardsOpen, i + 1),
                 widths, viewportWidth, activeIndex, maxCardsOpen, i)
  }

  /**
   * What the cap loop does, run down to `i`: it never lowers a card, touches
   * only the window `activeIndex - maxCardsOpen < k <= activeIndex`, and leaves
   * each capped card at `max(its own position, reference - width)`, where the
   * reference is the next card AFTER that card was itself capped.
   */
  lemma CapFromFacts(p: seq<real>, widths: seq<real>, viewportWidth: real,
                     activeIndex: int, maxCardsOpen: int, i: nat)
    requires i <= activeIndex + 1 <= |p| == |widths|
    ensures var r := CapFrom(p, widths, viewportWidth, activeIndex, maxCardsOpen, i);
      && (forall k :: 0 <= k < |p| ==> r[k] >= p[k])
      && (forall k :: 0 <= k < |p| && (k < i || !InCapWindow(activeIndex, maxCardsOpen, k)) ==> r[k] == p[k])
      && (forall k :: i <= k < |p| && InCapWindow(activeIndex, maxCardsOpen, k) ==>
            r[k] == MaxReal(p[k], Reference(r, k, viewportWidth) - widths[k]))
  {
    CapRaises(p, widths, viewportWidth, activeIndex, maxCardsOpen, i);
    CapKeeps(p, widths, viewportWidth, activeIndex, maxCardsOpen, i);
    CapLeaves(p, widths, viewportWidth, activeIndex, maxCardsOpen, i);
  }

  lemma {:induction false} CapRaises(p: seq<real>, widths: seq<real>, viewportWidth: real,
                                     activeIndex: int, maxCardsOpen: int, i: nat)
    requires i <= activeIndex + 1 <= |p| == |widths|
    ensures var r := CapFrom(p, widths, viewportWidth, activeIndex, maxCardsOpen, i);
      forall k :: 0 <= k < |p| ==> r[k] >= p[k]
    decreases activeIndex + 1 - i
  {
    if i <= activeIndex {
      CapRaises(p, widths, viewportWidth, activeIndex, maxCardsOpen, i + 1);
    }
  }

  lemma {:induction false} CapKeeps(p: seq<real>, widths: seq<real>, viewportWidth: real,
                                    activeIndex: int, maxCardsOpen: int, i: nat)
    requires i <= activeIndex + 1 <= |p| == |widths|
    ensures var r := CapFrom(p, widths, viewportWidth, activeIndex, maxCardsOpen, i);
      forall k :: 0 <= k < |p| && (k < i || !InCapWindow(activeIndex, maxCardsOpen, k)) ==> r[k] == p[k]
    decreases activeIndex + 1 - i
  {
    if i <= activeIndex {
      CapKeeps(p, widths, viewportWidth, activeIndex, maxCardsOpen, i + 1);
    }
  }

  lemma {:induction false} CapLeaves(p: seq<real>, widths: seq<real>, viewportWidth: real,
                                     activeIndex: int, maxCardsOpen: int, i: nat)
    requires i <= activeIndex + 1 <= |p| == |widths|
    ensures var r := CapFrom(p, widths, viewportWidth, activeIndex, maxCardsOpen, i);
      forall k :: i <= k < |p| && InCapWindow(activeIndex, maxCardsOpen, k) ==>
        r[k] == MaxReal(p[k], Reference(r, k, viewportWidth) - widths[k])
    decreases activeIndex + 1 - i
  {
    if i <= activeIndex {
      CapLeaves(p, widths, viewportWidth, activeIndex, maxCardsOpen, i + 1);
      CapKeeps(p, widths, viewportWidth, activeIndex, maxCardsOpen, i + 1);
      var q := CapFrom(p, widths, viewportWidth, activeIndex, maxCardsOpen, i + 1);
      var r := CapStep(q, widths, viewportWidth, activeIndex, maxCardsOpen, i);
      assert q[i] == p[i];
      assert forall k :: i < k < |p| ==> r[k] == q[k];
      assert i + 1 < |p| ==> Reference(q, i, viewportWidth) == Reference(r, i, viewportWidth);
      assert forall k :: i < k < |p| ==> Reference(r, k, viewportWidth) == Reference(q, k, viewportWidth);
    }
  }

  predicate CapApplies(activeIndex: int, total: nat, widthsPx: Option<seq<real>>) {
    widthsPx.Some? && |widthsPx.value| == total && activeIndex != -1
  }

  /** `getStackPositions`: base offsets, then the width cap when widths are given for every card. */
  function StackPositions(activeIndex: int, total: nat, viewportWidth: real,
                          maxCardsOpen: int, maxCardsClosed: int,
                          widthsPx: Option<seq<real>>): (r: seq<real>)
    requires ValidActive(activeIndex, total)
    ensures |r| == total
  {
    if total == 0 then []
    else
      var base := BasePositions(activeIndex, total, viewportWidth, maxCardsOpen, maxCardsClosed);
      if CapApplies(activeIndex, total, widthsPx) then
        CapFrom(base, widthsPx.value, viewportWidth, activeIndex, maxCardsOpen, 0)
      else base
  }

  // ---------------------------------------------------------------------------
  // `getStackPositions` as the source runs it: an array filled by loops
  // ---------------------------------------------------------------------------

  method GetStackPositions(activeIndex: int, total: nat, viewportWidth: real,
                           maxCardsOpen: int, maxCardsClosed: int,
                           widthsPx: Option<seq<real>>) returns (positions: seq<real>)
    requires ValidActive(activeIndex, total)
    ensures positions == StackPositions(activeIndex, total, viewportWidth,
                                        maxCardsOpen, maxCardsClosed, widthsPx)
  {
    if total == 0 {
      return [];
    }
    var allPositions := FillBasePositions(activeIndex, total, viewportWidth, maxCardsOpen, maxCardsClosed);
    if widthsPx.Some? && |widthsPx.value| == total && activeIndex != -1 {
      CapPositions(allPositions, widthsPx.value, viewportWidth, activeIndex, maxCardsOpen);
    }
    positions := allPositions[..];
  }

  /** The loops of `getStackPositions` that fill a fresh array with the collapsed or open/closed offsets. */
  method FillBasePositions(activeIndex: int, total: nat, viewportWidth: real,
                           maxCardsOpen: int, maxCardsClosed: int) returns (allPositions: array<real>)
    requires -1 <= activeIndex < total
    ensures fresh(allPositions)
    ensures allPositions[..] == BasePositions(activeIndex, total, viewportWidth, maxCardsOpen, maxCardsClosed)
  {
    allPositions := new real[total](_ => 0.0);
    if activeIndex == -1 {
      for i := 0 to total
        invariant forall k :: 0 <= k < i ==>
          allPositions[k] == BasePosition(activeIndex, total, viewportWidth, maxCardsOpen, maxCardsClosed, k)
      {
        allPositions[i] := Position(i, total, false, viewportWidth, true, maxCardsOpen, maxCardsClosed);
      }
    } else {
      // 1. open cards
      var numOpenCards := activeIndex + 1;
      for i := 0 to numOpenCards
        invariant forall k :: 0 <= k < i ==>
          allPositions[k] == BasePosition(activeIndex, total, viewportWidth, maxCardsOpen, maxCardsClosed, k)
      {
        allPositions[i] := Position(i, numOpenCards, true, viewportWidth, false, maxCardsOpen, maxCardsClosed);
      }
      // 2. closed cards
      var numClosedCards := total - numOpenCards;
      for i := 0 to numClosedCards
        invariant forall k :: 0 <= k < numOpenCards + i ==>
          allPositions[k] == BasePosition(activeIndex, total, viewportWidth, maxCardsOpen, maxCardsClosed, k)
      {
        allPositions[numOpenCards + i] :=
          Position(i, numClosedCards, false, viewportWidth, false, maxCardsOpen, maxCardsClosed);
      }
    }
  }

  /** The cap loop of `getStackPositions`: the visible part of each card limited to its width, from the top card down. */
  method CapPositions(allPositions: array<real>, widths: seq<real>, viewportWidth: real,
                      activeIndex: int, maxCardsOpen: int)
    requires 0 <= activeIndex < allPositions.Length == |widths|
    modifies allPositions
    ensures allPositions[..] == CapFrom(old(allPositions[..]), widths, viewportWidth, activeIndex, maxCardsOpen, 0)
  {
    ghost var base := allPositions[..];
    var i := activeIndex;
    while i >= 0
      invariant -1 <= i <= activeIndex
      invariant allPositions[..] == CapFrom(base, widths, viewportWidth, activeIndex, maxCardsOpen, i + 1)
    {
      if i <= activeIndex - maxCardsOpen {
        i := i - 1;
        continue;
      }
      var originalPosition := allPositions[i];
      var referencePosition := if i + 1 < allPositions.Length then allPositions[i + 1] else viewportWidth;
      allPositions[i] := MaxReal(originalPosition, referencePosition - widths[i]);
      i := i - 1;
    }
  }

  // ---------------------------------------------------------------------------
  // What the layout promises
  // ---------------------------------------------------------------------------

  /** With nothing open every card reads the collapsed table, and the cap is skipped. */
  lemma CollapsedLayout(total: nat, viewportWidth: real, maxCardsOpen: int, maxCardsClosed: int,
                        widthsPx: Option<seq<real>>, i: nat)
    requires i < total
    ensures StackPositions(-1, total, viewportWidth, maxCardsOpen, maxCardsClosed, widthsPx)[i]
         == viewportWidth - CollapsedApproachingOffsets[Min(i, 3)] as real
            - ((MaxCardsCollapsed - i) * StackIncrement) as real
  {
  }

  /** In the collapsed layout card positions strictly increase with the index. */
  lemma CollapsedIncreasing(total: nat, viewportWidth: real, maxCardsOpen: int, maxCardsClosed: int,
                            widthsPx: Option<seq<real>>, i: nat, j: nat)
    requires i < j < total
    ensures StackPositions(-1, total, viewportWidth, maxCardsOpen, maxCardsClosed, widthsPx)[i]
          < StackPositions(-1, total, viewportWidth, maxCardsOpen, maxCardsClosed, widthsPx)[j]
  {
    CollapsedLayout(total, viewportWidth, maxCardsOpen, maxCardsClosed, widthsPx, i);
    CollapsedLayout(total, viewportWidth, maxCardsOpen, maxCardsClosed, widthsPx, j);
  }

  /**
   * Open card `i` when all `activeIndex + 1` open cards are visible: the base
   * position, the open table read from the active end, and one increment per
   * card below it.
   */
  lemma OpenLayout(activeIndex: nat, total: nat, viewportWidth: real,
                   maxCardsOpen: int, maxCardsClosed: int, i: nat)
    requires activeIndex < total && i <= activeIndex
    requires activeIndex + 1 <= maxCardsOpen
    ensures BasePositions(activeIndex, total, viewportWidth, maxCardsOpen, maxCardsClosed)[i]
         == BaseOpenPosition(viewportWidth) + OpenApproachingOffsets[Min(activeIndex - i, 4)] as real
            + (i * StackIncrement) as real
  {
  }

  /** Without overflow the open cards fan out strictly left to right before the cap. */
  lemma OpenIncreasing(activeIndex: nat, total: nat, viewportWidth: real,
                       maxCardsOpen: int, maxCardsClosed: int, i: nat, j: nat)
    requires activeIndex < total && i < j <= activeIndex
    requires activeIndex + 1 <= maxCardsOpen
    ensures BasePositions(activeIndex, total, viewportWidth, maxCardsOpen, maxCardsClosed)[i]
          < BasePositions(activeIndex, total, viewportWidth, maxCardsOpen, maxCardsClosed)[j]
  {
    OpenLayout(activeIndex, total, viewportWidth, maxCardsOpen, maxCardsClosed, i);
    OpenLayout(activeIndex, total, viewportWidth, maxCardsOpen, maxCardsClosed, j);
  }

  /**
   * Overflow: with more open cards than `maxCardsOpen`, every open card below
   * `numOpen - maxCardsOpen + 1` sits exactly on the base open position, and
   * those at or below `activeIndex - maxCardsOpen` keep it through the cap.
   */
  lemma OverflowLayout(activeIndex: nat, total: nat, viewportWidth: real,
                       maxCardsOpen: int, maxCardsClosed: int, widthsPx: Option<seq<real>>, i: nat)
    requires activeIndex < total
    requires activeIndex + 1 > maxCardsOpen
    requires i <= activeIndex && i < activeIndex + 1 - maxCardsOpen + 1
    ensures BasePositions(activeIndex, total, viewportWidth, maxCardsOpen, maxCardsClosed)[i]
         == BaseOpenPosition(viewportWidth)
    ensures i <= activeIndex - maxCardsOpen ==>
      StackPositions(activeIndex, total, viewportWidth, maxCardsOpen, maxCardsClosed, widthsPx)[i]
      == BaseOpenPosition(viewportWidth)
  {
    if CapApplies(activeIndex, total, widthsPx) {
      CapFromFacts(BasePositions(activeIndex, total, viewportWidth, maxCardsOpen, maxCardsClosed),
                   widthsPx.value, viewportWidth, activeIndex, maxCardsOpen, 0);
    }
  }

  /**
   * A closed card at segment index `j` sits `CLOSED[min(j, 1)] + m * 30` inside
   * the far edge, with `m = maxCardsClosed - j` (or `-1 - j` when
   * `maxCardsClosed <= 0`); the cap never moves it.
   */
  lemma ClosedLayout(activeIndex: nat, total: nat, viewportWidth: real,
                     maxCardsOpen: int, maxCardsClosed: int, widthsPx: Option<seq<real>>, i: nat)
    requires activeIndex < i < total
    ensures
      var j := i - (activeIndex + 1);
      var m := if maxCardsClosed > 0 then maxCardsClosed - j else -1 - j;
      StackPositions(activeIndex, total, viewportWidth, maxCardsOpen, maxCardsClosed, widthsPx)[i]
      == viewportWidth - ClosedApproachingOffsets[Min(j, 1)] as real - (m * StackIncrement) as real
  {
    if CapApplies(activeIndex, total, widthsPx) {
      CapFromFacts(BasePositions(activeIndex, total, viewportWidth, maxCardsOpen, maxCardsClosed),
                   widthsPx.value, viewportWidth, activeIndex, maxCardsOpen, 0);
    }
  }

  /** The cap runs only with a width for every card and something open; otherwise the base stands. */
  lemma CapSkipped(activeIndex: int, total: nat, viewportWidth: real,
                   maxCardsOpen: int, maxCardsClosed: int, widthsPx: Option<seq<real>>)
    requires -1 <= activeIndex < total
    requires !CapApplies(activeIndex, total, widthsPx)
    ensures StackPositions(activeIndex, total, viewportWidth, maxCardsOpen, maxCardsClosed, widthsPx)
         == BasePositions(activeIndex, total, viewportWidth, maxCardsOpen, maxCardsClosed)
  {
  }

  /**
   * The cap never lowers a position; inside the window
   * `activeIndex - maxCardsOpen < i <= activeIndex` each card ends at
   * `max(base, reference - width)`, so it shows no more than its own width of
   * the card above (or of the viewport for the last card).
   */
  lemma CapClamp(activeIndex: nat, total: nat, viewportWidth: real,
                 maxCardsOpen: int, maxCardsClosed: int, widths: seq<real>, i: nat)
    requires activeIndex < total == |widths| && i < total
    ensures
      var base := BasePositions(activeIndex, total, viewportWidth, maxCardsOpen, maxCardsClosed);
      var r := StackPositions(activeIndex, total, viewportWidth, maxCardsOpen, maxCardsClosed, Some(widths));
      && r[i] >= base[i]
      && (InCapWindow(activeIndex, maxCardsOpen, i) ==>
            r[i] == MaxReal(base[i], Reference(r, i, viewportWidth) - widths[i])
            && r[i] >= Reference(r, i, viewportWidth) - widths[i])
      && (!InCapWindow(activeIndex, maxCardsOpen, i) ==> r[i] == base[i])
  {
    var base := BasePositions(activeIndex, total, viewportWidth, maxCardsOpen, maxCardsClosed);
    assert StackPositions(activeIndex, total, viewportWidth, maxCardsOpen, maxCardsClosed, Some(widths))
        == CapFrom(base, widths, viewportWidth, activeIndex, maxCardsOpen, 0);
    CapAt(base, widths, viewportWidth, activeIndex, maxCardsOpen, i);
  }

  /** `CapFromFacts` for the whole loop, read at one card. */
  lemma CapAt(p: seq<real>, widths: seq<real>, viewportWidth: real,
              activeIndex: nat, maxCardsOpen: int, i: nat)
    requires activeIndex + 1 <= |p| == |widths| && i < |p|
    ensures var r := CapFrom(p, widths, viewportWidth, activeIndex, maxCardsOpen, 0);
      && r[i] >= p[i]
      && (InCapWindow(activeIndex, maxCardsOpen, i) ==>
            r[i] == MaxReal(p[i], Reference(r, i, viewportWidth) - widths[i]))
      && (!InCapWindow(activeIndex, maxCardsOpen, i) ==> r[i] == p[i])
  {
    CapFromFacts(p, widths, viewportWidth, activeIndex, maxCardsOpen, 0);
  }

  /** The overflow fixture: 8 cards, 5 visible open, card 7 active. Cards 0..2 stay stacked on the base. */
  lemma OverflowFixture(viewportWidth: real, widths: seq<real>)
    requires |widths| == 8
    ensures
      var r := StackPositions(7, 8, viewportWidth, 5, 2, Some(widths));
      r[0] == r[1] == r[2] == BaseOpenPosition(viewportWidth)
  {
    OverflowLayout(7, 8, viewportWidth, 5, 2, Some(widths), 0);
    OverflowLayout(7, 8, viewportWidth, 5, 2, Some(widths), 1);
    OverflowLayout(7, 8, viewportWidth, 5, 2, Some(widths), 2);
  }

  // ---------------------------------------------------------------------------
  // `getStackPeekOffsets`
  // ---------------------------------------------------------------------------

  predicate ValidPeek(hoveredIndex: Option<int>, activeIndex: int, numCards: nat) {
    && -1 <= activeIndex < numCards
    && (hoveredIndex.Some? ==> 0 <= hoveredIndex.value < numCards)
  }

  function Zeros(n: nat): (r: seq<int>)
    ensures |r| == n && forall i :: 0 <= i < n ==> r[i] == 0
  {
    seq(n, _ => 0)
  }

  /** Right-shift of open card `i`, read from the table by its distance from the active card. */
  function PeekRightOffset(activeIndex: int, i: int): int
    requires i <= activeIndex
  {
    PeekOffsetRightMap[Min(activeIndex - i, |PeekOffsetRightMap| - 1)]
  }

  /** The source's loop `for (i = activeIndex; i > hoveredIndex; i--)`, from `i` down. */
  function ShiftOpenCards(offsets: seq<int>, activeIndex: int, hoveredIndex: int, i: int): seq<int>
    requires 0 <= hoveredIndex <= i <= activeIndex < |offsets|
    decreases i - hoveredIndex
  {
    if i <= hoveredIndex then offsets
    else ShiftOpenCards(offsets[i := PeekRightOffset(activeIndex, i)], activeIndex, hoveredIndex, i - 1)
  }

  lemma {:induction false} ShiftOpenCardsAt(offsets: seq<int>, activeIndex: int, hoveredIndex: int, i: int, k: int)
    requires 0 <= hoveredIndex <= i <= activeIndex < |offsets| && 0 <= k < |offsets|
    ensures |ShiftOpenCards(offsets, activeIndex, hoveredIndex, i)| == |offsets|
    ensures ShiftOpenCards(offsets, activeIndex, hoveredIndex, i)[k]
         == if hoveredIndex < k <= i then PeekRightOffset(activeIndex, k) else offsets[k]
    decreases i - hoveredIndex
  {
    if i > hoveredIndex {
      ShiftOpenCardsAt(offsets[i := PeekRightOffset(activeIndex, i)], activeIndex, hoveredIndex, i - 1, k);
    }
  }

  /** `getStackPeekOffsets`, with the table read clamped to its last entry (see README, Findings). */
  function PeekOffsets(hoveredIndex: Option<int>, activeIndex: int, numCards: nat): (r: seq<int>)
    requires ValidPeek(hoveredIndex, activeIndex, numCards)
    ensures |r| == numCards
  {
    var offsets := Zeros(numCards);
    if hoveredIndex.None? || hoveredIndex.value == activeIndex then offsets
    else if hoveredIndex.value > activeIndex then offsets[hoveredIndex.value := PeekOffsetLeft]
    else
      ShiftOpenCardsAt(offsets, activeIndex, hoveredIndex.value, activeIndex, 0);
      ShiftOpenCards(offsets, activeIndex, hoveredIndex.value, activeIndex)
  }

  method GetStackPeekOffsets(hoveredIndex: Option<int>, activeIndex: int, numCards: nat)
    returns (offsets: seq<int>)
    requires ValidPeek(hoveredIndex, activeIndex, numCards)
    ensures offsets == PeekOffsets(hoveredIndex, activeIndex, numCards)
  {
    var a := new int[numCards](_ => 0);
    ghost var zeros := a[..];
    assert zeros == Zeros(numCards);
    if hoveredIndex.None? || hoveredIndex.value == activeIndex {
      // no card hovered, or the active card itself
    } else if hoveredIndex.value > activeIndex {
      a[hoveredIndex.value] := PeekOffsetLeft;
    } else {
      var h := hoveredIndex.value;
      var i := activeIndex;
      while i > h
        invariant h <= i <= activeIndex
        invariant ShiftOpenCards(a[..], activeIndex, h, i) == ShiftOpenCards(zeros, activeIndex, h, activeIndex)
      {
        a[i] := PeekRightOffset(activeIndex, i);
        i := i - 1;
      }
    }
    offsets := a[..];
  }

  /** No hover, or hovering the active card: every delta is zero. */
  lemma PeekIdle(hoveredIndex: Option<int>, activeIndex: int, numCards: nat)
    requires ValidPeek(hoveredIndex, activeIndex, numCards)
    requires hoveredIndex.None? || hoveredIndex.value == activeIndex
    ensures PeekOffsets(hoveredIndex, activeIndex, numCards) == Zeros(numCards)
  {
  }

  /** Hovering a closed card moves that card alone, by -20. */
  lemma PeekClosedCard(hoveredIndex: nat, activeIndex: int, numCards: nat, i: nat)
    requires ValidPeek(Some(hoveredIndex), activeIndex, numCards)
    requires hoveredIndex > activeIndex && i < numCards
    ensures PeekOffsets(Some(hoveredIndex), activeIndex, numCards)[i]
         == if i == hoveredIndex then PeekOffsetLeft else 0
  {
  }

  /**
   * Hovering an open card below the active one shifts each card strictly above
   * it, up to the active card, right by `[20, 30, 40, 50, 60][active - i]`;
   * every other card stays put.
   */
  lemma PeekOpenCards(hoveredIndex: nat, activeIndex: int, numCards: nat, i: nat)
    requires ValidPeek(Some(hoveredIndex), activeIndex, numCards)
    requires hoveredIndex < activeIndex && i < numCards
    requires activeIndex - hoveredIndex <= |PeekOffsetRightMap|
    ensures PeekOffsets(Some(hoveredIndex), activeIndex, numCards)[i]
         == if hoveredIndex < i <= activeIndex then PeekOffsetRightMap[activeIndex - i] else 0
  {
    ShiftOpenCardsAt(Zeros(numCards), activeIndex, hoveredIndex, activeIndex, i);
  }

  // ---------------------------------------------------------------------------
  // The table read as written: `PEEK_OFFSET_RIGHT_MAP[activeIndex - i]` with no
  // clamp, `undefined` (here `None`) past the fifth entry.
  // ---------------------------------------------------------------------------

  function PeekTableEntry(k: int): Option<int> {
    if 0 <= k < |PeekOffsetRightMap| then Some(PeekOffsetRightMap[k]) else None
  }

  function PeekOffsetsAsWritten(hoveredIndex: Option<int>, activeIndex: int, numCards: nat): (r: seq<Option<int>>)
    requires ValidPeek(hoveredIndex, activeIndex, numCards)
    ensures |r| == numCards
  {
    seq(numCards, i requires 0 <= i < numCards =>
      if hoveredIndex.None? || hoveredIndex.value == activeIndex then Some(0)
      else if hoveredIndex.value > activeIndex then Some(if i == hoveredIndex.value then PeekOffsetLeft else 0)
      else if hoveredIndex.value < i <= activeIndex then PeekTableEntry(activeIndex - i)
      else Some(0))
  }

  /** Seven cards, card 6 active, card 0 hovered: card 1's offset is `undefined`, so its position is NaN. */
  lemma PeekTableOverrun()
    ensures PeekOffsetsAsWritten(Some(0), 6, 7)[1] == None
  {
  }

  /** Within the table's reach the clamped offsets are exactly the ones the source computes. */
  lemma PeekAsWrittenAgrees(hoveredIndex: Option<int>, activeIndex: int, numCards: nat, i: nat)
    requires ValidPeek(hoveredIndex, activeIndex, numCards) && i < numCards
    requires hoveredIndex.Some? ==> activeIndex - hoveredIndex.value <= |PeekOffsetRightMap|
    ensures PeekOffsetsAsWritten(hoveredIndex, activeIndex, numCards)[i]
         == Some(PeekOffsets(hoveredIndex, activeIndex, numCards)[i])
  {
    if hoveredIndex.Some? && hoveredIndex.value < activeIndex {
      var h := hoveredIndex.value;
      PeekOpenCards(h, activeIndex, numCards, i);
      assert PeekOffsetsAsWritten(hoveredIndex, activeIndex, numCards)[i]
          == if h < i <= activeIndex then PeekTableEntry(activeIndex - i) else Some(0);
    }
  }
}
