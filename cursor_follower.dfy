/**
 * The cursor follower: a label that trails the pointer over elements marked
 * `data-cursor-hover`, showing the element's title and its content types.
 * After the pointer leaves such an element, tracking pauses for 700 ms unless
 * the pointer is over a marked element again.
 */
module CursorFollower {
  import opened Wrappers
  import JsString

  const PointerOffset: real := 14.0
  const ResumeDelayMs: real := 700.0

  datatype HoverData = HoverData(title: string, types: seq<string>)

  /** A type as the parser leaves it: non-empty, without commas, no white space at either end. */
  predicate CleanType(t: string) {
    t != "" && ',' !in t && !JsString.IsWhiteSpace(t[0]) && !JsString.IsWhiteSpace(t[|t| - 1])
  }

  /**
   * `data-cursor-types` split on ",", each piece trimmed, empty pieces
   * dropped; a missing attribute is read as "".
   */
  function ParseTypes(rawTypes: Option<string>): (r: seq<string>)
    ensures forall i :: 0 <= i < |r| ==> CleanType(r[i])
    ensures rawTypes.None? ==> r == []
    ensures rawTypes.Some? && ',' !in rawTypes.value ==>
      r == if JsString.Trim(rawTypes.value) == "" then [] else [JsString.Trim(rawTypes.value)]
  {
    var pieces := JsString.Split(rawTypes.GetOr(""), ',');
    if rawTypes.None? then
      assert pieces == [""];
      JsString.TrimTrimmed("");
      ParsedPiecesSingle("");
      ParsedPieces(pieces)
    else if ',' !in rawTypes.value then
      JsString.SplitNoSeparator(rawTypes.value, ',');
      ParsedPiecesSingle(rawTypes.value);
      ParsedPieces(pieces)
    else
      ParsedPieces(pieces)
  }

  /**
   * The attribute read one comma at a time: the piece before the first comma
   * contributes its trim (nothing when that is empty), then the rest is parsed.
   * With the single-piece case of `ParseTypes` this determines the result for
   * every attribute value.
   */
  lemma ParseTypesFirstPiece(a: string, rest: string)
    requires ',' !in a
    ensures ParseTypes(Some(a + "," + rest))
         == (if JsString.Trim(a) == "" then [] else [JsString.Trim(a)]) + ParseTypes(Some(rest))
  {
    JsString.SplitAtFirst(a, ',', rest);
    var tail := JsString.Split(rest, ',');
    ParsedPiecesConcat([a], tail);
    ParsedPiecesSingle(a);
  }

  /** The trimmed pieces, empty ones dropped, in order. */
  function ParsedPieces(pieces: seq<string>): (r: seq<string>)
    requires forall i :: 0 <= i < |pieces| ==> ',' !in pieces[i]
    ensures forall i :: 0 <= i < |r| ==> CleanType(r[i])
    ensures |r| <= |pieces|
  {
    if pieces == [] then [] else PieceTypes(pieces[0]) + ParsedPieces(pieces[1..])
  }

  /** What one piece contributes: its trim, or nothing when that is empty. */
  function PieceTypes(p: string): (r: seq<string>)
    requires ',' !in p
    ensures |r| <= 1 && forall i :: 0 <= i < |r| ==> CleanType(r[i])
  {
    var t := JsString.Trim(p);
    JsString.TrimKeepsOut(p, ',');
    if t == [] then [] else [t]
  }

  /** Parsing piece by piece: the pieces of `a` come first, then those of `b`. */
  lemma {:induction false} ParsedPiecesConcat(a: seq<string>, b: seq<string>)
    requires forall i :: 0 <= i < |a| ==> ',' !in a[i]
    requires forall i :: 0 <= i < |b| ==> ',' !in b[i]
    ensures ParsedPieces(a + b) == ParsedPieces(a) + ParsedPieces(b)
  {
    if a != [] {
      assert (a + b)[0] == a[0];
      assert (a + b)[1..] == a[1..] + b;
      ParsedPiecesConcat(a[1..], b);
    } else {
      assert a + b == b;
    }
  }

  /** One piece parses to its trim, or to nothing when the trim is empty. */
  lemma ParsedPiecesSingle(p: string)
    requires ',' !in p
    ensures ParsedPieces([p]) == if JsString.Trim(p) == "" then [] else [JsString.Trim(p)]
  {
    assert [p][1..] == [];
  }

  /** Clean types survive being written as a comma list and parsed back. */
  lemma {:induction false} ParseTypesRoundTrip(types: seq<string>)
    requires |types| >= 1
    requires forall i :: 0 <= i < |types| ==> CleanType(types[i])
    ensures ParseTypes(Some(JsString.Join(types, ","))) == types
  {
    assert forall i :: 0 <= i < |types| ==> CleanType(types[i]) && ',' !in types[i];
    JsString.SplitJoin(types, ',');
    ParsedPiecesClean(types);
  }

  lemma {:induction false} ParsedPiecesClean(types: seq<string>)
    requires forall i :: 0 <= i < |types| ==> CleanType(types[i]) && ',' !in types[i]
    ensures ParsedPieces(types) == types
  {
    if types != [] {
      JsString.TrimTrimmed(types[0]);
      ParsedPiecesClean(types[1..]);
    }
  }

  /** What `onEnter` reads from the element: its title ("" when missing) and its parsed types. */
  function ReadHoverData(title: Option<string>, rawTypes: Option<string>): (d: HoverData)
    ensures d.title == title.GetOr("")
    ensures d.types == ParseTypes(rawTypes)
  {
    HoverData(title.GetOr(""), ParseTypes(rawTypes))
  }

  /**
   * A type with its first character upper-cased (`t.slice(0, 1).toUpperCase() + t.slice(1)`):
   * only the first character changes, and only its case.
   */
  function Capitalise(t: string): (r: string)
    ensures |r| == |t|
    ensures forall i :: 1 <= i < |t| ==> r[i] == t[i]
    ensures t != [] ==> r[0] == JsString.ToUpperChar(t[0])
    ensures JsString.ToLower(r) == JsString.ToLower(t)
  {
    if t == [] then []
    else
      assert JsString.ToLowerChar(JsString.ToUpperChar(t[0])) == JsString.ToLowerChar(t[0]);
      [JsString.ToUpperChar(t[0])] + t[1..]
  }

  /** `types.map(...)`: each type capitalised, in order. */
  function CapitaliseAll(types: seq<string>): (r: seq<string>)
    ensures |r| == |types|
    ensures forall i :: 0 <= i < |types| ==> r[i] == Capitalise(types[i])
  {
    seq(|types|, i requires 0 <= i < |types| => Capitalise(types[i]))
  }

  /** `typesText`: "" for no types, otherwise the capitalised types joined by " / ". */
  function TypesText(types: seq<string>): (r: string)
    ensures types == [] ==> r == ""
    ensures |types| == 1 ==> r == Capitalise(types[0])
  {
    if |types| == 0 then "" else JsString.Join(CapitaliseAll(types), " / ")
  }

  /** The text grows by " / " and the next capitalised type for each further type. */
  lemma TypesTextCons(types: seq<string>)
    requires |types| >= 2
    ensures TypesText(types) == Capitalise(types[0]) + " / " + TypesText(types[1..])
  {
    assert CapitaliseAll(types)[1..] == CapitaliseAll(types[1..]);
  }

  /** Parsed types are non-empty, so the types line is empty exactly when there are no types. */
  lemma TypesTextEmpty(rawTypes: Option<string>)
    ensures TypesText(ParseTypes(rawTypes)) == "" <==> ParseTypes(rawTypes) == []
  {
    CleanTypesText(ParseTypes(rawTypes));
  }

  lemma CleanTypesText(types: seq<string>)
    requires forall i :: 0 <= i < |types| ==> CleanType(types[i])
    ensures TypesText(types) == "" <==> types == []
  {
    if |types| == 1 {
      assert CleanType(types[0]);
      assert |Capitalise(types[0])| > 0;
    } else if |types| >= 2 {
      TypesTextCons(types);
    }
  }

  /**
   * `handlePointerMove`'s rule, as written: ignore the move while hidden and
   * paused; follow it when over a marked element; otherwise follow it once the
   * pause has ended.
   */
  function TracksPointer(isVisible: bool, resumeAt: real, now: real, over: bool): (r: bool)
    ensures r <==> now >= resumeAt || (isVisible && over)
  {
    if !isVisible && now < resumeAt then false
    else if over then true
    else now >= resumeAt
  }

  /** Right after leaving, the pointer is ignored for 700 ms, even over another marked element. */
  lemma LeavePausesTracking(leftAt: real, now: real, over: bool)
    ensures TracksPointer(false, leftAt + ResumeDelayMs, now, over) <==> now >= leftAt + 700.0
  {
  }

  /** The follower's refs, state and motion targets. */
  class Follower {
    var isVisible: bool
    var isVisibleRef: bool
    var data: Option<HoverData>
    var resumeTrackingAt: real
    var rawX: real
    var rawY: real

    /** The state flag and the ref always change together. */
    ghost predicate Valid()
      reads this
    {
      isVisible == isVisibleRef
    }

    constructor ()
      ensures Valid() && !isVisible && data.None? && resumeTrackingAt == 0.0
      ensures rawX == 0.0 && rawY == 0.0
    {
      isVisible := false;
      isVisibleRef := false;
      data := None;
      resumeTrackingAt := 0.0;
      rawX := 0.0;
      rawY := 0.0;
    }

    /**
     * `onEnter`: store what was read from the entered element (its
     * `ReadHoverData`) and show the label.
     */
    method OnEnter(hover: HoverData)
      modifies this
      ensures Valid() && isVisible && IsRendered()
      ensures data == Some(hover)
      ensures resumeTrackingAt == old(resumeTrackingAt) && rawX == old(rawX) && rawY == old(rawY)
    {
      data := Some(hover);
      isVisible := true;
      isVisibleRef := true;
    }

    /** `onLeave`: hide the label and pause tracking until 700 ms from `now`. */
    method OnLeave(now: real)
      modifies this
      ensures Valid() && !isVisible && !IsRendered()
      ensures resumeTrackingAt == now + ResumeDelayMs
      ensures data == old(data) && rawX == old(rawX) && rawY == old(rawY)
    {
      isVisible := false;
      resumeTrackingAt := now + ResumeDelayMs;
      isVisibleRef := false;
    }

    /** `handlePointerMove` at time `now`; `over` says whether the target is inside a marked element. */
    method HandlePointerMove(now: real, clientX: real, clientY: real, over: bool)
      modifies this
      ensures TracksPointer(old(isVisibleRef), old(resumeTrackingAt), now, over) ==>
                rawX == clientX + PointerOffset && rawY == clientY + PointerOffset
      ensures !TracksPointer(old(isVisibleRef), old(resumeTrackingAt), now, over) ==>
                rawX == old(rawX) && rawY == old(rawY)
      ensures isVisible == old(isVisible) && isVisibleRef == old(isVisibleRef)
      ensures data == old(data) && resumeTrackingAt == old(resumeTrackingAt)
    {
      if !isVisibleRef && now < resumeTrackingAt {
        return;
      }
      if over {
        rawX := clientX + PointerOffset;
        rawY := clientY + PointerOffset;
        return;
      }
      if now >= resumeTrackingAt {
        rawX := clientX + PointerOffset;
        rawY := clientY + PointerOffset;
      }
    }

    /** The label is rendered only while visible and holding data. */
    predicate IsRendered()
      reads this
    {
      isVisible && data.Some?
    }
  }
}
