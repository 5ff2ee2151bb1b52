/**
 * The image-swap widget: it drops empty image URLs, shows one image at a time
 * and, when there are at least two, steps cyclically to the next on a timer.
 */
module ImageSwapMedia {
  import opened Wrappers
  import WidgetsSchema

  const DefaultIntervalMs: real := 500.0
  const MinIntervalMs: real := 100.0

  /** `images.filter(Boolean)`: the non-empty URLs, in order. */
  function ValidImages(images: seq<string>): (r: seq<string>)
    ensures |r| <= |images|
    ensures forall i :: 0 <= i < |r| ==> r[i] != "" && r[i] in images
    ensures forall s :: s in images && s != "" ==> s in r
  {
    if images == [] then []
    else if images[0] != "" then [images[0]] + ValidImages(images[1..])
    else ValidImages(images[1..])
  }

  /** Filtering keeps the order: filtering two lists one after the other is filtering their concatenation. */
  lemma {:induction false} ValidImagesConcat(a: seq<string>, b: seq<string>)
    ensures ValidImages(a + b) == ValidImages(a) + ValidImages(b)
  {
    if a == [] {
      assert a + b == b;
    } else {
      assert (a + b)[1..] == a[1..] + b;
      ValidImagesConcat(a[1..], b);
    }
  }

  /** `Math.max(100, intervalMs)` with `intervalMs` defaulting to 500. */
  function TickPeriod(intervalMs: Option<real>): (r: real)
    ensures r >= MinIntervalMs
    ensures r >= intervalMs.GetOr(DefaultIntervalMs)
    ensures r == MinIntervalMs || r == intervalMs.GetOr(DefaultIntervalMs)
  {
    var ms := intervalMs.GetOr(DefaultIntervalMs);
    if ms > MinIntervalMs then ms else MinIntervalMs
  }

  /** The CSS aspect ratio for the `aspect` prop; an empty, absent or unknown value gives none. */
  function AspectRatioCss(aspect: Option<string>): (r: Option<string>)
    ensures r.Some? <==> aspect.Some? && aspect.value in {"portrait", "landscape", "square"}
    ensures aspect == Some("portrait") ==> r == Some("4 / 5")
    ensures aspect == Some("landscape") ==> r == Some("5 / 4")
    ensures aspect == Some("square") ==> r == Some("1 / 1")
  {
    if aspect.None? || aspect.value == "" then None
    else if aspect.value == "portrait" then Some("4 / 5")
    else if aspect.value == "landscape" then Some("5 / 4")
    else if aspect.value == "square" then Some("1 / 1")
    else None
  }

  /** Every aspect the widget schema accepts gets its ratio: portrait and landscape reciprocal, square 1 / 1. */
  lemma SchemaAspectsHaveRatio(a: string)
    ensures WidgetsSchema.ParseAspect(a).Some? <==> AspectRatioCss(Some(a)).Some?
    ensures a == "portrait" ==> AspectRatioCss(Some(a)) == Some("4 / 5")
    ensures a == "landscape" ==> AspectRatioCss(Some(a)) == Some("5 / 4")
    ensures a == "square" ==> AspectRatioCss(Some(a)) == Some("1 / 1")
  {
  }

  /** The index after one tick, for `n` valid images. */
  function Step(index: nat, n: nat): (r: nat)
    requires n > 0
    ensures r < n
    ensures index < n - 1 ==> r == index + 1
    ensures index == n - 1 ==> r == 0
  {
    (index + 1) % n
  }

  /** The index after `k` ticks from the start. */
  function Steps(k: nat, n: nat): (r: nat)
    requires n > 0
    ensures r < n
  {
    if k == 0 then 0 else Step(Steps(k - 1, n), n)
  }

  /** The first `n` ticks from the start show the images in order. */
  lemma {:induction false} StepsInOrder(k: nat, n: nat)
    requires k < n
    ensures Steps(k, n) == k
  {
    if k > 0 {
      StepsInOrder(k - 1, n);
    }
  }

  /** After `n` more ticks the same image is shown again: the rotation is a cycle of length `n`. */
  lemma {:induction false} StepsPeriodic(k: nat, n: nat)
    requires n > 0
    ensures Steps(k + n, n) == Steps(k, n)
  {
    if k == 0 {
      StepsInOrder(n - 1, n);
    } else {
      StepsPeriodic(k - 1, n);
      assert Steps(k + n, n) == Step(Steps(k - 1 + n, n), n);
    }
  }

  /** One mounted widget: its valid images, its installed timer and the current index. */
  class SwapMedia {
    const validImages: seq<string>
    /** The period of the installed interval timer, if one is installed. */
    const timer: Option<real>
    var index: nat

    ghost predicate Valid()
      reads this
    {
      (index == 0 || index < |validImages|)
      && (timer.Some? <==> |validImages| > 1)
      && forall i :: 0 <= i < |validImages| ==> validImages[i] != ""
    }

    /** Mount: filter the images, start at index 0, and install a timer only for two images or more. */
    constructor (images: seq<string>, intervalMs: Option<real>)
      ensures Valid()
      ensures validImages == ValidImages(images) && index == 0
      ensures timer == if |ValidImages(images)| <= 1 then None else Some(TickPeriod(intervalMs))
    {
      validImages := ValidImages(images);
      timer := if |ValidImages(images)| <= 1 then None else Some(TickPeriod(intervalMs));
      index := 0;
    }

    /** One timer tick: `setIndex(prev => (prev + 1) % validImages.length)`. */
    method Tick()
      requires Valid() && timer.Some?
      modifies this
      ensures Valid()
      ensures index == Step(old(index), |validImages|)
    {
      index := (index + 1) % |validImages|;
    }

    /** The image shown, or nothing rendered at all when no image is valid. */
    function Src(): (r: Option<string>)
      requires Valid()
      reads this
      ensures r.None? <==> validImages == []
      ensures r.Some? ==> r.value != "" && r.value == validImages[index]
    {
      if |validImages| == 0 then None else Some(validImages[index])
    }

    /** The first image loads eagerly, the others lazily. */
    function Loading(): (r: string)
      reads this
      ensures r == "eager" <==> index == 0
      ensures r == "eager" || r == "lazy"
    {
      if index == 0 then "eager" else "lazy"
    }
  }
}
