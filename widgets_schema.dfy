/**
 * The widget schema: an optional widget whose `type` (image, video,
 * image-swap or interactive) selects the shape of its `config`, every config
 * carrying background fields of which at least one must be non-empty.
 *
 * Raw input is given with each field either absent or holding a value of the
 * field's type; a value of the wrong type is not represented.
 */
module WidgetsSchema {
  import opened Wrappers

  datatype RawConfig = RawConfig(
    bgImage: Option<string>,
    bgFillClass: Option<string>,
    previewImage: Option<string>,
    previewVideo: Option<string>,
    previewImages: Option<seq<string>>,
    alt: Option<string>,
    aspect: Option<string>,
    intervalMs: Option<real>,
    previewWidth: Option<real>)

  datatype RawWidget = RawWidget(widgetType: string, config: Option<RawConfig>)

  datatype WidgetType = Image | Video | ImageSwap | Interactive

  datatype Aspect = Portrait | Landscape | Square

  datatype Background = Background(bgImage: Option<string>, bgFillClass: Option<string>)

  /** The parsed widget (`WidgetUnion`). */
  datatype Widget =
    | WidgetImage(bg: Background, previewImage: string, alt: Option<string>, previewWidth: Option<real>)
    | WidgetVideo(bg: Background, previewVideo: string, previewWidth: Option<real>)
    | WidgetImageSwap(bg: Background, previewImages: seq<string>, alt: Option<string>,
                      aspect: Option<Aspect>, intervalMs: Option<real>, previewWidth: Option<real>)
    | WidgetInteractive(bg: Background)

  /** The kinds of issue the schema can raise. */
  datatype IssueCode =
    | InvalidDiscriminator
    | Required
    | TooSmall(minimum: real)
    | TooBig(maximum: real)
    | InvalidEnumValue
    | Custom(message: string)

  datatype Issue = Issue(path: seq<string>, code: IssueCode)

  const BackgroundMessage: string := "Provide bgImage or bgFillClass"
  const MinIntervalMs: real := 100.0

  /** The discriminator values. */
  function ParseType(s: string): (r: Option<WidgetType>)
    ensures r.None? <==> s !in {"image", "video", "image-swap", "interactive"}
  {
    if s == "image" then Some(Image)
    else if s == "video" then Some(Video)
    else if s == "image-swap" then Some(ImageSwap)
    else if s == "interactive" then Some(Interactive)
    else None
  }

  function ParseAspect(s: string): (r: Option<Aspect>)
    ensures r.None? <==> s !in {"portrait", "landscape", "square"}
  {
    if s == "portrait" then Some(Portrait)
    else if s == "landscape" then Some(Landscape)
    else if s == "square" then Some(Square)
    else None
  }

  /** JavaScript truthiness of an optional string: present and non-empty. */
  predicate Truthy(s: Option<string>) {
    s.Some? && s.value != ""
  }

  /**
   * The outcome of checking one field: the issues raised, and whether the
   * failure is fatal (the value is unusable) rather than a failed range check.
   */
  datatype FieldCheck = FieldCheck(issues: seq<Issue>, fatal: bool)

  const Ok: FieldCheck := FieldCheck([], false)

  function ConfigPath(field: string): seq<string> { ["config", field] }

  function RequiredField(present: bool, field: string): FieldCheck {
    if present then Ok else FieldCheck([Issue(ConfigPath(field), Required)], true)
  }

  /** `z.number().min(0).max(1).optional()`. */
  function PreviewWidthCheck(w: Option<real>): FieldCheck {
    if w.None? then Ok
    else if w.value < 0.0 then FieldCheck([Issue(ConfigPath("previewWidth"), TooSmall(0.0))], false)
    else if w.value > 1.0 then FieldCheck([Issue(ConfigPath("previewWidth"), TooBig(1.0))], false)
    else Ok
  }

  /** `z.number().min(100).optional()`. */
  function IntervalCheck(i: Option<real>): FieldCheck {
    if i.Some? && i.value < MinIntervalMs then FieldCheck([Issue(ConfigPath("intervalMs"), TooSmall(MinIntervalMs))], false)
    else Ok
  }

  /** `z.enum(["portrait", "landscape", "square"]).optional()`. */
  function AspectCheck(a: Option<string>): FieldCheck {
    if a.Some? && ParseAspect(a.value).None? then FieldCheck([Issue(ConfigPath("aspect"), InvalidEnumValue)], true)
    else Ok
  }

  /** Two fields' checks in shape order: the issues of both, fatal if either is. */
  function Then(a: FieldCheck, b: FieldCheck): (r: FieldCheck)
    ensures r.fatal <==> a.fatal || b.fatal
    ensures r.issues == [] <==> a.issues == [] && b.issues == []
  {
    FieldCheck(a.issues + b.issues, a.fatal || b.fatal)
  }

  /** The shape checks of the config that `t` selects (the background fields cannot fail). */
  function ShapeCheck(t: WidgetType, c: RawConfig): (r: FieldCheck)
    ensures r.fatal ==> r.issues != []
  {
    match t
    case Image => Then(RequiredField(c.previewImage.Some?, "previewImage"), PreviewWidthCheck(c.previewWidth))
    case Video => Then(RequiredField(c.previewVideo.Some?, "previewVideo"), PreviewWidthCheck(c.previewWidth))
    case ImageSwap =>
      Then(Then(Then(RequiredField(c.previewImages.Some?, "previewImages"), AspectCheck(c.aspect)),
                IntervalCheck(c.intervalMs)), PreviewWidthCheck(c.previewWidth))
    case Interactive => Ok
  }

  /** The `withBackground` refinement: at least one background field must be truthy. */
  function BackgroundIssues(c: RawConfig): (r: seq<Issue>)
    ensures r == [] <==> Truthy(c.bgImage) || Truthy(c.bgFillClass)
    ensures r != [] ==> r == [Issue(["config", "bgImage"], Custom(BackgroundMessage))]
  {
    if !Truthy(c.bgImage) && !Truthy(c.bgFillClass) then [Issue(ConfigPath("bgImage"), Custom(BackgroundMessage))]
    else []
  }

  function AspectValue(a: Option<string>): Option<Aspect>
    requires a.Some? ==> ParseAspect(a.value).Some?
  {
    if a.None? then None else ParseAspect(a.value)
  }

  /** The widget built from a config that passed its checks; unknown keys are dropped. */
  function Build(t: WidgetType, c: RawConfig): Widget
    requires ShapeCheck(t, c).issues == []
  {
    var bg := Background(c.bgImage, c.bgFillClass);
    match t
    case Image => WidgetImage(bg, c.previewImage.value, c.alt, c.previewWidth)
    case Video => WidgetVideo(bg, c.previewVideo.value, c.previewWidth)
    case ImageSwap => WidgetImageSwap(bg, c.previewImages.value, c.alt, AspectValue(c.aspect), c.intervalMs, c.previewWidth)
    case Interactive => WidgetInteractive(bg)
  }

  /**
   * `widgetSchema.safeParse`: `undefined` is accepted; an unknown `type` fails
   * at the discriminator; a missing config is required; otherwise the shape's
   * issues are collected, and the background refinement runs unless a shape
   * issue was fatal.
   */
  function ParseWidget(input: Option<RawWidget>): (r: Result<Option<Widget>, seq<Issue>>)
    ensures input.None? ==> r == Success(None)
    ensures input.Some? ==> r != Success(None)
    ensures r.Failure? ==> r.error != []
    ensures input.Some? && ParseType(input.value.widgetType).None? ==> r == Failure([Issue(["type"], InvalidDiscriminator)])
    ensures input.Some? && ParseType(input.value.widgetType).Some? && input.value.config.None?
            ==> r == Failure([Issue(["config"], Required)])
  {
    if input.None? then Success(None)
    else
      var w := input.value;
      match ParseType(w.widgetType)
      case None => Failure([Issue(["type"], InvalidDiscriminator)])
      case Some(t) =>
        if w.config.None? then Failure([Issue(["config"], Required)])
        else
          var c := w.config.value;
          var shape := ShapeCheck(t, c);
          if shape.fatal then Failure(shape.issues)
          else
            var issues := shape.issues + BackgroundIssues(c);
            if issues == [] then Success(Some(Build(t, c))) else Failure(issues)
  }

  /** A number that is absent or lies in [lo, hi]. */
  predicate InRange(x: Option<real>, lo: real, hi: real) {
    x.Some? ==> lo <= x.value <= hi
  }

  /** What the schema demands of the config of a widget of type `t`, stated field by field. */
  predicate ConfigValid(t: WidgetType, c: RawConfig) {
    (Truthy(c.bgImage) || Truthy(c.bgFillClass))
    && match t
       case Image => c.previewImage.Some? && InRange(c.previewWidth, 0.0, 1.0)
       case Video => c.previewVideo.Some? && InRange(c.previewWidth, 0.0, 1.0)
       case ImageSwap =>
         c.previewImages.Some? && InRange(c.previewWidth, 0.0, 1.0)
         && (c.aspect.Some? ==> c.aspect.value in {"portrait", "landscape", "square"})
         && (c.intervalMs.Some? ==> c.intervalMs.value >= MinIntervalMs)
       case Interactive => true
  }

  /** The widget is absent, or has a known type and a config valid for that type. */
  predicate WidgetValid(input: Option<RawWidget>) {
    input.None? ||
    (input.value.widgetType in {"image", "video", "image-swap", "interactive"}
     && input.value.config.Some?
     && ConfigValid(ParseType(input.value.widgetType).value, input.value.config.value))
  }

  /** The shape checks pass exactly when the config meets its type's shape. */
  lemma ShapeCheckSound(t: WidgetType, c: RawConfig)
    ensures ShapeCheck(t, c).issues == [] <==>
      match t
      case Image => c.previewImage.Some? && InRange(c.previewWidth, 0.0, 1.0)
      case Video => c.previewVideo.Some? && InRange(c.previewWidth, 0.0, 1.0)
      case ImageSwap =>
        c.previewImages.Some? && InRange(c.previewWidth, 0.0, 1.0)
        && (c.aspect.Some? ==> c.aspect.value in {"portrait", "landscape", "square"})
        && (c.intervalMs.Some? ==> c.intervalMs.value >= MinIntervalMs)
      case Interactive => true
  {
  }

  /** The parser accepts exactly the valid widgets. */
  lemma ParseAcceptsValid(input: Option<RawWidget>)
    ensures ParseWidget(input).Success? <==> WidgetValid(input)
  {
    if input.Some? && ParseType(input.value.widgetType).Some? && input.value.config.Some? {
      ShapeCheckSound(ParseType(input.value.widgetType).value, input.value.config.value);
    }
  }

  /** An accepted widget keeps its type and its background fields. */
  lemma ParseKeepsFields(input: Option<RawWidget>)
    requires input.Some? && ParseWidget(input).Success?
    ensures ParseWidget(input).value.Some?
    ensures var w := ParseWidget(input).value.value;
      TypeOf(w) == ParseType(input.value.widgetType).value
      && w.bg == Background(input.value.config.value.bgImage, input.value.config.value.bgFillClass)
  {
  }

  function TypeOf(w: Widget): WidgetType {
    match w
    case WidgetImage(_, _, _, _) => Image
    case WidgetVideo(_, _, _) => Video
    case WidgetImageSwap(_, _, _, _, _, _) => ImageSwap
    case WidgetInteractive(_) => Interactive
  }

  /** A config that meets its shape but has no background fails with the one refinement issue, at `bgImage`. */
  lemma BackgroundRequired(w: RawWidget)
    requires ParseType(w.widgetType).Some? && w.config.Some?
    requires ShapeCheck(ParseType(w.widgetType).value, w.config.value).issues == []
    requires !Truthy(w.config.value.bgImage) && !Truthy(w.config.value.bgFillClass)
    ensures ParseWidget(Some(w)) == Failure([Issue(["config", "bgImage"], Custom("Provide bgImage or bgFillClass"))])
  {
    var shape := ShapeCheck(ParseType(w.widgetType).value, w.config.value);
    assert shape.issues + BackgroundIssues(w.config.value) == BackgroundIssues(w.config.value);
  }

  /**
   * The refinement does not run after a fatal shape issue: an image widget with
   * neither a preview image nor a background reports only the missing preview.
   */
  lemma FatalIssueSkipsRefinement()
    ensures ParseWidget(Some(RawWidget("image", Some(RawConfig(None, Some(""), None, None, None, None, None, None, None)))))
         == Failure([Issue(["config", "previewImage"], Required)])
  {
    var c := RawConfig(None, Some(""), None, None, None, None, None, None, None);
    assert ParseType("image") == Some(Image);
    assert ShapeCheck(Image, c) == FieldCheck([Issue(["config", "previewImage"], Required)], true);
  }

  /** A range failure is not fatal: the refinement still runs and its issue follows. */
  lemma RangeIssueKeepsRefinement()
    ensures ParseWidget(Some(RawWidget("video", Some(RawConfig(None, None, None, Some("v.mp4"), None, None, None, None, Some(2.0))))))
         == Failure([Issue(["config", "previewWidth"], TooBig(1.0)), Issue(["config", "bgImage"], Custom("Provide bgImage or bgFillClass"))])
  {
    var c := RawConfig(None, None, None, Some("v.mp4"), None, None, None, None, Some(2.0));
    assert ParseType("video") == Some(Video);
    assert ShapeCheck(Video, c) == FieldCheck([Issue(["config", "previewWidth"], TooBig(1.0))], false);
    assert BackgroundIssues(c) == [Issue(["config", "bgImage"], Custom("Provide bgImage or bgFillClass"))];
    var issues := ShapeCheck(Video, c).issues + BackgroundIssues(c);
    assert issues == [Issue(["config", "previewWidth"], TooBig(1.0)), Issue(["config", "bgImage"], Custom("Provide bgImage or bgFillClass"))];
    assert ParseWidget(Some(RawWidget("video", Some(c)))) == Failure(issues);
  }
}
