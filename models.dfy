/**
 * The snapshot data model: elements, snapshots and snapshot options, with
 * the field bounds and defaults the pydantic models enforce. Coordinates
 * and sizes are reals; `doc_y` is an integer document offset.
 */
module Models {
  import opened Wrappers

  datatype BBox = BBox(x: real, y: real, width: real, height: real)

  datatype Viewport = Viewport(width: real, height: real)

  datatype VisualCues = VisualCues(isPrimary: bool, backgroundColorName: Option<string>, isClickable: bool)

  /**
   * One element of a snapshot. `href`, `name` and `docY` are optional
   * attributes the extension may attach and that the merge logic reads.
   */
  datatype Element = Element(
    id: int,
    role: string,
    text: Option<string>,
    importance: int,
    bbox: BBox,
    visualCues: VisualCues,
    inViewport: bool,
    isOccluded: bool,
    zIndex: int,
    href: Option<string>,
    name: Option<string>,
    docY: Option<int>)

  /** An element built from its required fields, every other field at its default. */
  function NewElement(id: int, role: string, importance: int, bbox: BBox, cues: VisualCues): (e: Element)
    ensures e.id == id && e.role == role && e.importance == importance && e.bbox == bbox && e.visualCues == cues
    ensures e.inViewport && !e.isOccluded && e.zIndex == 0
    ensures e.text.None? && e.href.None? && e.name.None? && e.docY.None?
  {
    Element(id, role, None, importance, bbox, cues, true, false, 0, None, None, None)
  }

  /** `Literal["success", "error"]` */
  datatype SnapshotStatus = StatusSuccess | StatusError

  function StatusName(s: SnapshotStatus): string {
    match s
    case StatusSuccess => "success"
    case StatusError => "error"
  }

  /** Validation of the `status` field: only the two literals are accepted. */
  function ParseStatus(s: string): (r: Option<SnapshotStatus>)
    ensures r.Some? <==> s == "success" || s == "error"
    ensures r.Some? ==> StatusName(r.value) == s
  {
    if s == "success" then Some(StatusSuccess)
    else if s == "error" then Some(StatusError)
    else None
  }

  lemma ParseStatusName(st: SnapshotStatus)
    ensures ParseStatus(StatusName(st)) == Some(st)
  {
  }

  /** `Literal["png", "jpeg"]` */
  datatype ImageFormat = Png | Jpeg

  function FormatName(f: ImageFormat): string {
    match f
    case Png => "png"
    case Jpeg => "jpeg"
  }

  /** Evidence the extension reports for a CAPTCHA; list entries may be null. */
  datatype CaptchaEvidence = CaptchaEvidence(
    iframeSrcHits: seq<Option<string>>,
    urlHits: seq<Option<string>>,
    textHits: seq<Option<string>>,
    selectorHits: seq<Option<string>>)

  datatype CaptchaDiagnostics = CaptchaDiagnostics(
    detected: bool,
    providerHint: Option<string>,
    confidence: real,
    evidence: Option<CaptchaEvidence>)

  datatype Diagnostics = Diagnostics(confidence: Option<real>, captcha: Option<CaptchaDiagnostics>)

  datatype Snapshot = Snapshot(
    status: SnapshotStatus,
    timestamp: Option<string>,
    url: string,
    viewport: Option<Viewport>,
    elements: seq<Element>,
    screenshot: Option<string>,
    screenshotFormat: Option<ImageFormat>,
    error: Option<string>,
    requiresLicense: Option<bool>,
    diagnostics: Option<Diagnostics>)

  /** A snapshot built from its required fields, every optional field unset. */
  function NewSnapshot(status: SnapshotStatus, url: string, elements: seq<Element>): (s: Snapshot)
    ensures s.status == status && s.url == url && s.elements == elements
    ensures s.timestamp.None? && s.viewport.None? && s.screenshot.None? && s.screenshotFormat.None?
    ensures s.error.None? && s.requiresLicense.None? && s.diagnostics.None?
  {
    Snapshot(status, None, url, None, elements, None, None, None, None, None)
  }

  // ---------------------------------------------------------------------------
  // options

  datatype ScreenshotConfig = ScreenshotConfig(format: ImageFormat, quality: Option<int>)

  predicate ValidScreenshotConfig(c: ScreenshotConfig) {
    c.quality.Some? ==> 1 <= c.quality.value <= 100
  }

  function DefaultScreenshotConfig(): (c: ScreenshotConfig)
    ensures c.format == Png && c.quality.None? && ValidScreenshotConfig(c)
  {
    ScreenshotConfig(Png, None)
  }

  datatype SnapshotFilter = SnapshotFilter(
    minArea: Option<int>,
    allowedRoles: Option<seq<string>>,
    minZIndex: Option<int>)

  predicate ValidSnapshotFilter(f: SnapshotFilter) {
    f.minArea.Some? ==> f.minArea.value >= 0
  }

  /** `screenshot: bool | ScreenshotConfig` */
  datatype ScreenshotSetting = ShotFlag(on: bool) | ShotConfig(config: ScreenshotConfig)

  const DEFAULT_LIMIT := 50
  const MAX_LIMIT := 500

  datatype SnapshotOptions = SnapshotOptions(
    screenshot: ScreenshotSetting,
    limit: int,
    filter: Option<SnapshotFilter>,
    useApi: Option<bool>,
    sentienceApiKey: Option<string>,
    predicateApiKey: Option<string>,
    goal: Option<string>,
    showOverlay: bool)

  predicate ValidSnapshotOptions(o: SnapshotOptions) {
    && 1 <= o.limit <= MAX_LIMIT
    && (o.screenshot.ShotConfig? ==> ValidScreenshotConfig(o.screenshot.config))
    && (o.filter.Some? ==> ValidSnapshotFilter(o.filter.value))
  }

  /** `SnapshotOptions()` */
  function DefaultSnapshotOptions(): (o: SnapshotOptions)
    ensures ValidSnapshotOptions(o)
    ensures o.screenshot == ShotFlag(false) && o.limit == DEFAULT_LIMIT && o.filter.None?
    ensures o.useApi.None? && o.sentienceApiKey.None? && o.predicateApiKey.None?
  {
    SnapshotOptions(ShotFlag(false), DEFAULT_LIMIT, None, None, None, None, None, false)
  }

  /**
   * The field constraints pydantic checks when options are built:
   * the first violated bound is reported, valid options are accepted as is.
   */
  function ValidateSnapshotOptions(o: SnapshotOptions): (r: Result<SnapshotOptions, string>)
    ensures r.Success? <==> ValidSnapshotOptions(o)
    ensures r.Success? ==> r.value == o
  {
    if !(1 <= o.limit <= MAX_LIMIT) then Failure("limit must be between 1 and 500")
    else if o.screenshot.ShotConfig? && !ValidScreenshotConfig(o.screenshot.config) then
      Failure("screenshot quality must be between 1 and 100")
    else if o.filter.Some? && !ValidSnapshotFilter(o.filter.value) then
      Failure("filter min_area must be non-negative")
    else Success(o)
  }

  /**
   * The API-key defaulting shared by the runtime and the browser-use plugin:
   * a truthy key is written to both key fields and turns an unset `use_api` on.
   */
  function WithApiKey(o: SnapshotOptions, key: Option<string>): (r: SnapshotOptions)
    ensures key.None? || key.value == "" ==> r == o
    ensures key.Some? && key.value != "" ==>
      && r.predicateApiKey == key && r.sentienceApiKey == key
      && r.useApi == (if o.useApi.None? then Some(true) else o.useApi)
      && r.(predicateApiKey := o.predicateApiKey, sentienceApiKey := o.sentienceApiKey, useApi := o.useApi) == o
  {
    if key.Some? && key.value != "" then
      o.(predicateApiKey := key, sentienceApiKey := key,
         useApi := if o.useApi.None? then Some(true) else o.useApi)
    else o
  }

  /** Key defaulting never breaks the field bounds. */
  lemma WithApiKeyValid(o: SnapshotOptions, key: Option<string>)
    requires ValidSnapshotOptions(o)
    ensures ValidSnapshotOptions(WithApiKey(o, key))
  {
  }

  /** Python's `a or b` on optional strings: the first non-empty one, else `b`. */
  function OrStr(a: Option<string>, b: Option<string>): Option<string> {
    if a.Some? && a.value != "" then a else b
  }
}
