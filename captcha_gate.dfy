/**
 * `AgentRuntime._is_captcha_detected`: whether a snapshot's CAPTCHA
 * diagnostics should block the agent, and the decision part of
 * `_apply_captcha_resolution`. Evidence lists are compared after
 * lower-casing; confidences are reals compared with `>=`.
 */
module CaptchaGate {
  import opened Wrappers
  import opened Text
  import opened Models
  import opened Captcha

  const STRONG_TEXT: seq<string> := [
    "i'm not a robot",
    "verify you are human",
    "human verification",
    "complete the security check",
    "please verify"
  ]

  const STRONG_IFRAME: seq<string> := ["api2/bframe", "hcaptcha", "turnstile"]

  const STRONG_SELECTOR: seq<string> := [
    "g-recaptcha-response",
    "h-captcha-response",
    "cf-turnstile-response",
    "recaptcha-checkbox",
    "hcaptcha-checkbox"
  ]

  /** The entries of an evidence list that are present, in order. */
  function Present(xs: seq<Option<string>>): (hs: seq<string>)
    ensures |hs| <= |xs|
    ensures forall h :: h in hs <==> Some(h) in xs
  {
    if xs == [] then []
    else if xs[0].Some? then [xs[0].value] + Present(xs[1..])
    else Present(xs[1..])
  }

  /** The non-empty hits, lower-cased, in order. */
  function LowerHits(hs: seq<string>): (ls: seq<string>)
    ensures |ls| <= |hs|
    ensures forall h :: h in hs && h != "" ==> Lower(h) in ls
  {
    if hs == [] then []
    else if hs[0] != "" then [Lower(hs[0])] + LowerHits(hs[1..])
    else LowerHits(hs[1..])
  }

  /** Some hit contains some marker. */
  predicate AnyHitHas(ls: seq<string>, markers: seq<string>) {
    exists h, m :: h in ls && m in markers && Contains(h, m)
  }

  /** The hits, lower-cased, of all four lists in the order the source concatenates them. */
  function AllHits(ev: CaptchaEvidence): seq<string> {
    LowerHits(Present(ev.iframeSrcHits) + Present(ev.urlHits) + Present(ev.textHits) + Present(ev.selectorHits))
  }

  /** Only iframe, url and text hits count as evidence of an active challenge. */
  predicate HasPrimaryHits(ev: CaptchaEvidence) {
    Present(ev.iframeSrcHits) != [] || Present(ev.urlHits) != [] || Present(ev.textHits) != []
  }

  /** Every hit mentions "captcha" and none carries a marker of an interactive challenge. */
  predicate OnlyGeneric(ls: seq<string>) {
    && !(exists m :: m in STRONG_TEXT && Contains(Join(ls, " "), m))
    && !AnyHitHas(ls, STRONG_IFRAME)
    && !AnyHitHas(ls, STRONG_SELECTOR)
    && (forall h :: h in ls ==> Contains(h, "captcha") || Contains(h, "recaptcha"))
  }

  /** Evidence, when reported, must show an active challenge. */
  predicate EvidenceBlocks(ev: Option<CaptchaEvidence>) {
    ev.None? || (HasPrimaryHits(ev.value) && !OnlyGeneric(AllHits(ev.value)))
  }

  function CaptchaOf(snap: Snapshot): Option<CaptchaDiagnostics> {
    if snap.diagnostics.Some? then snap.diagnostics.value.captcha else None
  }

  /**
   * `_is_captcha_detected(snapshot)`: options must be set, the CAPTCHA
   * detected, the evidence (if any) must show an active challenge, and the
   * confidence must reach the configured minimum.
   */
  function IsCaptchaDetected(opts: Option<CaptchaOptions>, snap: Snapshot): (r: bool)
    ensures r <==>
      && opts.Some?
      && CaptchaOf(snap).Some? && CaptchaOf(snap).value.detected
      && EvidenceBlocks(CaptchaOf(snap).value.evidence)
      && CaptchaOf(snap).value.confidence >= opts.value.minConfidence
  {
    if opts.None? then false
    else
      var captcha := CaptchaOf(snap);
      if captcha.None? || !captcha.value.detected then false
      else if captcha.value.evidence.Some? && !HasPrimaryHits(captcha.value.evidence.value) then false
      else if captcha.value.evidence.Some? && OnlyGeneric(AllHits(captcha.value.evidence.value)) then false
      else captcha.value.confidence >= opts.value.minConfidence
  }

  /** A lower-cased hit of the iframe list is among all the hits. */
  lemma IframeHitIncluded(ev: CaptchaEvidence, h: string)
    requires Some(h) in ev.iframeSrcHits && h != ""
    ensures Lower(h) in AllHits(ev)
  {
    var hs := Present(ev.iframeSrcHits) + Present(ev.urlHits) + Present(ev.textHits) + Present(ev.selectorHits);
    assert h in Present(ev.iframeSrcHits);
    assert h in hs;
  }

  /**
   * An iframe hit naming an interactive challenge (`hcaptcha`, `turnstile`,
   * `api2/bframe`, in any letter case) blocks as soon as the confidence
   * reaches the minimum.
   */
  lemma StrongIframeBlocks(opts: CaptchaOptions, snap: Snapshot, h: string, m: string)
    requires CaptchaOf(snap).Some? && CaptchaOf(snap).value.detected
    requires CaptchaOf(snap).value.evidence.Some?
    requires Some(h) in CaptchaOf(snap).value.evidence.value.iframeSrcHits
    requires m in STRONG_IFRAME && Contains(Lower(h), m)
    requires CaptchaOf(snap).value.confidence >= opts.minConfidence
    ensures IsCaptchaDetected(Some(opts), snap)
  {
    var ev := CaptchaOf(snap).value.evidence.value;
    assert h != "";
    IframeHitIncluded(ev, h);
    assert h in Present(ev.iframeSrcHits);
  }

  /** Selector or script hints alone never block. */
  lemma SelectorOnlyNeverBlocks(opts: Option<CaptchaOptions>, snap: Snapshot)
    requires CaptchaOf(snap).Some? && CaptchaOf(snap).value.evidence.Some?
    requires forall x :: x in CaptchaOf(snap).value.evidence.value.iframeSrcHits ==> x.None?
    requires forall x :: x in CaptchaOf(snap).value.evidence.value.urlHits ==> x.None?
    requires forall x :: x in CaptchaOf(snap).value.evidence.value.textHits ==> x.None?
    ensures !IsCaptchaDetected(opts, snap)
  {
    var ev := CaptchaOf(snap).value.evidence.value;
    NoneOnly(ev.iframeSrcHits);
    NoneOnly(ev.urlHits);
    NoneOnly(ev.textHits);
  }

  lemma NoneOnly(xs: seq<Option<string>>)
    requires forall x :: x in xs ==> x.None?
    ensures Present(xs) == []
  {
  }

  /** A higher confidence never turns a blocking detection into a non-blocking one. */
  lemma ConfidenceMonotone(opts: Option<CaptchaOptions>, snap: Snapshot, c: real)
    requires CaptchaOf(snap).Some? && c >= CaptchaOf(snap).value.confidence
    requires IsCaptchaDetected(opts, snap)
    ensures IsCaptchaDetected(opts, snap.(diagnostics := Some(snap.diagnostics.value.(
      captcha := Some(CaptchaOf(snap).value.(confidence := c))))))
  {
  }

  // ---------------------------------------------------------------------------
  // _apply_captcha_resolution

  /** What resolving a detected CAPTCHA leads to. */
  datatype CaptchaStep =
    | Fail(error: CaptchaHandlingError)
    | ResetSession
    | WaitUntilClearedFor(timeoutMs: int, pollMs: int)

  /** Python's `a or b` for an optional integer: `None` and `0` fall back. */
  function OrInt(a: Option<int>, b: int): int {
    if a.Some? && a.value != 0 then a.value else b
  }

  /**
   * The decision of `_apply_captcha_resolution` given the retry count after
   * its increment: `abort` fails with the resolution's message or a default,
   * `retry_new_session` fails once the count exceeds the allowed retries or
   * when no reset hook is configured and resets the session otherwise, and
   * `wait_until_cleared` waits with the resolution's timings or the options'.
   */
  function ResolutionStep(res: CaptchaResolution, opts: CaptchaOptions, countAfter: int): (s: CaptchaStep)
    ensures res.action == ActionAbort ==> s.Fail? && s.error.reasonCode == PolicyAbortCode
    ensures res.action == RetryNewSession ==>
      (s == Fail(CaptchaHandlingError(RetryExhausted, "Captcha retry_new_session exhausted.")) <==>
         countAfter > opts.maxRetriesNewSession)
    ensures res.action == RetryNewSession ==>
      (s == ResetSession <==> countAfter <= opts.maxRetriesNewSession && opts.hasResetSession)
    ensures res.action == WaitUntilCleared ==> s.WaitUntilClearedFor?
  {
    match res.action
    case ActionAbort =>
      Fail(CaptchaHandlingError(PolicyAbortCode,
        if res.message.Some? && res.message.value != "" then res.message.value
        else "Captcha detected. Aborting per policy."))
    case RetryNewSession =>
      if countAfter > opts.maxRetriesNewSession then
        Fail(CaptchaHandlingError(RetryExhausted, "Captcha retry_new_session exhausted."))
      else if !opts.hasResetSession then
        Fail(CaptchaHandlingError(RetryNewSessionCode, "reset_session callback is required for retry_new_session."))
      else ResetSession
    case WaitUntilCleared =>
      WaitUntilClearedFor(OrInt(res.timeoutMs, opts.timeoutMs), OrInt(res.pollMs, opts.pollMs))
  }

  /** Unset or zero timings in the resolution fall back to the options' timings. */
  lemma WaitTimingsDefault(opts: CaptchaOptions, c: int)
    ensures ResolutionStep(Resolution(WaitUntilCleared), opts, c) == WaitUntilClearedFor(opts.timeoutMs, opts.pollMs)
    ensures ResolutionStep(CaptchaResolution(WaitUntilCleared, None, None, Some(0), Some(0)), opts, c) ==
      WaitUntilClearedFor(opts.timeoutMs, opts.pollMs)
  {
  }
}
