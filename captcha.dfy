/**
 * CAPTCHA handling configuration: the policy, the actions a handler may
 * return, and the options with their defaults. Handlers and the session
 * reset hook are callables; the model keeps only whether each is present.
 */
module Captcha {
  import opened Wrappers

  /** `Literal["abort", "callback"]` */
  datatype CaptchaPolicy = PolicyAbort | PolicyCallback

  /** `Literal["abort", "retry_new_session", "wait_until_cleared"]` */
  datatype CaptchaAction = ActionAbort | RetryNewSession | WaitUntilCleared

  datatype HandledBy = Human | CustomerSystem | Unknown

  datatype CaptchaResolution = CaptchaResolution(
    action: CaptchaAction,
    message: Option<string>,
    handledBy: Option<HandledBy>,
    timeoutMs: Option<int>,
    pollMs: Option<int>)

  /** `CaptchaResolution(action=...)` with every optional field unset. */
  function Resolution(action: CaptchaAction): (r: CaptchaResolution)
    ensures r.action == action && r.message.None? && r.handledBy.None?
    ensures r.timeoutMs.None? && r.pollMs.None?
  {
    CaptchaResolution(action, None, None, None, None)
  }

  const DEFAULT_MIN_CONFIDENCE: real := 0.7
  const DEFAULT_TIMEOUT_MS := 120000
  const DEFAULT_POLL_MS := 1000

  datatype CaptchaOptions = CaptchaOptions(
    policy: CaptchaPolicy,
    minConfidence: real,
    timeoutMs: int,
    pollMs: int,
    maxRetriesNewSession: int,
    hasHandler: bool,
    hasResetSession: bool)

  /** `CaptchaOptions()` */
  function DefaultCaptchaOptions(): (o: CaptchaOptions)
    ensures o.policy == PolicyAbort && o.minConfidence == DEFAULT_MIN_CONFIDENCE
    ensures o.timeoutMs == DEFAULT_TIMEOUT_MS && o.pollMs == DEFAULT_POLL_MS
    ensures o.maxRetriesNewSession == 1 && !o.hasHandler && !o.hasResetSession
  {
    CaptchaOptions(PolicyAbort, DEFAULT_MIN_CONFIDENCE, DEFAULT_TIMEOUT_MS, DEFAULT_POLL_MS, 1, false, false)
  }

  /** `CaptchaHandlingError.reason_code` values. */
  datatype ReasonCode =
    | HandlerError
    | PolicyAbortCode
    | RetryExhausted
    | RetryNewSessionCode
    | WaitTimeout

  function ReasonCodeName(c: ReasonCode): string {
    match c
    case HandlerError => "captcha_handler_error"
    case PolicyAbortCode => "captcha_policy_abort"
    case RetryExhausted => "captcha_retry_exhausted"
    case RetryNewSessionCode => "captcha_retry_new_session"
    case WaitTimeout => "captcha_wait_timeout"
  }

  /** `CaptchaHandlingError(reason_code, message)` */
  datatype CaptchaHandlingError = CaptchaHandlingError(reasonCode: ReasonCode, message: string)
}
