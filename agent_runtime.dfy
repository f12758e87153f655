/**
 * The step and assertion bookkeeping of `AgentRuntime`: step numbering,
 * the per-step list of assertion records, the `task_done` flag, the CAPTCHA
 * retry counter, and the text normalisation of `evaluate_js`. Predicates are
 * evaluated outside the model: each assertion arrives as its outcome.
 */
module Runtime {
  import opened Wrappers
  import opened Text
  import opened Json
  import opened Models
  import opened Captcha
  import opened CaptchaGate

  /** What a predicate returns: whether it passed and an optional reason. */
  datatype AssertOutcome = AssertOutcome(passed: bool, reason: Option<string>)

  /** One entry of `_assertions_this_step` (the `details` dictionary is not modelled). */
  datatype AssertionRecord = AssertionRecord(title: string, passed: bool, required: bool, reason: string)

  /** Whether every record of the step passed; true for no records. */
  function AllPassed(rs: seq<AssertionRecord>): (r: bool)
    ensures r <==> forall i :: 0 <= i < |rs| ==> rs[i].passed
  {
    if rs == [] then true else rs[0].passed && AllPassed(rs[1..])
  }

  /** Whether every required record of the step passed; optional records are ignored. */
  function RequiredPassed(rs: seq<AssertionRecord>): (r: bool)
    ensures r <==> forall i :: 0 <= i < |rs| && rs[i].required ==> rs[i].passed
  {
    if rs == [] then true else (!rs[0].required || rs[0].passed) && RequiredPassed(rs[1..])
  }

  /** When every assertion passed, so did every required one; both hold vacuously for no records. */
  lemma AllPassedImpliesRequired(rs: seq<AssertionRecord>)
    ensures AllPassed(rs) ==> RequiredPassed(rs)
    ensures AllPassed([]) && RequiredPassed([])
  {
  }

  /** An optional assertion that fails does not affect whether the required ones passed. */
  lemma OptionalFailureKeepsRequired(rs: seq<AssertionRecord>, rec: AssertionRecord)
    requires !rec.required
    ensures RequiredPassed(rs + [rec]) == RequiredPassed(rs)
    ensures AllPassed(rs + [rec]) == (AllPassed(rs) && rec.passed)
  {
    assert forall i :: 0 <= i < |rs| ==> (rs + [rec])[i] == rs[i];
    assert (rs + [rec])[|rs|] == rec;
  }

  /** The step id: the prefix "step-" and the decimal index. */
  function StepId(index: int): (id: string)
    ensures |id| > 5 && id[..5] == "step-"
  {
    "step-" + IntToString(index)
  }

  /** Distinct step indexes give distinct step ids, and the id gives back its index. */
  lemma StepIdInjective(i: int, j: int)
    ensures StepId(i) == StepId(j) <==> i == j
  {
    if StepId(i) == StepId(j) {
      assert IntToString(i) == StepId(i)[5..];
      assert IntToString(j) == StepId(j)[5..];
      IntToStringInjective(i, j);
    }
  }

  /** The first automatically numbered step is "step-0". */
  lemma FirstStepId()
    ensures StepId(-1 + 1) == "step-0"
  {
  }

  /** The record `_record_outcome` builds: `reason` is `str(outcome.reason or "")`. */
  function RecordOf(outcome: AssertOutcome, title: string, required: bool): (rec: AssertionRecord)
    ensures rec.title == title && rec.passed == outcome.passed && rec.required == required
    ensures rec.reason == "" <==> outcome.reason.None? || outcome.reason.value == ""
  {
    AssertionRecord(title, outcome.passed, required,
      if outcome.reason.Some? then outcome.reason.value else "")
  }

  const ASSERT_FAILED_PREFIX: string := "assert_failed:"

  /**
   * The reason `assert_` persists the failure artifacts under: only a
   * required assertion that failed asks for it, and its label can be read
   * back after the prefix.
   */
  function AssertFailureReason(outcome: AssertOutcome, title: string, required: bool): (reason: Option<string>)
    ensures reason.Some? <==> required && !outcome.passed
    ensures reason.Some? ==>
      |reason.value| == |ASSERT_FAILED_PREFIX| + |title|
      && reason.value[..|ASSERT_FAILED_PREFIX|] == ASSERT_FAILED_PREFIX
      && reason.value[|ASSERT_FAILED_PREFIX|..] == title
  {
    if required && !outcome.passed then Some(ASSERT_FAILED_PREFIX + title) else None
  }

  /** What `get_assertions_for_step_end` returns; the `task_done` keys are present only when the flag is set. */
  datatype StepEndSignals = StepEndSignals(
    assertions: seq<AssertionRecord>,
    taskDone: Option<bool>,
    taskDoneLabel: Option<Option<string>>)

  /** What the runtime does after a detected CAPTCHA has been handled. */
  datatype CaptchaOutcome = NoCaptcha | Handled(step: CaptchaStep)

  /** The handler's reply: a resolution, or an exception. */
  datatype HandlerReply = Replied(resolution: CaptchaResolution) | HandlerRaised

  /**
   * The state `begin_step` resets: the pre-step snapshot and url, the goal,
   * and what is known about the last action.
   */
  datatype StepState = StepState(
    preSnapshot: Option<Snapshot>,
    preUrl: Option<string>,
    goal: Option<string>,
    lastAction: Option<string>,
    lastActionError: Option<string>,
    lastActionOutcome: Option<string>,
    lastActionDurationMs: Option<int>,
    lastActionSuccess: Option<bool>)

  /** The step state right after `begin_step(goal)`, or after construction with no goal. */
  function FreshStepState(goal: Option<string>): (st: StepState)
    ensures st.preSnapshot.None? && st.preUrl.None? && st.goal == goal
    ensures st.lastAction.None? && st.lastActionError.None? && st.lastActionOutcome.None?
    ensures st.lastActionDurationMs.None? && st.lastActionSuccess.None?
  {
    StepState(None, None, goal, None, None, None, None, None)
  }

  /**
   * The resolution `_handle_captcha_if_needed` goes on to apply once a CAPTCHA
   * is detected: the handler's reply under the callback policy (none when
   * there is no handler or it raised), and `abort` under the abort policy.
   */
  function AppliedResolution(opts: CaptchaOptions, reply: HandlerReply): (res: Option<CaptchaResolution>)
    ensures opts.policy == PolicyAbort ==> res == Some(Resolution(ActionAbort))
    ensures opts.policy == PolicyCallback ==> (res.Some? <==> opts.hasHandler && reply.Replied?)
    ensures opts.policy == PolicyCallback && res.Some? ==> res.value == reply.resolution
  {
    if opts.policy == PolicyCallback then
      if opts.hasHandler && reply.Replied? then Some(reply.resolution) else None
    else Some(Resolution(ActionAbort))
  }

  /** Whether an applied resolution asks for a new session. */
  predicate RetriesNewSession(res: Option<CaptchaResolution>)
  {
    res.Some? && res.value.action == RetryNewSession
  }

  class AgentRuntime {
    const snapshotOptions: SnapshotOptions
    var stepId: Option<string>
    var stepIndex: int
    var lastSnapshot: Option<Snapshot>
    var step: StepState
    var assertions: seq<AssertionRecord>
    var taskDone: bool
    var taskDoneLabel: Option<string>
    var captchaOptions: Option<CaptchaOptions>
    var captchaRetryCount: int

    /** The step fields (`step_id`, `step_index`, `last_snapshot` and the step state) are as before. */
    twostate predicate StepKept()
      reads this
    {
      stepId == old(stepId) && stepIndex == old(stepIndex) && lastSnapshot == old(lastSnapshot) && step == old(step)
    }

    /** The `task_done` flag and its label are as before. */
    twostate predicate TaskKept()
      reads this
    {
      taskDone == old(taskDone) && taskDoneLabel == old(taskDoneLabel)
    }

    /** The CAPTCHA options and the retry count are as before. */
    twostate predicate CaptchaKept()
      reads this
    {
      captchaOptions == old(captchaOptions) && captchaRetryCount == old(captchaRetryCount)
    }

    /**
     * `AgentRuntime(backend, tracer, snapshot_options, predicate_api_key,
     * sentience_api_key)`: the canonical key wins over the legacy one, and a
     * non-empty key is stored under both names and turns an unset `use_api` on.
     */
    constructor (options: Option<SnapshotOptions>, predicateApiKey: Option<string>, sentienceApiKey: Option<string>)
      ensures snapshotOptions == WithApiKey(options.GetOr(DefaultSnapshotOptions()), OrStr(predicateApiKey, sentienceApiKey))
      ensures stepId.None? && stepIndex == -1
      ensures lastSnapshot.None? && step == FreshStepState(None)
      ensures assertions == [] && !taskDone && taskDoneLabel.None?
      ensures captchaOptions.None? && captchaRetryCount == 0
    {
      snapshotOptions := WithApiKey(options.GetOr(DefaultSnapshotOptions()), OrStr(predicateApiKey, sentienceApiKey));
      stepId := None;
      stepIndex := -1;
      lastSnapshot := None;
      step := FreshStepState(None);
      assertions := [];
      taskDone := false;
      taskDoneLabel := None;
      captchaOptions := None;
      captchaRetryCount := 0;
    }

    /**
     * `begin_step(goal, step_index)`: clears the previous step's state, takes
     * the given index or the next one, and names the step after it.
     */
    method BeginStep(goal: string, index: Option<int>) returns (id: string)
      modifies this
      ensures stepIndex == (if index.Some? then index.value else old(stepIndex) + 1)
      ensures id == StepId(stepIndex) && stepId == Some(id)
      ensures assertions == [] && step == FreshStepState(Some(goal))
      ensures lastSnapshot == old(lastSnapshot)
      ensures taskDone == old(taskDone) && taskDoneLabel == old(taskDoneLabel)
      ensures captchaOptions == old(captchaOptions) && captchaRetryCount == old(captchaRetryCount)
    {
      assertions := [];
      step := FreshStepState(Some(goal));
      if index.Some? {
        stepIndex := index.value;
      } else {
        stepIndex := stepIndex + 1;
      }
      id := StepId(stepIndex);
      stepId := Some(id);
    }

    /**
     * `_record_outcome(...)`: exactly one record is appended when it is to
     * be kept for the step, and none otherwise (tracer events are not modelled).
     */
    method RecordOutcome(outcome: AssertOutcome, title: string, required: bool, recordInStep: bool)
      modifies this
      ensures assertions == old(assertions) + (if recordInStep then [RecordOf(outcome, title, required)] else [])
      ensures StepKept() && TaskKept() && CaptchaKept()
    {
      if recordInStep {
        assertions := assertions + [RecordOf(outcome, title, required)];
      }
    }

    /**
     * `assert_(predicate, label, required)`: records the outcome for the step
     * and returns whether it passed, together with the reason it asks the
     * failure-artifact buffer to persist under, if any.
     */
    method Assert(outcome: AssertOutcome, title: string, required: bool) returns (passed: bool, persist: Option<string>)
      modifies this
      ensures passed == outcome.passed
      ensures persist == AssertFailureReason(outcome, title, required)
      ensures assertions == old(assertions) + [RecordOf(outcome, title, required)]
      ensures StepKept() && TaskKept() && CaptchaKept()
    {
      RecordOutcome(outcome, title, required, true);
      persist := None;
      if required && !outcome.passed {
        persist := Some(ASSERT_FAILED_PREFIX + title);
      }
      passed := outcome.passed;
    }

    /**
     * `assert_done(predicate, label)`: a required assertion that sets the
     * `task_done` flag only when it passes, and asks for the failure artifacts
     * to be persisted exactly when it fails.
     */
    method AssertDone(outcome: AssertOutcome, title: string) returns (ok: bool, persist: Option<string>)
      modifies this
      ensures ok == outcome.passed
      ensures persist.Some? <==> !ok
      ensures persist == AssertFailureReason(outcome, title, true)
      ensures assertions == old(assertions) + [RecordOf(outcome, title, true)]
      ensures ok ==> taskDone && taskDoneLabel == Some(title)
      ensures !ok ==> TaskKept()
      ensures StepKept() && CaptchaKept()
    {
      ok, persist := Assert(outcome, title, true);
      if ok {
        taskDone := true;
        taskDoneLabel := Some(title);
      }
    }

    /** `get_assertions_for_step_end()`: a copy of the records, plus the `task_done` keys when the flag is set. */
    method GetAssertionsForStepEnd() returns (r: StepEndSignals)
      ensures r.assertions == assertions
      ensures r.taskDone.Some? <==> taskDone
      ensures taskDone ==> r.taskDone == Some(true) && r.taskDoneLabel == Some(taskDoneLabel)
      ensures !taskDone ==> r.taskDoneLabel.None?
    {
      if taskDone {
        r := StepEndSignals(assertions, Some(true), Some(taskDoneLabel));
      } else {
        r := StepEndSignals(assertions, None, None);
      }
    }

    /** `flush_assertions()`: returns the records and empties the list. */
    method FlushAssertions() returns (r: seq<AssertionRecord>)
      modifies this
      ensures r == old(assertions) && assertions == []
      ensures StepKept() && TaskKept() && CaptchaKept()
    {
      r := assertions;
      assertions := [];
    }

    /** `reset_task_done()` */
    method ResetTaskDone()
      modifies this
      ensures !taskDone && taskDoneLabel.None?
      ensures assertions == old(assertions) && StepKept() && CaptchaKept()
    {
      taskDone := false;
      taskDoneLabel := None;
    }

    /** `all_assertions_passed()` */
    predicate AllAssertionsPassed()
      reads this
    {
      AllPassed(assertions)
    }

    /** `required_assertions_passed()` */
    predicate RequiredAssertionsPassed()
      reads this
    {
      RequiredPassed(assertions)
    }

    /** `set_captcha_options(options)`: installs the options and restarts the retry count. */
    method SetCaptchaOptions(opts: CaptchaOptions)
      modifies this
      ensures captchaOptions == Some(opts) && captchaRetryCount == 0
      ensures assertions == old(assertions) && StepKept() && TaskKept()
    {
      captchaOptions := Some(opts);
      captchaRetryCount := 0;
    }

    /**
     * `_apply_captcha_resolution(resolution)`: a `retry_new_session`
     * resolution counts one more retry before the decision is taken.
     */
    method ApplyCaptchaResolution(res: CaptchaResolution) returns (step: CaptchaStep)
      requires captchaOptions.Some?
      modifies this
      ensures captchaOptions == old(captchaOptions) && assertions == old(assertions)
      ensures StepKept() && TaskKept()
      ensures captchaRetryCount == old(captchaRetryCount) + (if res.action == RetryNewSession then 1 else 0)
      ensures step == ResolutionStep(res, captchaOptions.value, captchaRetryCount)
    {
      var count := captchaRetryCount + (if res.action == RetryNewSession then 1 else 0);
      step := ResolutionStep(res, captchaOptions.value, count);
      captchaRetryCount := count;
    }

    /**
     * `_handle_captcha_if_needed(snapshot)`: nothing happens unless the gate
     * blocks; the callback policy needs a handler and turns its failure into
     * `captcha_handler_error`; the abort policy resolves to `abort`.
     */
    method HandleCaptchaIfNeeded(snap: Snapshot, reply: HandlerReply) returns (r: CaptchaOutcome)
      modifies this
      ensures captchaOptions == old(captchaOptions)
      ensures r == NoCaptcha <==> !IsCaptchaDetected(captchaOptions, snap)
      ensures r.Handled? ==> captchaOptions.Some?
      ensures r.Handled? && captchaOptions.value.policy == PolicyAbort ==>
        r.step.Fail? && r.step.error.reasonCode == PolicyAbortCode
      ensures r.Handled? && captchaOptions.value.policy == PolicyCallback && !captchaOptions.value.hasHandler ==>
        r == Handled(Fail(CaptchaHandlingError(HandlerError, "Captcha handler is required for policy=\"callback\".")))
      ensures r.Handled? && captchaOptions.value.policy == PolicyCallback && captchaOptions.value.hasHandler && reply.HandlerRaised? ==>
        r == Handled(Fail(CaptchaHandlingError(HandlerError, "Captcha handler failed.")))
      ensures r.Handled? && AppliedResolution(captchaOptions.value, reply).Some? ==>
        r == Handled(ResolutionStep(AppliedResolution(captchaOptions.value, reply).value, captchaOptions.value, captchaRetryCount))
      ensures captchaRetryCount == old(captchaRetryCount) +
        (if r.Handled? && RetriesNewSession(AppliedResolution(captchaOptions.value, reply)) then 1 else 0)
      ensures assertions == old(assertions) && StepKept() && TaskKept()
    {
      if !IsCaptchaDetected(captchaOptions, snap) {
        return NoCaptcha;
      }
      var opts := captchaOptions.value;
      var res: CaptchaResolution;
      if opts.policy == PolicyCallback {
        if !opts.hasHandler {
          return Handled(Fail(CaptchaHandlingError(HandlerError, "Captcha handler is required for policy=\"callback\".")));
        }
        if reply.HandlerRaised? {
          return Handled(Fail(CaptchaHandlingError(HandlerError, "Captcha handler failed.")));
        }
        res := reply.resolution;
      } else {
        res := Resolution(ActionAbort);
      }
      var decided := ApplyCaptchaResolution(res);
      r := Handled(decided);
    }
  }

  /**
   * After `set_captcha_options`, the n-th consecutive `retry_new_session`
   * resolution resets the session while n is within the allowed retries (and
   * a reset hook is configured), and is reported as exhausted once n exceeds them.
   */
  lemma RetryBudget(opts: CaptchaOptions, n: int)
    requires n >= 1 && opts.hasResetSession
    ensures ResolutionStep(Resolution(RetryNewSession), opts, 0 + n) == ResetSession <==> n <= opts.maxRetriesNewSession
    ensures ResolutionStep(Resolution(RetryNewSession), opts, 0 + n).Fail? <==> n > opts.maxRetriesNewSession
  {
  }

  // ---------------------------------------------------------------------------
  // evaluate_js

  /**
   * `_stringify_eval_value(value)`: `None` is "null", containers go through
   * `json.dumps` (a parameter here), everything else through `str`.
   */
  function StringifyEvalValue(v: Json, dumps: Json -> string): (text: string)
    ensures v == JNull ==> text == "null"
    ensures v.JStr? ==> text == v.s
    ensures v.JInt? ==> ParseInt(text) == v.i
    ensures v.JBool? ==> text == (if v.b then "True" else "False")
  {
    match v
    case JNull => "null"
    case JList(_) => dumps(v)
    case JObj(_) => dumps(v)
    case JInt(i) => ParseIntToString(i); IntToString(i)
    case _ => PyStr(v)
  }

  /** Python's `s[:n]`, where a negative `n` counts from the end. */
  function SliceTo(s: string, n: int): (r: string)
    ensures r <= s
    ensures n >= 0 ==> |r| == (if n < |s| then n else |s|)
    ensures n < 0 ==> |r| == (if -n < |s| then |s| + n else 0)
  {
    if n >= 0 then Take(s, n) else if -n < |s| then s[..|s| + n] else ""
  }

  /**
   * The truncation of `evaluate_js`: a text longer than `max_output_chars`
   * is cut to that many characters and marked with "...".
   */
  function TruncateOutput(text: string, truncate: bool, maxChars: int): (r: (string, bool))
    ensures r.1 <==> truncate && |text| > maxChars
    ensures !r.1 ==> r.0 == text
    ensures r.1 && maxChars >= 0 ==> |r.0| == maxChars + 3 && r.0 == text[..maxChars] + "..."
  {
    if truncate && |text| > maxChars then (SliceTo(text, maxChars) + "...", true) else (text, false)
  }

  /** Truncated output keeps a prefix of the text and never exceeds the limit by more than the marker. */
  lemma TruncatedIsPrefix(text: string, maxChars: nat)
    ensures TruncateOutput(text, true, maxChars).0[..if |text| < maxChars then |text| else maxChars] ==
            text[..if |text| < maxChars then |text| else maxChars]
    ensures |TruncateOutput(text, true, maxChars).0| <= maxChars + 3
  {
  }
}
