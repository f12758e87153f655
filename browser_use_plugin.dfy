/**
 * The Browser Use plugin: binding a browser session to an `AgentRuntime`
 * with retries, the snapshot options it hands to that runtime, the
 * step-start and step-end hooks with their automatic checks and failure
 * policy, `wrap_step`'s ordering of the hooks, and bounded snapshot
 * summaries. A browser session is identified by a number (Python compares
 * sessions by identity); backend creation, the checks' predicates and the
 * agent's `pause` callback are parameters standing for what they did.
 */
module BrowserUsePlugin {
  import opened Wrappers
  import opened Text
  import opened Models
  import opened Runtime

  datatype FailurePolicy = OnFailureRaise | OnFailurePause | OnFailureLog

  /** `StepCheckSpec` without its predicate and polling parameters. */
  datatype StepCheckSpec = StepCheckSpec(title: string, required: bool, eventually: bool)

  /** `PredicateBrowserUsePluginConfig` without the tracer, run id and extension wait. */
  datatype PluginConfig = PluginConfig(
    predicateApiKey: Option<string>,
    useApi: Option<bool>,
    bindRetries: int,
    snapshotOptions: SnapshotOptions,
    autoSnapshot: bool,
    autoChecks: bool,
    checks: seq<StepCheckSpec>,
    onFailure: FailurePolicy)

  function DefaultPluginConfig(): (c: PluginConfig)
    ensures c.predicateApiKey.None? && c.useApi.None? && c.bindRetries == 1
    ensures c.snapshotOptions == DefaultSnapshotOptions()
    ensures c.autoSnapshot && c.autoChecks && c.checks == [] && c.onFailure == OnFailureRaise
  {
    PluginConfig(None, None, 1, DefaultSnapshotOptions(), true, true, [], OnFailureRaise)
  }

  // ---------------------------------------------------------------------------
  // _effective_snapshot_options

  /**
   * A copy of the configured options: a non-empty plugin key is written to
   * both key fields and turns an unset `use_api` on, and an explicit
   * `use_api` in the plugin configuration overrides whatever results.
   * Nothing else differs from the configured options.
   */
  function EffectiveSnapshotOptions(cfg: PluginConfig): (r: SnapshotOptions)
    ensures var key := cfg.predicateApiKey;
      && (key.Some? && key.value != "" ==> r.predicateApiKey == key && r.sentienceApiKey == key)
      && (key.None? || key.value == "" ==>
            r.predicateApiKey == cfg.snapshotOptions.predicateApiKey
            && r.sentienceApiKey == cfg.snapshotOptions.sentienceApiKey)
      && r.useApi == (if cfg.useApi.Some? then cfg.useApi
                      else if key.Some? && key.value != "" && cfg.snapshotOptions.useApi.None? then Some(true)
                      else cfg.snapshotOptions.useApi)
    ensures r.(predicateApiKey := cfg.snapshotOptions.predicateApiKey,
               sentienceApiKey := cfg.snapshotOptions.sentienceApiKey,
               useApi := cfg.snapshotOptions.useApi) == cfg.snapshotOptions
  {
    var effective := WithApiKey(cfg.snapshotOptions, cfg.predicateApiKey);
    if cfg.useApi.Some? then effective.(useApi := cfg.useApi) else effective
  }

  /**
   * The runtime the plugin builds applies the plugin key a second time; the
   * options it ends up with are exactly the effective options.
   */
  lemma RuntimeKeepsEffectiveOptions(cfg: PluginConfig)
    ensures WithApiKey(EffectiveSnapshotOptions(cfg), OrStr(cfg.predicateApiKey, None)) == EffectiveSnapshotOptions(cfg)
  {
    var e := EffectiveSnapshotOptions(cfg);
    if cfg.predicateApiKey.Some? && cfg.predicateApiKey.value != "" {
      assert e.useApi.Some?;
      assert e.(predicateApiKey := cfg.predicateApiKey, sentienceApiKey := cfg.predicateApiKey) == e;
    }
  }

  /** The effective options satisfy the field bounds whenever the configured ones do. */
  lemma EffectiveOptionsValid(cfg: PluginConfig)
    requires ValidSnapshotOptions(cfg.snapshotOptions)
    ensures ValidSnapshotOptions(EffectiveSnapshotOptions(cfg))
  {
    WithApiKeyValid(cfg.snapshotOptions, cfg.predicateApiKey);
  }

  // ---------------------------------------------------------------------------
  // bind: the retry schedule

  /** How the attempts of `bind` ended: connected on some attempt, or every attempt failed. */
  datatype BindLoop =
    | Connected(attempt: nat, sleepsMs: seq<int>)
    | Exhausted(sleepsMs: seq<int>, lastError: string)

  function PrependSleeps(s: seq<int>, o: BindLoop): BindLoop {
    o.(sleepsMs := s + o.sleepsMs)
  }

  /** The sleeps `0.5 * a` seconds, in milliseconds, for `a` from `lo` up to but excluding `hi`. */
  function SleepsFrom(lo: nat, hi: nat): (s: seq<int>)
    ensures |s| == if lo < hi then hi - lo else 0
    ensures forall i :: 0 <= i < |s| ==> s[i] == 500 * (lo + i)
    decreases hi - lo
  {
    if lo >= hi then [] else [500 * lo] + SleepsFrom(lo + 1, hi)
  }

  /** `max(1, int(bind_retries))`: the number of retries after the first attempt. */
  function Retries(bindRetries: int): (n: nat)
    ensures n >= 1 && (bindRetries >= 1 ==> n == bindRetries)
  {
    if bindRetries < 1 then 1 else bindRetries
  }

  /**
   * The attempt loop of `bind` as the source writes it: attempts 0 to n,
   * and after a failed attempt a break guard that compares the attempt with
   * n + 1 (and so never fires), then a sleep of 500 ms times the attempt.
   * `create(a)` is `None` when creating the backend on attempt `a` succeeds
   * and the error's text when it raises.
   */
  function AsWrittenBindLoop(n: nat, create: nat -> Option<string>, attempt: nat, lastError: string): BindLoop
    decreases n + 1 - attempt
  {
    if attempt > n then Exhausted([], lastError)
    else if create(attempt).None? then Connected(attempt, [])
    else if attempt >= n + 1 then Exhausted([], lastError)
    else PrependSleeps([500 * attempt], AsWrittenBindLoop(n, create, attempt + 1, create(attempt).value))
  }

  /**
   * As written, when every attempt fails the loop sleeps once more after the
   * last attempt, just before raising: `n + 1` sleeps for `n + 1` attempts.
   */
  lemma {:induction false} AsWrittenSleepsAfterLastAttempt(n: nat, create: nat -> Option<string>, attempt: nat, e: string)
    requires attempt <= n + 1
    requires forall a :: create(a).Some?
    ensures AsWrittenBindLoop(n, create, attempt, e).Exhausted?
    ensures AsWrittenBindLoop(n, create, attempt, e).sleepsMs == SleepsFrom(attempt, n + 1)
    decreases n + 1 - attempt
  {
    if attempt <= n {
      AsWrittenSleepsAfterLastAttempt(n, create, attempt + 1, create(attempt).value);
    }
  }

  /** With `bind_retries=1` and a backend that never comes up: two attempts, and sleeps of 0 ms and 500 ms. */
  lemma AsWrittenOneRetry(create: nat -> Option<string>)
    requires forall a :: create(a).Some?
    ensures AsWrittenBindLoop(Retries(1), create, 0, "").sleepsMs == [0, 500]
    ensures BindAttempts(Retries(1), create, 0).sleepsMs == [0]
  {
    AsWrittenSleepsAfterLastAttempt(1, create, 0, "");
    BindAttemptsFacts(1, create, 0);
    assert SleepsFrom(0, 2) == [0, 500];
  }

  /**
   * The attempt loop of `bind` as intended: `n + 1` attempts, with a sleep
   * of `0.5 * attempt` seconds between one failed attempt and the next and
   * none after the last.
   */
  function BindAttempts(n: nat, create: nat -> Option<string>, attempt: nat): (r: BindLoop)
    requires attempt <= n
    decreases n - attempt
  {
    if create(attempt).None? then Connected(attempt, [])
    else if attempt >= n then Exhausted([], create(attempt).value)
    else PrependSleeps([500 * attempt], BindAttempts(n, create, attempt + 1))
  }

  /**
   * The loop connects on the first attempt whose backend comes up, after
   * one sleep per failed attempt; when all `n + 1` attempts fail it reports
   * the last error after `n` sleeps, so none follows the last attempt.
   */
  lemma {:induction false} BindAttemptsFacts(n: nat, create: nat -> Option<string>, attempt: nat)
    requires attempt <= n
    ensures var r := BindAttempts(n, create, attempt);
      && (r.Connected? <==> exists a :: attempt <= a <= n && create(a).None?)
      && (r.Connected? ==>
            && attempt <= r.attempt <= n && create(r.attempt).None?
            && (forall a :: attempt <= a < r.attempt ==> create(a).Some?)
            && r.sleepsMs == SleepsFrom(attempt, r.attempt))
      && (r.Exhausted? ==> r.sleepsMs == SleepsFrom(attempt, n) && r.lastError == create(n).value)
    decreases n - attempt
  {
    if create(attempt).None? {
    } else if attempt < n {
      BindAttemptsFacts(n, create, attempt + 1);
      var r := BindAttempts(n, create, attempt + 1);
      if r.Exhausted? {
        forall a | attempt <= a <= n ensures create(a).Some? {
          if a > attempt {
            assert !(attempt + 1 <= a <= n && create(a).None?);
          }
        }
      }
    }
  }

  /** The correction changes nothing when some attempt connects: only the final sleep goes. */
  lemma {:induction false} CorrectionOnlyDropsFinalSleep(n: nat, create: nat -> Option<string>, attempt: nat, e: string)
    requires attempt <= n
    ensures BindAttempts(n, create, attempt).Connected? ==>
      AsWrittenBindLoop(n, create, attempt, e) == BindAttempts(n, create, attempt)
    ensures BindAttempts(n, create, attempt).Exhausted? ==>
      AsWrittenBindLoop(n, create, attempt, e) ==
        Exhausted(BindAttempts(n, create, attempt).sleepsMs + [500 * n], BindAttempts(n, create, attempt).lastError)
    decreases n - attempt
  {
    if create(attempt).Some? {
      if attempt < n {
        CorrectionOnlyDropsFinalSleep(n, create, attempt + 1, create(attempt).value);
      } else {
        assert AsWrittenBindLoop(n, create, attempt + 1, create(attempt).value) == Exhausted([], create(attempt).value);
      }
    }
  }

  /**
   * The attempt loop of `bind`: backend creation is tried on attempts
   * `0..n` until one comes up, sleeping `0.5 * attempt` seconds after each
   * failure that is followed by another attempt.
   */
  method RunBindAttempts(n: nat, create: nat -> Option<string>) returns (loop: BindLoop)
    ensures loop == BindAttempts(n, create, 0)
    ensures loop.Connected? ==> loop == AsWrittenBindLoop(n, create, 0, "")
    ensures loop.Exhausted? ==>
      AsWrittenBindLoop(n, create, 0, "") == Exhausted(loop.sleepsMs + [500 * n], loop.lastError)
  {
    CorrectionOnlyDropsFinalSleep(n, create, 0, "");
    var attempt: nat := 0;
    var sleeps: seq<int> := [];
    while true
      invariant attempt <= n
      invariant BindAttempts(n, create, 0) == PrependSleeps(sleeps, BindAttempts(n, create, attempt))
      decreases n - attempt
    {
      var failure := create(attempt);
      if failure.None? {
        assert sleeps + [] == sleeps;
        return Connected(attempt, sleeps);
      }
      if attempt >= n {
        assert sleeps + [] == sleeps;
        return Exhausted(sleeps, failure.value);
      }
      PrependTwice(sleeps, [500 * attempt], BindAttempts(n, create, attempt + 1));
      sleeps := sleeps + [500 * attempt];
      attempt := attempt + 1;
    }
  }

  lemma PrependTwice(s: seq<int>, t: seq<int>, o: BindLoop)
    ensures PrependSleeps(s, PrependSleeps(t, o)) == PrependSleeps(s + t, o)
  {
    assert s + (t + o.sleepsMs) == (s + t) + o.sleepsMs;
  }

  /** `"Failed to bind PredicateBrowserUsePlugin: {last_err}"` */
  function BindErrorMessage(lastError: string): string {
    "Failed to bind PredicateBrowserUsePlugin: " + lastError
  }

  const NO_SESSION_ERROR := "Browser Use agent has no `browser_session` attribute"

  datatype BindResult =
    | MissingSession
    | AlreadyBound
    | Attempted(loop: BindLoop)

  // ---------------------------------------------------------------------------
  // the hooks' helpers

  /** The agent's task text, or "browser_use_step" without a task, then " @ " and the URL when one is known. */
  function StepGoal(task: Option<string>, url: Option<string>): (g: string)
    ensures var base := if task.Some? then task.value else "browser_use_step";
      && |base| <= |g| && g[..|base|] == base
      && (url.Some? && url.value != "" <==> |g| > |base|)
      && (|g| > |base| ==> g[|base|..] == " @ " + url.value)
  {
    var base := if task.Some? then task.value else "browser_use_step";
    if url.Some? && url.value != "" then base + " @ " + url.value else base
  }

  /** What evaluating one automatic check produced. */
  datatype Raised = Raised(errorType: string, message: string)
  datatype CheckOutcome = CheckReturned(ok: bool) | CheckRaised(error: Raised)

  /** The result recorded for one automatic check: pass flag, reason, label and, for a raised check, the error type. */
  datatype CheckResult = CheckResult(passed: bool, reason: string, title: string, errorType: Option<string>)

  const VERIFICATION_ERROR_TYPE := "PredicateBrowserUseVerificationError"

  /**
   * An error leaving the step-end body. A verification error carries the
   * hook's results list itself, so it also shows the entries appended to
   * that list after it was raised.
   */
  datatype StepError =
    | VerificationError(message: string, results: seq<CheckResult>)
    | OtherError(error: Raised)

  function ErrorText(e: StepError): string {
    match e
    case VerificationError(m, _) => m
    case OtherError(r) => r.message
  }

  datatype ChecksState = ChecksState(results: seq<CheckResult>, err: Option<StepError>)

  /**
   * One automatic check: its result is appended; a required check that
   * returns `False` raises a verification error, which the check's own
   * handler records as a second, failed entry before re-raising; a check
   * that raises is recorded as failed with the error's type and text.
   */
  function RunCheck(results: seq<CheckResult>, spec: StepCheckSpec, outcome: CheckOutcome): (s: ChecksState)
    ensures |s.results| > |results| && s.results[..|results|] == results
    ensures s.err.None? <==> outcome.CheckReturned? && (spec.required ==> outcome.ok)
    ensures s.err.None? ==> s.results == results + [CheckResult(outcome.ok, "", spec.title, None)]
    ensures s.err.Some? ==> !s.results[|s.results| - 1].passed && s.results[|s.results| - 1].errorType.Some?
  {
    match outcome
    case CheckReturned(ok) =>
      var rs := results + [CheckResult(ok, "", spec.title, None)];
      if spec.required && !ok then
        var msg := "Required check failed: " + spec.title;
        var rs2 := rs + [CheckResult(false, msg, spec.title, Some(VERIFICATION_ERROR_TYPE))];
        ChecksState(rs2, Some(VerificationError(msg, rs2)))
      else ChecksState(rs, None)
    case CheckRaised(e) =>
      ChecksState(results + [CheckResult(false, e.message, spec.title, Some(e.errorType))], Some(OtherError(e)))
  }

  /** The checks of `checks` run in order until the first error; `evaluate(i)` is what check `i` produced. */
  function ChecksResult(checks: seq<StepCheckSpec>, evaluate: nat -> CheckOutcome): ChecksState
    decreases |checks|
  {
    if checks == [] then ChecksState([], None)
    else
      var prev := ChecksResult(checks[..|checks| - 1], evaluate);
      if prev.err.Some? then prev
      else RunCheck(prev.results, checks[|checks| - 1], evaluate(|checks| - 1))
  }

  /** Once a check has raised, no later check runs. */
  lemma {:induction false} ChecksStopAtError(checks: seq<StepCheckSpec>, evaluate: nat -> CheckOutcome, k: nat)
    requires k <= |checks|
    requires ChecksResult(checks[..k], evaluate).err.Some?
    ensures ChecksResult(checks, evaluate) == ChecksResult(checks[..k], evaluate)
    decreases |checks| - k
  {
    if k < |checks| {
      var init := checks[..|checks| - 1];
      assert init[..k] == checks[..k];
      ChecksStopAtError(init, evaluate, k);
    } else {
      assert checks[..k] == checks;
    }
  }

  /** No check raising and no required check failing: one entry per check, each with the check's answer. */
  lemma {:induction false} ChecksWithoutFailure(checks: seq<StepCheckSpec>, evaluate: nat -> CheckOutcome)
    requires forall i :: 0 <= i < |checks| ==> evaluate(i).CheckReturned? && (checks[i].required ==> evaluate(i).ok)
    ensures ChecksResult(checks, evaluate).err.None?
    ensures |ChecksResult(checks, evaluate).results| == |checks|
    ensures forall i :: 0 <= i < |checks| ==>
      ChecksResult(checks, evaluate).results[i] == CheckResult(evaluate(i).ok, "", checks[i].title, None)
    decreases |checks|
  {
    if checks != [] {
      var init := checks[..|checks| - 1];
      forall i | 0 <= i < |init| ensures evaluate(i).CheckReturned? && (init[i].required ==> evaluate(i).ok) {
        assert init[i] == checks[i];
      }
      ChecksWithoutFailure(init, evaluate);
      var prev := ChecksResult(init, evaluate);
      var last := RunCheck(prev.results, checks[|checks| - 1], evaluate(|checks| - 1));
      assert ChecksResult(checks, evaluate) == last;
      forall i | 0 <= i < |checks|
        ensures last.results[i] == CheckResult(evaluate(i).ok, "", checks[i].title, None)
      {
        if i < |init| {
          assert init[i] == checks[i];
          assert last.results[i] == prev.results[i];
        }
      }
    }
  }

  /**
   * The first required check to return `False` stops the checks with the
   * error "Required check failed: <label>", whose results hold every earlier
   * entry, the check's own failed entry and the error's entry.
   */
  lemma RequiredFailureStopsChecks(checks: seq<StepCheckSpec>, evaluate: nat -> CheckOutcome, k: nat)
    requires k < |checks| && checks[k].required && evaluate(k) == CheckReturned(false)
    requires forall i :: 0 <= i < k ==> evaluate(i).CheckReturned? && (checks[i].required ==> evaluate(i).ok)
    ensures var s := ChecksResult(checks, evaluate);
      && s.err == Some(VerificationError("Required check failed: " + checks[k].title, s.results))
      && |s.results| == k + 2
      && s.results[k] == CheckResult(false, "", checks[k].title, None)
      && s.results[k + 1] == CheckResult(false, "Required check failed: " + checks[k].title, checks[k].title,
                                        Some(VERIFICATION_ERROR_TYPE))
  {
    var pre := checks[..k];
    forall i | 0 <= i < |pre| ensures evaluate(i).CheckReturned? && (pre[i].required ==> evaluate(i).ok) {
      assert pre[i] == checks[i];
    }
    ChecksWithoutFailure(pre, evaluate);
    var upto := checks[..k + 1];
    assert upto[..|upto| - 1] == pre;
    var prev := ChecksResult(pre, evaluate);
    var msg := "Required check failed: " + checks[k].title;
    var rs := prev.results + [CheckResult(false, "", checks[k].title, None)]
                           + [CheckResult(false, msg, checks[k].title, Some(VERIFICATION_ERROR_TYPE))];
    assert ChecksResult(upto, evaluate) == ChecksState(rs, Some(VerificationError(msg, rs)));
    ChecksStopAtError(checks, evaluate, k + 1);
  }

  /** The checks loop of `on_step_end`. */
  method RunChecks(checks: seq<StepCheckSpec>, evaluate: nat -> CheckOutcome) returns (s: ChecksState)
    ensures s == ChecksResult(checks, evaluate)
  {
    var results: seq<CheckResult> := [];
    var i := 0;
    while i < |checks|
      invariant 0 <= i <= |checks|
      invariant ChecksResult(checks[..i], evaluate) == ChecksState(results, None)
    {
      var step := RunCheck(results, checks[i], evaluate(i));
      assert checks[..i + 1][..i] == checks[..i];
      if step.err.Some? {
        ChecksStopAtError(checks, evaluate, i + 1);
        return step;
      }
      results := step.results;
      i := i + 1;
    }
    assert checks[..i] == checks;
    return ChecksState(results, None);
  }

  /** What the agent's `pause` attribute did when the policy asked for it. */
  datatype PauseOutcome = NoPause | PauseReturned | PauseRaised

  /**
   * The failure policy after the step is closed: no error, `log`, or a
   * `pause` callback that returned ends the hook quietly; otherwise a
   * verification error is raised, the step's own one as is and any other
   * error wrapped with its text and the results list.
   */
  function FailureDecision(policy: FailurePolicy, err: Option<StepError>, results: seq<CheckResult>,
                           pause: PauseOutcome): (raised: Option<StepError>)
    ensures raised.Some? <==>
      err.Some? && policy != OnFailureLog && !(policy == OnFailurePause && pause == PauseReturned)
    ensures raised.Some? ==> raised.value.VerificationError?
    ensures raised.Some? && err.value.VerificationError? ==> raised == err
    ensures raised.Some? && err.value.OtherError? ==>
      raised == Some(VerificationError(err.value.error.message, results))
  {
    if err.None? || policy == OnFailureLog then None
    else if policy == OnFailurePause && pause == PauseReturned then None
    else if err.value.VerificationError? then err
    else Some(VerificationError(ErrorText(err.value), results))
  }

  /** `emit_step_end(success=..., error=...)` */
  datatype StepEndEmit = StepEndEmit(success: bool, error: Option<string>)

  /** The step-end hook's effect: the step-end events it emitted and the error it raised. */
  datatype StepEndResult = StepEndResult(emitted: seq<StepEndEmit>, raised: Option<StepError>)

  /** The snapshot, then the checks: the error of the step-end body, with the results collected. */
  function StepEndBody(cfg: PluginConfig, snapshot: Option<Raised>, evaluate: nat -> CheckOutcome): (s: ChecksState)
    ensures cfg.autoSnapshot && snapshot.Some? ==> s == ChecksState([], Some(OtherError(snapshot.value)))
    ensures !(cfg.autoSnapshot && snapshot.Some?) && !cfg.autoChecks ==> s == ChecksState([], None)
  {
    if cfg.autoSnapshot && snapshot.Some? then ChecksState([], Some(OtherError(snapshot.value)))
    else if cfg.autoChecks then ChecksResult(cfg.checks, evaluate)
    else ChecksState([], None)
  }

  /**
   * `on_step_end` once the plugin is bound: exactly one step-end event,
   * successful exactly when the body raised nothing, then the failure policy.
   */
  function StepEndOutcome(cfg: PluginConfig, snapshot: Option<Raised>, evaluate: nat -> CheckOutcome,
                          pause: PauseOutcome): (r: StepEndResult)
    ensures |r.emitted| == 1
    ensures r.emitted[0].success <==> StepEndBody(cfg, snapshot, evaluate).err.None?
    ensures r.emitted[0].error.Some? <==> !r.emitted[0].success
    ensures r.raised.Some? ==> !r.emitted[0].success && r.raised.value.VerificationError?
    ensures cfg.onFailure == OnFailureLog ==> r.raised.None?
    ensures var body := StepEndBody(cfg, snapshot, evaluate);
      && r.emitted[0].error == (if body.err.Some? then Some(ErrorText(body.err.value)) else None)
      && r.raised == FailureDecision(cfg.onFailure, body.err, body.results, pause)
  {
    var body := StepEndBody(cfg, snapshot, evaluate);
    var emit := StepEndEmit(body.err.None?, if body.err.Some? then Some(ErrorText(body.err.value)) else None);
    StepEndResult([emit], FailureDecision(cfg.onFailure, body.err, body.results, pause))
  }

  /**
   * Under the default `raise` policy, a required check returning `False`
   * (after the snapshot succeeded and every earlier check was satisfied)
   * closes the step as failed and raises "Required check failed: <label>".
   */
  lemma RequiredCheckFailureRaises(cfg: PluginConfig, snapshot: Option<Raised>, evaluate: nat -> CheckOutcome,
                                   pause: PauseOutcome, k: nat)
    requires cfg.onFailure == OnFailureRaise && cfg.autoChecks
    requires !cfg.autoSnapshot || snapshot.None?
    requires k < |cfg.checks| && cfg.checks[k].required && evaluate(k) == CheckReturned(false)
    requires forall i :: 0 <= i < k ==> evaluate(i).CheckReturned? && (cfg.checks[i].required ==> evaluate(i).ok)
    ensures var r := StepEndOutcome(cfg, snapshot, evaluate, pause);
      && r.emitted == [StepEndEmit(false, Some("Required check failed: " + cfg.checks[k].title))]
      && r.raised.Some? && r.raised.value.message == "Required check failed: " + cfg.checks[k].title
      && |r.raised.value.results| == k + 2
  {
    RequiredFailureStopsChecks(cfg.checks, evaluate, k);
  }

  /** Checks that all hold (and a snapshot that succeeds) close the step as successful and raise nothing. */
  lemma PassingChecksNeverRaise(cfg: PluginConfig, snapshot: Option<Raised>, evaluate: nat -> CheckOutcome,
                                pause: PauseOutcome)
    requires !cfg.autoSnapshot || snapshot.None?
    requires forall i :: 0 <= i < |cfg.checks| ==> evaluate(i) == CheckReturned(true)
    ensures StepEndOutcome(cfg, snapshot, evaluate, pause) == StepEndResult([StepEndEmit(true, None)], None)
  {
    ChecksWithoutFailure(cfg.checks, evaluate);
  }

  // ---------------------------------------------------------------------------
  // wrap_step

  datatype Phase = StepStartHook | AgentStep | StepEndHook

  datatype Wrapped<T> = Wrapped(phases: seq<Phase>, result: Result<T, string>)

  /**
   * `wrap_step`: the start hook, then the step, then the end hook in a
   * `finally`. `start` and `end` are the hooks' errors, `step` what the
   * step returned or raised.
   */
  function WrapStep<T>(start: Option<string>, step: Result<T, string>, end: Option<string>): (w: Wrapped<T>)
    ensures |w.phases| >= 1 && w.phases[0] == StepStartHook
    ensures StepEndHook in w.phases <==> start.None?
    ensures AgentStep in w.phases <==> start.None?
    ensures start.None? ==> w.phases[|w.phases| - 1] == StepEndHook
    ensures w.result.Success? <==> start.None? && step.Success? && end.None?
    ensures w.result.Success? ==> w.result == step
    ensures start.Some? ==> w.result == Failure(start.value)
    ensures start.None? && end.Some? ==> w.result == Failure(end.value)
    ensures start.None? && end.None? ==> w.result == step
  {
    if start.Some? then Wrapped([StepStartHook], Failure(start.value))
    else if end.Some? then Wrapped([StepStartHook, AgentStep, StepEndHook], Failure(end.value))
    else Wrapped([StepStartHook, AgentStep, StepEndHook], step)
  }

  // ---------------------------------------------------------------------------
  // summarize_snapshot

  datatype ElementSummary = ElementSummary(id: int, role: string, text: Option<string>, importance: int, bbox: BBox)
  datatype BrowserState = BrowserState(url: string, elements: seq<ElementSummary>)

  function SummaryOf(e: Element): ElementSummary {
    ElementSummary(e.id, e.role, e.text, e.importance, e.bbox)
  }

  /** `summarize_snapshot(snap, max_elements)`: the URL and the first `max(0, max_elements)` elements, summarised. */
  method SummarizeSnapshot(snap: Snapshot, maxElements: int) returns (b: BrowserState)
    ensures b.url == snap.url
    ensures |b.elements| == (if maxElements <= 0 then 0
                             else if maxElements < |snap.elements| then maxElements
                             else |snap.elements|)
    ensures forall i :: 0 <= i < |b.elements| ==> b.elements[i] == SummaryOf(snap.elements[i])
  {
    var n := if maxElements <= 0 then 0 else if maxElements < |snap.elements| then maxElements else |snap.elements|;
    var els: seq<ElementSummary> := [];
    var i := 0;
    while i < n
      invariant 0 <= i <= n
      invariant |els| == i
      invariant forall j :: 0 <= j < i ==> els[j] == SummaryOf(snap.elements[j])
    {
      els := els + [SummaryOf(snap.elements[i])];
      i := i + 1;
    }
    b := BrowserState(snap.url, els);
  }

  // ---------------------------------------------------------------------------
  // the plugin

  class PredicateBrowserUsePlugin {
    const config: PluginConfig
    var boundSession: Option<nat>
    var runtime: AgentRuntime?
    var debuggerBound: bool
    var stepCounter: int

    constructor (config: Option<PluginConfig>)
      ensures this.config == config.GetOr(DefaultPluginConfig())
      ensures boundSession.None? && runtime == null && !debuggerBound && stepCounter == 0
    {
      this.config := config.GetOr(DefaultPluginConfig());
      boundSession := None;
      runtime := null;
      debuggerBound := false;
      stepCounter := 0;
    }

    predicate IsBoundTo(session: nat)
      reads this
    {
      boundSession == Some(session) && runtime != null && debuggerBound
    }

    /**
     * `bind(browser_session)`: a missing session is refused, the session
     * already bound is kept, and otherwise backends are created attempt by
     * attempt; the first that comes up gets a new runtime built with the
     * effective snapshot options and the plugin key.
     */
    method Bind(session: Option<nat>, create: nat -> Option<string>) returns (r: BindResult)
      modifies this
      ensures session.None? ==> r == MissingSession
      ensures session.Some? && old(IsBoundTo(session.value)) ==> r == AlreadyBound
      ensures session.Some? && !old(IsBoundTo(session.value)) ==>
        r == Attempted(BindAttempts(Retries(config.bindRetries), create, 0))
      ensures r.Attempted? && r.loop.Connected? ==> r.loop == AsWrittenBindLoop(Retries(config.bindRetries), create, 0, "")
      ensures r.Attempted? && r.loop.Exhausted? ==>
        AsWrittenBindLoop(Retries(config.bindRetries), create, 0, "")
          == Exhausted(r.loop.sleepsMs + [500 * Retries(config.bindRetries)], r.loop.lastError)
      ensures !(r.Attempted? && r.loop.Connected?) ==>
        boundSession == old(boundSession) && runtime == old(runtime) && debuggerBound == old(debuggerBound)
      ensures r.Attempted? && r.loop.Connected? ==>
        && IsBoundTo(session.value) && fresh(runtime)
        && runtime.snapshotOptions == EffectiveSnapshotOptions(config)
        && runtime.stepId.None? && runtime.stepIndex == -1 && runtime.assertions == []
        && runtime.lastSnapshot.None? && runtime.step == FreshStepState(None)
        && !runtime.taskDone && runtime.taskDoneLabel.None?
        && runtime.captchaOptions.None? && runtime.captchaRetryCount == 0
      ensures stepCounter == old(stepCounter)
    {
      if session.None? {
        return MissingSession;
      }
      if boundSession == session && runtime != null && debuggerBound {
        return AlreadyBound;
      }
      var loop := RunBindAttempts(Retries(config.bindRetries), create);
      if loop.Connected? {
        RuntimeKeepsEffectiveOptions(config);
        var rt := new AgentRuntime(Some(EffectiveSnapshotOptions(config)), config.predicateApiKey, None);
        runtime := rt;
        debuggerBound := true;
        boundSession := session;
      }
      return Attempted(loop);
    }

    /**
     * `on_step_start(agent)`: binds to the agent's session, counts the step
     * and begins it on the runtime under the next index, with the agent's task and
     * current URL as its goal. The result is the new step id or the error
     * raised.
     */
    method OnStepStart(session: Option<nat>, create: nat -> Option<string>, task: Option<string>,
                       url: Option<string>) returns (r: Result<string, string>)
      modifies this, runtime
      ensures session.None? ==> r == Failure(NO_SESSION_ERROR)
      ensures r.Success? <==>
        session.Some? && (old(IsBoundTo(session.value))
                          || BindAttempts(Retries(config.bindRetries), create, 0).Connected?)
      ensures r.Success? ==>
        && runtime != null
        && stepCounter == old(stepCounter) + 1
        && runtime.stepIndex == (if runtime == old(runtime) then old(runtime.stepIndex) + 1 else 0)
        && r.value == StepId(runtime.stepIndex)
        && runtime.step == FreshStepState(Some(StepGoal(task, url)))
        && IsBoundTo(session.value) && runtime.assertions == []
      ensures r.Success? && runtime == old(runtime) ==>
        runtime.lastSnapshot == old(runtime.lastSnapshot) && runtime.TaskKept() && runtime.CaptchaKept()
      ensures r.Success? && runtime != old(runtime) ==>
        && fresh(runtime) && runtime.lastSnapshot.None?
        && !runtime.taskDone && runtime.taskDoneLabel.None?
        && runtime.captchaOptions.None? && runtime.captchaRetryCount == 0
      ensures r.Failure? ==> stepCounter == old(stepCounter)
      ensures r.Failure? ==> boundSession == old(boundSession) && runtime == old(runtime) && debuggerBound == old(debuggerBound)
    {
      if session.None? {
        return Failure(NO_SESSION_ERROR);
      }
      var bound := Bind(session, create);
      if bound.Attempted? && bound.loop.Exhausted? {
        return Failure(BindErrorMessage(bound.loop.lastError));
      }
      stepCounter := stepCounter + 1;
      var id := runtime.BeginStep(StepGoal(task, url), Some(runtime.stepIndex + 1));
      return Success(id);
    }

    /**
     * `on_step_end(agent)`: binds lazily when used on its own, then takes the
     * snapshot and runs the automatic checks, always emits the step end, and
     * applies the failure policy. `snapshot` is the error the snapshot
     * raised, if any; `evaluate(i)` what automatic check `i` produced.
     */
    method OnStepEnd(session: Option<nat>, create: nat -> Option<string>, snapshot: Option<Raised>,
                     evaluate: nat -> CheckOutcome, pause: PauseOutcome) returns (r: StepEndResult)
      modifies this
      ensures old(runtime) == null || !old(debuggerBound) ==>
        (session.None? ==> r == StepEndResult([], Some(OtherError(Raised("RuntimeError", NO_SESSION_ERROR)))))
      ensures r.emitted != [] ==> r == StepEndOutcome(config, snapshot, evaluate, pause)
      ensures old(runtime) != null && old(debuggerBound) ==> r == StepEndOutcome(config, snapshot, evaluate, pause)
      ensures r.emitted == [] ==> r.raised.Some? && r.raised.value.OtherError?
      ensures r.emitted == [] <==>
        (old(runtime) == null || !old(debuggerBound))
        && (session.None? || !BindAttempts(Retries(config.bindRetries), create, 0).Connected?)
      ensures r.emitted == [] || (old(runtime) != null && old(debuggerBound)) ==>
        boundSession == old(boundSession) && runtime == old(runtime) && debuggerBound == old(debuggerBound)
      ensures r.emitted != [] && (old(runtime) == null || !old(debuggerBound)) ==>
        IsBoundTo(session.value) && fresh(runtime) && runtime.assertions == [] && runtime.stepIndex == -1
      ensures stepCounter == old(stepCounter)
    {
      if runtime == null || !debuggerBound {
        if session.None? {
          return StepEndResult([], Some(OtherError(Raised("RuntimeError", NO_SESSION_ERROR))));
        }
        var bound := Bind(session, create);
        if bound.Attempted? && bound.loop.Exhausted? {
          return StepEndResult([], Some(OtherError(Raised("RuntimeError", BindErrorMessage(bound.loop.lastError)))));
        }
      }
      var body: ChecksState;
      if config.autoSnapshot && snapshot.Some? {
        body := ChecksState([], Some(OtherError(snapshot.value)));
      } else if config.autoChecks {
        body := RunChecks(config.checks, evaluate);
      } else {
        body := ChecksState([], None);
      }
      var emit := StepEndEmit(body.err.None?, if body.err.Some? then Some(ErrorText(body.err.value)) else None);
      r := StepEndResult([emit], FailureDecision(config.onFailure, body.err, body.results, pause));
    }
  }
}
