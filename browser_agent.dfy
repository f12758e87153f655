/**
 * The policies of `PredicateBrowserAgent`: mapping the CAPTCHA
 * configuration onto the runtime, the bounded step history shown to the
 * model, the run-level budget of vision calls, and the run loop. Executing
 * a step (`RuntimeAgent.run_step`) is a parameter.
 */
module BrowserAgent {
  import opened Wrappers
  import opened Text
  import opened Captcha
  import opened Runtime

  /** `CaptchaConfig`; the handler is present or absent. */
  datatype CaptchaConfig = CaptchaConfig(
    policy: Option<string>,
    hasHandler: bool,
    timeoutMs: Option<int>,
    pollMs: Option<int>,
    minConfidence: real)

  const POLICY_ERROR := "captcha.policy must be 'abort' or 'callback'"
  const HANDLER_ERROR :=
    "captcha.handler is required when captcha.policy=\"callback\". " +
    "Use HumanHandoffSolver(...) for manual solve, or ExternalSolver(...) to integrate your system."

  /** The configured policy, "abort" when unset or empty, stripped and lower-cased. */
  function NormalizePolicy(p: Option<string>): string {
    Lower(Strip(if p.Some? && p.value != "" then p.value else "abort"))
  }

  /**
   * The options `apply_captcha_config_to_runtime` installs, or the
   * `ValueError` it raises: `abort` keeps only the minimum confidence,
   * `callback` needs a handler and fills unset or zero timings with
   * 1000 ms polling and a 120000 ms timeout.
   */
  function CaptchaOptionsFor(c: CaptchaConfig, hasResetSession: bool): (r: Result<CaptchaOptions, string>)
    ensures NormalizePolicy(c.policy) != "abort" && NormalizePolicy(c.policy) != "callback" ==>
      r == Failure(POLICY_ERROR)
    ensures NormalizePolicy(c.policy) == "abort" ==>
      r == Success(DefaultCaptchaOptions().(minConfidence := c.minConfidence))
    ensures NormalizePolicy(c.policy) == "callback" ==>
      && (r.Failure? <==> !c.hasHandler)
      && (r.Failure? ==> r.error == HANDLER_ERROR)
      && (r.Success? ==>
            && r.value.policy == PolicyCallback && r.value.hasHandler
            && r.value.minConfidence == c.minConfidence
            && r.value.pollMs == (if c.pollMs.Some? && c.pollMs.value != 0 then c.pollMs.value else DEFAULT_POLL_MS)
            && r.value.timeoutMs == (if c.timeoutMs.Some? && c.timeoutMs.value != 0 then c.timeoutMs.value else DEFAULT_TIMEOUT_MS)
            && r.value.hasResetSession == hasResetSession)
  {
    var policy := NormalizePolicy(c.policy);
    if policy != "abort" && policy != "callback" then Failure(POLICY_ERROR)
    else if policy == "abort" then Success(DefaultCaptchaOptions().(minConfidence := c.minConfidence))
    else
      var pollMs := if c.pollMs.Some? && c.pollMs.value != 0 then c.pollMs.value else DEFAULT_POLL_MS;
      var timeoutMs := if c.timeoutMs.Some? && c.timeoutMs.value != 0 then c.timeoutMs.value else DEFAULT_TIMEOUT_MS;
      if !c.hasHandler then Failure(HANDLER_ERROR)
      else Success(CaptchaOptions(PolicyCallback, c.minConfidence, timeoutMs, pollMs,
                                  DefaultCaptchaOptions().maxRetriesNewSession, true, hasResetSession))
  }

  /** An unset policy means `abort`: only the minimum confidence differs from the defaults. */
  lemma UnsetPolicyAborts(c: CaptchaConfig, hasResetSession: bool)
    requires c.policy.None?
    ensures CaptchaOptionsFor(c, hasResetSession) == Success(DefaultCaptchaOptions().(minConfidence := c.minConfidence))
  {
    assert NormalizePolicy(c.policy) == "abort" by {
      assert Strip("abort") == "abort";
      LowerOfLower("abort");
    }
  }

  lemma LowerOfLower(s: string)
    requires forall i :: 0 <= i < |s| ==> !('A' <= s[i] <= 'Z')
    ensures Lower(s) == s
  {
  }

  /**
   * `apply_captcha_config_to_runtime(runtime, captcha, reset_session)`: on
   * success the runtime holds the new options with a fresh retry count; on
   * error it is left as it was.
   */
  method ApplyCaptchaConfigToRuntime(runtime: AgentRuntime, c: CaptchaConfig, hasResetSession: bool)
    returns (err: Option<string>)
    modifies runtime
    ensures CaptchaOptionsFor(c, hasResetSession).Failure? ==>
      err == Some(CaptchaOptionsFor(c, hasResetSession).error)
      && runtime.captchaOptions == old(runtime.captchaOptions)
      && runtime.captchaRetryCount == old(runtime.captchaRetryCount)
    ensures CaptchaOptionsFor(c, hasResetSession).Success? ==>
      err.None? && runtime.captchaOptions == Some(CaptchaOptionsFor(c, hasResetSession).value)
      && runtime.captchaRetryCount == 0
    ensures CaptchaOptionsFor(c, hasResetSession).Failure? ==> runtime.CaptchaKept()
    ensures runtime.assertions == old(runtime.assertions) && runtime.StepKept() && runtime.TaskKept()
  {
    var opts := CaptchaOptionsFor(c, hasResetSession);
    if opts.Failure? {
      return Some(opts.error);
    }
    runtime.SetCaptchaOptions(opts.value);
    err := None;
  }

  // ---------------------------------------------------------------------------
  // history

  /** One "- " bullet per non-empty item, in order. */
  function Bullets(items: seq<string>): (bs: seq<string>)
    ensures |bs| <= |items|
    ensures forall i :: 0 <= i < |bs| ==> |bs[i]| > 2 && bs[i][..2] == "- "
    ensures bs == [] <==> forall i :: 0 <= i < |items| ==> items[i] == ""
  {
    if items == [] then []
    else if items[0] == "" then
      assert forall i :: 1 <= i < |items| ==> items[i] == items[1..][i - 1];
      Bullets(items[1..])
    else ["- " + items[0]] + Bullets(items[1..])
  }

  /** The non-empty items, in order. */
  function NonEmptyItems(items: seq<string>): (ne: seq<string>)
    ensures |ne| <= |items|
    ensures forall x :: x in ne <==> x in items && x != ""
  {
    if items == [] then []
    else if items[0] == "" then NonEmptyItems(items[1..])
    else [items[0]] + NonEmptyItems(items[1..])
  }

  /** The i-th bullet is "- " followed by the i-th non-empty item. */
  lemma {:induction false} BulletsOfNonEmptyItems(items: seq<string>)
    ensures |Bullets(items)| == |NonEmptyItems(items)|
    ensures forall i :: 0 <= i < |Bullets(items)| ==> Bullets(items)[i] == "- " + NonEmptyItems(items)[i]
  {
    if items != [] {
      BulletsOfNonEmptyItems(items[1..]);
    }
  }

  /** The bullets of two lists of items, one after the other, are the bullets of their concatenation. */
  lemma {:induction false} BulletsAppend(a: seq<string>, b: seq<string>)
    ensures Bullets(a + b) == Bullets(a) + Bullets(b)
  {
    if a == [] {
      assert a + b == b;
    } else {
      assert (a + b)[1..] == a[1..] + b;
      BulletsAppend(a[1..], b);
    }
  }

  /**
   * `_history_summary(items)`: the bullets joined by newlines, which is ""
   * exactly when every item is empty.
   */
  function HistorySummary(items: seq<string>): (s: string)
    ensures s == Join(Bullets(items), "\n")
    ensures s == "" <==> forall i :: 0 <= i < |items| ==> items[i] == ""
  {
    if items == [] then ""
    else
      var bs := Bullets(items);
      assert bs != [] ==> Join(bs, "\n") != "" by {
        if bs != [] { JoinStartsWithFirstWord(bs, "\n"); }
      }
      Join(bs, "\n")
  }

  /** Recording one more non-empty item adds its bullet as a new last line of the summary. */
  lemma HistorySummaryExtends(items: seq<string>, x: string)
    requires x != "" && Bullets(items) != []
    ensures HistorySummary(items + [x]) == HistorySummary(items) + "\n- " + x
  {
    var bs, b := Bullets(items), "- " + x;
    assert Bullets([x]) == [b] by {
      assert [x][1..] == [];
    }
    BulletsAppend(items, [x]);
    JoinSnoc(bs, b, "\n");
    NewBulletLine(Join(bs, "\n"), x);
  }

  lemma NewBulletLine(j: string, x: string)
    ensures j + "\n" + ("- " + x) == j + "\n- " + x
  {
    assert "\n" + "- " == "\n- ";
    assert j + "\n" + ("- " + x) == j + ("\n" + "- ") + x;
  }

  /** `f"{step_goal} -> {'ok' if ok else 'fail'}"` */
  function HistoryEntry(goal: string, ok: bool): (e: string)
    ensures e != ""
  {
    goal + " -> " + (if ok then "ok" else "fail")
  }

  function Max(a: int, b: int): int { if a < b then b else a }

  /** Appending to a `deque(maxlen=n)`: the oldest entries beyond `n` fall off. */
  function Bounded(items: seq<string>, n: nat): (r: seq<string>)
    ensures |r| == if |items| <= n then |items| else n
    ensures r == items[|items| - |r|..]
  {
    if |items| <= n then items else items[|items| - n..]
  }

  /** Appending one more entry to a bounded history is bounding the whole sequence of entries. */
  lemma BoundedSnoc(items: seq<string>, e: string, n: nat)
    requires n > 0
    ensures Bounded(Bounded(items, n) + [e], n) == Bounded(items + [e], n)
  {
    if |items| > n {
      var b := items[|items| - n..];
      assert (b + [e])[1..] == (items + [e])[|items| + 1 - n..];
    }
  }

  /** `RuntimeStep`, with the fields `step` copies when it rewrites a step. */
  datatype RuntimeStep = RuntimeStep(
    goal: string,
    intent: Option<string>,
    verifications: seq<string>,
    snapshotLimitBase: int,
    snapshotLimitStep: int,
    snapshotLimitMax: int,
    maxSnapshotAttempts: int,
    minConfidence: Option<real>,
    minActionables: Option<int>,
    visionExecutorEnabled: bool,
    maxVisionExecutorAttempts: int)

  datatype VisionFallbackConfig = VisionFallbackConfig(enabled: bool, maxVisionCalls: int)

  /** `StepOutcome` */
  datatype StepOutcome = StepOutcome(stepGoal: string, ok: bool, usedVision: bool)

  /** Whether the run-level vision budget is used up. */
  predicate BudgetSpent(v: VisionFallbackConfig, used: int) {
    v.enabled && v.maxVisionCalls > 0 && used >= v.maxVisionCalls
  }

  /** The step `step` runs: vision switched off once the budget is spent, all else copied. */
  function BudgetedStep(s: RuntimeStep, v: VisionFallbackConfig, used: int): (r: RuntimeStep)
    ensures BudgetSpent(v, used) ==> !r.visionExecutorEnabled && r.maxVisionExecutorAttempts == 0
    ensures !BudgetSpent(v, used) ==> r == s
    ensures r.(visionExecutorEnabled := s.visionExecutorEnabled,
               maxVisionExecutorAttempts := s.maxVisionExecutorAttempts) == s
  {
    if BudgetSpent(v, used) then s.(visionExecutorEnabled := false, maxVisionExecutorAttempts := 0) else s
  }

  /** Whether a step that ran as `s` and ended `ok` counts one vision call. */
  predicate ChargesVision(s: RuntimeStep, ok: bool, visionAvailable: bool) {
    s.visionExecutorEnabled && !ok && visionAvailable
  }

  /** The history entries of the steps that ran, given their results. */
  function RunEntries(steps: seq<RuntimeStep>, outcomes: seq<bool>): (es: seq<string>)
    requires |outcomes| <= |steps|
    ensures |es| == |outcomes|
    ensures forall i :: 0 <= i < |es| ==> es[i] == HistoryEntry(steps[i].goal, outcomes[i])
  {
    seq(|outcomes|, i requires 0 <= i < |outcomes| => HistoryEntry(steps[i].goal, outcomes[i]))
  }

  /** The history once `entries` have been recorded into `h`: unchanged when history is off, else the newest `n`. */
  function Recorded(h: seq<string>, entries: seq<string>, n: int): seq<string> {
    if n > 0 then Bounded(h + entries, n) else h
  }

  /** The bounded history after one more step of a run. */
  lemma RunHistoryGrows(h0: seq<string>, steps: seq<RuntimeStep>, outcomes: seq<bool>, ok: bool, n: nat)
    requires n > 0 && |outcomes| < |steps|
    ensures Bounded(Bounded(h0 + RunEntries(steps, outcomes), n) + [HistoryEntry(steps[|outcomes|].goal, ok)], n)
         == Bounded(h0 + RunEntries(steps, outcomes + [ok]), n)
  {
    var e := HistoryEntry(steps[|outcomes|].goal, ok);
    var es, es' := RunEntries(steps, outcomes), RunEntries(steps, outcomes + [ok]);
    assert es' == es + [e];
    assert h0 + es + [e] == h0 + es';
    BoundedSnoc(h0 + es, e, n);
  }

  /** `PredicateBrowserAgent`; `visionAvailable` stands for a vision executor that supports vision. */
  class PredicateBrowserAgent {
    const historyLastN: int
    const vision: VisionFallbackConfig
    const visionAvailable: bool
    var history: seq<string>
    var visionCallsUsed: int

    /** The history never holds more than `max(0, history_last_n)` entries. */
    predicate Valid()
      reads this
    {
      |history| <= Max(0, historyLastN) && visionCallsUsed >= 0
    }

    constructor (historyLastN: int, vision: VisionFallbackConfig, visionAvailable: bool)
      ensures Valid()
      ensures this.historyLastN == historyLastN && this.vision == vision && this.visionAvailable == visionAvailable
      ensures history == [] && visionCallsUsed == 0
    {
      this.historyLastN := historyLastN;
      this.vision := vision;
      this.visionAvailable := visionAvailable;
      history := [];
      visionCallsUsed := 0;
    }

    /** `_get_history_summary()` */
    function GetHistorySummary(): (s: string)
      reads this
      ensures historyLastN <= 0 ==> s == ""
      ensures historyLastN > 0 ==> s == HistorySummary(history)
    {
      if historyLastN <= 0 then "" else HistorySummary(history)
    }

    /**
     * `_record_step_history(step_goal, ok)`: nothing is kept when history is
     * disabled; otherwise the entry is appended and the oldest entries beyond
     * the bound are dropped.
     */
    method RecordStepHistory(goal: string, ok: bool)
      requires Valid()
      modifies this
      ensures Valid()
      ensures historyLastN <= 0 ==> history == old(history)
      ensures historyLastN > 0 ==> history == Bounded(old(history) + [HistoryEntry(goal, ok)], historyLastN)
      ensures historyLastN > 0 ==> history[|history| - 1] == HistoryEntry(goal, ok)
      ensures visionCallsUsed == old(visionCallsUsed)
    {
      if historyLastN <= 0 {
        return;
      }
      history := Bounded(history + [HistoryEntry(goal, ok)], historyLastN);
    }

    /**
     * `step(task_goal, step)`: runs the step, with vision switched off once
     * the budget is spent, counts a vision call only for a failed step that
     * had vision enabled while vision is available, and records the outcome.
     */
    method Step(s: RuntimeStep, runStep: RuntimeStep -> bool) returns (out: StepOutcome)
      requires Valid()
      modifies this
      ensures Valid()
      ensures out.stepGoal == s.goal
      ensures out.ok == runStep(BudgetedStep(s, vision, old(visionCallsUsed)))
      ensures out.usedVision <==> ChargesVision(BudgetedStep(s, vision, old(visionCallsUsed)), out.ok, visionAvailable)
      ensures visionCallsUsed == old(visionCallsUsed) + (if out.usedVision then 1 else 0)
      ensures historyLastN > 0 ==> history == Bounded(old(history) + [HistoryEntry(s.goal, out.ok)], historyLastN)
      ensures historyLastN <= 0 ==> history == old(history)
    {
      var eff := BudgetedStep(s, vision, visionCallsUsed);
      var ok := runStep(eff);
      var usedVision := false;
      if eff.visionExecutorEnabled && !ok {
        usedVision := visionAvailable;
        if usedVision {
          visionCallsUsed := visionCallsUsed + 1;
        }
      }
      RecordStepHistory(eff.goal, ok);
      out := StepOutcome(eff.goal, ok, usedVision);
    }

    /** Step i of `run`: `step` on `steps[i]`, which extends the run's history by one entry. */
    method StepOfRun(steps: seq<RuntimeStep>, i: nat, runStep: (nat, RuntimeStep) -> bool,
                     ghost h0: seq<string>, ghost prev: seq<bool>, ghost prevUsed: seq<int>) returns (out: StepOutcome)
      requires Valid()
      requires i < |steps| && |prev| == i && |prevUsed| == i + 1 && visionCallsUsed == prevUsed[i]
      requires history == Recorded(h0, RunEntries(steps, prev), historyLastN)
      modifies this
      ensures Valid()
      ensures out.ok == runStep(i, BudgetedStep(steps[i], vision, prevUsed[i]))
      ensures visionCallsUsed ==
        prevUsed[i] + (if ChargesVision(BudgetedStep(steps[i], vision, prevUsed[i]), out.ok, visionAvailable) then 1 else 0)
      ensures history == Recorded(h0, RunEntries(steps, prev + [out.ok]), historyLastN)
    {
      out := Step(steps[i], s => runStep(i, s));
      if historyLastN > 0 {
        RunHistoryGrows(h0, steps, prev, out.ok, historyLastN);
      }
    }

    /**
     * `run(task_goal, steps, stop_on_failure)`: the outcomes of the steps
     * that ran, in order; with `stop_on_failure` the run ends at the first
     * failed step and reports failure, otherwise every step runs and the run
     * reports success. Step i runs as `steps[i]` under the budget used before
     * it (`used[i]`), and its entry joins the bounded history.
     */
    method Run(steps: seq<RuntimeStep>, stopOnFailure: bool, runStep: (nat, RuntimeStep) -> bool)
      returns (ok: bool, ghost outcomes: seq<bool>, ghost used: seq<int>)
      requires Valid()
      modifies this
      ensures Valid()
      ensures |outcomes| <= |steps| && RunTrace(steps, vision, visionAvailable, runStep, outcomes, used)
      ensures used[0] == old(visionCallsUsed) && visionCallsUsed == used[|outcomes|]
      ensures historyLastN > 0 ==> history == Bounded(old(history) + RunEntries(steps, outcomes), historyLastN)
      ensures historyLastN <= 0 ==> history == old(history)
      ensures !stopOnFailure ==> ok && |outcomes| == |steps|
      ensures stopOnFailure ==> (ok <==> |outcomes| == |steps| && forall i :: 0 <= i < |outcomes| ==> outcomes[i])
      ensures stopOnFailure && !ok ==>
        |outcomes| > 0 && !outcomes[|outcomes| - 1] && forall i :: 0 <= i < |outcomes| - 1 ==> outcomes[i]
    {
      outcomes := [];
      used := [visionCallsUsed];
      ghost var h0 := history;
      var i := 0;
      ok := true;
      assert h0 + RunEntries(steps, outcomes) == h0;
      while i < |steps| && ok
        invariant 0 <= i <= |steps| && |outcomes| == i
        invariant Valid()
        invariant RunTrace(steps, vision, visionAvailable, runStep, outcomes, used)
        invariant used[0] == old(visionCallsUsed) && visionCallsUsed == used[i]
        invariant history == Recorded(h0, RunEntries(steps, outcomes), historyLastN)
        invariant ok ==> forall k :: 0 <= k < i ==> outcomes[k] || !stopOnFailure
        invariant !ok ==> stopOnFailure && i > 0 && !outcomes[i - 1] && forall k :: 0 <= k < i - 1 ==> outcomes[k]
      {
        ghost var prev, prevUsed := outcomes, used;
        var out := StepOfRun(steps, i, runStep, h0, prev, prevUsed);
        RunTraceSnoc(steps, vision, visionAvailable, runStep, prev, prevUsed, out.ok, visionCallsUsed);
        outcomes := outcomes + [out.ok];
        used := used + [visionCallsUsed];
        if stopOnFailure && !out.ok {
          ok := false;
        }
        i := i + 1;
      }
    }
  }

  /** The `CaptchaConfig()` a default agent configuration carries. */
  const DEFAULT_CAPTCHA_CONFIG := CaptchaConfig(Some("abort"), false, None, None, 0.7)

  /** The default configuration installs the `abort` policy with the default options. */
  lemma DefaultCaptchaConfigAborts(hasResetSession: bool)
    ensures CaptchaOptionsFor(DEFAULT_CAPTCHA_CONFIG, hasResetSession) == Success(DefaultCaptchaOptions())
  {
    assert NormalizePolicy(DEFAULT_CAPTCHA_CONFIG.policy) == "abort" by {
      assert Strip("abort") == "abort";
      LowerOfLower("abort");
    }
  }

  /**
   * `PredicateBrowserAgent(runtime=..., config=...)`: a configured `captcha`
   * is applied to the runtime at once, without a session reset; when that
   * raises, no agent is made and the runtime keeps its CAPTCHA state.
   * Otherwise the agent starts with an empty history and no vision calls.
   */
  method NewPredicateBrowserAgent(runtime: AgentRuntime, captcha: Option<CaptchaConfig>, historyLastN: int,
                                  vision: VisionFallbackConfig, visionAvailable: bool)
    returns (r: Result<PredicateBrowserAgent, string>)
    modifies runtime
    ensures captcha.None? ==> r.Success? && runtime.CaptchaKept()
    ensures captcha.Some? ==>
      var opts := CaptchaOptionsFor(captcha.value, false);
      && (opts.Failure? ==> r == Failure(opts.error) && runtime.CaptchaKept())
      && (opts.Success? ==> r.Success? && runtime.captchaOptions == Some(opts.value) && runtime.captchaRetryCount == 0)
    ensures r.Success? ==>
      && fresh(r.value) && r.value.Valid()
      && r.value.historyLastN == historyLastN && r.value.vision == vision && r.value.visionAvailable == visionAvailable
      && r.value.history == [] && r.value.visionCallsUsed == 0
    ensures runtime.assertions == old(runtime.assertions) && runtime.StepKept() && runtime.TaskKept()
  {
    if captcha.Some? {
      var err := ApplyCaptchaConfigToRuntime(runtime, captcha.value, false);
      if err.Some? {
        return Failure(err.value);
      }
    }
    var agent := new PredicateBrowserAgent(historyLastN, vision, visionAvailable);
    r := Success(agent);
  }

  /**
   * A run's trace: step i ran as `steps[i]` under the budget after `used[i]`
   * vision calls and ended `outcomes[i]`, and the count grows by one exactly
   * for a failed step that had vision.
   */
  ghost predicate RunTrace(steps: seq<RuntimeStep>, v: VisionFallbackConfig, visionAvailable: bool,
                           runStep: (nat, RuntimeStep) -> bool, outcomes: seq<bool>, used: seq<int>)
  {
    && |outcomes| <= |steps| && |used| == |outcomes| + 1
    && forall i :: 0 <= i < |outcomes| ==>
      && outcomes[i] == runStep(i, BudgetedStep(steps[i], v, used[i]))
      && used[i + 1] == used[i] + (if ChargesVision(BudgetedStep(steps[i], v, used[i]), outcomes[i], visionAvailable) then 1 else 0)
  }

  /** A trace extended by the next step of the run is a trace. */
  lemma RunTraceSnoc(steps: seq<RuntimeStep>, v: VisionFallbackConfig, visionAvailable: bool,
                     runStep: (nat, RuntimeStep) -> bool, outcomes: seq<bool>, used: seq<int>, ok: bool, next: int)
    requires RunTrace(steps, v, visionAvailable, runStep, outcomes, used) && |outcomes| < |steps|
    requires ok == runStep(|outcomes|, BudgetedStep(steps[|outcomes|], v, used[|outcomes|]))
    requires next == used[|outcomes|] +
      (if ChargesVision(BudgetedStep(steps[|outcomes|], v, used[|outcomes|]), ok, visionAvailable) then 1 else 0)
    ensures RunTrace(steps, v, visionAvailable, runStep, outcomes + [ok], used + [next])
  {
    var os, us := outcomes + [ok], used + [next];
    forall i | 0 <= i < |os|
      ensures os[i] == runStep(i, BudgetedStep(steps[i], v, us[i]))
      ensures us[i + 1] == us[i] + (if ChargesVision(BudgetedStep(steps[i], v, us[i]), os[i], visionAvailable) then 1 else 0)
    {
      if i < |outcomes| {
        assert os[i] == outcomes[i] && us[i] == used[i] && us[i + 1] == used[i + 1];
      }
    }
  }

  /**
   * Every step of a run counts at most one vision call, and a run that starts
   * within an enabled, positive budget stays within it: once the budget is
   * spent, vision is switched off and no further call is counted.
   */
  lemma {:induction false} RunTraceWithinBudget(steps: seq<RuntimeStep>, v: VisionFallbackConfig, visionAvailable: bool,
                                                runStep: (nat, RuntimeStep) -> bool, outcomes: seq<bool>, used: seq<int>)
    requires RunTrace(steps, v, visionAvailable, runStep, outcomes, used)
    ensures used[0] <= used[|outcomes|] <= used[0] + |outcomes|
    ensures v.enabled && v.maxVisionCalls > 0 && used[0] <= v.maxVisionCalls ==> used[|outcomes|] <= v.maxVisionCalls
  {
    if outcomes != [] {
      var n := |outcomes| - 1;
      var os, us := outcomes[..n], used[..n + 1];
      RunTraceWithinBudget(steps, v, visionAvailable, runStep, os, us);
      assert us[0] == used[0] && us[n] == used[n];
      if BudgetSpent(v, used[n]) {
        SpentBudgetStopsVision(steps[n], v, used[n]);
      }
    }
  }

  /** The vision budget is a cap: a spent budget stops every further step from using vision. */
  lemma SpentBudgetStopsVision(s: RuntimeStep, v: VisionFallbackConfig, used: int)
    requires BudgetSpent(v, used)
    ensures !BudgetedStep(s, v, used).visionExecutorEnabled
    ensures BudgetedStep(s, v, used).goal == s.goal && BudgetedStep(s, v, used).verifications == s.verifications
  {
  }
}
