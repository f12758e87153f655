/**
 * The snapshot-limit growth schedule `AssertionHandle.eventually` applies
 * across retries: the limit of attempt a is the smaller of the maximum and start + step * (a - 1),
 * clamped into the bounds `SnapshotOptions.limit` accepts.
 */
module SnapshotLimit {
  import opened Wrappers
  import opened Models

  /** `_clamp_limit(n)` */
  function ClampLimit(n: int): (r: int)
    ensures 1 <= r <= MAX_LIMIT
    ensures 1 <= n <= MAX_LIMIT ==> r == n
    ensures n < 1 ==> r == 1
    ensures n > MAX_LIMIT ==> r == MAX_LIMIT
  {
    if n < 1 then 1 else if n > MAX_LIMIT then MAX_LIMIT else n
  }

  /** The `snapshot_limit_growth` dictionary after `int()` of each present entry. */
  datatype GrowthSpec = GrowthSpec(
    applyOn: Option<string>,
    startLimit: Option<int>,
    step: Option<int>,
    maxLimit: Option<int>)

  /** The resolved schedule. */
  datatype Growth = Growth(applyOn: string, start: int, step: int, max: int)

  function Max(a: int, b: int): int { if a < b then b else a }
  function Min(a: int, b: int): int { if a < b then a else b }

  /**
   * Defaults of the schedule: the start comes from the dictionary, else the
   * `limit` of the snapshot arguments, else the runtime's default options,
   * else 50; the step defaults to `max(1, start)` and the maximum to 500.
   */
  function ResolveGrowth(g: GrowthSpec, kwargsLimit: Option<int>, runtimeLimit: Option<int>): (r: Growth)
    ensures r.start == (if g.startLimit.Some? then g.startLimit.value
                        else if kwargsLimit.Some? then kwargsLimit.value
                        else runtimeLimit.GetOr(DEFAULT_LIMIT))
    ensures r.step == (if g.step.Some? then g.step.value else Max(1, r.start))
    ensures r.max == g.maxLimit.GetOr(MAX_LIMIT)
    ensures g.step.None? ==> r.step >= 1
    ensures r.applyOn == (if g.applyOn.Some? && g.applyOn.value != "" then g.applyOn.value else "only_on_fail")
  {
    var start := if g.startLimit.Some? then g.startLimit.value
                 else if kwargsLimit.Some? then kwargsLimit.value
                 else runtimeLimit.GetOr(DEFAULT_LIMIT);
    Growth(
      if g.applyOn.Some? && g.applyOn.value != "" then g.applyOn.value else "only_on_fail",
      start,
      if g.step.Some? then g.step.value else Max(1, start),
      g.maxLimit.GetOr(MAX_LIMIT))
  }

  /** `_limit_for_attempt(attempt)` for a 1-based attempt number. */
  function LimitForAttempt(gr: Growth, attempt: int): (r: int)
    ensures 1 <= r <= MAX_LIMIT
  {
    ClampLimit(Min(gr.max, gr.start + gr.step * Max(0, attempt - 1)))
  }

  /** The first attempt uses the start limit, clamped and capped. */
  lemma FirstAttemptUsesStart(gr: Growth)
    ensures LimitForAttempt(gr, 1) == ClampLimit(Min(gr.max, gr.start))
  {
  }

  /** With a non-negative step the limit never shrinks from one attempt to a later one. */
  lemma LimitMonotone(gr: Growth, a: int, b: int)
    requires gr.step >= 0 && a <= b
    ensures LimitForAttempt(gr, a) <= LimitForAttempt(gr, b)
  {
    var m := Max(0, a - 1);
    var n := Max(0, b - 1);
    assert m <= n;
    assert gr.step * m <= gr.step * n by {
      MulMonotone(gr.step, m, n);
    }
  }

  lemma MulMonotone(k: int, m: int, n: int)
    requires k >= 0 && m <= n
    ensures k * m <= k * n
  {
    assert k * n - k * m == k * (n - m);
  }

  /**
   * Defaults only, starting from a limit `L` in range: attempt `n` asks for
   * `min(500, L * n)` elements.
   */
  lemma DefaultScheduleMultiplies(limit: int, n: int)
    requires 1 <= limit <= MAX_LIMIT && n >= 1
    ensures LimitForAttempt(ResolveGrowth(GrowthSpec(None, None, None, None), None, Some(limit)), n) ==
      Min(MAX_LIMIT, limit * n)
  {
    var gr := ResolveGrowth(GrowthSpec(None, None, None, None), None, Some(limit));
    assert gr.start == limit && gr.step == limit && gr.max == MAX_LIMIT;
    assert limit + limit * (n - 1) == limit * n;
    assert limit * n >= 1 by { MulMonotone(limit, 1, n); }
  }

  /**
   * The limit requested on one attempt of `eventually`. Without a growth
   * dictionary the snapshot arguments' own limit, if any, is used. With one,
   * the schedule applies on every attempt under `apply_on="all"`, on the
   * first attempt and after a failed one under `"only_on_fail"`, and under
   * any other value the start limit (or 50 when it is 0) is used, clamped.
   */
  function AttemptLimit(growth: Option<GrowthSpec>, kwargsLimit: Option<int>, runtimeLimit: Option<int>,
                        attempt: int, lastFailed: bool): (r: Option<int>)
    ensures growth.None? ==> r == kwargsLimit
    ensures growth.Some? ==> r.Some? && 1 <= r.value <= MAX_LIMIT
    ensures growth.Some? ==>
      var gr := ResolveGrowth(growth.value, kwargsLimit, runtimeLimit);
      var fixed := Some(ClampLimit(if gr.start == 0 then DEFAULT_LIMIT else gr.start));
      && (gr.applyOn == "all" ==> r == Some(LimitForAttempt(gr, attempt)))
      && (gr.applyOn == "only_on_fail" && (attempt == 1 || lastFailed) ==> r == Some(LimitForAttempt(gr, attempt)))
      && (gr.applyOn == "only_on_fail" && attempt != 1 && !lastFailed ==> r == fixed)
      && (gr.applyOn != "all" && gr.applyOn != "only_on_fail" ==> r == fixed)
  {
    if growth.None? then kwargsLimit
    else
      var gr := ResolveGrowth(growth.value, kwargsLimit, runtimeLimit);
      var apply := if gr.applyOn == "only_on_fail" then attempt == 1 || lastFailed else gr.applyOn == "all";
      if apply then Some(LimitForAttempt(gr, attempt))
      else Some(ClampLimit(if gr.start == 0 then DEFAULT_LIMIT else gr.start))
  }

  /**
   * Under the default `"only_on_fail"`, the retries of `eventually` (each of
   * which follows a failed attempt) follow the schedule.
   */
  lemma RetriesFollowSchedule(g: GrowthSpec, kwargsLimit: Option<int>, runtimeLimit: Option<int>, attempt: int)
    requires g.applyOn.None?
    ensures AttemptLimit(Some(g), kwargsLimit, runtimeLimit, attempt, true) ==
      Some(LimitForAttempt(ResolveGrowth(g, kwargsLimit, runtimeLimit), attempt))
  {
  }
}
