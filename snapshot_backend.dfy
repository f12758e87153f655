/**
 * The backend-agnostic snapshot entry points of `sentience/backends/snapshot.py`
 * other than the merge: the option dictionary handed to the extension, the
 * choice between the gateway API and the local extension, the recognition
 * of errors raised while a navigation is in flight, and `CachedSnapshot`.
 * The snapshot call itself and the wall clock are parameters.
 */
module SnapshotBackend {
  import opened Wrappers
  import opened Text
  import opened Models

  // ---------------------------------------------------------------------------
  // _build_extension_options

  /**
   * The dictionary passed to `window.sentience.snapshot`: each key is
   * present or absent.
   */
  datatype ExtOptions = ExtOptions(
    screenshot: Option<ScreenshotSetting>,
    limit: Option<int>,
    filter: Option<SnapshotFilter>)

  /** `_build_extension_options(options)` */
  function BuildExtensionOptions(o: SnapshotOptions): (e: ExtOptions)
    ensures e.screenshot.None? <==> o.screenshot == ShotFlag(false)
    ensures e.limit.None? <==> o.limit == DEFAULT_LIMIT
    ensures e.filter.None? <==> o.filter.None?
  {
    ExtOptions(
      if o.screenshot != ShotFlag(false) then Some(o.screenshot) else None,
      if o.limit != DEFAULT_LIMIT then Some(o.limit) else None,
      o.filter)
  }

  /** How the extension reads the dictionary: a missing key means its default. */
  function ExtensionView(e: ExtOptions): (ScreenshotSetting, int, Option<SnapshotFilter>) {
    (e.screenshot.GetOr(ShotFlag(false)), e.limit.GetOr(DEFAULT_LIMIT), e.filter)
  }

  /**
   * Leaving out the keys that carry defaults loses nothing: the extension
   * reads back exactly the screenshot setting, limit and filter of the options.
   */
  lemma ExtensionOptionsRoundTrip(o: SnapshotOptions)
    ensures ExtensionView(BuildExtensionOptions(o)) == (o.screenshot, o.limit, o.filter)
  {
  }

  /** Default options produce an empty dictionary; valid options send a limit in 1..500 if any. */
  lemma ExtensionOptionsDefaults(o: SnapshotOptions)
    ensures BuildExtensionOptions(DefaultSnapshotOptions()) == ExtOptions(None, None, None)
    ensures ValidSnapshotOptions(o) && BuildExtensionOptions(o).limit.Some? ==>
      1 <= BuildExtensionOptions(o).limit.value <= MAX_LIMIT
  {
  }

  // ---------------------------------------------------------------------------
  // snapshot() dispatch

  datatype Route = ViaApi | ViaExtension

  /**
   * `snapshot(backend, options)`: `use_api` when set, otherwise whether a
   * key is given, decides; the API is used only when a non-empty key is present.
   */
  function ChooseRoute(o: SnapshotOptions): (r: Route)
    ensures r == ViaApi <==>
      o.sentienceApiKey.Some? && o.sentienceApiKey.value != "" && o.useApi != Some(false)
  {
    var shouldUseApi := if o.useApi.Some? then o.useApi.value else o.sentienceApiKey.Some?;
    if shouldUseApi && o.sentienceApiKey.Some? && o.sentienceApiKey.value != "" then ViaApi
    else ViaExtension
  }

  /**
   * Options that went through the API-key defaulting with a non-empty key
   * reach the API unless `use_api` was explicitly false.
   */
  lemma ApiKeySelectsApi(o: SnapshotOptions, key: string)
    requires key != ""
    ensures ChooseRoute(WithApiKey(o, Some(key))) == ViaApi <==> o.useApi != Some(false)
  {
  }

  // ---------------------------------------------------------------------------
  // _is_execution_context_destroyed_error

  const CONTEXT_LOST_PHRASES: seq<string> := [
    "execution context was destroyed",
    "most likely because of a navigation",
    "cannot find context with specified id"
  ]

  /** `_is_execution_context_destroyed_error(e)` on `str(e)`. */
  predicate IsContextDestroyed(msg: string) {
    var m := Lower(msg);
    Contains(m, CONTEXT_LOST_PHRASES[0]) || Contains(m, CONTEXT_LOST_PHRASES[1]) || Contains(m, CONTEXT_LOST_PHRASES[2])
  }

  /** No upper-case ASCII letter in `s`, so that lower-casing leaves it as it is. */
  predicate NoUpper(s: string) {
    forall k :: 0 <= k < |s| ==> !('A' <= s[k] <= 'Z')
  }

  lemma Phrase0Lower() ensures NoUpper(CONTEXT_LOST_PHRASES[0]) { }
  lemma Phrase1Lower() ensures NoUpper(CONTEXT_LOST_PHRASES[1]) { }
  lemma Phrase2Lower() ensures NoUpper(CONTEXT_LOST_PHRASES[2]) { }

  /** The check ignores letter case. */
  lemma ContextDestroyedIgnoresCase(msg: string)
    ensures IsContextDestroyed(Lower(msg)) == IsContextDestroyed(msg)
  {
    LowerIdempotent(msg);
  }

  /** Any message with one of the phrases anywhere in it is recognised. */
  lemma ContextDestroyedDetected(pre: string, post: string, i: nat)
    requires i < |CONTEXT_LOST_PHRASES|
    ensures IsContextDestroyed(pre + CONTEXT_LOST_PHRASES[i] + post)
  {
    var p := CONTEXT_LOST_PHRASES[i];
    var msg := pre + p + post;
    if i == 0 { Phrase0Lower(); } else if i == 1 { Phrase1Lower(); } else { Phrase2Lower(); }
    var m := Lower(msg);
    assert m[|pre|..|pre| + |p|] == p by {
      forall k | 0 <= k < |p| ensures m[|pre| + k] == p[k] {
        assert msg[|pre| + k] == p[k];
      }
    }
    ContainsAt(m, p, |pre|);
  }

  // ---------------------------------------------------------------------------
  // CachedSnapshot

  /** `options or self._options`: the options of the call win when given. */
  function RequestOptions(call: Option<SnapshotOptions>, dflt: Option<SnapshotOptions>): Option<SnapshotOptions> {
    if call.Some? then call else dflt
  }

  /**
   * A snapshot kept for at most `maxAgeMs` milliseconds. Time is a
   * millisecond clock passed to each call; the snapshot call is a function
   * from the options it is given to the snapshot it returns.
   */
  class CachedSnapshot {
    const maxAgeMs: int
    const options: Option<SnapshotOptions>
    var cached: Option<Snapshot>
    var cachedAtMs: int
    var cachedUrl: Option<string>

    /** `CachedSnapshot(backend, max_age_ms=2000, options=None)` */
    constructor (maxAgeMs: int, options: Option<SnapshotOptions>)
      ensures this.maxAgeMs == maxAgeMs && this.options == options
      ensures cached.None? && cachedAtMs == 0 && cachedUrl.None?
    {
      this.maxAgeMs := maxAgeMs;
      this.options := options;
      cached := None;
      cachedAtMs := 0;
      cachedUrl := None;
    }

    /** `_is_stale()`: nothing cached, or older than the maximum age. */
    predicate IsStale(nowMs: int)
      reads this
    {
      cached.None? || nowMs - cachedAtMs > maxAgeMs
    }

    /** `is_cached` */
    predicate IsCached()
      reads this
    {
      cached.Some?
    }

    /** `age_ms`, with `None` for the infinite age of an empty cache. */
    function AgeMs(nowMs: int): (age: Option<int>)
      reads this
      ensures age.None? <==> !IsCached()
      ensures age.Some? ==> (IsStale(nowMs) <==> age.value > maxAgeMs)
    {
      if cached.None? then None else Some(nowMs - cachedAtMs)
    }

    /**
     * `get(options, force_refresh)`: a new snapshot is taken exactly when
     * refreshing is forced or the cache is stale at `nowMs`; it is stamped
     * with `doneMs`, the clock read once the snapshot has arrived. Otherwise
     * the cached one is returned and nothing changes.
     */
    method Get(nowMs: int, doneMs: int, call: Option<SnapshotOptions>, forceRefresh: bool,
               take: Option<SnapshotOptions> -> Snapshot)
      returns (s: Snapshot, refreshed: bool)
      modifies this
      ensures refreshed <==> forceRefresh || old(IsStale(nowMs))
      ensures refreshed ==>
        && s == take(RequestOptions(call, options))
        && cached == Some(s) && cachedAtMs == doneMs && cachedUrl == Some(s.url)
      ensures !refreshed ==>
        && s == old(cached).value
        && cached == old(cached) && cachedAtMs == old(cachedAtMs) && cachedUrl == old(cachedUrl)
      ensures cached == Some(s)
      ensures maxAgeMs >= 0 ==> !IsStale(doneMs) || !refreshed
    {
      refreshed := forceRefresh || IsStale(nowMs);
      if refreshed {
        var taken := take(RequestOptions(call, options));
        cached := Some(taken);
        cachedAtMs := doneMs;
        cachedUrl := Some(taken.url);
      }
      s := cached.value;
    }

    /** `invalidate()`: the cache is empty and stale at every instant. */
    method Invalidate()
      modifies this
      ensures cached.None? && cachedAtMs == 0 && cachedUrl.None?
      ensures !IsCached() && forall t :: IsStale(t)
    {
      cached := None;
      cachedAtMs := 0;
      cachedUrl := None;
    }
  }

  /**
   * Within the maximum age a second `get` returns the snapshot the first
   * one produced without taking a new one.
   */
  lemma CacheHitWithinAge(c: CachedSnapshot, nowMs: int, laterMs: int)
    requires c.cached.Some? && c.cachedAtMs == nowMs && nowMs <= laterMs <= nowMs + c.maxAgeMs
    ensures !c.IsStale(laterMs)
  {
  }
}
