/**
 * `FailureArtifactBuffer`: a time-windowed buffer of screenshot frames and
 * an append-only step log, written out at most once together with a
 * manifest. Time is an injected millisecond clock; files, ffmpeg and the
 * `on_before_persist` hook are replaced by the values they produce.
 */
module FailureArtifacts {
  import opened Wrappers
  import opened Text
  import opened Json

  datatype ClipMode = ClipOff | ClipAuto | ClipOn

  datatype ClipOptions = ClipOptions(mode: ClipMode, fps: int)

  /** `FailureArtifactsOptions`; `buffer_seconds` is held in milliseconds. */
  datatype ArtifactOptions = ArtifactOptions(
    bufferMs: int,
    captureOnAction: bool,
    persistAlways: bool,
    outputDir: string,
    redactSnapshotValues: bool,
    clip: ClipOptions)

  function DefaultArtifactOptions(): (o: ArtifactOptions)
    ensures o.bufferMs == 15000 && o.redactSnapshotValues && o.clip.mode == ClipAuto && o.clip.fps == 8
  {
    ArtifactOptions(15000, true, false, ".sentience/artifacts", true, ClipOptions(ClipAuto, 8))
  }

  /** `_FrameRecord` */
  datatype FrameRecord = FrameRecord(tsMs: int, fileName: string, path: string)

  /** One entry of the step log. */
  datatype StepEntry = StepEntry(tsMs: int, action: string, stepId: Option<string>, stepIndex: Option<int>, url: Option<string>)

  /** A frame file name: "frame_", the capture time in milliseconds, a dot and the format. */
  function FrameFileName(tsMs: int, fmt: string): string {
    "frame_" + IntToString(tsMs) + "." + fmt
  }

  function Max(a: int, b: int): int { if a < b then b else a }

  /** The oldest timestamp `_prune` keeps: `now - max(0, buffer_seconds)`. */
  function Cutoff(nowMs: int, bufferMs: int): (c: int)
    ensures c <= nowMs
  {
    nowMs - Max(0, bufferMs)
  }

  /** The frames with a timestamp at or after the cutoff, in their order. */
  function KeepRecent(fs: seq<FrameRecord>, cutoff: int): (r: seq<FrameRecord>)
    ensures |r| <= |fs|
  {
    if fs == [] then []
    else KeepRecent(fs[..|fs| - 1], cutoff) + (if fs[|fs| - 1].tsMs >= cutoff then [fs[|fs| - 1]] else [])
  }

  /** A frame survives pruning exactly when it is recent enough. */
  lemma {:induction false} KeepRecentMembers(fs: seq<FrameRecord>, cutoff: int, f: FrameRecord)
    ensures f in KeepRecent(fs, cutoff) <==> f in fs && f.tsMs >= cutoff
  {
    if fs != [] {
      KeepRecentMembers(fs[..|fs| - 1], cutoff, f);
      assert fs == fs[..|fs| - 1] + [fs[|fs| - 1]];
    }
  }

  /** Pruning again at the same cutoff removes nothing more. */
  lemma {:induction false} KeepRecentIdempotent(fs: seq<FrameRecord>, cutoff: int)
    ensures KeepRecent(KeepRecent(fs, cutoff), cutoff) == KeepRecent(fs, cutoff)
  {
    if fs != [] {
      var init := fs[..|fs| - 1];
      KeepRecentIdempotent(init, cutoff);
      var k := KeepRecent(init, cutoff);
      if fs[|fs| - 1].tsMs >= cutoff {
        var r := k + [fs[|fs| - 1]];
        assert r[..|r| - 1] == k;
      } else {
        assert KeepRecent(fs, cutoff) == k;
      }
    }
  }

  /** Frames in the order their (non-decreasing) timestamps were taken. */
  predicate TsSorted(fs: seq<FrameRecord>) {
    forall i, j :: 0 <= i < j < |fs| ==> fs[i].tsMs <= fs[j].tsMs
  }

  lemma {:induction false} KeepNoneBelow(fs: seq<FrameRecord>, cutoff: int)
    requires forall i :: 0 <= i < |fs| ==> fs[i].tsMs < cutoff
    ensures KeepRecent(fs, cutoff) == []
  {
    if fs != [] {
      KeepNoneBelow(fs[..|fs| - 1], cutoff);
    }
  }

  /**
   * With frames in time order, pruning drops a prefix: the buffer loses its
   * oldest frames first and keeps the most recent ones as they were.
   */
  lemma {:induction false} KeepRecentIsSuffix(fs: seq<FrameRecord>, cutoff: int)
    requires TsSorted(fs)
    ensures KeepRecent(fs, cutoff) == fs[|fs| - |KeepRecent(fs, cutoff)|..]
  {
    if fs != [] {
      var init := fs[..|fs| - 1];
      var last := fs[|fs| - 1];
      KeepRecentIsSuffix(init, cutoff);
      if last.tsMs < cutoff {
        KeepNoneBelow(init, cutoff);
      }
    }
  }

  /** What `on_before_persist` returned. */
  datatype RedactionResult = RedactionResult(
    snapshot: Option<Json>,
    diagnostics: Option<Json>,
    framePaths: Option<seq<string>>,
    dropFrames: bool)

  /** Whether the hook is configured and how its call ended. */
  datatype HookOutcome = NoHook | HookReturned(result: RedactionResult) | HookRaised

  datatype RunStatus = RunFailure | RunSuccess

  /** The manifest written next to the artifacts. */
  datatype Manifest = Manifest(
    runId: string,
    createdAtMs: int,
    status: RunStatus,
    reason: Option<string>,
    bufferMs: int,
    frameCount: nat,
    frames: seq<string>,
    snapshot: Option<string>,
    diagnostics: Option<string>,
    clip: Option<string>,
    clipFps: Option<int>,
    metadata: seq<Field>,
    framesRedacted: bool,
    framesDropped: bool)

  /** What one call of `persist` produced. */
  datatype PersistOutcome =
    | AlreadyPersisted
    | Written(runDir: string, manifest: Manifest, snapshot: Option<Json>, diagnostics: Option<Json>,
              steps: seq<StepEntry>, copiedFrames: seq<string>)
    | PersistFailed(error: string)

  /** What follows the last "/" of `p`, all of `p` when it has none. */
  function LastSegment(p: string): (seg: string)
    ensures '/' !in seg
    ensures |seg| <= |p| && seg == p[|p| - |seg|..]
    ensures |seg| < |p| ==> p[|p| - |seg| - 1] == '/'
  {
    if p == [] then []
    else if p[|p| - 1] == '/' then []
    else LastSegment(p[..|p| - 1]) + [p[|p| - 1]]
  }

  /**
   * `Path(p).name`: the last segment of `p` that is neither empty nor ".",
   * since a trailing separator and "." segments are dropped when the path
   * is parsed; empty when there is no such segment.
   */
  function BaseName(p: string): (n: string)
    ensures '/' !in n && n != "."
    ensures |n| <= |p|
    decreases |p|
  {
    var seg := LastSegment(p);
    if seg != [] && seg != "." then seg
    else if |seg| == |p| then []
    else BaseName(p[..|p| - |seg| - 1])
  }

  /** A file name inside a directory is what `Path(...).name` gives back. */
  lemma BaseNameOfJoin(dir: string, name: string)
    requires '/' !in name && name != [] && name != "."
    ensures BaseName(dir + "/" + name) == name
  {
    LastSegmentOfJoin(dir, name);
  }

  /** The text after the last separator of directory/name is the name. */
  lemma {:induction false} LastSegmentOfJoin(dir: string, name: string)
    requires '/' !in name
    ensures LastSegment(dir + "/" + name) == name
  {
    if name != [] {
      var p := dir + "/" + name;
      assert p[..|p| - 1] == dir + "/" + name[..|name| - 1];
      LastSegmentOfJoin(dir, name[..|name| - 1]);
      assert name == name[..|name| - 1] + [name[|name| - 1]];
    } else {
      assert (dir + "/" + name)[|dir + "/" + name| - 1] == '/';
    }
  }

  /** A trailing separator and a trailing "." segment leave the name unchanged. */
  lemma BaseNameIgnoresTrailing(p: string)
    ensures BaseName(p + "/") == BaseName(p)
    ensures BaseName(p + "/.") == BaseName(p)
  {
    var q := p + "/";
    assert LastSegment(q) == [];
    assert q[..|q| - 1] == p;
    var r := p + "/.";
    assert r[..|r| - 1] == q;
    assert LastSegment(r) == LastSegment(q) + ['.'];
    assert r[..|r| - 2] == p;
  }

  function BaseNames(ps: seq<string>): (ns: seq<string>)
    ensures |ns| == |ps|
    ensures forall i :: 0 <= i < |ps| ==> ns[i] == BaseName(ps[i])
  {
    if ps == [] then [] else [BaseName(ps[0])] + BaseNames(ps[1..])
  }

  function PathsOf(fs: seq<FrameRecord>): (ps: seq<string>)
    ensures |ps| == |fs|
    ensures forall i :: 0 <= i < |fs| ==> ps[i] == fs[i].path
  {
    if fs == [] then [] else [fs[0].path] + PathsOf(fs[1..])
  }

  /**
   * The manifest fields derived from the frame decision: dropped frames
   * leave no count and no list; the frames count as redacted when a hook
   * ran and let them through.
   */
  function BuildManifest(runId: string, tsMs: int, status: RunStatus, reason: Option<string>, opts: ArtifactOptions,
                         framePaths: seq<string>, dropFrames: bool, hookSet: bool,
                         snapshot: Option<Json>, diagnostics: Option<Json>, clipGenerated: bool,
                         metadata: Option<seq<Field>>): (m: Manifest)
    ensures dropFrames ==> m.frameCount == 0 && m.frames == [] && m.framesDropped
    ensures !dropFrames ==> m.frameCount == |framePaths| && m.frames == BaseNames(framePaths) && !m.framesDropped
    ensures m.framesRedacted <==> !dropFrames && hookSet
    ensures m.clip.Some? <==> clipGenerated
    ensures m.snapshot.Some? <==> snapshot.Some?
    ensures m.diagnostics.Some? <==> diagnostics.Some?
  {
    Manifest(
      runId, tsMs, status, reason, opts.bufferMs,
      if dropFrames then 0 else |framePaths|,
      if dropFrames then [] else BaseNames(framePaths),
      if snapshot.Some? then Some("snapshot.json") else None,
      if diagnostics.Some? then Some("diagnostics.json") else None,
      if clipGenerated then Some("failure.mp4") else None,
      if clipGenerated then Some(opts.clip.fps) else None,
      metadata.GetOr([]),
      !dropFrames && hookSet,
      dropFrames)
  }

  /** A clip is attempted only for kept, non-empty frames and a mode other than "off". */
  predicate ClipAttempted(opts: ArtifactOptions, framePaths: seq<string>, dropFrames: bool) {
    !dropFrames && |framePaths| > 0 && opts.clip.mode != ClipOff
  }

  // ---------------------------------------------------------------------------
  // _redact_snapshot_defaults

  const SENSITIVE_INPUT_TYPES: set<string> := {"password", "email", "tel"}

  /**
   * Whether an element's input type, lower-cased and empty when unset, is a
   * sensitive one; a truthy input type that is not a string cannot be
   * lower-cased and raises.
   */
  function IsSensitive(fields: seq<Field>): Result<bool, string> {
    var t := Get(fields, "input_type");
    if t.None? || !Truthy(t.value) then Success(false)
    else if t.value.JStr? then Success(Lower(t.value.s) in SENSITIVE_INPUT_TYPES)
    else Failure("AttributeError: input_type has no lower()")
  }

  /** Whether `el` is a dictionary that the redaction rewrites. */
  predicate Redactable(el: Json) {
    el.JObj? && IsSensitive(el.fields) == Success(true) && HasKey(el.fields, "value")
  }

  /** One element of the list: copied with its value blanked, or left as it is. */
  function RedactElement(el: Json): (r: Result<Json, string>)
    ensures r.Success? && !Redactable(el) ==> r.value == el
    ensures r.Success? && Redactable(el) ==>
      && r.value.JObj?
      && Get(r.value.fields, "value") == Some(JNull)
      && Get(r.value.fields, "value_redacted") == Some(JBool(true))
      && forall k :: k != "value" && k != "value_redacted" ==> Get(r.value.fields, k) == Get(el.fields, k)
  {
    if !el.JObj? then Success(el)
    else
      var sensitive :- IsSensitive(el.fields);
      if sensitive && HasKey(el.fields, "value") then
        var f1 := Set(el.fields, "value", JNull);
        var f2 := Set(f1, "value_redacted", JBool(true));
        assert forall k :: Get(f2, k) == if k == "value_redacted" then Some(JBool(true)) else Get(f1, k) by {
          forall k { SetFacts(f1, "value_redacted", JBool(true), k); }
        }
        assert forall k :: Get(f1, k) == if k == "value" then Some(JNull) else Get(el.fields, k) by {
          forall k { SetFacts(el.fields, "value", JNull, k); }
        }
        Success(JObj(f2))
      else Success(el)
  }

  /** The loop over `elements`, which keeps count and order. */
  function RedactElements(els: seq<Json>): (r: Result<seq<Json>, string>)
    ensures r.Success? ==> |r.value| == |els|
    ensures r.Success? ==> forall i :: 0 <= i < |els| ==> RedactElement(els[i]) == Success(r.value[i])
  {
    if els == [] then Success([])
    else
      var head :- RedactElement(els[0]);
      var tail :- RedactElements(els[1..]);
      assert forall i :: 1 <= i < |els| ==> els[i] == els[1..][i - 1];
      Success([head] + tail)
  }

  /**
   * `_redact_snapshot_defaults(payload)`: anything but a dictionary with an
   * `elements` list comes back unchanged; otherwise that list is replaced
   * by its redacted copy and every other key is kept.
   */
  function RedactSnapshot(payload: Json): (r: Result<Json, string>)
    ensures !payload.JObj? ==> r == Success(payload)
    ensures payload.JObj? && !(Get(payload.fields, "elements").Some? && Get(payload.fields, "elements").value.JList?) ==>
      r == Success(payload)
    ensures r.Success? && payload.JObj? && Get(payload.fields, "elements").Some? && Get(payload.fields, "elements").value.JList? ==>
      && r.value.JObj?
      && RedactElements(Get(payload.fields, "elements").value.items).Success?
      && Get(r.value.fields, "elements") == Some(JList(RedactElements(Get(payload.fields, "elements").value.items).value))
      && forall k :: k != "elements" ==> Get(r.value.fields, k) == Get(payload.fields, k)
  {
    if !payload.JObj? then Success(payload)
    else
      var els := Get(payload.fields, "elements");
      if !(els.Some? && els.value.JList?) then Success(payload)
      else
        var redacted :- RedactElements(els.value.items);
        var out := Set(payload.fields, "elements", JList(redacted));
        assert forall k :: Get(out, k) == if k == "elements" then Some(JList(redacted)) else Get(payload.fields, k) by {
          forall k { SetFacts(payload.fields, "elements", JList(redacted), k); }
        }
        Success(JObj(out))
  }

  /** Redacting an element twice is the same as redacting it once. */
  lemma RedactElementIdempotent(el: Json)
    requires RedactElement(el).Success?
    ensures RedactElement(RedactElement(el).value) == RedactElement(el)
  {
    if Redactable(el) {
      var f1 := Set(el.fields, "value", JNull);
      var f2 := Set(f1, "value_redacted", JBool(true));
      var r := RedactElement(el).value;
      assert r == JObj(f2);
      assert IsSensitive(f2) == IsSensitive(el.fields) by {
        SetFacts(el.fields, "value", JNull, "input_type");
        SetFacts(f1, "value_redacted", JBool(true), "input_type");
      }
      assert HasKey(f2, "value") by {
        SetFacts(f1, "value_redacted", JBool(true), "value");
        SetFacts(el.fields, "value", JNull, "value");
      }
      var g1 := Set(f2, "value", JNull);
      assert g1 == f2 by {
        SetValueAgain(el.fields, f1, f2);
      }
      SetFacts(f1, "value_redacted", JBool(true), "value_redacted");
    }
  }

  /** Blanking `value` again after `value_redacted` was set changes nothing. */
  lemma SetValueAgain(fields: seq<Field>, f1: seq<Field>, f2: seq<Field>)
    requires f1 == Set(fields, "value", JNull) && f2 == Set(f1, "value_redacted", JBool(true))
    ensures Set(f2, "value", JNull) == f2
  {
    SetFacts(fields, "value", JNull, "value");
    var i := FindKey(f1, "value");
    assert i < |f1| && f1[i].value == JNull;
    var j := FindKey(f1, "value_redacted");
    assert forall m :: 0 <= m < |f1| ==> f2[m].key == f1[m].key;
    if j < |f1| {
      FindKeyByKeys(f1, f2, "value");
    } else {
      FindKeyPrefix(f1, f2, "value");
    }
    assert f2[i] == f1[i];
  }

  /** A key found in a prefix is found at the same place in the whole. */
  lemma {:induction false} FindKeyPrefix(a: seq<Field>, b: seq<Field>, k: string)
    requires a <= b && FindKey(a, k) < |a|
    ensures FindKey(b, k) == FindKey(a, k)
  {
    if a[0].key != k {
      FindKeyPrefix(a[1..], b[1..], k);
    }
  }

  /**
   * A ring buffer of frames with an append-only step log; `persisted` flips
   * once, on the first successful `persist`.
   */
  class FailureArtifactBuffer {
    const runId: string
    const options: ArtifactOptions
    const framesDir: string
    var frames: seq<FrameRecord>
    var steps: seq<StepEntry>
    var persisted: bool

    /** `FailureArtifactBuffer(run_id, options)`; `framesDir` is the temporary directory it creates. */
    constructor (runId: string, options: ArtifactOptions, framesDir: string)
      ensures this.runId == runId && this.options == options && this.framesDir == framesDir
      ensures frames == [] && steps == [] && !persisted
    {
      this.runId := runId;
      this.options := options;
      this.framesDir := framesDir;
      frames := [];
      steps := [];
      persisted := false;
    }

    /** `record_step(...)`: one entry more, and the frames are not touched. */
    method RecordStep(nowMs: int, action: string, stepId: Option<string>, stepIndex: Option<int>, url: Option<string>)
      modifies this
      ensures steps == old(steps) + [StepEntry(nowMs, action, stepId, stepIndex, url)]
      ensures frames == old(frames) && persisted == old(persisted)
    {
      steps := steps + [StepEntry(nowMs, action, stepId, stepIndex, url)];
    }

    /** `_prune()` at clock reading `nowMs`: keeps exactly the recent frames, in order. */
    method Prune(nowMs: int)
      modifies this
      ensures frames == KeepRecent(old(frames), Cutoff(nowMs, options.bufferMs))
      ensures steps == old(steps) && persisted == old(persisted)
    {
      var cutoff := Cutoff(nowMs, options.bufferMs);
      var fs := frames;
      var keep: seq<FrameRecord> := [];
      var i := 0;
      while i < |fs|
        invariant 0 <= i <= |fs|
        invariant keep == KeepRecent(fs[..i], cutoff)
      {
        assert fs[..i + 1][..i] == fs[..i];
        if fs[i].tsMs >= cutoff {
          keep := keep + [fs[i]];
        }
        i := i + 1;
      }
      assert fs[..i] == fs;
      frames := keep;
    }

    /**
     * `add_frame(image, fmt)`: the frame is stored under a name built from
     * its timestamp, then the buffer is pruned at a second clock reading.
     */
    method AddFrame(addedAtMs: int, prunedAtMs: int, fmt: string)
      modifies this
      ensures frames == KeepRecent(old(frames) + [FrameRecord(addedAtMs, FrameFileName(addedAtMs, fmt),
                                                              framesDir + "/" + FrameFileName(addedAtMs, fmt))],
                                   Cutoff(prunedAtMs, options.bufferMs))
      ensures steps == old(steps) && persisted == old(persisted)
    {
      var name := FrameFileName(addedAtMs, fmt);
      frames := frames + [FrameRecord(addedAtMs, name, framesDir + "/" + name)];
      Prune(prunedAtMs);
    }

    /** `frame_count()` */
    function FrameCount(): (n: nat)
      reads this
      ensures n == |frames|
    {
      |frames|
    }

    /**
     * `persist(...)`: nothing happens after the first successful call; the
     * first one writes what `PersistRun` describes and marks the buffer.
     */
    method Persist(nowMs: int, reason: Option<string>, status: RunStatus, snapshot: Option<Json>,
                   diagnostics: Option<Json>, metadata: Option<seq<Field>>, hook: HookOutcome,
                   ffmpegAvailable: bool, clipMade: bool)
      returns (r: PersistOutcome)
      modifies this
      ensures frames == old(frames) && steps == old(steps)
      ensures old(persisted) ==> r == AlreadyPersisted && persisted
      ensures !old(persisted) ==>
        && r == PersistRun(runId, options, frames, steps, nowMs, reason, status, snapshot, diagnostics,
                           metadata, hook, ffmpegAvailable, clipMade)
        && (persisted <==> r.Written?)
    {
      if persisted {
        return AlreadyPersisted;
      }
      r := PersistRun(runId, options, frames, steps, nowMs, reason, status, snapshot, diagnostics,
                      metadata, hook, ffmpegAvailable, clipMade);
      if r.Written? {
        persisted := true;
      }
    }
  }

  /** The payloads and frames `persist` goes on with after the hook. */
  datatype HookDecision = HookDecision(
    snapshot: Option<Json>,
    diagnostics: Option<Json>,
    framePaths: seq<string>,
    dropFrames: bool)

  /**
   * The effect of `on_before_persist`: a result replaces what it sets and
   * decides whether frames are dropped; a hook that raises drops them.
   */
  function ApplyHook(snapshot: Option<Json>, diagnostics: Option<Json>, framePaths: seq<string>,
                     hook: HookOutcome): (d: HookDecision)
    ensures hook == NoHook ==> d == HookDecision(snapshot, diagnostics, framePaths, false)
    ensures hook == HookRaised ==> d == HookDecision(snapshot, diagnostics, framePaths, true)
    ensures hook.HookReturned? ==>
      && d.dropFrames == hook.result.dropFrames
      && d.snapshot == (if hook.result.snapshot.Some? then hook.result.snapshot else snapshot)
      && d.diagnostics == (if hook.result.diagnostics.Some? then hook.result.diagnostics else diagnostics)
      && d.framePaths == hook.result.framePaths.GetOr(framePaths)
  {
    match hook
    case NoHook => HookDecision(snapshot, diagnostics, framePaths, false)
    case HookRaised => HookDecision(snapshot, diagnostics, framePaths, true)
    case HookReturned(res) =>
      HookDecision(
        if res.snapshot.Some? then res.snapshot else snapshot,
        if res.diagnostics.Some? then res.diagnostics else diagnostics,
        res.framePaths.GetOr(framePaths),
        res.dropFrames)
  }

  /**
   * What a first `persist` writes: the snapshot payload redacted when
   * configured (a redaction error propagates), the hook's decision, the
   * frames copied unless dropped, a clip only when attempted and made, and
   * the manifest recording all of it.
   */
  function PersistRun(runId: string, options: ArtifactOptions, frames: seq<FrameRecord>, steps: seq<StepEntry>,
                      nowMs: int, reason: Option<string>, status: RunStatus, snapshot: Option<Json>,
                      diagnostics: Option<Json>, metadata: Option<seq<Field>>, hook: HookOutcome,
                      ffmpegAvailable: bool, clipMade: bool): (r: PersistOutcome)
    ensures !r.AlreadyPersisted?
    ensures r.PersistFailed? <==>
      snapshot.Some? && options.redactSnapshotValues && RedactSnapshot(snapshot.value).Failure?
    ensures r.Written? ==>
      && r.runDir == options.outputDir + "/" + runId + "-" + IntToString(nowMs)
      && r.steps == steps
      && (hook == HookRaised ==> r.manifest.framesDropped && r.manifest.frameCount == 0 && r.manifest.frames == [])
      && (hook == NoHook ==> !r.manifest.framesDropped && !r.manifest.framesRedacted
                             && r.manifest.frameCount == |frames| && r.copiedFrames == PathsOf(frames))
      && (r.manifest.framesDropped ==> r.copiedFrames == [])
      && (r.manifest.clip.Some? ==>
            ffmpegAvailable && clipMade && !r.manifest.framesDropped
            && r.manifest.frameCount > 0 && options.clip.mode != ClipOff)
    ensures r.Written? ==>
      && r.manifest.runId == runId && r.manifest.createdAtMs == nowMs
      && r.manifest.status == status && r.manifest.reason == reason
      && r.manifest.bufferMs == options.bufferMs && r.manifest.metadata == metadata.GetOr([])
      && (r.manifest.snapshot.Some? <==> r.snapshot.Some?)
      && (r.manifest.diagnostics.Some? <==> r.diagnostics.Some?)
    ensures r.Written? ==>
      var input := if snapshot.Some? && options.redactSnapshotValues then Some(RedactSnapshot(snapshot.value).value)
                   else snapshot;
      var returned := hook.HookReturned?;
      var paths := if returned then hook.result.framePaths.GetOr(PathsOf(frames)) else PathsOf(frames);
      && r.snapshot == (if returned && hook.result.snapshot.Some? then hook.result.snapshot else input)
      && r.diagnostics == (if returned && hook.result.diagnostics.Some? then hook.result.diagnostics else diagnostics)
      && (r.manifest.framesDropped <==> hook.HookRaised? || (returned && hook.result.dropFrames))
      && (r.manifest.framesRedacted <==> returned && !hook.result.dropFrames)
      && (!r.manifest.framesDropped ==>
            && r.copiedFrames == paths && r.manifest.frames == BaseNames(paths) && r.manifest.frameCount == |paths|)
      && (r.manifest.clip.Some? <==>
            !r.manifest.framesDropped && |paths| > 0 && options.clip.mode != ClipOff && ffmpegAvailable && clipMade)
  {
    var redacted :=
      if snapshot.Some? && options.redactSnapshotValues then
        match RedactSnapshot(snapshot.value)
        case Success(v) => Success(Some(v))
        case Failure(e) => Failure(e)
      else Success(snapshot);
    if redacted.Failure? then PersistFailed(redacted.error)
    else
      var d := ApplyHook(redacted.value, diagnostics, PathsOf(frames), hook);
      var clipGenerated := ClipAttempted(options, d.framePaths, d.dropFrames) && ffmpegAvailable && clipMade;
      var manifest := BuildManifest(runId, nowMs, status, reason, options, d.framePaths, d.dropFrames,
                                    !hook.NoHook?, d.snapshot, d.diagnostics, clipGenerated, metadata);
      Written(options.outputDir + "/" + runId + "-" + IntToString(nowMs), manifest,
              d.snapshot, d.diagnostics, steps, if d.dropFrames then [] else d.framePaths)
  }

  /**
   * Every element of a snapshot's `elements` list that has a sensitive input
   * type and a `value` key has that value blanked.
   */
  predicate SensitiveValuesBlank(payload: Json) {
    var els := if payload.JObj? then Get(payload.fields, "elements") else None;
    els.Some? && els.value.JList? ==>
      forall i :: 0 <= i < |els.value.items| ==> ValueBlankIfSensitive(els.value.items[i])
  }

  /** A dictionary with a sensitive input type and a `value` key has that value blanked. */
  predicate ValueBlankIfSensitive(el: Json) {
    el.JObj? && IsSensitive(el.fields) == Success(true) && HasKey(el.fields, "value") ==>
      Get(el.fields, "value") == Some(JNull)
  }

  /** A redacted snapshot leaves no sensitive value behind. */
  lemma RedactSnapshotBlanksSensitive(payload: Json)
    requires RedactSnapshot(payload).Success?
    ensures SensitiveValuesBlank(RedactSnapshot(payload).value)
  {
    if payload.JObj? {
      var els := Get(payload.fields, "elements");
      if els.Some? && els.value.JList? {
        var out := RedactElements(els.value.items).value;
        forall i | 0 <= i < |out| ensures ValueBlankIfSensitive(out[i]) {
          assert RedactElement(els.value.items[i]) == Success(out[i]);
        }
      }
    }
  }

  /**
   * With redaction on, the snapshot written by a first `persist` has every
   * sensitive value blanked unless a hook supplied a snapshot of its own.
   */
  lemma PersistRunRedactsSnapshot(runId: string, options: ArtifactOptions, frames: seq<FrameRecord>, steps: seq<StepEntry>,
                                  nowMs: int, reason: Option<string>, status: RunStatus, snapshot: Option<Json>,
                                  diagnostics: Option<Json>, metadata: Option<seq<Field>>, hook: HookOutcome,
                                  ffmpegAvailable: bool, clipMade: bool)
    requires options.redactSnapshotValues
    requires hook.HookReturned? ==> hook.result.snapshot.None?
    ensures var r := PersistRun(runId, options, frames, steps, nowMs, reason, status, snapshot, diagnostics,
                                metadata, hook, ffmpegAvailable, clipMade);
      r.Written? && r.snapshot.Some? ==> SensitiveValuesBlank(r.snapshot.value)
  {
    if snapshot.Some? && RedactSnapshot(snapshot.value).Success? {
      RedactSnapshotBlanksSensitive(snapshot.value);
    }
  }

  /** The manifest of a buffer persisted without a hook lists its frames' file names. */
  lemma ManifestListsFrameNames(fs: seq<FrameRecord>, dir: string)
    requires forall i :: 0 <= i < |fs| ==>
      && fs[i].path == dir + "/" + fs[i].fileName
      && '/' !in fs[i].fileName && fs[i].fileName != [] && fs[i].fileName != "."
    ensures forall i :: 0 <= i < |fs| ==> BaseNames(PathsOf(fs))[i] == fs[i].fileName
  {
    forall i | 0 <= i < |fs| ensures BaseNames(PathsOf(fs))[i] == fs[i].fileName {
      BaseNameOfJoin(dir, fs[i].fileName);
    }
  }
}
