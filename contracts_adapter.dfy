/**
 * The authority contracts adapter: turns the runtime's assertion records
 * into verification signals, fingerprints the last snapshot into a state
 * hash, and assembles an action request for an external authority.
 * Assertions are dictionaries (`Json` objects); SHA-256 is a parameter.
 */
module ContractsAdapter {
  import opened Wrappers
  import opened Text
  import opened Json
  import opened Models
  import opened Runtime

  datatype VerificationStatus = StatusPassed | StatusFailed

  datatype VerificationSignal = VerificationSignal(
    title: string,
    status: VerificationStatus,
    required: bool,
    reason: Option<string>)

  /** The record's label as a string (empty when missing), stripped. */
  function LabelOf(assertion: seq<Field>): string {
    Strip(PyStr(Get(assertion, "label").GetOr(JStr(""))))
  }

  /** The truthiness of a record field, false when the field is missing. */
  predicate Flag(assertion: seq<Field>, k: string) {
    Truthy(Get(assertion, k).GetOr(JBool(false)))
  }

  /**
   * The signal one assertion yields: none when its stripped label is empty;
   * otherwise PASSED exactly when `passed` is truthy, `required` by
   * truthiness, and a reason only when `reason` is a non-empty string.
   */
  function SignalOf(assertion: seq<Field>): (r: Option<VerificationSignal>)
    ensures r.None? <==> LabelOf(assertion) == ""
    ensures r.Some? ==>
      && r.value.title == LabelOf(assertion) && r.value.title != ""
      && (r.value.status == StatusPassed <==> Flag(assertion, "passed"))
      && (r.value.required <==> Flag(assertion, "required"))
      && (r.value.reason.Some? <==>
            Get(assertion, "reason").Some? && Get(assertion, "reason").value.JStr?
            && Get(assertion, "reason").value.s != "")
      && (r.value.reason.Some? ==> Get(assertion, "reason") == Some(JStr(r.value.reason.value)))
  {
    var title := LabelOf(assertion);
    if title == "" then None
    else
      var reasonRaw := Get(assertion, "reason");
      Some(VerificationSignal(
        title,
        if Flag(assertion, "passed") then StatusPassed else StatusFailed,
        Flag(assertion, "required"),
        if reasonRaw.Some? && reasonRaw.value.JStr? && reasonRaw.value.s != "" then Some(reasonRaw.value.s) else None))
  }

  /** `to_verification_evidence(assertions).signals` */
  function ToVerificationEvidence(assertions: seq<seq<Field>>): (signals: seq<VerificationSignal>)
    ensures |signals| <= |assertions|
  {
    if assertions == [] then []
    else
      var rest := ToVerificationEvidence(assertions[1..]);
      var s := SignalOf(assertions[0]);
      if s.Some? then [s.value] + rest else rest
  }

  /** Evidence for a concatenation is the evidence of each part, in order. */
  lemma {:induction false} EvidenceConcat(a: seq<seq<Field>>, b: seq<seq<Field>>)
    ensures ToVerificationEvidence(a + b) == ToVerificationEvidence(a) + ToVerificationEvidence(b)
    decreases |a|
  {
    if a != [] {
      var ab := a + b;
      assert ab[0] == a[0];
      assert ab[1..] == a[1..] + b;
      EvidenceConcat(a[1..], b);
      var head := if SignalOf(a[0]).Some? then [SignalOf(a[0]).value] else [];
      assert ToVerificationEvidence(ab) == head + ToVerificationEvidence(a[1..] + b);
      assert ToVerificationEvidence(a) == head + ToVerificationEvidence(a[1..]);
      assert head + (ToVerificationEvidence(a[1..]) + ToVerificationEvidence(b)) ==
        (head + ToVerificationEvidence(a[1..])) + ToVerificationEvidence(b);
    } else {
      assert a + b == b;
    }
  }

  /** The number of assertions whose label is not blank. */
  function Labelled(assertions: seq<seq<Field>>): nat {
    if assertions == [] then 0
    else (if LabelOf(assertions[0]) != "" then 1 else 0) + Labelled(assertions[1..])
  }

  /**
   * One signal per assertion with a non-blank label, and every signal
   * carries a non-blank, stripped label taken from some assertion.
   */
  lemma {:induction false} EvidenceSignals(assertions: seq<seq<Field>>)
    ensures |ToVerificationEvidence(assertions)| == Labelled(assertions)
    ensures forall s :: s in ToVerificationEvidence(assertions) ==>
      s.title != "" && Strip(s.title) == s.title && exists a :: a in assertions && SignalOf(a) == Some(s)
    ensures forall a :: a in assertions && LabelOf(a) != "" ==> SignalOf(a).value in ToVerificationEvidence(assertions)
  {
    if assertions != [] {
      EvidenceSignals(assertions[1..]);
      var a0 := assertions[0];
      StripIdempotent(PyStr(Get(a0, "label").GetOr(JStr(""))));
      var signals := ToVerificationEvidence(assertions);
      forall s | s in signals
        ensures s.title != "" && Strip(s.title) == s.title && exists a :: a in assertions && SignalOf(a) == Some(s)
      {
        if SignalOf(a0) == Some(s) {
          assert a0 in assertions;
        } else {
          var a :| a in assertions[1..] && SignalOf(a) == Some(s);
          assert a in assertions;
        }
      }
      forall a | a in assertions && LabelOf(a) != "" ensures SignalOf(a).value in signals {
        if a != a0 {
          assert a in assertions[1..];
        }
      }
    }
  }

  /** Assertions with blank labels contribute nothing. */
  lemma BlankLabelsDropped(assertions: seq<seq<Field>>, a: seq<Field>)
    requires LabelOf(a) == ""
    ensures ToVerificationEvidence([a] + assertions) == ToVerificationEvidence(assertions)
  {
    assert ([a] + assertions)[1..] == assertions;
  }

  /** The dictionary `_record_outcome` stores for one assertion, without its `details`. */
  function RecordFields(rec: AssertionRecord): seq<Field> {
    [Field("label", JStr(rec.title)), Field("passed", JBool(rec.passed)),
     Field("required", JBool(rec.required)), Field("reason", JStr(rec.reason))]
  }

  function RecordsFields(recs: seq<AssertionRecord>): (fs: seq<seq<Field>>)
    ensures |fs| == |recs| && forall i :: 0 <= i < |recs| ==> fs[i] == RecordFields(recs[i])
  {
    if recs == [] then [] else [RecordFields(recs[0])] + RecordsFields(recs[1..])
  }

  /**
   * A runtime record with a stripped, non-blank label becomes the signal
   * with that label, its pass/fail and required flags, and its reason when
   * non-empty.
   */
  lemma RecordSignal(rec: AssertionRecord)
    requires rec.title != "" && Strip(rec.title) == rec.title
    ensures SignalOf(RecordFields(rec)) == Some(VerificationSignal(
      rec.title,
      if rec.passed then StatusPassed else StatusFailed,
      rec.required,
      if rec.reason != "" then Some(rec.reason) else None))
  {
    var fs := RecordFields(rec);
    assert fs[0].key == "label" && fs[1].key == "passed" && fs[2].key == "required" && fs[3].key == "reason";
    assert FindKey(fs, "passed") == 1;
    assert FindKey(fs, "required") == 2;
    assert FindKey(fs, "reason") == 3;
    assert Get(fs, "label") == Some(JStr(rec.title));
    assert Get(fs, "passed") == Some(JBool(rec.passed));
    assert Get(fs, "required") == Some(JBool(rec.required));
    assert Get(fs, "reason") == Some(JStr(rec.reason));
  }

  /** Two records, one passing with no reason and one failing with a reason, give two signals in order. */
  lemma TwoRecordsExample()
    ensures ToVerificationEvidence(RecordsFields([AssertionRecord("a", true, true, ""),
                                                  AssertionRecord("b", false, false, "missing")])) ==
      [VerificationSignal("a", StatusPassed, true, None), VerificationSignal("b", StatusFailed, false, Some("missing"))]
  {
    var ra := AssertionRecord("a", true, true, "");
    var rb := AssertionRecord("b", false, false, "missing");
    assert Strip("a") == "a";
    assert Strip("b") == "b";
    RecordSignal(ra);
    RecordSignal(rb);
    var fs := RecordsFields([ra, rb]);
    assert fs == [RecordFields(ra), RecordFields(rb)];
    assert fs[1..] == [RecordFields(rb)];
    assert fs[1..][1..] == [];
  }

  // ---------------------------------------------------------------------------
  // state evidence

  /**
   * What `_snapshot_state_hash` hashes: the snapshot's URL followed by its
   * timestamp when either is non-empty, else the step id when non-empty,
   * else "missing_snapshot". It is never empty.
   */
  function HashMaterial(snapshot: Option<Snapshot>, stepId: Option<string>): (m: string)
    ensures m != ""
    ensures var url := if snapshot.Some? then snapshot.value.url else "";
      var ts := if snapshot.Some? && snapshot.value.timestamp.Some? then snapshot.value.timestamp.value else "";
      && (url != "" || ts != "" ==> m == url + ts)
      && (url == "" && ts == "" && stepId.Some? && stepId.value != "" ==> m == stepId.value)
      && (url == "" && ts == "" && (stepId.None? || stepId.value == "") ==> m == "missing_snapshot")
  {
    var url := if snapshot.Some? then snapshot.value.url else "";
    var ts := if snapshot.Some? && snapshot.value.timestamp.Some? then snapshot.value.timestamp.value else "";
    if url != "" || ts != "" then url + ts
    else if stepId.Some? && stepId.value != "" then stepId.value
    else "missing_snapshot"
  }

  /** `_snapshot_state_hash(snapshot, step_id)`, `sha256` giving the hex digest of a string's UTF-8 bytes. */
  function StateHash(snapshot: Option<Snapshot>, stepId: Option<string>, sha256: string -> string): (h: string)
    ensures |h| >= 7 && h[..7] == "sha256:"
    ensures h[7..] == sha256(HashMaterial(snapshot, stepId))
  {
    "sha256:" + sha256(HashMaterial(snapshot, stepId))
  }

  /** A snapshot with a URL or a timestamp fixes the hash whatever the step id. */
  lemma SnapshotHashIgnoresStep(snap: Snapshot, a: Option<string>, b: Option<string>, sha256: string -> string)
    requires snap.url != "" || (snap.timestamp.Some? && snap.timestamp.value != "")
    ensures StateHash(Some(snap), a, sha256) == StateHash(Some(snap), b, sha256)
  {
  }

  /** Without a snapshot, distinct non-empty step ids are hashed from distinct material. */
  lemma StepIdsHashedApart(a: string, b: string)
    requires a != "" && b != "" && a != b
    ensures HashMaterial(None, Some(a)) != HashMaterial(None, Some(b))
  {
  }

  datatype StateEvidence = StateEvidence(source: string, stateHash: string)

  // ---------------------------------------------------------------------------
  // the action request

  datatype AuthorityActionInput = AuthorityActionInput(
    principalId: string,
    action: string,
    resource: string,
    intent: string,
    tenantId: Option<string>,
    sessionId: Option<string>,
    stateSource: string)

  function ActionInput(principalId: string, action: string, resource: string, intent: string): (i: AuthorityActionInput)
    ensures i.tenantId.None? && i.sessionId.None? && i.stateSource == "sdk-python"
  {
    AuthorityActionInput(principalId, action, resource, intent, None, None, "sdk-python")
  }

  datatype PrincipalRef = PrincipalRef(principalId: string, tenantId: Option<string>, sessionId: Option<string>)
  datatype ActionSpec = ActionSpec(action: string, resource: string, intent: string)

  datatype ActionRequest = ActionRequest(
    principal: PrincipalRef,
    actionSpec: ActionSpec,
    stateEvidence: StateEvidence,
    verificationEvidence: seq<VerificationSignal>)

  /**
   * `build_action_request_from_runtime(runtime, action_input)`: the
   * principal and the action are copied from the input; the state evidence
   * hashes the runtime's last snapshot and step id under the input's
   * source; the verification evidence comes from this step's assertions.
   */
  method BuildActionRequest(runtime: AgentRuntime, input: AuthorityActionInput, sha256: string -> string)
    returns (req: ActionRequest)
    ensures req.principal == PrincipalRef(input.principalId, input.tenantId, input.sessionId)
    ensures req.actionSpec == ActionSpec(input.action, input.resource, input.intent)
    ensures req.stateEvidence.source == input.stateSource
    ensures req.stateEvidence.stateHash == StateHash(runtime.lastSnapshot, runtime.stepId, sha256)
    ensures req.verificationEvidence == ToVerificationEvidence(RecordsFields(runtime.assertions))
  {
    var payload := runtime.GetAssertionsForStepEnd();
    var evidence := ToVerificationEvidence(RecordsFields(payload.assertions));
    var state := StateEvidence(input.stateSource, StateHash(runtime.lastSnapshot, runtime.stepId, sha256));
    req := ActionRequest(
      PrincipalRef(input.principalId, input.tenantId, input.sessionId),
      ActionSpec(input.action, input.resource, input.intent),
      state,
      evidence);
  }
}
