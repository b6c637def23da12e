/**
  Decision proofs, their hash payload, and the offline verifier for single
  proofs and chains (provable_ai/schema.py, provable_ai/verifier.py).
 */
module ProofModel {
  import opened Prelude
  import opened Sorting
  import opened Json
  import opened Canonical

  datatype Mode = StrictDeterministic | ReplayWithSeed | ReplayWithRecordedIO

  datatype Decision = Decision(fromState: string, toState: string)

  datatype Feature = Feature(name: string, value: string)

  /** `features` are dictionaries from text to text; `metadata` is any Python value. */
  datatype Context = Context(
    reasonCode: string, policyRule: string, modelVersion: string, inputsHash: string,
    features: seq<seq<Feature>>, threshold: Option<string>, metadata: Value)

  datatype Governance = Governance(modelVersion: string, agentVersion: string, policyVersion: string)

  datatype Determinism = Determinism(mode: Mode, seed: Option<string>, externalCallsHash: Option<string>)

  datatype LedgerInfo = LedgerInfo(sequenceId: int, previousHash: string, currentHash: string, timestamp: string)

  datatype Signature = Signature(keyId: string, publicKey: string, value: string)

  datatype Proof = Proof(
    instanceId: string, decision: Decision, context: Context, governance: Governance,
    determinism: Determinism, ledger: LedgerInfo, signature: Signature)

  // ---- model_dump(mode="json") ----

  function ModeText(m: Mode): string {
    match m
    case StrictDeterministic => "strict_deterministic"
    case ReplayWithSeed => "replay_with_seed"
    case ReplayWithRecordedIO => "replay_with_recorded_io"
  }

  const DECISION_KEYS: seq<string> := ["from_state", "to_state"]
  const CONTEXT_KEYS: seq<string> :=
    ["reason_code", "policy_rule", "model_version", "inputs_hash", "feature_contributions", "threshold_used", "metadata"]
  const GOVERNANCE_KEYS: seq<string> := ["model_version", "agent_version", "policy_version"]
  const DETERMINISM_KEYS: seq<string> := ["mode", "seed", "external_calls_hash"]

  function DecisionFields(d: Decision): seq<Value> { [Str(d.fromState), Str(d.toState)] }
  function GovernanceFields(g: Governance): seq<Value> { [Str(g.modelVersion), Str(g.agentVersion), Str(g.policyVersion)] }
  function DeterminismFields(d: Determinism): seq<Value> { [Str(ModeText(d.mode)), Text(d.seed), Text(d.externalCallsHash)] }

  function DecisionValue(d: Decision): Value { Obj(DECISION_KEYS, DecisionFields(d)) }
  function GovernanceValue(g: Governance): Value { Obj(GOVERNANCE_KEYS, GovernanceFields(g)) }
  function DeterminismValue(d: Determinism): Value { Obj(DETERMINISM_KEYS, DeterminismFields(d)) }

  function FeatureNames(fs: seq<Feature>): (r: seq<string>)
    ensures |r| == |fs|
  {
    seq(|fs|, i requires 0 <= i < |fs| => fs[i].name)
  }

  function FeatureTexts(fs: seq<Feature>): (r: seq<Value>)
    ensures |r| == |fs|
    ensures forall i :: 0 <= i < |fs| ==> Plain(r[i])
  {
    seq(|fs|, i requires 0 <= i < |fs| => Str(fs[i].value))
  }

  function FeatureValue(fs: seq<Feature>): Value { Obj(FeatureNames(fs), FeatureTexts(fs)) }

  function FeatureList(fss: seq<seq<Feature>>): Value {
    List(seq(|fss|, i requires 0 <= i < |fss| => FeatureValue(fss[i])))
  }

  function ContextFields(c: Context): seq<Value> {
    [Str(c.reasonCode), Str(c.policyRule), Str(c.modelVersion), Str(c.inputsHash),
     FeatureList(c.features), Text(c.threshold), c.metadata]
  }

  function ContextValue(c: Context): Value { Obj(CONTEXT_KEYS, ContextFields(c)) }

  /** `build_hash_payload`: decision, context, governance, determinism, link and position. */
  function PayloadFields(p: Proof): seq<Value> {
    [DecisionValue(p.decision), ContextValue(p.context), GovernanceValue(p.governance),
     DeterminismValue(p.determinism), Str(p.ledger.previousHash), Int(p.ledger.sequenceId)]
  }

  function PayloadValue(p: Proof): Value {
    Obj(HASH_FIELDS, PayloadFields(p))
  }

  /** The bytes that are hashed; `None` when the metadata is not canonical-safe. */
  function PayloadBytes(p: Proof): Option<Bytes> {
    CanonicalEncode(PayloadValue(p))
  }

  /** What holds of every proof object: dictionaries have distinct keys. */
  ghost predicate IsProofObject(p: Proof) {
    && IsPython(p.context.metadata)
    && forall i :: 0 <= i < |p.context.features| ==> NoDuplicates(FeatureNames(p.context.features[i]))
  }

  lemma KeysDistinct()
    ensures NoDuplicates(DECISION_KEYS) && NoDuplicates(CONTEXT_KEYS)
    ensures NoDuplicates(GOVERNANCE_KEYS) && NoDuplicates(DETERMINISM_KEYS)
  {
  }

  lemma PlainRecord(names: seq<string>, values: seq<Value>)
    requires |names| == |values| && NoDuplicates(names) && forall i :: 0 <= i < |values| ==> Plain(values[i])
    ensures Validated(Obj(names, values)) && IsPython(Obj(names, values))
  {
    PlainValidated(values);
    ObjValidated(names, values);
    ObjIsPython(names, values);
  }

  lemma PlainRecordSame(names: seq<string>, xs: seq<Value>, ys: seq<Value>)
    requires |names| == |xs| == |ys| && NoDuplicates(names)
    requires forall i :: 0 <= i < |xs| ==> Plain(xs[i]) && Plain(ys[i])
    requires Same(Obj(names, xs), Obj(names, ys))
    ensures xs == ys
  {
    ObjSame(names, xs, ys);
    forall i | 0 <= i < |xs| ensures xs[i] == ys[i] { assert Plain(xs[i]) && Same(xs[i], ys[i]); }
  }

  lemma FeatureListIsPython(fss: seq<seq<Feature>>)
    requires forall i :: 0 <= i < |fss| ==> NoDuplicates(FeatureNames(fss[i]))
    ensures Validated(FeatureList(fss)) && IsPython(FeatureList(fss))
  {
    forall i | 0 <= i < |fss| ensures Validated(FeatureValue(fss[i])) && IsPython(FeatureValue(fss[i])) {
      PlainRecord(FeatureNames(fss[i]), FeatureTexts(fss[i]));
    }
  }

  lemma ContextIsPython(c: Context)
    requires IsPython(c.metadata)
    requires forall i :: 0 <= i < |c.features| ==> NoDuplicates(FeatureNames(c.features[i]))
    ensures IsPython(ContextValue(c))
    ensures Validated(ContextValue(c)) <==> Validated(c.metadata)
  {
    KeysDistinct();
    FeatureListIsPython(c.features);
    var fs := ContextFields(c);
    assert forall i :: 0 <= i < 7 ==> IsPython(fs[i]);
    ObjIsPython(CONTEXT_KEYS, fs);
    ObjValidated(CONTEXT_KEYS, fs);
    assert fs[6] == c.metadata;
    assert forall i :: 0 <= i < 6 ==> Validated(fs[i]);
  }

  /** A payload encodes exactly when its metadata is canonical-safe. */
  lemma PayloadIsPython(p: Proof)
    requires IsProofObject(p)
    ensures IsPython(PayloadValue(p))
    ensures PayloadBytes(p).Some? <==> Validated(p.context.metadata)
  {
    KeysDistinct();
    HashFieldsDistinct();
    ContextIsPython(p.context);
    PlainRecord(DECISION_KEYS, DecisionFields(p.decision));
    PlainRecord(GOVERNANCE_KEYS, GovernanceFields(p.governance));
    PlainRecord(DETERMINISM_KEYS, DeterminismFields(p.determinism));
    var fs := PayloadFields(p);
    assert forall i :: 0 <= i < 6 ==> IsPython(fs[i]);
    ObjIsPython(HASH_FIELDS, fs);
    ObjValidated(HASH_FIELDS, fs);
    assert fs[1] == ContextValue(p.context);
    assert forall i :: 0 <= i < 6 && i != 1 ==> Validated(fs[i]);
  }

  /** The six hashed fields agree; dictionaries inside the context up to key order. */
  ghost predicate SameHashedFields(p: Proof, q: Proof) {
    && p.decision == q.decision
    && Same(ContextValue(p.context), ContextValue(q.context))
    && p.governance == q.governance
    && p.determinism == q.determinism
    && p.ledger.previousHash == q.ledger.previousHash
    && p.ledger.sequenceId == q.ledger.sequenceId
  }

  lemma SamePayloadSameFields(p: Proof, q: Proof)
    requires Same(PayloadValue(p), PayloadValue(q))
    ensures SameHashedFields(p, q)
  {
    KeysDistinct();
    HashFieldsDistinct();
    var xs, ys := PayloadFields(p), PayloadFields(q);
    ObjSame(HASH_FIELDS, xs, ys);
    assert Same(xs[0], ys[0]) && Same(xs[1], ys[1]) && Same(xs[2], ys[2]);
    assert Same(xs[3], ys[3]) && Same(xs[4], ys[4]) && Same(xs[5], ys[5]);
    PlainRecordSame(DECISION_KEYS, DecisionFields(p.decision), DecisionFields(q.decision));
    PlainRecordSame(GOVERNANCE_KEYS, GovernanceFields(p.governance), GovernanceFields(q.governance));
    PlainRecordSame(DETERMINISM_KEYS, DeterminismFields(p.determinism), DeterminismFields(q.determinism));
    SameFieldsSameRecords(p, q);
  }

  lemma SameFieldsSameRecords(p: Proof, q: Proof)
    requires DecisionFields(p.decision) == DecisionFields(q.decision)
    requires GovernanceFields(p.governance) == GovernanceFields(q.governance)
    requires DeterminismFields(p.determinism) == DeterminismFields(q.determinism)
    ensures p.decision == q.decision && p.governance == q.governance && p.determinism == q.determinism
  {
    var d, e := DecisionFields(p.decision), DecisionFields(q.decision);
    assert d[0] == e[0] && d[1] == e[1];
    var g, k := GovernanceFields(p.governance), GovernanceFields(q.governance);
    assert g[0] == k[0] && g[1] == k[1] && g[2] == k[2];
    var m, n := DeterminismFields(p.determinism), DeterminismFields(q.determinism);
    assert m[0] == n[0] && m[1] == n[1] && m[2] == n[2];
  }

  /** Equal payload bytes mean equal hashed fields. */
  lemma PayloadBytesBind(p: Proof, q: Proof)
    requires IsProofObject(p) && IsProofObject(q)
    requires PayloadBytes(p).Some? && PayloadBytes(p) == PayloadBytes(q)
    ensures SameHashedFields(p, q)
  {
    PayloadIsPython(p);
    PayloadIsPython(q);
    CanonicalEncodeInjective(PayloadValue(p), PayloadValue(q));
    SamePayloadSameFields(p, q);
  }

  // ---- The environment of the ledger code ----

  /**
    What the verifiers, the storage and the engine call: the hash, Ed25519
    verification, whether `int(s, 16)` succeeds, whether `s.strip()` is empty,
    and three serialisers: of a hash payload with and without the type checks
    of the canonical encoder, and of a list of proofs without them.
   */
  datatype Env = Env(
    hash: HashFn, verify: VerifyFn, base16: string -> bool, blank: string -> bool,
    payload: Proof -> Option<Bytes>, plain: Proof -> Option<Bytes>, serialize: seq<Proof> -> Option<Bytes>)

  /** The payload serialiser is the canonical one. */
  ghost predicate CanonicalPayload(c: Env) {
    forall p :: CanonicalFor(c, p)
  }

  ghost predicate CanonicalFor(c: Env, p: Proof) {
    c.payload(p) == PayloadBytes(p)
  }

  /**
    Plain `json.dumps` writes what the canonical encoder writes, and may also
    write payloads that the canonical encoder refuses, such as those with floats.
   */
  ghost predicate PlainExtends(c: Env) {
    forall p :: PlainFor(c, p)
  }

  ghost predicate PlainFor(c: Env, p: Proof) {
    c.payload(p).Some? ==> c.plain(p) == c.payload(p)
  }
}
