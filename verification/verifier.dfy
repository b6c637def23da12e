/**
  The verifiers: of one proof and of a chain (provable_ai/verifier.py), of an
  exported package (verify/verify_package.py) and offline
  (tools/offline_verify.py), and how their chain checks compare.
 */
module Verifier {
  import opened Prelude
  import opened TextEncoding
  import opened Sorting
  import opened Json
  import opened Canonical
  import opened ProofModel

  // ---- Schema ----

  /** 64 characters that `int(s, 16)` accepts. */
  predicate IsHash(c: Env, s: string) {
    |s| == 64 && c.base16(s)
  }

  /** The constraints on decision, context, governance and determinism. */
  predicate BodyOk(c: Env, p: Proof) {
    && |p.decision.fromState| >= 1 && |p.decision.toState| >= 1
    && |p.context.reasonCode| >= 1 && |p.context.policyRule| >= 1 && |p.context.modelVersion| >= 1
    && IsHash(c, p.context.inputsHash) && p.context.metadata.Dict?
    && |p.governance.modelVersion| >= 1 && |p.governance.agentVersion| >= 1 && |p.governance.policyVersion| >= 1
    && (p.determinism.mode == ReplayWithSeed ==> p.determinism.seed.Some?)
    && (p.determinism.mode == ReplayWithRecordedIO ==>
        p.determinism.externalCallsHash.Some? && |p.determinism.externalCallsHash.value| == 64)
  }

  predicate LedgerOk(c: Env, l: LedgerInfo) {
    && l.sequenceId >= 1
    && IsHash(c, l.previousHash) && IsHash(c, l.currentHash)
    && |l.timestamp| >= 20 && l.timestamp[|l.timestamp| - 1] == 'Z'
  }

  predicate SignatureFieldsOk(c: Env, s: Signature) {
    && |s.keyId| >= 1 && !c.blank(s.keyId)
    && IsHash(c, s.publicKey)
    && |s.value| == 128 && c.base16(s.value)
  }

  /** The constraints of ProofV1 on a normalised proof. */
  predicate SchemaOk(c: Env, p: Proof) {
    && BodyOk(c, p) && LedgerOk(c, p.ledger) && SignatureFieldsOk(c, p.signature)
    && |p.instanceId| >= 1 && p.context.modelVersion == p.governance.modelVersion
  }

  /** `_validate_determinism_consistency` finds nothing. */
  predicate DeterminismConsistent(c: Env, d: Determinism) {
    match d.mode
    case StrictDeterministic => d.seed.None? && d.externalCallsHash.None?
    case ReplayWithSeed => d.seed.Some?
    case ReplayWithRecordedIO => d.externalCallsHash.Some? && IsHash(c, d.externalCallsHash.value)
  }

  // ---- verify_proof ----

  datatype Failure =
    | SchemaInvalid | HashMismatch | SignatureMismatch | ChainBroken | SequenceGap
    | DeterminismInconsistent | UnexpectedError

  datatype Verdict = Accepted | Rejected(why: Failure)

  function VerifyProof(c: Env, p: Proof, expectedPrev: Option<string>, expectedSeq: Option<int>): Verdict {
    if !SchemaOk(c, p) then Rejected(SchemaInvalid)
    else
      match c.payload(p)
      case None => Rejected(UnexpectedError)
      case Some(bytes) =>
        if Hex(c.hash(bytes)) != p.ledger.currentHash then Rejected(HashMismatch)
        else if !c.verify(p.signature.publicKey, c.hash(bytes), p.signature.value) then Rejected(SignatureMismatch)
        else if expectedPrev.Some? && p.ledger.previousHash != expectedPrev.value then Rejected(ChainBroken)
        else if p.ledger.sequenceId == 1 && p.ledger.previousHash != GENESIS_HEX then Rejected(ChainBroken)
        else if expectedSeq.Some? && p.ledger.sequenceId != expectedSeq.value then Rejected(SequenceGap)
        else if !DeterminismConsistent(c, p.determinism) then Rejected(DeterminismInconsistent)
        else Accepted
  }

  /** The stored hash is the hash of the recomputed payload. */
  predicate HashOk(c: Env, p: Proof) {
    c.payload(p).Some? && p.ledger.currentHash == Hex(c.hash(c.payload(p).value))
  }

  /** The same for the package and offline verifiers, which hash without type checks. */
  predicate PlainHashOk(c: Env, p: Proof) {
    c.plain(p).Some? && p.ledger.currentHash == Hex(c.hash(c.plain(p).value))
  }

  lemma HashOkIsPlain(c: Env, p: Proof)
    requires PlainExtends(c) && HashOk(c, p)
    ensures PlainHashOk(c, p)
  {
    assert PlainFor(c, p);
  }

  predicate SignatureOk(c: Env, p: Proof) {
    c.payload(p).Some? && c.verify(p.signature.publicKey, c.hash(c.payload(p).value), p.signature.value)
  }

  // ---- verify_chain ----

  /** The hash that the proof at position i must link to. */
  function LinkTarget(ps: seq<Proof>, i: nat): string
    requires i <= |ps|
  {
    if i == 0 then GENESIS_HEX else ps[i - 1].ledger.currentHash
  }

  /** The proof at position i names the hash of its predecessor. */
  predicate LinkedAt(ps: seq<Proof>, i: nat)
    requires i < |ps|
  {
    ps[i].ledger.previousHash == LinkTarget(ps, i)
  }

  predicate AcceptedAt(c: Env, ps: seq<Proof>, i: nat)
    requires i < |ps|
  {
    VerifyProof(c, ps[i], Some(LinkTarget(ps, i)), Some(i + 1)).Accepted?
  }

  /** What the chain verifier accepts, stated without its loop. */
  ghost predicate ChainAccepted(c: Env, ps: seq<Proof>) {
    ps != [] && forall i :: 0 <= i < |ps| ==> AcceptedAt(c, ps, i)
  }

  ghost predicate ProofObjects(ps: seq<Proof>) {
    forall i :: 0 <= i < |ps| ==> IsProofObject(ps[i])
  }

  /** The same, check by check. */
  ghost predicate SoundAt(c: Env, ps: seq<Proof>, i: nat)
    requires i < |ps|
  {
    && SchemaOk(c, ps[i]) && HashOk(c, ps[i]) && SignatureOk(c, ps[i])
    && LinkedAt(ps, i)
    && ps[i].ledger.sequenceId == i + 1
    && DeterminismConsistent(c, ps[i].determinism)
  }

  ghost predicate AllSoundAt(c: Env, ps: seq<Proof>) {
    forall i :: 0 <= i < |ps| ==> SoundAt(c, ps, i)
  }

  lemma AcceptedIffSound(c: Env, ps: seq<Proof>, i: nat)
    requires i < |ps|
    ensures AcceptedAt(c, ps, i) <==> SoundAt(c, ps, i)
  {
  }

  datatype ChainVerdict = ChainVerdict(valid: bool, finalState: Option<string>, sequenceVerified: int, why: Option<Failure>)

  /** The verdict is the rejection of proof k, the first one refused. */
  ghost predicate RejectsAt(c: Env, ps: seq<Proof>, k: nat, r: ChainVerdict)
    requires k < |ps|
  {
    && (forall i :: 0 <= i < k ==> AcceptedAt(c, ps, i))
    && r.why.Some?
    && VerifyProof(c, ps[k], Some(LinkTarget(ps, k)), Some(k + 1)) == Rejected(r.why.value)
    && r.finalState == LastState(ps[..k])
  }

  function LastState(ps: seq<Proof>): Option<string> {
    if ps == [] then None else Some(ps[|ps| - 1].decision.toState)
  }

  /** The check of one proof against the link and position it must have. */
  function Checker(c: Env): (Proof, string, int) -> Verdict {
    (p: Proof, prev: string, n: int) => VerifyProof(c, p, Some(prev), Some(n))
  }

  ghost predicate PassesAt(check: (Proof, string, int) -> Verdict, ps: seq<Proof>, i: nat)
    requires i < |ps|
  {
    check(ps[i], LinkTarget(ps, i), i + 1).Accepted?
  }

  /** The loop of `verify_chain` for any check; it stops at the first proof k that is refused. */
  method WalkProofs(check: (Proof, string, int) -> Verdict, ps: seq<Proof>) returns (r: ChainVerdict, k: nat)
    ensures k <= |ps| && forall i :: 0 <= i < k ==> PassesAt(check, ps, i)
    ensures k == |ps| ==> r == ChainVerdict(true, LastState(ps), |ps|, None)
    ensures k < |ps| ==>
      && !r.valid && r.why.Some? && r.finalState == LastState(ps[..k])
      && check(ps[k], LinkTarget(ps, k), k + 1) == Rejected(r.why.value)
  {
    var lastHash, finalState := GENESIS_HEX, None;
    k := 0;
    while k < |ps|
      invariant 0 <= k <= |ps|
      invariant lastHash == LinkTarget(ps, k)
      invariant finalState == LastState(ps[..k])
      invariant forall i :: 0 <= i < k ==> PassesAt(check, ps, i)
    {
      var verdict := check(ps[k], lastHash, k + 1);
      if verdict.Rejected? {
        r := ChainVerdict(false, finalState, ps[k].ledger.sequenceId, Some(verdict.why));
        return;
      }
      assert PassesAt(check, ps, k);
      lastHash := ps[k].ledger.currentHash;
      finalState := Some(ps[k].decision.toState);
      k := k + 1;
    }
    assert ps[..k] == ps;
    r := ChainVerdict(true, finalState, |ps|, None);
  }

  /** Accepts exactly the sound chains; a rejection is that of the first proof refused. */
  method VerifyChain(c: Env, ps: seq<Proof>) returns (r: ChainVerdict)
    ensures r.valid <==> ChainAccepted(c, ps)
    ensures r.valid ==> r.finalState == LastState(ps) && r.sequenceVerified == |ps|
    ensures !r.valid && ps != [] ==> exists k :: 0 <= k < |ps| && RejectsAt(c, ps, k, r)
  {
    if ps == [] {
      return ChainVerdict(false, None, 0, None);
    }
    var k;
    r, k := WalkProofs(Checker(c), ps);
    forall i | 0 <= i < k ensures AcceptedAt(c, ps, i) { assert PassesAt(Checker(c), ps, i); }
    if k < |ps| {
      assert !AcceptedAt(c, ps, k);
      assert RejectsAt(c, ps, k, r);
    }
  }

  // ---- Chain binding ----

  /** The payloads hashed while verifying a chain. */
  function HashedPayloads(c: Env, ps: seq<Proof>): set<Bytes> {
    set i | 0 <= i < |ps| && c.payload(ps[i]).Some? :: c.payload(ps[i]).value
  }

  lemma LastHashBinds(c: Env, p: Proof, q: Proof, ps: seq<Proof>, qs: seq<Proof>)
    requires CanonicalPayload(c) && IsProofObject(p) && IsProofObject(q) && HashOk(c, p) && HashOk(c, q)
    requires p.ledger.currentHash == q.ledger.currentHash && p in ps && q in qs
    ensures SameHashedFields(p, q) || Collides(c.hash, HashedPayloads(c, ps), HashedPayloads(c, qs))
  {
    assert CanonicalFor(c, p) && CanonicalFor(c, q);
    var x, y := c.payload(p).value, c.payload(q).value;
    HexInjective(c.hash(x), c.hash(y));
    if x == y {
      PayloadBytesBind(p, q);
    } else {
      var i :| 0 <= i < |ps| && ps[i] == p;
      var j :| 0 <= j < |qs| && qs[j] == q;
    }
  }

  /** From equal hashes at position k, every position j below agrees, or there is a collision. */
  lemma {:induction false} ChainBindsAt(c: Env, ps: seq<Proof>, qs: seq<Proof>, k: nat, j: nat)
    requires CanonicalPayload(c) && j <= k < |ps| == |qs|
    requires ProofObjects(ps) && AllSoundAt(c, ps) && ProofObjects(qs) && AllSoundAt(c, qs)
    requires ps[k].ledger.currentHash == qs[k].ledger.currentHash
    ensures SameHashedFields(ps[j], qs[j]) || Collides(c.hash, HashedPayloads(c, ps), HashedPayloads(c, qs))
  {
    assert SoundAt(c, ps, k) && SoundAt(c, qs, k);
    LastHashBinds(c, ps[k], qs[k], ps, qs);
    if j < k && SameHashedFields(ps[k], qs[k]) {
      ChainBindsAt(c, ps, qs, k - 1, j);
    }
  }

  /**
    Chain binding: two accepted chains with the same final hash have the same
    length and the same hashed fields at every position, or a payload of one
    collides with a payload of the other.
   */
  lemma ChainBinding(c: Env, ps: seq<Proof>, qs: seq<Proof>)
    requires CanonicalPayload(c)
    requires ProofObjects(ps) && ProofObjects(qs)
    requires ChainAccepted(c, ps) && ChainAccepted(c, qs)
    requires ps[|ps| - 1].ledger.currentHash == qs[|qs| - 1].ledger.currentHash
    ensures (|ps| == |qs| && forall i :: 0 <= i < |ps| ==> SameHashedFields(ps[i], qs[i]))
         || Collides(c.hash, HashedPayloads(c, ps), HashedPayloads(c, qs))
  {
    forall i | 0 <= i < |ps| ensures SoundAt(c, ps, i) { AcceptedIffSound(c, ps, i); }
    forall i | 0 <= i < |qs| ensures SoundAt(c, qs, i) { AcceptedIffSound(c, qs, i); }
    var m, n := |ps| - 1, |qs| - 1;
    assert SoundAt(c, ps, m) && SoundAt(c, qs, n);
    LastHashBinds(c, ps[m], qs[n], ps, qs);
    if !Collides(c.hash, HashedPayloads(c, ps), HashedPayloads(c, qs)) {
      forall i | 0 <= i < |ps| ensures SameHashedFields(ps[i], qs[i]) { ChainBindsAt(c, ps, qs, m, i); }
    }
  }

  // ---- Exported packages ----

  /** A parsed package; absent text fields are empty. */
  datatype Package = Package(
    kind: string, publicKey: string, signature: string, packageHash: string,
    instanceId: string, instanceRoot: string, ledger: seq<Proof>)

  const PACKAGE_KIND := "provable-ai-proof-package"

  /** `"".join(texts)`. */
  function Concat(texts: seq<string>): string {
    if texts == [] then "" else Concat(texts[..|texts| - 1]) + texts[|texts| - 1]
  }

  function StoredHashes(ps: seq<Proof>): (r: seq<string>)
    ensures |r| == |ps|
    ensures forall i :: 0 <= i < |ps| ==> r[i] == ps[i].ledger.currentHash
  {
    seq(|ps|, i requires 0 <= i < |ps| => ps[i].ledger.currentHash)
  }

  /** All stored hashes, concatenated in order. */
  function RootInput(ps: seq<Proof>): Bytes {
    Utf8(Concat(StoredHashes(ps)))
  }

  function InstanceRoot(c: Env, ps: seq<Proof>): Digest {
    c.hash(RootInput(ps))
  }

  const PROOF_KEYS: seq<string> :=
    ["type", "instance_id", "decision", "decision_context", "governance", "determinism", "ledger", "signature"]
  const LEDGER_KEYS: seq<string> := ["sequence_id", "previous_hash", "current_hash", "timestamp"]
  const SIGNATURE_KEYS: seq<string> := ["algorithm", "key_id", "public_key", "value"]

  function LedgerFields(l: LedgerInfo): seq<Value> {
    [Int(l.sequenceId), Str(l.previousHash), Str(l.currentHash), Str(l.timestamp)]
  }

  function SignatureFields(s: Signature): seq<Value> {
    [Str("ed25519"), Str(s.keyId), Str(s.publicKey), Str(s.value)]
  }

  function ProofFields(p: Proof): seq<Value> {
    [Str("zorynex-proof-v1"), Str(p.instanceId), DecisionValue(p.decision), ContextValue(p.context),
     GovernanceValue(p.governance), DeterminismValue(p.determinism),
     Obj(LEDGER_KEYS, LedgerFields(p.ledger)), Obj(SIGNATURE_KEYS, SignatureFields(p.signature))]
  }

  /** The whole proof as stored in `proof_json` and exported. */
  function ProofValue(p: Proof): Value {
    Obj(PROOF_KEYS, ProofFields(p))
  }

  function LedgerValue(ps: seq<Proof>): Value {
    List(seq(|ps|, i requires 0 <= i < |ps| => ProofValue(ps[i])))
  }

  /** The serialised ledger; `None` when some value cannot be serialised. */
  function LedgerBytes(ps: seq<Proof>): Option<Bytes> {
    CanonicalEncode(LedgerValue(ps))
  }

  predicate PackageHashOk(c: Env, k: Package) {
    k.packageHash == "" || (c.serialize(k.ledger).Some? && Hex(c.hash(c.serialize(k.ledger).value)) == k.packageHash)
  }

  /** The package verifier's third check, stated without its loop. */
  ghost predicate PackageChainOk(c: Env, ps: seq<Proof>) {
    && (forall i :: 0 <= i < |ps| ==> PlainHashOk(c, ps[i]))
    && (forall i :: 0 <= i < |ps| ==> LinkedAt(ps, i))
  }

  /** The offline verifier's second check, stated without its loop. */
  ghost predicate OfflineChainOk(c: Env, ps: seq<Proof>) {
    && (forall i :: 0 <= i < |ps| ==> PlainHashOk(c, ps[i]))
    && (forall i :: 0 < i < |ps| ==> LinkedAt(ps, i))
  }

  predicate RootOk(c: Env, k: Package) {
    k.instanceRoot == "" || k.instanceRoot == Hex(InstanceRoot(c, k.ledger))
  }

  ghost predicate PackageAccepted(c: Env, k: Package) {
    && k.kind == PACKAGE_KIND && k.ledger != []
    && PackageHashOk(c, k) && PackageChainOk(c, k.ledger)
    && k.publicKey != "" && k.signature != "" && RootOk(c, k)
    && c.verify(k.publicKey, InstanceRoot(c, k.ledger), k.signature)
  }

  ghost predicate OfflineAccepted(c: Env, k: Package) {
    && k.kind == PACKAGE_KIND
    && (k.ledger != [] ==>
        && PackageHashOk(c, k) && OfflineChainOk(c, k.ledger) && RootOk(c, k)
        && (k.signature == "" || k.publicKey == "" ||
            c.verify(k.publicKey, InstanceRoot(c, k.ledger), k.signature)))
  }

  method CheckPackageChain(c: Env, ps: seq<Proof>) returns (ok: bool)
    ensures ok <==> PackageChainOk(c, ps)
  {
    var prev := "";
    var i := 0;
    while i < |ps|
      invariant 0 <= i <= |ps|
      invariant i == 0 ==> prev == ""
      invariant i > 0 ==> prev == ps[i - 1].ledger.currentHash && |prev| == 64
      invariant forall k :: 0 <= k < i ==> PlainHashOk(c, ps[k])
      invariant forall k :: 0 <= k < i ==> LinkedAt(ps, k)
    {
      if !PlainHashOk(c, ps[i]) {
        return false;
      }
      var expected := if prev != "" then prev else GENESIS_HEX;
      if ps[i].ledger.previousHash != expected {
        assert !LinkedAt(ps, i);
        return false;
      }
      HexLength(c.hash(c.plain(ps[i]).value));
      prev := ps[i].ledger.currentHash;
      i := i + 1;
    }
    return true;
  }

  method CheckOfflineChain(c: Env, ps: seq<Proof>) returns (ok: bool)
    ensures ok <==> OfflineChainOk(c, ps)
  {
    var prev: Option<string> := None;
    var i := 0;
    while i < |ps|
      invariant 0 <= i <= |ps|
      invariant prev == if i == 0 then None else Some(ps[i - 1].ledger.currentHash)
      invariant forall k :: 0 <= k < i ==> PlainHashOk(c, ps[k])
      invariant forall k :: 0 < k < i ==> LinkedAt(ps, k)
    {
      if !PlainHashOk(c, ps[i]) {
        return false;
      }
      if prev.Some? && ps[i].ledger.previousHash != prev.value {
        assert !LinkedAt(ps, i);
        return false;
      }
      prev := Some(ps[i].ledger.currentHash);
      i := i + 1;
    }
    return true;
  }

  /** `verify_package` of the standalone package verifier. */
  method VerifyPackage(c: Env, k: Package) returns (allPassed: bool, finalState: Option<string>)
    ensures allPassed <==> PackageAccepted(c, k)
    ensures allPassed ==> finalState == LastState(k.ledger)
  {
    finalState := None;
    if k.kind != PACKAGE_KIND || k.ledger == [] {
      return false, None;
    }
    var hashPassed := PackageHashOk(c, k);
    var chainPassed := CheckPackageChain(c, k.ledger);
    if chainPassed {
      finalState := Some(k.ledger[|k.ledger| - 1].decision.toState);
    }
    var signerPassed := k.publicKey != "" && k.signature != "" && RootOk(c, k)
                        && c.verify(k.publicKey, InstanceRoot(c, k.ledger), k.signature);
    allPassed := hashPassed && chainPassed && signerPassed;
  }

  /** `verify_proof` of the offline verifier, after the file has been read. */
  method VerifyOffline(c: Env, k: Package) returns (valid: bool, finalState: Option<string>)
    ensures valid <==> OfflineAccepted(c, k)
    ensures valid ==> finalState == LastState(k.ledger)
  {
    if k.kind != PACKAGE_KIND {
      return false, None;
    }
    if k.ledger == [] {
      return true, None;
    }
    if !PackageHashOk(c, k) {
      return false, None;
    }
    var chain := CheckOfflineChain(c, k.ledger);
    if !chain || !RootOk(c, k) {
      return false, None;
    }
    if k.signature != "" && k.publicKey != "" && !c.verify(k.publicKey, InstanceRoot(c, k.ledger), k.signature) {
      return false, None;
    }
    return true, Some(k.ledger[|k.ledger| - 1].decision.toState);
  }

  // ---- How the verifiers compare ----

  /** The chain verifier is the strictest, the offline chain check the most lenient. */
  lemma VerifierOrdering(c: Env, ps: seq<Proof>)
    requires PlainExtends(c)
    ensures ChainAccepted(c, ps) ==> PackageChainOk(c, ps)
    ensures PackageChainOk(c, ps) ==> OfflineChainOk(c, ps)
  {
    if ChainAccepted(c, ps) {
      forall i | 0 <= i < |ps| ensures PlainHashOk(c, ps[i]) && LinkedAt(ps, i) {
        AcceptedIffSound(c, ps, i);
        assert AcceptedAt(c, ps, i);
        HashOkIsPlain(c, ps[i]);
      }
    }
  }

  lemma AcceptedPackagePassesOffline(c: Env, k: Package)
    requires PackageAccepted(c, k)
    ensures OfflineAccepted(c, k)
  {
  }

  /**
    What the offline check leaves open: the offline check and a genesis-rooted
    first link make the package check; the package check, and per proof a
    canonical-safe payload, schema, signature, position and determinism make the
    chain verifier's.
   */
  lemma ExactGaps(c: Env, ps: seq<Proof>)
    requires PlainExtends(c) && ps != []
    ensures PackageChainOk(c, ps) <==> OfflineChainOk(c, ps) && ps[0].ledger.previousHash == GENESIS_HEX
    ensures ChainAccepted(c, ps) <==> PackageChainOk(c, ps) && forall i :: 0 <= i < |ps| ==> AcceptableAt(c, ps, i)
  {
    assert LinkedAt(ps, 0) <==> ps[0].ledger.previousHash == GENESIS_HEX;
    forall i | 0 <= i < |ps|
      ensures AcceptedAt(c, ps, i) <==> PlainHashOk(c, ps[i]) && LinkedAt(ps, i) && AcceptableAt(c, ps, i)
    {
      assert PlainFor(c, ps[i]);
      AcceptedIffSound(c, ps, i);
    }
  }

  /** What the chain verifier checks beyond hashes and links. */
  predicate AcceptableAt(c: Env, ps: seq<Proof>, i: nat)
    requires i < |ps|
  {
    && c.payload(ps[i]).Some? && SchemaOk(c, ps[i]) && SignatureOk(c, ps[i])
    && ps[i].ledger.sequenceId == i + 1 && DeterminismConsistent(c, ps[i].determinism)
  }

  /** A proof that hangs from the chosen hash. */
  function Hung(p: Proof, previousHash: string): Proof {
    p.(ledger := p.ledger.(previousHash := previousHash))
  }

  /** The same proof with its stored hash set right. */
  function Rehashed(c: Env, p: Proof): Proof
    requires c.plain(p).Some?
  {
    p.(ledger := p.ledger.(currentHash := Hex(c.hash(c.plain(p).value))))
  }

  /** Plain payloads do not cover the stored hash. */
  ghost predicate PlainOmitsHash(c: Env) {
    forall p, currentHash :: PlainWithoutHash(c, p, currentHash)
  }

  ghost predicate PlainWithoutHash(c: Env, p: Proof, currentHash: string) {
    c.plain(p.(ledger := p.ledger.(currentHash := currentHash))) == c.plain(p)
  }

  /** The converse orderings fail: a one-proof chain may hang from any hash offline. */
  lemma OfflineAcceptsUnrooted(c: Env, p: Proof, previousHash: string)
    requires PlainOmitsHash(c) && c.plain(Hung(p, previousHash)).Some? && previousHash != GENESIS_HEX
    ensures OfflineChainOk(c, [Rehashed(c, Hung(p, previousHash))])
    ensures !PackageChainOk(c, [Rehashed(c, Hung(p, previousHash))])
  {
    var q := Hung(p, previousHash);
    assert PlainWithoutHash(c, q, Hex(c.hash(c.plain(q).value)));
    assert !LinkedAt([Rehashed(c, q)], 0);
  }

  /**
    A first proof whose metadata the canonical encoder refuses, but plain JSON
    can write, passes the package and offline chain checks and not `verify_chain`.
   */
  lemma PackageAcceptsUncanonical(c: Env, p: Proof)
    requires PlainOmitsHash(c) && CanonicalPayload(c) && IsProofObject(p) && !Validated(p.context.metadata)
    requires c.plain(Hung(p, GENESIS_HEX)).Some?
    ensures
      var ps := [Rehashed(c, Hung(p, GENESIS_HEX))];
      PackageChainOk(c, ps) && OfflineChainOk(c, ps) && !ChainAccepted(c, ps)
  {
    var q := Hung(p, GENESIS_HEX);
    assert PlainWithoutHash(c, q, Hex(c.hash(c.plain(q).value)));
    var r := Rehashed(c, q);
    assert LinkedAt([r], 0);
    assert CanonicalFor(c, r);
    PayloadIsPython(r);
    assert !AcceptedAt(c, [r], 0);
  }

  // ---- What the package digests commit to ----

  lemma {:induction false} FixedWidthConcat(xs: seq<string>, ys: seq<string>, w: nat)
    requires w > 0 && Concat(xs) == Concat(ys)
    requires (forall i :: 0 <= i < |xs| ==> |xs[i]| == w) && (forall i :: 0 <= i < |ys| ==> |ys[i]| == w)
    ensures xs == ys
  {
    ConcatLength(xs, w);
    ConcatLength(ys, w);
    CancelTimes(w, |xs|, |ys|);
    if xs != [] {
      var n := |xs| - 1;
      var a, b := Concat(xs[..n]), Concat(ys[..n]);
      ConcatLength(xs[..n], w);
      ConcatLength(ys[..n], w);
      assert a == Concat(xs)[..|a|] == Concat(ys)[..|b|] == b;
      assert xs[n] == Concat(xs)[|a|..] == Concat(ys)[|b|..] == ys[n];
      FixedWidthConcat(xs[..n], ys[..n], w);
      assert xs == xs[..n] + [xs[n]] && ys == ys[..n] + [ys[n]];
    }
  }

  lemma LessTimes(w: nat, m: nat, n: nat)
    requires w > 0 && m < n
    ensures w * m < w * n
  {
  }

  lemma CancelTimes(w: nat, m: nat, n: nat)
    requires w > 0 && w * m == w * n
    ensures m == n
  {
    if m < n {
      LessTimes(w, m, n);
    } else if n < m {
      LessTimes(w, n, m);
    }
  }

  lemma {:induction false} ConcatLength(xs: seq<string>, w: nat)
    requires forall i :: 0 <= i < |xs| ==> |xs[i]| == w
    ensures |Concat(xs)| == w * |xs|
  {
    if xs != [] {
      ConcatLength(xs[..|xs| - 1], w);
      assert w * |xs| == w * (|xs| - 1) + w;
    }
  }

  /** The signed instance root fixes how many proofs there are and all their hashes. */
  lemma InstanceRootBinding(c: Env, ps: seq<Proof>, qs: seq<Proof>)
    requires InstanceRoot(c, ps) == InstanceRoot(c, qs)
    requires forall i :: 0 <= i < |ps| ==> PlainHashOk(c, ps[i])
    requires forall i :: 0 <= i < |qs| ==> PlainHashOk(c, qs[i])
    ensures StoredHashes(ps) == StoredHashes(qs) || Collides(c.hash, {RootInput(ps)}, {RootInput(qs)})
  {
    if RootInput(ps) == RootInput(qs) {
      Utf8Injective(Concat(StoredHashes(ps)), Concat(StoredHashes(qs)));
      forall i | 0 <= i < |ps| ensures |StoredHashes(ps)[i]| == 64 {
        assert PlainHashOk(c, ps[i]);
        HexLength(c.hash(c.plain(ps[i]).value));
      }
      forall i | 0 <= i < |qs| ensures |StoredHashes(qs)[i]| == 64 {
        assert PlainHashOk(c, qs[i]);
        HexLength(c.hash(c.plain(qs[i]).value));
      }
      FixedWidthConcat(StoredHashes(ps), StoredHashes(qs), 64);
    }
  }

  /** The ledger serialiser is the canonical one on canonical-safe ledgers. */
  ghost predicate CanonicalLedger(c: Env, ps: seq<Proof>) {
    LedgerBytes(ps).Some? && c.serialize(ps) == LedgerBytes(ps)
  }

  lemma ProofKeysDistinct()
    ensures NoDuplicates(PROOF_KEYS) && NoDuplicates(LEDGER_KEYS) && NoDuplicates(SIGNATURE_KEYS)
  {
  }

  /** Every field of a proof is a Python value, and all but the context are canonical-safe. */
  lemma ProofFieldsOk(p: Proof)
    requires IsProofObject(p)
    ensures
      var fs := ProofFields(p);
      && (forall i :: 0 <= i < 8 ==> IsPython(fs[i])) && (forall i :: 0 <= i < 8 && i != 3 ==> Validated(fs[i]))
      && (Validated(fs[3]) <==> Validated(p.context.metadata))
  {
    KeysDistinct();
    ProofKeysDistinct();
    ContextIsPython(p.context);
    PlainRecord(DECISION_KEYS, DecisionFields(p.decision));
    PlainRecord(GOVERNANCE_KEYS, GovernanceFields(p.governance));
    PlainRecord(DETERMINISM_KEYS, DeterminismFields(p.determinism));
    PlainRecord(LEDGER_KEYS, LedgerFields(p.ledger));
    PlainRecord(SIGNATURE_KEYS, SignatureFields(p.signature));
  }

  /** A proof serialises exactly when its metadata is canonical-safe. */
  lemma ProofIsPython(p: Proof)
    requires IsProofObject(p)
    ensures IsPython(ProofValue(p))
    ensures Validated(ProofValue(p)) <==> Validated(p.context.metadata)
  {
    ProofKeysDistinct();
    ProofFieldsOk(p);
    RecordIsPython(PROOF_KEYS, ProofFields(p), 3);
  }

  lemma RecordIsPython(names: seq<string>, fs: seq<Value>, k: nat)
    requires |names| == |fs| && NoDuplicates(names) && k < |fs|
    requires forall i :: 0 <= i < |fs| ==> IsPython(fs[i])
    requires forall i :: 0 <= i < |fs| && i != k ==> Validated(fs[i])
    ensures IsPython(Obj(names, fs))
    ensures Validated(Obj(names, fs)) <==> Validated(fs[k])
  {
    ObjIsPython(names, fs);
    ObjValidated(names, fs);
  }

  /** `json.loads(proof_json)` gives back the proof that was stored, up to key order. */
  lemma StoredProofReadsBack(p: Proof)
    requires IsProofObject(p) && Validated(p.context.metadata)
    ensures Validated(ProofValue(p))
    ensures Loads(Dumps(ProofValue(p), false)).Some?
    ensures Same(ProofValue(p), Loads(Dumps(ProofValue(p), false)).value)
  {
    ProofIsPython(p);
    StoredValueReadsBack(ProofValue(p), false);
  }

  lemma LedgerIsPython(ps: seq<Proof>)
    requires ProofObjects(ps)
    ensures IsPython(LedgerValue(ps))
  {
    forall i | 0 <= i < |ps| ensures IsPython(LedgerValue(ps).items[i]) { ProofIsPython(ps[i]); }
  }

  /** Two packages that carry the same valid package hash carry the same ledger. */
  lemma PackageHashBinding(c: Env, k: Package, l: Package)
    requires CanonicalLedger(c, k.ledger) && CanonicalLedger(c, l.ledger)
    requires ProofObjects(k.ledger) && ProofObjects(l.ledger)
    requires PackageHashOk(c, k) && PackageHashOk(c, l) && k.packageHash == l.packageHash != ""
    ensures Same(LedgerValue(k.ledger), LedgerValue(l.ledger))
         || Collides(c.hash, {c.serialize(k.ledger).value}, {c.serialize(l.ledger).value})
  {
    var x, y := c.serialize(k.ledger).value, c.serialize(l.ledger).value;
    HexInjective(c.hash(x), c.hash(y));
    if x == y {
      LedgerIsPython(k.ledger);
      LedgerIsPython(l.ledger);
      CanonicalEncodeInjective(LedgerValue(k.ledger), LedgerValue(l.ledger));
    }
  }

  // ---- compute_system_root ----

  function SystemInput(hashes: seq<string>): Bytes {
    Utf8(Concat(Sort(LexLe, hashes)))
  }

  function SystemRoot(c: Env, hashes: seq<string>): Digest {
    if hashes == [] then GENESIS else c.hash(SystemInput(hashes))
  }

  /** The order of the instances does not matter. */
  lemma SystemRootIgnoresOrder(c: Env, xs: seq<string>, ys: seq<string>)
    requires multiset(xs) == multiset(ys)
    ensures SystemRoot(c, xs) == SystemRoot(c, ys)
  {
    SameMembers(xs, ys);
    SortStringsIgnoresOrder(xs, ys);
  }

  /** Hashes with the same system root are the same collection, or the hash is broken here. */
  lemma SystemRootBinding(c: Env, xs: seq<string>, ys: seq<string>)
    requires (forall i :: 0 <= i < |xs| ==> |xs[i]| == 64) && (forall i :: 0 <= i < |ys| ==> |ys[i]| == 64)
    requires SystemRoot(c, xs) == SystemRoot(c, ys)
    ensures
      || multiset(xs) == multiset(ys)
      || Collides(c.hash, {SystemInput(xs)}, {SystemInput(ys)})
      || HitsGenesis(c.hash, {SystemInput(xs), SystemInput(ys)})
  {
    if xs != [] && ys != [] && SystemInput(xs) == SystemInput(ys) {
      var s, t := Sort(LexLe, xs), Sort(LexLe, ys);
      SortedWidth(xs);
      SortedWidth(ys);
      Utf8Injective(Concat(s), Concat(t));
      FixedWidthConcat(s, t, 64);
      SortPermutes(LexLe, xs);
      SortPermutes(LexLe, ys);
    }
  }

  lemma SortedWidth(xs: seq<string>)
    requires forall i :: 0 <= i < |xs| ==> |xs[i]| == 64
    ensures forall i :: 0 <= i < |Sort(LexLe, xs)| ==> |Sort(LexLe, xs)[i]| == 64
  {
    var s := Sort(LexLe, xs);
    SortMembers(LexLe, xs);
    forall i | 0 <= i < |s| ensures |s[i]| == 64 {
      assert s[i] in xs;
    }
  }
}
