/**
  The protocol-replay verifier: a package holds a protocol document and a
  ledger whose entries are re-hashed, re-verified and walked through the
  protocol (tools/verify_core.py).
 */
module ReplayVerifier {
  import opened Prelude
  import opened TextEncoding
  import opened Sorting
  import opened Json
  import opened Canonical
  import opened Protocol
  import Merkle

  const SCHEMA_VERSION := "1.0"
  const PACKAGE_KIND := "provable-ai-proof-package"

  datatype LedgerEntry = LedgerEntry(
    protocolHash: string, instanceId: string, fromState: string, toState: string, actor: string,
    inputHash: string, outputHash: string, modelVersion: string, agentVersion: string, policyVersion: string,
    metadataJson: string, schemaVersion: Option<string>, version: int, timestamp: string,
    currentHash: string, signature: string)

  datatype InstanceInfo = InstanceInfo(instanceId: Option<string>, protocolHash: Option<string>)

  datatype ReplayProof = ReplayProof(
    protocol: Option<Value>, instance: Option<InstanceInfo>, ledger: seq<LedgerEntry>, instanceRoot: Option<string>)

  /** A parsed package; absent text is empty, and an absent or empty object is `None`. */
  datatype ReplayPackage = ReplayPackage(
    kind: string, publicKey: string, signature: string, proof: Option<ReplayProof>)

  // ---- Entry payloads ----

  const PAYLOAD_KEYS: seq<string> :=
    ["previous_hash", "protocol_hash", "instance_id", "from_state", "to_state", "actor", "input_hash", "output_hash",
     "model_version", "agent_version", "policy_version", "metadata_json", "schema_version", "version", "timestamp"]

  function SchemaVersionOf(e: LedgerEntry): string {
    if e.schemaVersion.Some? then e.schemaVersion.value else SCHEMA_VERSION
  }

  function PayloadValues(prev: Option<string>, e: LedgerEntry): (r: seq<Value>)
    ensures |r| == 15 && forall i :: 0 <= i < |r| ==> Plain(r[i])
  {
    [Text(prev), Str(e.protocolHash), Str(e.instanceId), Str(e.fromState), Str(e.toState), Str(e.actor),
     Str(e.inputHash), Str(e.outputHash), Str(e.modelVersion), Str(e.agentVersion), Str(e.policyVersion),
     Str(e.metadataJson), Str(SchemaVersionOf(e)), Int(e.version), Str(e.timestamp)]
  }

  /** `_canonical(_build_entry_payload(entry, previous_hash))`, with the default `ensure_ascii=True`. */
  function PayloadBytes(prev: Option<string>, e: LedgerEntry): Bytes {
    RecordBytes(PAYLOAD_KEYS, PayloadValues(prev, e), true)
  }

  /** The hashed fields of two entries agree. */
  predicate SameEntry(e: LedgerEntry, f: LedgerEntry) {
    e.(schemaVersion := Some(SchemaVersionOf(e)), currentHash := "", signature := "")
      == f.(schemaVersion := Some(SchemaVersionOf(f)), currentHash := "", signature := "")
  }

  lemma SameValuesSameEntry(p: Option<string>, e: LedgerEntry, q: Option<string>, f: LedgerEntry)
    requires PayloadValues(p, e) == PayloadValues(q, f)
    ensures p == q && SameEntry(e, f)
  {
    var x, y := PayloadValues(p, e), PayloadValues(q, f);
    assert x[0] == y[0] && x[1] == y[1] && x[2] == y[2] && x[3] == y[3] && x[4] == y[4];
    assert x[5] == y[5] && x[6] == y[6] && x[7] == y[7] && x[8] == y[8] && x[9] == y[9];
    assert x[10] == y[10] && x[11] == y[11] && x[12] == y[12] && x[13] == y[13] && x[14] == y[14];
  }

  lemma PayloadKeysDistinct()
    ensures NoDuplicates(PAYLOAD_KEYS)
  {
  }

  lemma ValueBytesInjective(xs: seq<Value>, ys: seq<Value>)
    requires |xs| == |ys| == 15 && forall i :: 0 <= i < 15 ==> Plain(xs[i]) && Plain(ys[i])
    requires RecordBytes(PAYLOAD_KEYS, xs, true) == RecordBytes(PAYLOAD_KEYS, ys, true)
    ensures xs == ys
  {
    PayloadKeysDistinct();
    RecordBytesInjective(PAYLOAD_KEYS, xs, ys, true);
  }

  lemma PayloadBytesBind(p: Option<string>, e: LedgerEntry, q: Option<string>, f: LedgerEntry)
    requires PayloadBytes(p, e) == PayloadBytes(q, f)
    ensures p == q && SameEntry(e, f)
  {
    ValueBytesInjective(PayloadValues(p, e), PayloadValues(q, f));
    SameValuesSameEntry(p, e, q, f);
  }

  /** The hash, the signature scheme, and the serialisers of entries, protocols and whole proofs. */
  datatype ReplayEnv = ReplayEnv(
    hash: HashFn, verify: VerifyFn, payload: (Option<string>, LedgerEntry) -> Bytes,
    document: Value -> Option<Bytes>, whole: ReplayProof -> Bytes)

  ghost predicate EntryCanonical(c: ReplayEnv, prev: Option<string>, e: LedgerEntry) {
    c.payload(prev, e) == PayloadBytes(prev, e)
  }

  ghost predicate DocumentCanonical(c: ReplayEnv, d: Value) {
    Validated(d) ==> c.document(d) == Some(Utf8(Dumps(d, true)))
  }

  /** Entries and protocol documents are serialised canonically. */
  ghost predicate CanonicalReplay(c: ReplayEnv) {
    CanonicalEntries(c) && CanonicalDocuments(c)
  }

  ghost predicate CanonicalEntries(c: ReplayEnv) {
    forall prev, e :: EntryCanonical(c, prev, e)
  }

  ghost predicate CanonicalDocuments(c: ReplayEnv) {
    forall d :: DocumentCanonical(c, d)
  }

  // ---- The protocol as this verifier reads it ----

  /** A transition as read; `None` where reading it raises. */
  datatype Transition = Transition(fromState: Option<Value>, toState: Option<Value>)

  datatype View = View(initial: Option<string>, transitions: Option<seq<Transition>>)

  function TransitionOf(t: Value): Transition {
    Transition(Field(t, "from_state"), Field(t, "to_state"))
  }

  function ViewOf(d: Value): View {
    View(TextField(d, "initial_state"),
         match Field(d, "transitions")
         case None => Some([])
         case Some(List(ts)) => Some(seq(|ts|, i requires 0 <= i < |ts| => TransitionOf(ts[i])))
         case _ => None)
  }

  /** `any(...)` over the transitions, stopping at the first match; `None` when it raises. */
  function AnyMatch(ts: seq<Transition>, from: string, to: string): Option<bool> {
    if ts == [] then Some(false)
    else if ts[0].fromState.None? then None
    else if ts[0].fromState.value != Str(from) then AnyMatch(ts[1..], from, to)
    else if ts[0].toState.None? then None
    else if ts[0].toState.value == Str(to) then Some(true)
    else AnyMatch(ts[1..], from, to)
  }

  predicate Permits(v: View, from: string, to: string) {
    v.transitions.Some? && AnyMatch(v.transitions.value, from, to) == Some(true)
  }

  predicate Readable(t: Transition) {
    t.fromState.Some? && t.toState.Some?
  }

  lemma {:induction false} AnyMatchMeaning(ts: seq<Transition>, from: string, to: string)
    ensures AnyMatch(ts, from, to) == Some(true) ==> Transition(Some(Str(from)), Some(Str(to))) in ts
    ensures (forall i :: 0 <= i < |ts| ==> Readable(ts[i])) ==>
      AnyMatch(ts, from, to) == Some(Transition(Some(Str(from)), Some(Str(to))) in ts)
  {
    if ts != [] {
      AnyMatchMeaning(ts[1..], from, to);
      assert ts == [ts[0]] + ts[1..];
    }
  }

  lemma {:induction false} EdgesOfMeaning(ts: seq<Value>, from: string, to: string)
    ensures EdgesOf(ts).Some? <==> forall i :: 0 <= i < |ts| ==> Readable(TransitionOf(ts[i]))
    ensures EdgesOf(ts).Some? ==>
      (Edge(from, to) in EdgesOf(ts).value <==>
       exists i :: 0 <= i < |ts| && TransitionOf(ts[i]) == Transition(Some(Str(from)), Some(Str(to))))
  {
    if ts != [] {
      EdgesOfMeaning(ts[1..], from, to);
      assert ts == [ts[0]] + ts[1..];
    }
  }

  /** On a document the engine can use, this verifier permits exactly the engine's edges. */
  lemma PermitsIffAllows(d: Value, from: string, to: string)
    requires SpecOf(d).edges.Some?
    ensures Permits(ViewOf(d), from, to) <==> Allows(SpecOf(d), from, to)
    ensures ViewOf(d).initial == SpecOf(d).initial
  {
    var ts := Field(d, "transitions").value.items;
    var view := ViewOf(d).transitions.value;
    EdgesOfMeaning(ts, from, to);
    AnyMatchMeaning(view, from, to);
    if Transition(Some(Str(from)), Some(Str(to))) in view {
      var i :| 0 <= i < |view| && view[i] == Transition(Some(Str(from)), Some(Str(to)));
      assert TransitionOf(ts[i]) == view[i];
    }
    if i :| 0 <= i < |ts| && TransitionOf(ts[i]) == Transition(Some(Str(from)), Some(Str(to))) {
      assert view[i] in view;
    }
  }

  // ---- What is accepted, without the loop ----

  function PrevAt(ledger: seq<LedgerEntry>, i: nat): Option<string>
    requires i <= |ledger|
  {
    if i == 0 then None else Some(ledger[i - 1].currentHash)
  }

  function StateBefore(initial: string, ledger: seq<LedgerEntry>, i: nat): string
    requires i <= |ledger|
  {
    if i == 0 then initial else ledger[i - 1].toState
  }

  /** Entry i has the right schema and version, hashes over its predecessor, is signed, and takes a permitted step. */
  predicate EntryOk(c: ReplayEnv, key: string, v: View, initial: string, ledger: seq<LedgerEntry>, i: nat)
    requires i < |ledger|
  {
    var e := ledger[i];
    var payload := c.payload(PrevAt(ledger, i), e);
    && e.schemaVersion == Some(SCHEMA_VERSION)
    && e.version == i + 1
    && e.currentHash == Hex(c.hash(payload))
    && c.verify(key, payload, e.signature)
    && Permits(v, StateBefore(initial, ledger, i), e.toState)
  }

  ghost predicate LedgerOk(c: ReplayEnv, key: string, v: View, initial: string, ledger: seq<LedgerEntry>) {
    forall i :: 0 <= i < |ledger| ==> EntryOk(c, key, v, initial, ledger, i)
  }

  function Hashes(ledger: seq<LedgerEntry>): (r: seq<string>)
    ensures |r| == |ledger| && forall i :: 0 <= i < |ledger| ==> r[i] == ledger[i].currentHash
  {
    seq(|ledger|, i requires 0 <= i < |ledger| => ledger[i].currentHash)
  }

  // ---- _merkle_root: pairs of hexadecimal texts ----

  function TextPair(layer: seq<string>, i: nat): string
    requires 2 * i < |layer|
  {
    layer[2 * i] + (if 2 * i + 1 < |layer| then layer[2 * i + 1] else layer[2 * i])
  }

  function TextParent(h: HashFn, layer: seq<string>, i: nat): string
    requires 2 * i < |layer|
  {
    Hex(h(Utf8(TextPair(layer, i))))
  }

  function TextUp(h: HashFn, layer: seq<string>): (r: seq<string>)
    ensures |r| == (|layer| + 1) / 2
    ensures forall i :: 0 <= i < |r| ==> r[i] == TextParent(h, layer, i)
  {
    seq((|layer| + 1) / 2, i requires 0 <= i < (|layer| + 1) / 2 => TextParent(h, layer, i))
  }

  function TextRoot(h: HashFn, layer: seq<string>): string
    requires layer != []
    decreases |layer|
  {
    if |layer| == 1 then layer[0] else TextRoot(h, TextUp(h, layer))
  }

  function InstanceRoot(h: HashFn, hashes: seq<string>): Option<string> {
    if hashes == [] then None else Some(TextRoot(h, Merkle.SortIds(hashes)))
  }

  method NextLayer(h: HashFn, layer: seq<string>) returns (next: seq<string>)
    ensures next == TextUp(h, layer)
  {
    next := [];
    var k := 0;
    while 2 * k < |layer|
      invariant 0 <= k <= (|layer| + 1) / 2 && |next| == k
      invariant forall j :: 0 <= j < k ==> next[j] == TextParent(h, layer, j)
    {
      var left := layer[2 * k];
      var right := if 2 * k + 1 < |layer| then layer[2 * k + 1] else left;
      assert left + right == TextPair(layer, k);
      next := next + [Hex(h(Utf8(left + right)))];
      k := k + 1;
    }
  }

  method MerkleRootOfTexts(h: HashFn, hashes: seq<string>) returns (root: Option<string>)
    ensures root == if hashes == [] then None else Some(TextRoot(h, hashes))
  {
    if hashes == [] {
      return None;
    }
    var layer := hashes;
    while |layer| > 1
      invariant layer != [] && TextRoot(h, layer) == TextRoot(h, hashes)
      decreases |layer|
    {
      layer := NextLayer(h, layer);
    }
    return Some(layer[0]);
  }

  // ---- verify_package ----

  datatype Replayed = Replayed(valid: bool, finalState: Option<string>, instanceId: Option<string>)

  const INVALID := Replayed(false, None, None)

  /** Everything the verifier checks. */
  ghost predicate PackageOk(c: ReplayEnv, p: ReplayPackage) {
    && p.kind == PACKAGE_KIND && p.publicKey != "" && p.signature != "" && p.proof.Some?
    && c.verify(p.publicKey, c.whole(p.proof.value), p.signature)
    && ProofOk(c, p.publicKey, p.proof.value)
  }

  ghost predicate ProofOk(c: ReplayEnv, key: string, proof: ReplayProof) {
    && proof.protocol.Some? && proof.instance.Some? && c.document(proof.protocol.value).Some?
    && proof.instance.value.protocolHash == Some(Hex(c.hash(c.document(proof.protocol.value).value)))
    && ViewOf(proof.protocol.value).initial.Some?
    && LedgerOk(c, key, ViewOf(proof.protocol.value), ViewOf(proof.protocol.value).initial.value, proof.ledger)
    && proof.instanceRoot == InstanceRoot(c.hash, Hashes(proof.ledger))
  }

  /** The replay loop: the end of the walk and the hashes, or `None` at the first bad entry. */
  method ReplayLedger(c: ReplayEnv, key: string, v: View, initial: string, ledger: seq<LedgerEntry>)
    returns (r: Option<(string, seq<string>)>)
    ensures r.Some? <==> LedgerOk(c, key, v, initial, ledger)
    ensures r.Some? ==> r.value == (StateBefore(initial, ledger, |ledger|), Hashes(ledger))
  {
    var state, prev, expectedVersion, hashes := initial, None, 1, [];
    for i := 0 to |ledger|
      invariant state == StateBefore(initial, ledger, i) && prev == PrevAt(ledger, i)
      invariant expectedVersion == i + 1 && hashes == Hashes(ledger)[..i]
      invariant forall j :: 0 <= j < i ==> EntryOk(c, key, v, initial, ledger, j)
    {
      var e := ledger[i];
      var payload := c.payload(prev, e);
      if e.schemaVersion != Some(SCHEMA_VERSION) || e.version != expectedVersion {
        assert !EntryOk(c, key, v, initial, ledger, i);
        return None;
      }
      if Hex(c.hash(payload)) != e.currentHash || !c.verify(key, payload, e.signature) {
        assert !EntryOk(c, key, v, initial, ledger, i);
        return None;
      }
      if !Permits(v, state, e.toState) {
        assert !EntryOk(c, key, v, initial, ledger, i);
        return None;
      }
      hashes := hashes + [e.currentHash];
      state, prev, expectedVersion := e.toState, Some(e.currentHash), expectedVersion + 1;
    }
    assert hashes == Hashes(ledger);
    return Some((state, hashes));
  }

  method VerifyPackage(c: ReplayEnv, p: ReplayPackage) returns (r: Replayed)
    ensures r.valid <==> PackageOk(c, p)
    ensures r.valid ==>
      && r.finalState == Some(StateBefore(ViewOf(p.proof.value.protocol.value).initial.value,
                                          p.proof.value.ledger, |p.proof.value.ledger|))
      && r.instanceId == p.proof.value.instance.value.instanceId
    ensures !r.valid ==> r == INVALID
  {
    if p.kind != PACKAGE_KIND || p.publicKey == "" || p.proof.None? || p.signature == "" {
      return INVALID;
    }
    var proof := p.proof.value;
    if !c.verify(p.publicKey, c.whole(proof), p.signature) {
      return INVALID;
    }
    if proof.protocol.None? || proof.instance.None? {
      return INVALID;
    }
    var document := c.document(proof.protocol.value);
    if document.None? || Some(Hex(c.hash(document.value))) != proof.instance.value.protocolHash {
      return INVALID;
    }
    var view := ViewOf(proof.protocol.value);
    if view.initial.None? {
      return INVALID;
    }
    var walked := ReplayLedger(c, p.publicKey, view, view.initial.value, proof.ledger);
    if walked.None? {
      return INVALID;
    }
    var root := MerkleRootOfTexts(c.hash, Merkle.SortIds(walked.value.1));
    if root != proof.instanceRoot {
      return INVALID;
    }
    return Replayed(true, Some(walked.value.0), proof.instance.value.instanceId);
  }

  // ---- An accepted ledger is a walk of the protocol ----

  /** The steps that the replay takes; an entry's own `from_state` plays no part. */
  function StepsOf(initial: string, ledger: seq<LedgerEntry>): (r: seq<Edge>)
    ensures |r| == |ledger|
    ensures forall i :: 0 <= i < |ledger| ==> r[i] == Edge(StateBefore(initial, ledger, i), ledger[i].toState)
  {
    seq(|ledger|, i requires 0 <= i < |ledger| => Edge(StateBefore(initial, ledger, i), ledger[i].toState))
  }

  /** On a usable document, what replay accepts is a walk in the engine's sense, ending in the final state. */
  lemma AcceptedLedgerWalks(c: ReplayEnv, key: string, d: Value, ledger: seq<LedgerEntry>)
    requires SpecOf(d).edges.Some? && SpecOf(d).initial.Some?
    requires LedgerOk(c, key, ViewOf(d), SpecOf(d).initial.value, ledger)
    ensures
      var initial := SpecOf(d).initial.value;
      && Walk(SpecOf(d), StepsOf(initial, ledger))
      && StateAt(SpecOf(d), StepsOf(initial, ledger), |ledger|) == Some(StateBefore(initial, ledger, |ledger|))
  {
    var spec, v := SpecOf(d), ViewOf(d);
    forall from, to ensures Permits(v, from, to) <==> Allows(spec, from, to) { PermitsIffAllows(d, from, to); }
    WalkFromEntries(c, key, spec, v, ledger);
  }

  lemma WalkFromEntries(c: ReplayEnv, key: string, spec: Spec, v: View, ledger: seq<LedgerEntry>)
    requires spec.initial.Some? && LedgerOk(c, key, v, spec.initial.value, ledger)
    requires forall from, to :: Permits(v, from, to) <==> Allows(spec, from, to)
    ensures Walk(spec, StepsOf(spec.initial.value, ledger))
  {
    var steps := StepsOf(spec.initial.value, ledger);
    forall k | 0 <= k < |steps| ensures StepAllowed(spec, steps, k) {
      assert EntryOk(c, key, v, spec.initial.value, ledger, k);
    }
  }

  // ---- What an accepted package binds ----

  function PayloadAt(c: ReplayEnv, ledger: seq<LedgerEntry>, i: nat): Bytes
    requires i < |ledger|
  {
    c.payload(PrevAt(ledger, i), ledger[i])
  }

  function PayloadInputs(c: ReplayEnv, ledger: seq<LedgerEntry>): set<Bytes> {
    set i | 0 <= i < |ledger| :: PayloadAt(c, ledger, i)
  }

  /** Every entry's stored hash is the hash of its payload over its predecessor. */
  ghost predicate Hashed(c: ReplayEnv, ledger: seq<LedgerEntry>) {
    forall i :: 0 <= i < |ledger| ==> HashedAt(c, ledger, i)
  }

  ghost predicate HashedAt(c: ReplayEnv, ledger: seq<LedgerEntry>, i: nat)
    requires i < |ledger|
  {
    ledger[i].currentHash == Hex(c.hash(PayloadAt(c, ledger, i))) && ledger[i].version == i + 1
  }

  lemma OkIsHashed(c: ReplayEnv, key: string, v: View, initial: string, ledger: seq<LedgerEntry>)
    requires LedgerOk(c, key, v, initial, ledger)
    ensures Hashed(c, ledger)
  {
    forall i | 0 <= i < |ledger| ensures HashedAt(c, ledger, i) {
      assert EntryOk(c, key, v, initial, ledger, i);
    }
  }

  lemma EntryBinds(c: ReplayEnv, a: seq<LedgerEntry>, i: nat, b: seq<LedgerEntry>, j: nat)
    requires CanonicalEntries(c) && i < |a| && j < |b| && HashedAt(c, a, i) && HashedAt(c, b, j)
    requires a[i].currentHash == b[j].currentHash
    ensures (PrevAt(a, i) == PrevAt(b, j) && SameEntry(a[i], b[j]) && i == j)
         || Collides(c.hash, PayloadInputs(c, a), PayloadInputs(c, b))
  {
    var x, y := PayloadAt(c, a, i), PayloadAt(c, b, j);
    assert x in PayloadInputs(c, a) && y in PayloadInputs(c, b);
    HexInjective(c.hash(x), c.hash(y));
    if x == y {
      assert EntryCanonical(c, PrevAt(a, i), a[i]) && EntryCanonical(c, PrevAt(b, j), b[j]);
      PayloadBytesBind(PrevAt(a, i), a[i], PrevAt(b, j), b[j]);
    }
  }

  /** From equal hashes at position k down to position j. */
  lemma {:induction false} BindsDown(c: ReplayEnv, a: seq<LedgerEntry>, b: seq<LedgerEntry>, k: nat, j: nat)
    requires CanonicalEntries(c) && Hashed(c, a) && Hashed(c, b) && j <= k < |a| && k < |b|
    requires a[k].currentHash == b[k].currentHash
    ensures SameEntry(a[j], b[j]) || Collides(c.hash, PayloadInputs(c, a), PayloadInputs(c, b))
  {
    assert HashedAt(c, a, k) && HashedAt(c, b, k);
    EntryBinds(c, a, k, b, k);
    if j < k && PrevAt(a, k) == PrevAt(b, k) {
      assert a[k - 1].currentHash == b[k - 1].currentHash;
      BindsDown(c, a, b, k - 1, j);
    }
  }

  /** Two accepted ledgers with the same last hash are the same, field by field, or two payloads collide. */
  lemma LedgerBinding(c: ReplayEnv, a: seq<LedgerEntry>, b: seq<LedgerEntry>)
    requires CanonicalEntries(c) && Hashed(c, a) && Hashed(c, b) && a != [] && b != []
    requires a[|a| - 1].currentHash == b[|b| - 1].currentHash
    ensures (|a| == |b| && forall j :: 0 <= j < |a| ==> SameEntry(a[j], b[j]))
         || Collides(c.hash, PayloadInputs(c, a), PayloadInputs(c, b))
  {
    var m, n := |a| - 1, |b| - 1;
    assert HashedAt(c, a, m) && HashedAt(c, b, n);
    EntryBinds(c, a, m, b, n);
    if !Collides(c.hash, PayloadInputs(c, a), PayloadInputs(c, b)) {
      forall j | 0 <= j < |a| ensures SameEntry(a[j], b[j]) { BindsDown(c, a, b, m, j); }
    }
  }

  /** The texts hashed above a layer. */
  function TextInputs(h: HashFn, layer: seq<string>): set<Bytes>
    decreases |layer|
  {
    if |layer| <= 1 then {}
    else (set i | 0 <= i < (|layer| + 1) / 2 :: Utf8(TextPair(layer, i))) + TextInputs(h, TextUp(h, layer))
  }

  /** Every text is a hexadecimal digest. */
  predicate AllDigests(layer: seq<string>) {
    forall i :: 0 <= i < |layer| ==> |layer[i]| == 64 && IsLowerHex(layer[i])
  }

  lemma UpAllDigests(h: HashFn, layer: seq<string>)
    ensures AllDigests(TextUp(h, layer))
  {
    forall i | 0 <= i < |TextUp(h, layer)| ensures |TextUp(h, layer)[i]| == 64 && IsLowerHex(TextUp(h, layer)[i]) {
      HexLength(h(Utf8(TextPair(layer, i))));
      HexIsLowerHex(h(Utf8(TextPair(layer, i))));
    }
  }

  lemma PairMembers(layer: seq<string>, i: nat)
    requires AllDigests(layer) && 2 * i < |layer|
    ensures |TextPair(layer, i)| == 128 && TextPair(layer, i)[..64] in layer && TextPair(layer, i)[64..] in layer
    ensures IsLowerHex(TextPair(layer, i)[..64])
    ensures TextPair(layer, i)[..64] == layer[2 * i]
    ensures 2 * i + 1 < |layer| ==> TextPair(layer, i)[64..] == layer[2 * i + 1]
  {
    var right := if 2 * i + 1 < |layer| then layer[2 * i + 1] else layer[2 * i];
    assert TextPair(layer, i)[..64] == layer[2 * i] && TextPair(layer, i)[64..] == right;
    assert right in layer;
  }

  /** Parents with the same hash have the same children, or there is a collision. */
  lemma PairBinds(h: HashFn, a: seq<string>, i: nat, b: seq<string>, j: nat)
    requires |a| > 1 && |b| > 1 && i < |TextUp(h, a)| && j < |TextUp(h, b)| && TextUp(h, a)[i] == TextUp(h, b)[j]
    ensures TextPair(a, i) == TextPair(b, j) || Collides(h, TextInputs(h, a), TextInputs(h, b))
  {
    var x, y := Utf8(TextPair(a, i)), Utf8(TextPair(b, j));
    HexInjective(h(x), h(y));
    assert x in TextInputs(h, a) && y in TextInputs(h, b);
    if x == y { Utf8Injective(TextPair(a, i), TextPair(b, j)); }
  }

  lemma SamePairMember(a: seq<string>, i: nat, k: nat, b: seq<string>, j: nat)
    requires k < |a| && (k == 2 * i || k == 2 * i + 1) && AllDigests(a) && AllDigests(b)
    requires 2 * i < |a| && 2 * j < |b| && TextPair(a, i) == TextPair(b, j)
    ensures a[k] in b
  {
    PairMembers(a, i);
    PairMembers(b, j);
  }

  lemma MemberOfUp(h: HashFn, a: seq<string>, b: seq<string>, i: nat, k: nat)
    requires |a| > 1 && |b| > 1 && k < |a| && (k == 2 * i || k == 2 * i + 1) && AllDigests(a) && AllDigests(b)
    requires i < |TextUp(h, a)| && TextUp(h, a)[i] in TextUp(h, b)
    ensures a[k] in b || Collides(h, TextInputs(h, a), TextInputs(h, b))
  {
    var j :| 0 <= j < |TextUp(h, b)| && TextUp(h, b)[j] == TextUp(h, a)[i];
    PairBinds(h, a, i, b, j);
    if TextPair(a, i) == TextPair(b, j) { SamePairMember(a, i, k, b, j); }
  }

  /** Under one height, layers with the same root have the same members, or there is a collision. */
  lemma {:induction false} RootMembers(h: HashFn, a: seq<string>, b: seq<string>)
    requires a != [] && b != [] && Merkle.Height(|a|) == Merkle.Height(|b|) && AllDigests(a) && AllDigests(b)
    requires TextRoot(h, a) == TextRoot(h, b)
    ensures (forall x :: x in a ==> x in b) || Collides(h, TextInputs(h, a), TextInputs(h, b))
    decreases |a|
  {
    if |a| > 1 {
      var a', b' := TextUp(h, a), TextUp(h, b);
      UpAllDigests(h, a);
      UpAllDigests(h, b);
      RootMembers(h, a', b');
      if Collides(h, TextInputs(h, a'), TextInputs(h, b')) {
        Merkle.CollidesWiden(h, TextInputs(h, a'), TextInputs(h, b'), TextInputs(h, a), TextInputs(h, b));
      } else if !Collides(h, TextInputs(h, a), TextInputs(h, b)) {
        forall x | x in a ensures x in b {
          var k :| 0 <= k < |a| && a[k] == x;
          assert a'[k / 2] in a' && (k == 2 * (k / 2) || k == 2 * (k / 2) + 1);
          MemberOfUp(h, a, b, k / 2, k);
        }
      }
    }
  }

  lemma {:induction false} TextRootIsHashed(h: HashFn, layer: seq<string>)
    requires |layer| > 1
    ensures exists y :: y in TextInputs(h, layer) && Hex(h(y)) == TextRoot(h, layer)
    decreases |layer|
  {
    if |layer| == 2 {
      var y := Utf8(TextPair(layer, 0));
      assert y in TextInputs(h, layer);
      assert TextUp(h, layer)[0] == Hex(h(y));
      assert TextRoot(h, TextUp(h, layer)) == TextUp(h, layer)[0];
    } else {
      TextRootIsHashed(h, TextUp(h, layer));
    }
  }

  /** A hashed text is a pair of digests. */
  ghost predicate PairOfDigests(x: Bytes, s: string) {
    x == Utf8(s) && |s| == 128 && IsLowerHex(s[..64])
  }

  lemma {:induction false} HashedTextIsPair(h: HashFn, layer: seq<string>, x: Bytes) returns (s: string)
    requires AllDigests(layer) && x in TextInputs(h, layer)
    ensures PairOfDigests(x, s)
    decreases |layer|
  {
    if k :| 0 <= k < (|layer| + 1) / 2 && x == Utf8(TextPair(layer, k)) {
      s := TextPair(layer, k);
      PairMembers(layer, k);
    } else {
      UpAllDigests(h, layer);
      s := HashedTextIsPair(h, TextUp(h, layer), x);
    }
  }

  /** The left half of a text hashed above the parents is the digest of a text hashed above the layer. */
  lemma {:induction false} LeftHalfIsHashed(h: HashFn, layer: seq<string>, s: string)
    requires |layer| > 1 && AllDigests(layer) && |s| == 128 && Utf8(s) in TextInputs(h, TextUp(h, layer))
    ensures exists y :: y in TextInputs(h, layer) && Hex(h(y)) == s[..64]
    decreases |layer|
  {
    var up := TextUp(h, layer);
    UpAllDigests(h, layer);
    if k :| 0 <= k < (|up| + 1) / 2 && Utf8(s) == Utf8(TextPair(up, k)) {
      Utf8Injective(s, TextPair(up, k));
      PairMembers(up, k);
      var i :| 0 <= i < |up| && up[i] == s[..64];
      assert Utf8(TextPair(layer, i)) in TextInputs(h, layer);
    } else {
      LeftHalfIsHashed(h, up, s);
    }
  }

  /** A text of the layer is the digest of a text hashed inside the other tree. */
  ghost predicate HoldsInner(h: HashFn, a: seq<string>, b: seq<string>) {
    exists y :: y in TextInputs(h, b) && Hex(h(y)) in a
  }

  /** Under different heights, equal roots put an inner node of the higher tree into the lower layer. */
  lemma {:induction false} LowerHoldsInner(h: HashFn, a: seq<string>, b: seq<string>)
    requires a != [] && b != [] && Merkle.Height(|a|) < Merkle.Height(|b|) && AllDigests(a) && AllDigests(b)
    requires TextRoot(h, a) == TextRoot(h, b)
    ensures HoldsInner(h, a, b) || Collides(h, TextInputs(h, a), TextInputs(h, b))
    decreases |a|
  {
    if |a| == 1 {
      TextRootIsHashed(h, b);
      var y :| y in TextInputs(h, b) && Hex(h(y)) == TextRoot(h, b);
      assert Hex(h(y)) == a[0];
    } else {
      var a', b' := TextUp(h, a), TextUp(h, b);
      UpAllDigests(h, a);
      UpAllDigests(h, b);
      LowerHoldsInner(h, a', b');
      if HoldsInner(h, a', b') {
        InnerGoesDown(h, a, b);
      } else {
        Merkle.CollidesWiden(h, TextInputs(h, a'), TextInputs(h, b'), TextInputs(h, a), TextInputs(h, b));
      }
    }
  }

  lemma InnerGoesDown(h: HashFn, a: seq<string>, b: seq<string>)
    requires |a| > 1 && |b| > 1 && AllDigests(a) && AllDigests(b) && HoldsInner(h, TextUp(h, a), TextUp(h, b))
    ensures HoldsInner(h, a, b) || Collides(h, TextInputs(h, a), TextInputs(h, b))
  {
    UpAllDigests(h, b);
    var x :| x in TextInputs(h, TextUp(h, b)) && Hex(h(x)) in TextUp(h, a);
    var i :| 0 <= i < |TextUp(h, a)| && TextUp(h, a)[i] == Hex(h(x));
    var pre := TextPair(a, i);
    HexInjective(h(x), h(Utf8(pre)));
    assert Utf8(pre) in TextInputs(h, a) && x in TextInputs(h, b);
    PairMembers(a, i);
    if x == Utf8(pre) { LeftHalfIsHashed(h, b, pre); }
  }

  lemma HashedAllDigests(c: ReplayEnv, ledger: seq<LedgerEntry>)
    requires Hashed(c, ledger)
    ensures AllDigests(Merkle.SortIds(Hashes(ledger)))
    ensures forall x :: x in Merkle.SortIds(Hashes(ledger)) <==> x in Hashes(ledger)
  {
    var hs := Hashes(ledger);
    SortMembers(LexLe, hs);
    forall i | 0 <= i < |hs| ensures |Merkle.SortIds(hs)[i]| == 64 && IsLowerHex(Merkle.SortIds(hs)[i]) {
      assert Merkle.SortIds(hs)[i] in hs;
      var j :| 0 <= j < |hs| && hs[j] == Merkle.SortIds(hs)[i];
      assert HashedAt(c, ledger, j);
      HexLength(c.hash(PayloadAt(c, ledger, j)));
      HexIsLowerHex(c.hash(PayloadAt(c, ledger, j)));
    }
  }

  /** Everything hashed for a ledger and its instance root. */
  function LedgerInputs(c: ReplayEnv, ledger: seq<LedgerEntry>): set<Bytes> {
    PayloadInputs(c, ledger) + TextInputs(c.hash, Merkle.SortIds(Hashes(ledger)))
  }

  /** An entry's payload is an object and so begins with a brace. */
  lemma PayloadIsObject(prev: Option<string>, e: LedgerEntry) returns (t: string)
    ensures PayloadBytes(prev, e) == Utf8(t) && t != "" && t[0] == '{'
  {
    ObjValidated(PAYLOAD_KEYS, PayloadValues(prev, e));
    PlainValidated(PayloadValues(prev, e));
    t := Dumps(Obj(PAYLOAD_KEYS, PayloadValues(prev, e)), true);
  }

  lemma BraceIsNoPair(t: string, y: Bytes, s: string)
    requires t != "" && t[0] == '{' && PairOfDigests(y, s)
    ensures Utf8(t) != y
  {
    assert s[0] == s[..64][0] && s[0] != '{';
    if Utf8(t) == Utf8(s) { Utf8Injective(t, s); }
  }

  /** An entry cannot be confused with a pair of digests. */
  lemma InnerEntryCollides(c: ReplayEnv, a: seq<LedgerEntry>, b: seq<LedgerEntry>)
    requires CanonicalEntries(c) && Hashed(c, a) && Hashed(c, b)
    requires HoldsInner(c.hash, Merkle.SortIds(Hashes(a)), Merkle.SortIds(Hashes(b)))
    ensures Collides(c.hash, LedgerInputs(c, a), LedgerInputs(c, b))
  {
    HashedAllDigests(c, a);
    HashedAllDigests(c, b);
    var y :| y in TextInputs(c.hash, Merkle.SortIds(Hashes(b))) && Hex(c.hash(y)) in Merkle.SortIds(Hashes(a));
    var j :| 0 <= j < |a| && Hashes(a)[j] == Hex(c.hash(y));
    assert HashedAt(c, a, j);
    var x := PayloadAt(c, a, j);
    HexInjective(c.hash(x), c.hash(y));
    assert EntryCanonical(c, PrevAt(a, j), a[j]);
    var t := PayloadIsObject(PrevAt(a, j), a[j]);
    var s := HashedTextIsPair(c.hash, Merkle.SortIds(Hashes(b)), y);
    BraceIsNoPair(t, y, s);
    assert x in LedgerInputs(c, a) && y in LedgerInputs(c, b);
  }

  /** Ledgers with the same instance root have the same hashes, or there is a collision. */
  lemma RootBindsHashes(c: ReplayEnv, a: seq<LedgerEntry>, b: seq<LedgerEntry>)
    requires CanonicalEntries(c) && Hashed(c, a) && Hashed(c, b) && a != [] && b != []
    requires InstanceRoot(c.hash, Hashes(a)) == InstanceRoot(c.hash, Hashes(b))
    ensures (forall x :: x in Hashes(a) ==> x in Hashes(b)) || Collides(c.hash, LedgerInputs(c, a), LedgerInputs(c, b))
  {
    var x, y := Merkle.SortIds(Hashes(a)), Merkle.SortIds(Hashes(b));
    HashedAllDigests(c, a);
    HashedAllDigests(c, b);
    if Merkle.Height(|x|) == Merkle.Height(|y|) {
      RootMembers(c.hash, x, y);
    } else if Merkle.Height(|x|) < Merkle.Height(|y|) {
      LowerHoldsInner(c.hash, x, y);
      if HoldsInner(c.hash, x, y) { InnerEntryCollides(c, a, b); }
    } else {
      LowerHoldsInner(c.hash, y, x);
      if HoldsInner(c.hash, y, x) { InnerEntryCollides(c, b, a); }
    }
    CollidesWithin(c, a, b);
    CollidesWithin(c, b, a);
  }

  lemma CollidesWithin(c: ReplayEnv, a: seq<LedgerEntry>, b: seq<LedgerEntry>)
    ensures Collides(c.hash, TextInputs(c.hash, Merkle.SortIds(Hashes(a))), TextInputs(c.hash, Merkle.SortIds(Hashes(b)))) ==>
      Collides(c.hash, LedgerInputs(c, a), LedgerInputs(c, b))
    ensures Collides(c.hash, LedgerInputs(c, a), LedgerInputs(c, b)) ==>
      Collides(c.hash, LedgerInputs(c, b), LedgerInputs(c, a))
  {
  }

  /** The last entry of a ledger whose hashes all occur in another stands at the same place there. */
  lemma LastEntryFound(c: ReplayEnv, a: seq<LedgerEntry>, b: seq<LedgerEntry>)
    requires CanonicalEntries(c) && Hashed(c, a) && Hashed(c, b) && a != []
    requires Hashes(a)[|a| - 1] in Hashes(b)
    ensures (|a| <= |b| && a[|a| - 1].currentHash == b[|a| - 1].currentHash)
         || Collides(c.hash, LedgerInputs(c, a), LedgerInputs(c, b))
  {
    var n := |a| - 1;
    var j :| 0 <= j < |b| && Hashes(b)[j] == Hashes(a)[n];
    assert HashedAt(c, a, n) && HashedAt(c, b, j);
    EntryBinds(c, a, n, b, j);
  }

  /**
    The instance root binds the whole ledger, its length included: two accepted
    ledgers with the same root agree on every hashed field of every entry, or two
    hashed strings collide.
   */
  lemma RootBindsLedger(c: ReplayEnv, a: seq<LedgerEntry>, b: seq<LedgerEntry>)
    requires CanonicalEntries(c) && Hashed(c, a) && Hashed(c, b)
    requires InstanceRoot(c.hash, Hashes(a)) == InstanceRoot(c.hash, Hashes(b))
    ensures
      || (|a| == |b| && forall j :: 0 <= j < |a| ==> SameEntry(a[j], b[j]))
      || Collides(c.hash, LedgerInputs(c, a), LedgerInputs(c, b))
  {
    CollidesWithin(c, b, a);
    if a != [] && b != [] && !Collides(c.hash, LedgerInputs(c, a), LedgerInputs(c, b)) {
      RootBindsHashes(c, a, b);
      RootBindsHashes(c, b, a);
      assert Hashes(a)[|a| - 1] in Hashes(a) && Hashes(b)[|b| - 1] in Hashes(b);
      LastEntryFound(c, a, b);
      LastEntryFound(c, b, a);
      LedgerBinding(c, a, b);
    }
  }

  /**
    What a replayed package commits to: two valid packages with the same protocol
    hash and instance root hold the same protocol and the same entries, field by
    field, or two hashed strings collide.
   */
  lemma PackageBinding(c: ReplayEnv, p: ReplayPackage, q: ReplayPackage)
    requires CanonicalReplay(c) && PackageOk(c, p) && PackageOk(c, q)
    requires Document(p.proof.value.protocol.value) && Document(q.proof.value.protocol.value)
    requires p.proof.value.instance.value.protocolHash == q.proof.value.instance.value.protocolHash
    requires p.proof.value.instanceRoot == q.proof.value.instanceRoot
    ensures
      var (x, y) := (p.proof.value, q.proof.value);
      || (&& Same(x.protocol.value, y.protocol.value) && |x.ledger| == |y.ledger|
          && forall j :: 0 <= j < |x.ledger| ==> SameEntry(x.ledger[j], y.ledger[j]))
      || Collides(c.hash, ProofInputs(c, x), ProofInputs(c, y))
  {
    var x, y := p.proof.value, q.proof.value;
    OkIsHashed(c, p.publicKey, ViewOf(x.protocol.value), ViewOf(x.protocol.value).initial.value, x.ledger);
    OkIsHashed(c, q.publicKey, ViewOf(y.protocol.value), ViewOf(y.protocol.value).initial.value, y.ledger);
    ProtocolBinding(c, x.protocol.value, y.protocol.value);
    RootBindsLedger(c, x.ledger, y.ledger);
  }

  /** Everything hashed while replaying a proof. */
  function ProofInputs(c: ReplayEnv, x: ReplayProof): set<Bytes>
    requires x.protocol.Some? && c.document(x.protocol.value).Some?
  {
    {c.document(x.protocol.value).value} + LedgerInputs(c, x.ledger)
  }

  /** Two packages that name the same protocol hash carry the same protocol, or their documents collide. */
  lemma ProtocolBinding(c: ReplayEnv, d: Value, d': Value)
    requires CanonicalDocuments(c) && Document(d) && Document(d') && c.document(d).Some? && c.document(d').Some?
    requires Hex(c.hash(c.document(d).value)) == Hex(c.hash(c.document(d').value))
    ensures (Same(d, d') && SpecOf(d) == SpecOf(d'))
         || Collides(c.hash, {c.document(d).value}, {c.document(d').value})
  {
    var x, y := c.document(d).value, c.document(d').value;
    HexInjective(c.hash(x), c.hash(y));
    if x == y {
      assert DocumentCanonical(c, d) && DocumentCanonical(c, d');
      Utf8Injective(Dumps(d, true), Dumps(d', true));
      DumpsEqualIffSame(d, d', true);
      SameDocumentSameSpec(d, d');
    }
  }
}
