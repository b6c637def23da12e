/**
  The governance engine: recording decisions and exporting proof packages
  (provable_ai/engine.py).
 */
module Engine {
  import opened Prelude
  import opened TextEncoding
  import opened Json
  import opened ProofModel
  import opened Verifier
  import opened Storage

  /** The external calls of a request: none, or their serialised form if it has one. */
  datatype Calls = NoCalls | Calls(bytes: Option<Bytes>)

  /** The arguments of `record_decision`; `rawInputs` is `None` when they cannot be serialised. */
  datatype Request = Request(
    instanceId: string, decision: Decision, governance: Governance, reasonCode: string, policyRule: string,
    rawInputs: Option<Bytes>, features: seq<seq<Feature>>, threshold: Option<string>, metadata: Value,
    mode: Mode, seed: Option<string>, externalCalls: Calls)

  /** The approved model, agent and active policy versions. */
  datatype Approvals = Approvals(models: set<string>, agents: set<string>, policies: set<string>)

  /** A signing key; `sign` gives `None` when the signer raises. */
  datatype Signer = Signer(keyId: string, publicKey: string, sign: Bytes -> Option<string>)

  /** Ed25519 correctness: what the signer signs verifies under its public key. */
  ghost predicate SignerLaw(c: Env, s: Signer) {
    && |s.publicKey| == 64
    && forall m :: s.sign(m).Some? ==> |s.sign(m).value| == 128 && c.verify(s.publicKey, m, s.sign(m).value)
  }

  /** The serialisers are canonical where they should be and `int(s, 16)` accepts lower-case hexadecimal. */
  ghost predicate Lawful(c: Env) {
    CanonicalPayload(c) && PlainExtends(c) && ReadsHex(c)
  }

  ghost predicate ReadsHex(c: Env) {
    forall s :: s != "" && IsLowerHex(s) ==> c.base16(s)
  }

  datatype RecordError =
    | UnauthorizedModelVersion | AgentVersionMismatch | PolicyViolation | NotCanonical
    | MissingSeed | MissingCalls | TipNotAHash | NotSerializable | InvalidField | CannotSign
    | NotStored(why: StorageError)

  datatype Outcome = Recorded(proof: Proof) | Failed(error: RecordError)

  predicate Falsy(v: Value) {
    v == Null || v == Bool(false) || v == Int(0) || v == Str("") || v == List([]) || v == Dict([])
  }

  /** `metadata or {}`. */
  function MetadataOf(q: Request): Value {
    if Falsy(q.metadata) then Dict([]) else q.metadata
  }

  /** Governance, metadata and determinism checks, in their order. */
  function Admit(a: Approvals, q: Request): Option<RecordError> {
    if q.governance.modelVersion !in a.models then Some(UnauthorizedModelVersion)
    else if q.governance.agentVersion !in a.agents then Some(AgentVersionMismatch)
    else if q.governance.policyVersion !in a.policies then Some(PolicyViolation)
    else if !Validated(MetadataOf(q)) then Some(NotCanonical)
    else if q.mode == ReplayWithSeed && (q.seed.None? || q.seed.value == "") then Some(MissingSeed)
    else if q.mode == ReplayWithRecordedIO && q.externalCalls.NoCalls? then Some(MissingCalls)
    else None
  }

  datatype Tip = Tip(prev: string, seq_: int)

  /** `_get_previous_hash_and_sequence`; `None` when the stored hash is not one. */
  function ReadTip(c: Env, ledger: seq<LedgerRow>, t: string, i: string): Option<Tip> {
    var last := Latest(ledger, t, i);
    if last.None? then Some(Tip(GENESIS_HEX, 1))
    else if IsHash(c, last.value.currentHash) then Some(Tip(last.value.currentHash, last.value.sequenceId + 1))
    else None
  }

  /** The proof before it is hashed and signed. */
  function Draft(c: Env, s: Signer, q: Request, tip: Tip, now: string, inputs: Bytes, calls: Option<string>): Proof {
    Proof(q.instanceId, q.decision,
          Context(q.reasonCode, q.policyRule, q.governance.modelVersion, Hex(c.hash(inputs)),
                  q.features, q.threshold, MetadataOf(q)),
          q.governance, Determinism(q.mode, q.seed, calls),
          LedgerInfo(tip.seq_, tip.prev, "", now), Signature(s.keyId, s.publicKey, ""))
  }

  function Signed(p: Proof, currentHash: string, signature: string): Proof {
    p.(ledger := p.ledger.(currentHash := currentHash), signature := p.signature.(value := signature))
  }

  /** Builds, hashes and signs the proof for a tip. */
  function Build(c: Env, s: Signer, q: Request, tip: Tip, now: string): Outcome {
    if q.rawInputs.None? then Failed(NotSerializable)
    else if q.mode == ReplayWithRecordedIO && q.externalCalls.Calls? && q.externalCalls.bytes.None? then Failed(NotSerializable)
    else
      var calls := if q.mode == ReplayWithRecordedIO && q.externalCalls.Calls?
                   then Some(Hex(c.hash(q.externalCalls.bytes.value))) else None;
      var draft := Draft(c, s, q, tip, now, q.rawInputs.value, calls);
      if !BodyOk(c, draft) then Failed(InvalidField)
      else if c.payload(draft).None? then Failed(NotCanonical)
      else
        var digest := c.hash(c.payload(draft).value);
        if s.sign(digest).None? then Failed(CannotSign)
        else
          var p := Signed(draft, Hex(digest), s.sign(digest).value);
          if SchemaOk(c, p) then Recorded(p) else Failed(InvalidField)
  }

  /** `record_decision`, uninterrupted. */
  function Record(c: Env, s: Signer, a: Approvals, db: Database, t: string, q: Request, now: string): (Database, Outcome) {
    var refused := Admit(a, q);
    if refused.Some? then (db, Failed(refused.value))
    else
      var tip := ReadTip(c, db.ledger, t, q.instanceId);
      if tip.None? then (db, Failed(TipNotAHash))
      else
        match Build(c, s, q, tip.value, now)
        case Failed(e) => (db, Failed(e))
        case Recorded(p) =>
          var (db', e) := Append(db, t, p);
          if e.Some? then (db', Failed(NotStored(e.value))) else (db', Recorded(p))
  }

  // ---- Every recorded proof checks ----

  /** What the engine records about determinism; a seed in strict mode slips through. */
  ghost predicate ModeRecorded(c: Env, d: Determinism) {
    match d.mode
    case StrictDeterministic => d.externalCallsHash.None?
    case ReplayWithSeed => d.seed.Some?
    case ReplayWithRecordedIO => d.externalCallsHash.Some? && IsHash(c, d.externalCallsHash.value)
  }

  predicate SeededStrict(p: Proof) {
    p.determinism.mode == StrictDeterministic && p.determinism.seed.Some?
  }

  /** A recorded proof: schema, hash and signature check, and the mode is as recorded. */
  ghost predicate WellRecorded(c: Env, p: Proof) {
    SchemaOk(c, p) && HashOk(c, p) && SignatureOk(c, p) && ModeRecorded(c, p.determinism)
  }

  /** The hash payload does not cover the hash and the signature themselves. */
  lemma SigningKeepsPayload(c: Env, p: Proof, currentHash: string, signature: string)
    requires CanonicalPayload(c)
    ensures c.payload(Signed(p, currentHash, signature)) == c.payload(p)
  {
    var q := Signed(p, currentHash, signature);
    assert CanonicalFor(c, p) && CanonicalFor(c, q);
    assert PayloadFields(q) == PayloadFields(p);
  }

  /** The proof carries the request field by field, the time, and the signer's key. */
  ghost predicate Carries(c: Env, s: Signer, q: Request, now: string, p: Proof) {
    && p.instanceId == q.instanceId && p.decision == q.decision && p.governance == q.governance
    && p.context.reasonCode == q.reasonCode && p.context.policyRule == q.policyRule
    && p.context.modelVersion == q.governance.modelVersion
    && q.rawInputs.Some? && p.context.inputsHash == Hex(c.hash(q.rawInputs.value))
    && p.context.features == q.features && p.context.threshold == q.threshold
    && p.context.metadata == (if Falsy(q.metadata) then Dict([]) else q.metadata)
    && p.determinism.mode == q.mode && p.determinism.seed == q.seed
    && (p.determinism.externalCallsHash.Some? <==> q.mode == ReplayWithRecordedIO)
    && (q.mode == ReplayWithRecordedIO ==>
        && q.externalCalls.Calls? && q.externalCalls.bytes.Some?
        && p.determinism.externalCallsHash.value == Hex(c.hash(q.externalCalls.bytes.value)))
    && p.ledger.timestamp == now && p.signature.keyId == s.keyId && p.signature.publicKey == s.publicKey
  }

  lemma HexIsHash(c: Env, d: Digest)
    requires ReadsHex(c)
    ensures IsHash(c, Hex(d))
  {
    HexLength(d);
    HexIsLowerHex(d);
  }

  lemma BuildIsWellRecorded(c: Env, s: Signer, a: Approvals, q: Request, tip: Tip, now: string)
    requires Lawful(c) && SignerLaw(c, s) && Admit(a, q).None? && Build(c, s, q, tip, now).Recorded?
    ensures
      var p := Build(c, s, q, tip, now).proof;
      && WellRecorded(c, p)
      && Carries(c, s, q, now, p)
      && p.ledger.sequenceId == tip.seq_ && p.ledger.previousHash == tip.prev
  {
    var calls := if q.mode == ReplayWithRecordedIO && q.externalCalls.Calls?
                 then Some(Hex(c.hash(q.externalCalls.bytes.value))) else None;
    var draft := Draft(c, s, q, tip, now, q.rawInputs.value, calls);
    var digest := c.hash(c.payload(draft).value);
    SigningKeepsPayload(c, draft, Hex(digest), s.sign(digest).value);
    if calls.Some? { HexIsHash(c, c.hash(q.externalCalls.bytes.value)); }
  }

  /**
    A recorded proof is accepted at its place in a chain exactly when it is not
    a strict-mode proof with a seed, which the engine records and the verifier
    refuses.
   */
  lemma RecordedVerifiesIffNotSeededStrict(c: Env, p: Proof)
    requires WellRecorded(c, p) && (p.ledger.sequenceId == 1 ==> p.ledger.previousHash == GENESIS_HEX)
    ensures VerifyProof(c, p, Some(p.ledger.previousHash), Some(p.ledger.sequenceId)).Accepted? <==> !SeededStrict(p)
  {
  }

  // ---- Sound ledgers ----

  ghost predicate RowSound(c: Env, r: LedgerRow) {
    r == RowOf(r.tenantId, r.proof) && WellRecorded(c, r.proof)
  }

  /** Every row is sound and every (tenant, instance) chain is linked. */
  ghost predicate SoundLedger(c: Env, ledger: seq<LedgerRow>) {
    && (forall k :: 0 <= k < |ledger| ==> RowSound(c, ledger[k]))
    && (forall t, i :: Linked(Rows(ledger, t, i)))
  }

  /** Adding a sound row at the right place keeps the ledger sound. */
  lemma SoundAppend(c: Env, ledger: seq<LedgerRow>, r: LedgerRow)
    requires SoundLedger(c, ledger) && RowSound(c, r)
    requires r.sequenceId == |Rows(ledger, r.tenantId, r.instanceId)| + 1
    requires r.previousHash == ExpectedPrev(ledger, r.tenantId, r.instanceId)
    ensures SoundLedger(c, ledger + [r])
  {
    forall t, i ensures Linked(Rows(ledger + [r], t, i)) {
      assert Linked(Rows(ledger, t, i));
      RowsAppend(ledger, r, t, i);
      if r.tenantId == t && r.instanceId == i {
        ExpectedNext(ledger, t, i);
        LinkedAppend(Rows(ledger, t, i), r);
      }
    }
  }

  lemma AppendKeepsSound(c: Env, db: Database, t: string, p: Proof)
    requires SoundLedger(c, db.ledger) && WellRecorded(c, p)
    ensures SoundLedger(c, Append(db, t, p).0.ledger)
    ensures Append(db, t, p).1.Some? ==> Append(db, t, p).0 == db
    ensures Append(db, t, p).1.None? ==> Append(db, t, p).0.ledger == db.ledger + [RowOf(t, p)]
  {
    if Append(db, t, p).1.None? {
      var r := RowOf(t, p);
      assert Linked(Rows(db.ledger, t, p.instanceId));
      ExpectedNext(db.ledger, t, p.instanceId);
      SoundAppend(c, db.ledger, r);
    }
  }

  lemma RecordKeepsSound(c: Env, s: Signer, a: Approvals, db: Database, t: string, q: Request, now: string)
    requires Lawful(c) && SignerLaw(c, s) && SoundLedger(c, db.ledger)
    ensures
      var (db', r) := Record(c, s, a, db, t, q, now);
      && SoundLedger(c, db'.ledger)
      && (r.Failed? ==> db' == db)
      && (r.Recorded? ==>
          && db'.ledger == db.ledger + [RowOf(t, r.proof)]
          && WellRecorded(c, r.proof)
          && Carries(c, s, q, now, r.proof))
  {
    if Admit(a, q).None? && ReadTip(c, db.ledger, t, q.instanceId).Some? {
      var tip := ReadTip(c, db.ledger, t, q.instanceId).value;
      if Build(c, s, q, tip, now).Recorded? {
        BuildIsWellRecorded(c, s, a, q, tip, now);
        AppendKeepsSound(c, db, t, Build(c, s, q, tip, now).proof);
      }
    }
  }

  // ---- A sound chain verifies and its export verifies ----

  function Proofs(rows: seq<LedgerRow>): (r: seq<Proof>)
    ensures |r| == |rows|
    ensures forall i :: 0 <= i < |rows| ==> r[i] == rows[i].proof
  {
    seq(|rows|, i requires 0 <= i < |rows| => rows[i].proof)
  }

  /** The proofs of an instance as every reader loads them. */
  function ChainOf(ledger: seq<LedgerRow>, t: string, i: string): seq<Proof> {
    Proofs(LedgerChain(ledger, t, i))
  }

  lemma SoundRows(c: Env, ledger: seq<LedgerRow>, t: string, i: string, k: nat)
    requires SoundLedger(c, ledger) && k < |Rows(ledger, t, i)|
    ensures RowSound(c, Rows(ledger, t, i)[k])
  {
    RowsInLedger(ledger, t, i, k);
    var j :| 0 <= j < |ledger| && ledger[j] == Rows(ledger, t, i)[k];
    assert RowSound(c, ledger[j]);
  }

  /** In a sound ledger position, link, hash and signature of every proof of a chain are right. */
  lemma SoundChain(c: Env, ledger: seq<LedgerRow>, t: string, i: string)
    requires SoundLedger(c, ledger)
    ensures LedgerChain(ledger, t, i) == Rows(ledger, t, i)
    ensures forall k :: 0 <= k < |ChainOf(ledger, t, i)| ==>
      WellRecorded(c, ChainOf(ledger, t, i)[k]) && ChainOf(ledger, t, i)[k].ledger.sequenceId == k + 1
    ensures forall k :: 0 <= k < |ChainOf(ledger, t, i)| ==> LinkedAt(ChainOf(ledger, t, i), k)
  {
    var rows, ps := Rows(ledger, t, i), ChainOf(ledger, t, i);
    assert Linked(rows);
    ExpectedNext(ledger, t, i);
    forall k | 0 <= k < |ps| ensures WellRecorded(c, ps[k]) && ps[k].ledger.sequenceId == k + 1 && LinkedAt(ps, k) {
      SoundRows(c, ledger, t, i, k);
      assert PlacedAt(rows, k);
      if k > 0 { SoundRows(c, ledger, t, i, k - 1); }
    }
  }

  /** A sound chain passes `verify_chain` exactly when it is not empty and holds no seeded strict proof. */
  lemma SoundChainVerifies(c: Env, ledger: seq<LedgerRow>, t: string, i: string)
    requires SoundLedger(c, ledger)
    ensures ChainAccepted(c, ChainOf(ledger, t, i)) <==>
      && ChainOf(ledger, t, i) != []
      && forall k :: 0 <= k < |ChainOf(ledger, t, i)| ==> !SeededStrict(ChainOf(ledger, t, i)[k])
  {
    var ps := ChainOf(ledger, t, i);
    SoundChain(c, ledger, t, i);
    forall k | 0 <= k < |ps| ensures AcceptedAt(c, ps, k) <==> !SeededStrict(ps[k]) {
      assert WellRecorded(c, ps[k]) && LinkedAt(ps, k);
      RecordedVerifiesIffNotSeededStrict(c, ps[k]);
    }
  }

  /** `export_proof`; `None` when the ledger cannot be serialised or the root not signed. */
  function Export(c: Env, s: Signer, ps: seq<Proof>, i: string): Option<Package> {
    var root := InstanceRoot(c, ps);
    if s.sign(root).None? || c.serialize(ps).None? then None
    else Some(Package(PACKAGE_KIND, s.publicKey, s.sign(root).value, Hex(c.hash(c.serialize(ps).value)),
                      i, Hex(root), ps))
  }

  /** Every non-empty export of a sound ledger passes the package verifier and the offline one. */
  lemma ExportVerifies(c: Env, s: Signer, ledger: seq<LedgerRow>, t: string, i: string)
    requires Lawful(c) && SignerLaw(c, s) && SoundLedger(c, ledger)
    requires ChainOf(ledger, t, i) != [] && Export(c, s, ChainOf(ledger, t, i), i).Some?
    ensures PackageAccepted(c, Export(c, s, ChainOf(ledger, t, i), i).value)
    ensures OfflineAccepted(c, Export(c, s, ChainOf(ledger, t, i), i).value)
    ensures
      var k := Export(c, s, ChainOf(ledger, t, i), i).value;
      k.ledger == ChainOf(ledger, t, i) && k.instanceId == i && k.publicKey == s.publicKey
  {
    var ps := ChainOf(ledger, t, i);
    SoundChain(c, ledger, t, i);
    forall k | 0 <= k < |ps| ensures PlainHashOk(c, ps[k]) {
      assert WellRecorded(c, ps[k]);
      HashOkIsPlain(c, ps[k]);
    }
    assert PackageChainOk(c, ps);
    var k := Export(c, s, ps, i).value;
    assert |k.signature| == 128 && |k.publicKey| == 64;
    AcceptedPackagePassesOffline(c, k);
  }

  // ---- Runs of record_decision ----

  datatype Call = Call(signer: Signer, approvals: Approvals, tenant: string, request: Request, now: string)

  ghost predicate LawfulSigners(c: Env, calls: seq<Call>) {
    forall j :: 0 <= j < |calls| ==> SignerLaw(c, calls[j].signer)
  }

  function DatabaseAfter(c: Env, db: Database, calls: seq<Call>): Database
    decreases calls
  {
    if calls == [] then db
    else
      var k := calls[0];
      DatabaseAfter(c, Record(c, k.signer, k.approvals, db, k.tenant, k.request, k.now).0, calls[1..])
  }

  /** What the calls return, in order. */
  function OutcomesOf(c: Env, db: Database, calls: seq<Call>): seq<Outcome>
    decreases calls
  {
    if calls == [] then []
    else
      var k := calls[0];
      var (db', r) := Record(c, k.signer, k.approvals, db, k.tenant, k.request, k.now);
      [r] + OutcomesOf(c, db', calls[1..])
  }

  lemma {:induction false} RunKeepsSound(c: Env, db: Database, calls: seq<Call>)
    requires Lawful(c) && SoundLedger(c, db.ledger)
    requires LawfulSigners(c, calls)
    ensures SoundLedger(c, DatabaseAfter(c, db, calls).ledger)
    ensures db.ledger <= DatabaseAfter(c, db, calls).ledger
    decreases calls
  {
    if calls != [] {
      var k := calls[0];
      RecordKeepsSound(c, k.signer, k.approvals, db, k.tenant, k.request, k.now);
      RunKeepsSound(c, Record(c, k.signer, k.approvals, db, k.tenant, k.request, k.now).0, calls[1..]);
    }
  }

  /**
    End to end: after any run of `record_decision` calls on an empty database,
    successes and failures mixed, every instance's chain is linked from genesis,
    passes `verify_chain` if no recorded strict-mode proof carries a seed, and
    its export passes both package verifiers.
   */
  lemma EndToEnd(c: Env, calls: seq<Call>, t: string, i: string, s: Signer)
    requires Lawful(c) && SignerLaw(c, s)
    requires LawfulSigners(c, calls)
    ensures
      var ledger := DatabaseAfter(c, Database([], []), calls).ledger;
      var ps := ChainOf(ledger, t, i);
      && SoundLedger(c, ledger)
      && (ps != [] && (forall k :: 0 <= k < |ps| ==> !SeededStrict(ps[k])) ==> ChainAccepted(c, ps))
      && (ps != [] && Export(c, s, ps, i).Some? ==>
          PackageAccepted(c, Export(c, s, ps, i).value) && OfflineAccepted(c, Export(c, s, ps, i).value))
  {
    RunKeepsSound(c, Database([], []), calls);
    var ledger := DatabaseAfter(c, Database([], []), calls).ledger;
    SoundChainVerifies(c, ledger, t, i);
    var ps := ChainOf(ledger, t, i);
    if ps != [] && Export(c, s, ps, i).Some? {
      ExportVerifies(c, s, ledger, t, i);
    }
  }

  /**
    Exporting freezes the instance, and recording never looks at the flag: a
    frozen instance goes on growing exactly as if it had not been frozen.
   */
  lemma FrozenInstanceStillGrows(c: Env, db: Database, t: string, i: string, calls: seq<Call>)
    ensures DatabaseAfter(c, Freeze(db, t, i), calls).ledger == DatabaseAfter(c, db, calls).ledger
    ensures OutcomesOf(c, Freeze(db, t, i), calls) == OutcomesOf(c, db, calls)
  {
    SameLedgerSameRun(c, Freeze(db, t, i), db, calls);
  }

  /** Recording looks at the ledger only. */
  lemma RecordNeedsLedgerOnly(c: Env, k: Call, db: Database, db': Database)
    requires db.ledger == db'.ledger
    ensures
      var (d, r) := Record(c, k.signer, k.approvals, db, k.tenant, k.request, k.now);
      var (d', r') := Record(c, k.signer, k.approvals, db', k.tenant, k.request, k.now);
      d.ledger == d'.ledger && r == r'
  {
  }

  lemma {:induction false} SameLedgerSameRun(c: Env, db: Database, db': Database, calls: seq<Call>)
    requires db.ledger == db'.ledger
    ensures DatabaseAfter(c, db, calls).ledger == DatabaseAfter(c, db', calls).ledger
    ensures OutcomesOf(c, db, calls) == OutcomesOf(c, db', calls)
    decreases calls
  {
    if calls != [] {
      var k := calls[0];
      RecordNeedsLedgerOnly(c, k, db, db');
      SameLedgerSameRun(c, Record(c, k.signer, k.approvals, db, k.tenant, k.request, k.now).0,
                        Record(c, k.signer, k.approvals, db', k.tenant, k.request, k.now).0, calls[1..]);
    }
  }

  // ---- The engine object ----

  const DEFAULT_TENANT := "default"

  class GovernanceEngine {
    const c: Env
    const signer: Signer
    const storage: SQLiteStorage

    ghost predicate Valid()
      reads this, storage
    {
      Lawful(c) && SignerLaw(c, signer) && SoundLedger(c, storage.db.ledger)
    }

    constructor (c: Env, signer: Signer, storage: SQLiteStorage)
      requires Lawful(c) && SignerLaw(c, signer) && SoundLedger(c, storage.db.ledger)
      ensures Valid() && this.c == c && this.signer == signer && this.storage == storage
    {
      this.c, this.signer, this.storage := c, signer, storage;
    }

    /** Records a decision, or fails and leaves the database as it was. */
    method RecordDecision(a: Approvals, q: Request, now: string) returns (r: Outcome)
      requires Valid()
      modifies storage
      ensures Valid()
      ensures (storage.db, r) == Record(c, signer, a, old(storage.db), DEFAULT_TENANT, q, now)
      ensures r.Failed? ==> storage.db == old(storage.db)
      ensures r.Recorded? ==>
        && storage.db.ledger == old(storage.db.ledger) + [RowOf(DEFAULT_TENANT, r.proof)]
        && Carries(c, signer, q, now, r.proof)
    {
      RecordKeepsSound(c, signer, a, storage.db, DEFAULT_TENANT, q, now);
      var refused := Admit(a, q);
      if refused.Some? {
        return Failed(refused.value);
      }
      var tip := ReadTip(c, storage.db.ledger, DEFAULT_TENANT, q.instanceId);
      if tip.None? {
        return Failed(TipNotAHash);
      }
      r := Build(c, signer, q, tip.value, now);
      if r.Recorded? {
        var e := storage.AppendLedgerEntry(DEFAULT_TENANT, r.proof);
        if e.Some? {
          r := Failed(NotStored(e.value));
        }
      }
    }

    /** Exports an instance and freezes it. */
    method ExportProof(i: string) returns (k: Option<Package>)
      requires Valid()
      modifies storage
      ensures Valid()
      ensures k == Export(c, signer, ChainOf(old(storage.db.ledger), DEFAULT_TENANT, i), i)
      ensures k.Some? && k.value.ledger != [] ==> PackageAccepted(c, k.value) && OfflineAccepted(c, k.value)
      ensures storage.db ==
        if signer.sign(InstanceRoot(c, ChainOf(old(storage.db.ledger), DEFAULT_TENANT, i))).Some?
        then Freeze(old(storage.db), DEFAULT_TENANT, i) else old(storage.db)
    {
      var ps := ChainOf(storage.db.ledger, DEFAULT_TENANT, i);
      k := Export(c, signer, ps, i);
      if k.Some? && ps != [] { ExportVerifies(c, signer, storage.db.ledger, DEFAULT_TENANT, i); }
      if signer.sign(InstanceRoot(c, ps)).Some? {
        storage.FreezeInstance(DEFAULT_TENANT, i);
      }
    }
  }
}
