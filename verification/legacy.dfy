/**
  The legacy `Engine`: protocols compiled in memory, instances driven through
  their transitions by one writer over a fresh database, and replay
  (provable_ai/engine.py).

  Every instance walks its own protocol, replays as valid, and stops growing
  once it is frozen after its first transition.
 */
module Legacy {
  import opened Prelude
  import opened TextEncoding
  import opened Tables
  import opened Json
  import opened Canonical
  import opened ProofModel
  import opened Verifier
  import opened Storage
  import opened Engine
  import opened Protocol

  datatype Instance = Instance(state: string, protocolHash: string)

  /** A compiled document and what the engine reads out of it. */
  datatype Compiled = Compiled(doc: Value, spec: Spec)

  datatype State = State(
    protocols: map<string, Compiled>, instances: map<string, Instance>, active: Option<string>, db: Database)

  const FRESH := State(map[], map[], None, Database([], []))

  /**
    The arguments of `transition`; `rawInputs` is the dictionary of the two
    hashes as serialised, and `metadata` is `None` when its text is not JSON.
   */
  datatype Args = Args(
    instanceId: string, toState: string, inputHash: string, outputHash: string, rawInputs: Bytes,
    governance: Governance, metadata: Option<Value>)

  datatype LegacyError =
    | NoProtocol | AlreadyExists | NotFound | Incomplete | NotApproved | BadSpec | InvalidTransition
    | IsFrozen | BadMetadata | NotEncodable | NotRecorded(why: RecordError)

  datatype Result = Completed | Moved(version: int, proof: Proof) | Refused(error: LegacyError)

  // ---- Operations ----

  /** `compile`: remembers the document under its hash and makes it the active protocol. */
  function Compile(c: Env, s: State, doc: Value): (State, Result) {
    var bytes := CanonicalEncode(doc);
    if bytes.None? then (s, Refused(NotEncodable))
    else
      var hash := Hex(c.hash(bytes.value));
      (s.(protocols := s.protocols[hash := Compiled(doc, SpecOf(doc))], active := Some(hash)), Completed)
  }

  /**
    `create_instance`. Its INSERT OR IGNORE leaves the mandatory `created_at`
    empty, so the database ignores it: only memory changes.
   */
  function Create(s: State, id: string): (State, Result) {
    if s.active.None? || s.active.value !in s.protocols then (s, Refused(NoProtocol))
    else if id in s.instances then (s, Refused(AlreadyExists))
    else
      var initial := s.protocols[s.active.value].spec.initial;
      if initial.None? then (s, Refused(BadSpec))
      else (s.(instances := s.instances[id := Instance(initial.value, s.active.value)]), Completed)
  }

  function RequestOf(from: string, a: Args, metadata: Value): Request {
    Request(a.instanceId, Decision(from, a.toState), a.governance, "TRANSITION", a.governance.policyVersion + ".auto",
            Some(a.rawInputs),
            [], None, metadata, StrictDeterministic, None, NoCalls)
  }

  /** `append_ledger_entry` on the rebuilt table, which has no unique indexes and no checks. */
  function AppendUnindexed(db: Database, t: string, p: Proof): (Database, Option<StorageError>) {
    var r := RowOf(t, p);
    if |r.signature| != 128 then (db, Some(SigningFailed))
    else if ValidateChain(db.ledger, r).Some? then (db, ValidateChain(db.ledger, r))
    else (Database(db.ledger + [r], EnsureInstance(db.instances, t, p.instanceId)), None)
  }

  /** `record_decision` on the rebuilt table. */
  function RecordUnindexed(c: Env, k: Signer, a: Approvals, db: Database, q: Request, now: string): (Database, Outcome) {
    var tip := ReadTip(c, db.ledger, DEFAULT_TENANT, q.instanceId);
    if Admit(a, q).Some? then (db, Failed(Admit(a, q).value))
    else if tip.None? then (db, Failed(TipNotAHash))
    else
      match Build(c, k, q, tip.value, now)
      case Failed(e) => (db, Failed(e))
      case Recorded(p) =>
        var (db', e) := AppendUnindexed(db, DEFAULT_TENANT, p);
        if e.Some? then (db', Failed(NotStored(e.value))) else (db', Recorded(p))
  }

  /** The checks of `transition` before it records anything, in their order. */
  function Refusal(s: State, approvals: Approvals, a: Args): Option<LegacyError> {
    if a.instanceId !in s.instances then Some(NotFound)
    else
      var inst := s.instances[a.instanceId];
      if inst.protocolHash !in s.protocols then Some(BadSpec)
      else
        var spec := s.protocols[inst.protocolHash].spec;
        if a.inputHash == "" || a.outputHash == "" then Some(Incomplete)
        else if a.governance.modelVersion !in approvals.models || a.governance.agentVersion !in approvals.agents
          || a.governance.policyVersion !in approvals.policies then Some(NotApproved)
        else if spec.edges.None? then Some(BadSpec)
        else if !Allows(spec, inst.state, a.toState) then Some(InvalidTransition)
        else if Frozen(s.db, DEFAULT_TENANT, a.instanceId) then Some(IsFrozen)
        else if a.metadata.None? then Some(BadMetadata)
        else None
  }

  function MaxSequence(ledger: seq<LedgerRow>, id: string): int {
    ExpectedSeq(ledger, DEFAULT_TENANT, id) - 1
  }

  function Transit(c: Env, s: State, k: Signer, approvals: Approvals, a: Args, now: string): (State, Result) {
    var refused := Refusal(s, approvals, a);
    if refused.Some? then (s, Refused(refused.value))
    else
      var inst := s.instances[a.instanceId];
      var version := MaxSequence(s.db.ledger, a.instanceId) + 1;
      var (db', r) := RecordUnindexed(c, k, approvals, s.db, RequestOf(inst.state, a, a.metadata.value), now);
      if r.Failed? then (s.(db := db'), Refused(NotRecorded(r.error)))
      else
        (AfterMove(s, a, db'), Moved(version, r.proof))
  }

  function AfterMove(s: State, a: Args, db': Database): State
    requires a.instanceId in s.instances
  {
    s.(db := db', instances := s.instances[a.instanceId := s.instances[a.instanceId].(state := a.toState)])
  }

  datatype Op =
    | CompileOp(doc: Value)
    | CreateOp(id: string)
    | TransitOp(signer: Signer, approvals: Approvals, args: Args, now: string)
    | FreezeOp(id: string)

  function Apply(c: Env, s: State, op: Op): (State, Result) {
    match op
    case CompileOp(doc) => Compile(c, s, doc)
    case CreateOp(id) => Create(s, id)
    case TransitOp(k, approvals, a, now) => Transit(c, s, k, approvals, a, now)
    case FreezeOp(id) => (s.(db := Freeze(s.db, DEFAULT_TENANT, id)), Completed)
  }

  function StateAfter(c: Env, s: State, ops: seq<Op>): State
    decreases ops
  {
    if ops == [] then s else StateAfter(c, Apply(c, s, ops[0]).0, ops[1..])
  }

  // ---- What every run keeps ----

  function EdgeOfRow(r: LedgerRow): Edge {
    Edge(r.proof.decision.fromState, r.proof.decision.toState)
  }

  /** The transitions of an instance as recorded. */
  function Steps(ledger: seq<LedgerRow>, id: string): seq<Edge> {
    Map(EdgeOfRow, Rows(ledger, DEFAULT_TENANT, id))
  }

  /** The ledger of an instance is a walk in a protocol that ends in the given state. */
  ghost predicate WalksTo(spec: Spec, ledger: seq<LedgerRow>, id: string, state: string) {
    var steps := Steps(ledger, id);
    Walk(spec, steps) && StateAt(spec, steps, |steps|) == Some(state)
  }

  ghost predicate InstanceOk(s: State, id: string)
    requires id in s.instances
  {
    var inst := s.instances[id];
    inst.protocolHash in s.protocols && WalksTo(s.protocols[inst.protocolHash].spec, s.db.ledger, id, inst.state)
  }

  /** A compiled document is stored under its own hash; `inputs` are the documents hashed in the run. */
  ghost predicate ProtocolOk(c: Env, inputs: set<Bytes>, hash: string, p: Compiled) {
    var doc := p.doc;
    && p.spec == SpecOf(doc)
    && Document(doc) && CanonicalEncode(doc).Some?
    && hash == Hex(c.hash(CanonicalEncode(doc).value)) && CanonicalEncode(doc).value in inputs
  }

  predicate HasRow(db: Database, id: string) {
    exists k :: 0 <= k < |db.instances| && db.instances[k].instanceId == id
  }

  /** A strict-mode proof of the default tenant, without a seed. */
  predicate StrictRow(r: LedgerRow) {
    r.tenantId == DEFAULT_TENANT && !SeededStrict(r.proof)
  }

  ghost predicate DatabaseOk(c: Env, db: Database) {
    && SoundLedger(c, db.ledger)
    && (forall k :: 0 <= k < |db.ledger| ==> StrictRow(db.ledger[k]))
    && (forall k :: 0 <= k < |db.instances| ==> db.instances[k].tenantId == DEFAULT_TENANT)
    && (forall id :: HasRow(db, id) <==> Rows(db.ledger, DEFAULT_TENANT, id) != [])
  }

  ghost predicate ProtocolsOk(c: Env, inputs: set<Bytes>, protocols: map<string, Compiled>) {
    forall hash :: hash in protocols ==> ProtocolOk(c, inputs, hash, protocols[hash])
  }

  /** Every instance walks its protocol, and only known instances have rows. */
  ghost predicate InstancesOk(s: State) {
    && (s.active.Some? ==> s.active.value in s.protocols)
    && (forall id :: id in s.instances ==> InstanceOk(s, id))
    && (forall id :: id !in s.instances ==> Rows(s.db.ledger, DEFAULT_TENANT, id) == [])
  }

  ghost predicate Sane(c: Env, inputs: set<Bytes>, s: State) {
    ProtocolsOk(c, inputs, s.protocols) && InstancesOk(s) && DatabaseOk(c, s.db)
  }

  // ---- Compiling ----

  /** The same hash twice means the same protocol, unless two documents of the run collide. */
  lemma SameHashSameSpec(c: Env, inputs: set<Bytes>, hash: string, a: Compiled, b: Compiled)
    requires ProtocolOk(c, inputs, hash, a) && ProtocolOk(c, inputs, hash, b) && !Collides(c.hash, inputs, inputs)
    ensures a.spec == b.spec
  {
    var x, y := CanonicalEncode(a.doc).value, CanonicalEncode(b.doc).value;
    HexInjective(c.hash(x), c.hash(y));
    CanonicalEncodeInjective(a.doc, b.doc);
    SameDocumentSameSpec(a.doc, b.doc);
  }

  lemma CompileKeepsSane(c: Env, inputs: set<Bytes>, s: State, doc: Value)
    requires Sane(c, inputs, s) && !Collides(c.hash, inputs, inputs) && IsPython(doc)
    requires CanonicalEncode(doc).Some? ==> CanonicalEncode(doc).value in inputs
    ensures Sane(c, inputs, Compile(c, s, doc).0)
  {
    if CanonicalEncode(doc).Some? {
      var hash := Hex(c.hash(CanonicalEncode(doc).value));
      var p := Compiled(doc, SpecOf(doc));
      assert ProtocolOk(c, inputs, hash, p);
      if hash in s.protocols { SameHashSameSpec(c, inputs, hash, s.protocols[hash], p); }
      RecompileKeepsInstances(s, hash, p);
    }
  }

  /** Replacing a document by one of the same meaning, or adding a new one, moves no instance. */
  lemma RecompileKeepsInstances(s: State, hash: string, p: Compiled)
    requires InstancesOk(s) && (hash in s.protocols ==> s.protocols[hash].spec == p.spec)
    ensures InstancesOk(s.(protocols := s.protocols[hash := p], active := Some(hash)))
  {
    var s' := s.(protocols := s.protocols[hash := p], active := Some(hash));
    forall id | id in s'.instances ensures InstanceOk(s', id) { assert InstanceOk(s, id); }
  }

  lemma CreateKeepsInstances(s: State, id: string)
    requires InstancesOk(s)
    ensures InstancesOk(Create(s, id).0) && Create(s, id).0 == s.(instances := Create(s, id).0.instances)
  {
    var s' := Create(s, id).0;
    forall x | x in s'.instances ensures InstanceOk(s', x) {
      if x in s.instances { assert InstanceOk(s, x); }
    }
  }

  // ---- Transitions ----

  lemma AppendUnindexedKeeps(c: Env, db: Database, p: Proof)
    requires DatabaseOk(c, db) && WellRecorded(c, p) && !SeededStrict(p)
    requires AppendUnindexed(db, DEFAULT_TENANT, p).1.None?
    ensures
      var db' := AppendUnindexed(db, DEFAULT_TENANT, p).0;
      && db'.ledger == db.ledger + [RowOf(DEFAULT_TENANT, p)]
      && DatabaseOk(c, db')
      && p.ledger.sequenceId == |Rows(db.ledger, DEFAULT_TENANT, p.instanceId)| + 1
  {
    var t, r, db' := DEFAULT_TENANT, RowOf(DEFAULT_TENANT, p), AppendUnindexed(db, DEFAULT_TENANT, p).0;
    assert Linked(Rows(db.ledger, t, p.instanceId));
    ExpectedNext(db.ledger, t, p.instanceId);
    SoundAppend(c, db.ledger, r);
    forall id ensures HasRow(db', id) <==> Rows(db'.ledger, t, id) != [] {
      RowsAppend(db.ledger, r, t, id);
      HasRowAfterEnsure(db, db'.ledger, t, p.instanceId, id);
      assert HasRow(db, id) <==> Rows(db.ledger, t, id) != [];
    }
  }

  lemma HasRowAfterEnsure(db: Database, ledger: seq<LedgerRow>, t: string, added: string, id: string)
    ensures HasRow(Database(ledger, EnsureInstance(db.instances, t, added)), id) <==> HasRow(db, id) || id == added
  {
    var db' := Database(ledger, EnsureInstance(db.instances, t, added));
    if HasRow(db, id) {
      var k :| 0 <= k < |db.instances| && db.instances[k].instanceId == id;
      assert db'.instances[k].instanceId == id;
    } else if id == added {
      assert db'.instances[|db.instances|].instanceId == id;
    }
  }

  /** Recording a transition keeps the database and adds one row of the right content, or changes nothing. */
  lemma RecordUnindexedKeeps(c: Env, k: Signer, a: Approvals, db: Database, q: Request, now: string)
    requires Lawful(c) && SignerLaw(c, k) && DatabaseOk(c, db) && q.mode == StrictDeterministic && q.seed.None?
    ensures
      var (db', r) := RecordUnindexed(c, k, a, db, q, now);
      && (r.Failed? ==> db' == db)
      && (r.Recorded? ==>
          && DatabaseOk(c, db')
          && db'.ledger == db.ledger + [RowOf(DEFAULT_TENANT, r.proof)]
          && r.proof.instanceId == q.instanceId && r.proof.decision == q.decision
          && r.proof.ledger.sequenceId == |Rows(db.ledger, DEFAULT_TENANT, q.instanceId)| + 1)
  {
    var tip := ReadTip(c, db.ledger, DEFAULT_TENANT, q.instanceId);
    if Admit(a, q).None? && tip.Some? && Build(c, k, q, tip.value, now).Recorded? {
      var p := Build(c, k, q, tip.value, now).proof;
      BuildIsWellRecorded(c, k, a, q, tip.value, now);
      if AppendUnindexed(db, DEFAULT_TENANT, p).1.None? {
        AppendUnindexedKeeps(c, db, p);
      }
    }
  }

  lemma StepsAppend(ledger: seq<LedgerRow>, r: LedgerRow, id: string)
    requires r.tenantId == DEFAULT_TENANT
    ensures Steps(ledger + [r], id) ==
      if r.instanceId == id then Steps(ledger, id) + [EdgeOfRow(r)] else Steps(ledger, id)
  {
    RowsAppend(ledger, r, DEFAULT_TENANT, id);
  }

  /** A new row moves its own instance one step and no other instance. */
  lemma WalksOn(spec: Spec, ledger: seq<LedgerRow>, r: LedgerRow, id: string, state: string)
    requires r.tenantId == DEFAULT_TENANT && WalksTo(spec, ledger, id, state)
    requires r.instanceId == id ==> r.proof.decision.fromState == state && Allows(spec, state, r.proof.decision.toState)
    ensures WalksTo(spec, ledger + [r], id, if r.instanceId == id then r.proof.decision.toState else state)
  {
    StepsAppend(ledger, r, id);
    if r.instanceId == id {
      WalkAppend(spec, Steps(ledger, id), EdgeOfRow(r));
    }
  }

  /** The database side of a transition: one sound row at its place, or nothing. */
  lemma TransitKeepsDatabase(c: Env, s: State, k: Signer, approvals: Approvals, a: Args, now: string)
    requires Lawful(c) && SignerLaw(c, k) && DatabaseOk(c, s.db)
    ensures
      var (s', r) := Transit(c, s, k, approvals, a, now);
      && DatabaseOk(c, s'.db) && s'.protocols == s.protocols && s'.active == s.active
      && (r.Refused? ==> s' == s)
      && (r.Moved? ==>
          && Refusal(s, approvals, a).None?
          && s' == AfterMove(s, a, s'.db)
          && s'.db.ledger == s.db.ledger + [RowOf(DEFAULT_TENANT, r.proof)]
          && r.proof.instanceId == a.instanceId && r.proof.ledger.sequenceId == r.version
          && r.proof.decision == Decision(s.instances[a.instanceId].state, a.toState))
  {
    if Refusal(s, approvals, a).None? {
      var q := RequestOf(s.instances[a.instanceId].state, a, a.metadata.value);
      RecordUnindexedKeeps(c, k, approvals, s.db, q, now);
      MaxSequenceIsLength(c, s.db, a.instanceId);
    }
  }

  /** A transition moves its own instance one edge and no other instance. */
  lemma MoveKeepsInstances(s: State, approvals: Approvals, a: Args, db': Database, p: Proof)
    requires InstancesOk(s) && Refusal(s, approvals, a).None?
    requires db'.ledger == s.db.ledger + [RowOf(DEFAULT_TENANT, p)] && p.instanceId == a.instanceId
    requires p.decision == Decision(s.instances[a.instanceId].state, a.toState)
    ensures InstancesOk(AfterMove(s, a, db'))
  {
    MovedKeepsInstances(s, AfterMove(s, a, db'), RowOf(DEFAULT_TENANT, p));
  }

  /** A transition keeps everything, changes nothing when refused, and returns the position of its row. */
  lemma TransitKeeps(c: Env, s: State, k: Signer, approvals: Approvals, a: Args, now: string)
    requires Lawful(c) && SignerLaw(c, k) && InstancesOk(s) && DatabaseOk(c, s.db)
    ensures
      var s' := Transit(c, s, k, approvals, a, now).0;
      InstancesOk(s') && DatabaseOk(c, s'.db) && s'.protocols == s.protocols
  {
    TransitKeepsDatabase(c, s, k, approvals, a, now);
    var (s', r) := Transit(c, s, k, approvals, a, now);
    if r.Moved? { MoveKeepsInstances(s, approvals, a, s'.db, r.proof); }
  }

  lemma MaxSequenceIsLength(c: Env, db: Database, id: string)
    requires DatabaseOk(c, db)
    ensures MaxSequence(db.ledger, id) == |Rows(db.ledger, DEFAULT_TENANT, id)|
  {
    assert Linked(Rows(db.ledger, DEFAULT_TENANT, id));
    ExpectedNext(db.ledger, DEFAULT_TENANT, id);
  }

  lemma MovedKeepsInstances(s: State, s': State, r: LedgerRow)
    requires InstancesOk(s) && s'.active == s.active && r.tenantId == DEFAULT_TENANT && r.instanceId in s.instances
    requires s'.db.ledger == s.db.ledger + [r] && s'.protocols == s.protocols
    requires
      var inst := s.instances[r.instanceId];
      && inst.protocolHash in s.protocols
      && r.proof.decision.fromState == inst.state
      && Allows(s.protocols[inst.protocolHash].spec, inst.state, r.proof.decision.toState)
      && s'.instances == s.instances[r.instanceId := inst.(state := r.proof.decision.toState)]
    ensures InstancesOk(s')
  {
    forall id | id in s'.instances ensures InstanceOk(s', id) {
      assert InstanceOk(s, id);
      WalksOn(s.protocols[s.instances[id].protocolHash].spec, s.db.ledger, r, id, s.instances[id].state);
    }
    forall id | id !in s'.instances ensures Rows(s'.db.ledger, DEFAULT_TENANT, id) == [] {
      RowsAppend(s.db.ledger, r, DEFAULT_TENANT, id);
    }
  }

  // ---- Freezing ----

  lemma FreezeKeepsRows(db: Database, t: string, i: string, id: string)
    ensures HasRow(Freeze(db, t, i), id) <==> HasRow(db, id)
  {
    var db' := Freeze(db, t, i);
    assert forall k :: 0 <= k < |db.instances| ==> db'.instances[k].instanceId == db.instances[k].instanceId;
  }

  lemma FreezeKeepsSane(c: Env, inputs: set<Bytes>, s: State, id: string)
    requires Sane(c, inputs, s)
    ensures Sane(c, inputs, s.(db := Freeze(s.db, DEFAULT_TENANT, id)))
  {
    var s' := s.(db := Freeze(s.db, DEFAULT_TENANT, id));
    forall x ensures HasRow(s'.db, x) <==> HasRow(s.db, x) { FreezeKeepsRows(s.db, DEFAULT_TENANT, id, x); }
    forall x | x in s'.instances ensures InstanceOk(s', x) { assert InstanceOk(s, x); }
  }

  /** Freezing takes effect exactly when the instance has made a transition; before that it is lost. */
  lemma FreezeTakesEffectIffMoved(c: Env, s: State, id: string)
    requires DatabaseOk(c, s.db)
    ensures Frozen(Freeze(s.db, DEFAULT_TENANT, id), DEFAULT_TENANT, id) <==> Rows(s.db.ledger, DEFAULT_TENANT, id) != []
    ensures Rows(s.db.ledger, DEFAULT_TENANT, id) == [] ==> Apply(c, s, FreezeOp(id)).0 == s
  {
    var db := s.db;
    var db' := Freeze(db, DEFAULT_TENANT, id);
    assert HasRow(db, id) <==> Rows(db.ledger, DEFAULT_TENANT, id) != [];
    if HasRow(db, id) {
      var k :| 0 <= k < |db.instances| && db.instances[k].instanceId == id;
      assert db'.instances[k] == InstanceRow(DEFAULT_TENANT, id, true);
    } else {
      assert db'.instances == db.instances;
    }
  }

  /** A transition leaves the database as it was, or adds one row and was not frozen. */
  lemma TransitDatabase(c: Env, s: State, k: Signer, approvals: Approvals, a: Args, now: string)
    ensures
      var (s', r) := Transit(c, s, k, approvals, a, now);
      && (r.Moved? || s'.db == s.db)
      && (r.Moved? ==>
          && !Frozen(s.db, DEFAULT_TENANT, a.instanceId)
          && r.proof.instanceId == a.instanceId
          && s'.db == Database(s.db.ledger + [RowOf(DEFAULT_TENANT, r.proof)],
                               EnsureInstance(s.db.instances, DEFAULT_TENANT, a.instanceId)))
  {
  }

  lemma MoveOfAnother(db: Database, db': Database, p: Proof, id: string)
    requires Frozen(db, DEFAULT_TENANT, id) && p.instanceId != id
    requires db' == Database(db.ledger + [RowOf(DEFAULT_TENANT, p)], EnsureInstance(db.instances, DEFAULT_TENANT, p.instanceId))
    ensures Frozen(db', DEFAULT_TENANT, id)
    ensures Rows(db'.ledger, DEFAULT_TENANT, id) == Rows(db.ledger, DEFAULT_TENANT, id)
  {
    RowsAppend(db.ledger, RowOf(DEFAULT_TENANT, p), DEFAULT_TENANT, id);
    var k :| 0 <= k < |db.instances| && db.instances[k] == InstanceRow(DEFAULT_TENANT, id, true);
    assert db'.instances[k] == InstanceRow(DEFAULT_TENANT, id, true);
  }

  lemma FrozenTransit(c: Env, s: State, k: Signer, approvals: Approvals, a: Args, now: string, id: string)
    requires Frozen(s.db, DEFAULT_TENANT, id)
    ensures
      var s' := Transit(c, s, k, approvals, a, now).0;
      && Frozen(s'.db, DEFAULT_TENANT, id)
      && Rows(s'.db.ledger, DEFAULT_TENANT, id) == Rows(s.db.ledger, DEFAULT_TENANT, id)
  {
    TransitDatabase(c, s, k, approvals, a, now);
    var (s', r) := Transit(c, s, k, approvals, a, now);
    if r.Moved? { MoveOfAnother(s.db, s'.db, r.proof, id); }
  }

  /** A frozen instance stays frozen and keeps its rows, whatever is called. */
  lemma FrozenStep(c: Env, s: State, op: Op, id: string)
    requires Frozen(s.db, DEFAULT_TENANT, id)
    ensures Frozen(Apply(c, s, op).0.db, DEFAULT_TENANT, id)
    ensures Rows(Apply(c, s, op).0.db.ledger, DEFAULT_TENANT, id) == Rows(s.db.ledger, DEFAULT_TENANT, id)
  {
    match op
    case CompileOp(doc) =>
    case CreateOp(x) =>
    case TransitOp(k, approvals, a, now) => FrozenTransit(c, s, k, approvals, a, now, id);
    case FreezeOp(x) => FreezeIsExact(s.db, DEFAULT_TENANT, x, DEFAULT_TENANT, id);
  }

  // ---- Whole runs ----

  /** The documents hashed by the compile calls of a run. */
  function SpecInputs(ops: seq<Op>): set<Bytes> {
    set j | 0 <= j < |ops| && ops[j].CompileOp? && CanonicalEncode(ops[j].doc).Some? :: CanonicalEncode(ops[j].doc).value
  }

  ghost predicate Proper(c: Env, op: Op) {
    (op.TransitOp? ==> SignerLaw(c, op.signer)) && (op.CompileOp? ==> IsPython(op.doc))
  }

  ghost predicate AllProper(c: Env, ops: seq<Op>) {
    forall j :: 0 <= j < |ops| ==> Proper(c, ops[j])
  }

  lemma ApplyKeepsSane(c: Env, inputs: set<Bytes>, s: State, op: Op)
    requires Lawful(c) && Sane(c, inputs, s) && Proper(c, op) && !Collides(c.hash, inputs, inputs)
    requires op.CompileOp? && CanonicalEncode(op.doc).Some? ==> CanonicalEncode(op.doc).value in inputs
    ensures Sane(c, inputs, Apply(c, s, op).0)
  {
    match op
    case CompileOp(doc) => CompileKeepsSane(c, inputs, s, doc);
    case CreateOp(id) => CreateKeepsInstances(s, id);
    case TransitOp(k, approvals, a, now) => TransitKeeps(c, s, k, approvals, a, now);
    case FreezeOp(id) => FreezeKeepsSane(c, inputs, s, id);
  }

  lemma {:induction false} RunKeepsSane(c: Env, inputs: set<Bytes>, s: State, ops: seq<Op>)
    requires Lawful(c) && Sane(c, inputs, s) && !Collides(c.hash, inputs, inputs)
    requires SpecInputs(ops) <= inputs && AllProper(c, ops)
    ensures Sane(c, inputs, StateAfter(c, s, ops))
    decreases ops
  {
    if ops != [] {
      ApplyKeepsSane(c, inputs, s, ops[0]);
      forall b | b in SpecInputs(ops[1..]) ensures b in inputs {
        var j :| 0 <= j < |ops[1..]| && ops[1..][j].CompileOp? && CanonicalEncode(ops[1..][j].doc) == Some(b);
        assert ops[j + 1] == ops[1..][j];
      }
      RunKeepsSane(c, inputs, Apply(c, s, ops[0]).0, ops[1..]);
    }
  }

  /** From a frozen instance on, no run adds a row to it. */
  lemma {:induction false} FrozenNeverGrows(c: Env, s: State, ops: seq<Op>, id: string)
    requires Frozen(s.db, DEFAULT_TENANT, id)
    ensures Rows(StateAfter(c, s, ops).db.ledger, DEFAULT_TENANT, id) == Rows(s.db.ledger, DEFAULT_TENANT, id)
    decreases ops
  {
    if ops != [] {
      FrozenStep(c, s, ops[0], id);
      FrozenNeverGrows(c, Apply(c, s, ops[0]).0, ops[1..], id);
    }
  }

  lemma FreezeThenRun(c: Env, s: State, id: string, after: seq<Op>)
    requires DatabaseOk(c, s.db)
    ensures
      var s' := StateAfter(c, Apply(c, s, FreezeOp(id)).0, after);
      if Rows(s.db.ledger, DEFAULT_TENANT, id) != []
      then Rows(s'.db.ledger, DEFAULT_TENANT, id) == Rows(s.db.ledger, DEFAULT_TENANT, id)
      else s' == StateAfter(c, s, after)
  {
    FreezeTakesEffectIffMoved(c, s, id);
    var s1 := Apply(c, s, FreezeOp(id)).0;
    if Rows(s.db.ledger, DEFAULT_TENANT, id) != [] {
      FrozenNeverGrows(c, s1, after, id);
    }
  }

  /**
    Over whole runs: an instance frozen after its first transition never grows
    again, and one frozen before it is as if it had not been frozen.
   */
  lemma FreezeOverRuns(c: Env, before: seq<Op>, id: string, after: seq<Op>)
    requires Lawful(c) && AllProper(c, before)
    ensures
      var s := StateAfter(c, FRESH, before);
      var s' := StateAfter(c, Apply(c, s, FreezeOp(id)).0, after);
      || Collides(c.hash, SpecInputs(before), SpecInputs(before))
      || if Rows(s.db.ledger, DEFAULT_TENANT, id) != []
         then Rows(s'.db.ledger, DEFAULT_TENANT, id) == Rows(s.db.ledger, DEFAULT_TENANT, id)
         else s' == StateAfter(c, s, after)
  {
    var s, inputs := StateAfter(c, FRESH, before), SpecInputs(before);
    if !Collides(c.hash, inputs, inputs) {
      RunKeepsSane(c, inputs, FRESH, before);
      FreezeThenRun(c, s, id, after);
    }
  }

  // ---- Replay ----

  datatype Replayed = Replayed(valid: bool, finalState: Option<string>)

  /** What `replay` reports, stated without its loop. */
  ghost predicate ReplayReports(c: Env, s: State, id: string, r: Replayed) {
    var chain := LedgerChain(s.db.ledger, DEFAULT_TENANT, id);
    if chain == [] then
      r == Replayed(true, Some(if id in s.instances then s.instances[id].state else "unknown"))
    else
      && (r.valid <==> (forall k :: 0 <= k < |chain| ==> chain[k].currentHash == chain[k].proof.ledger.currentHash)
                       && ChainAccepted(c, Proofs(chain)))
      && (r.valid ==> r.finalState == LastState(Proofs(chain)))
  }

  lemma StrictChain(c: Env, db: Database, id: string, k: nat)
    requires DatabaseOk(c, db) && k < |Rows(db.ledger, DEFAULT_TENANT, id)|
    ensures StrictRow(Rows(db.ledger, DEFAULT_TENANT, id)[k])
    ensures RowSound(c, Rows(db.ledger, DEFAULT_TENANT, id)[k])
  {
    RowsInLedger(db.ledger, DEFAULT_TENANT, id, k);
    var j :| 0 <= j < |db.ledger| && db.ledger[j] == Rows(db.ledger, DEFAULT_TENANT, id)[k];
    assert StrictRow(db.ledger[j]);
    assert RowSound(c, db.ledger[j]);
  }

  lemma StrictRows(c: Env, db: Database, id: string)
    requires DatabaseOk(c, db)
    ensures
      var rows := Rows(db.ledger, DEFAULT_TENANT, id);
      forall k :: 0 <= k < |rows| ==>
        !SeededStrict(rows[k].proof) && rows[k].currentHash == rows[k].proof.ledger.currentHash
  {
    var rows := Rows(db.ledger, DEFAULT_TENANT, id);
    forall k | 0 <= k < |rows| ensures
      !SeededStrict(rows[k].proof) && rows[k].currentHash == rows[k].proof.ledger.currentHash {
      StrictChain(c, db, id, k);
    }
  }

  lemma WalkEnd(s: State, id: string)
    requires id in s.instances && InstanceOk(s, id) && Rows(s.db.ledger, DEFAULT_TENANT, id) != []
    ensures LastState(Proofs(Rows(s.db.ledger, DEFAULT_TENANT, id))) == Some(s.instances[id].state)
  {
    var rows := Rows(s.db.ledger, DEFAULT_TENANT, id);
    assert Steps(s.db.ledger, id)[|rows| - 1] == EdgeOfRow(rows[|rows| - 1]);
  }

  /** Every instance replays as valid and ends in the state held in memory. */
  lemma ReplayIsValid(c: Env, s: State, id: string, r: Replayed)
    requires InstancesOk(s) && DatabaseOk(c, s.db) && id in s.instances && ReplayReports(c, s, id, r)
    ensures r == Replayed(true, Some(s.instances[id].state))
  {
    var ledger, rows := s.db.ledger, Rows(s.db.ledger, DEFAULT_TENANT, id);
    SoundChain(c, ledger, DEFAULT_TENANT, id);
    SoundChainVerifies(c, ledger, DEFAULT_TENANT, id);
    if rows != [] {
      StrictRows(c, s.db, id);
      assert InstanceOk(s, id);
      WalkEnd(s, id);
    }
  }

  /**
    In every run over a fresh database, with no two compiled documents
    colliding: each instance's ledger is a walk in its own protocol from the
    initial state, its chain verifies, and replay ends in the state in memory.
   */
  lemma EveryRunWalks(c: Env, ops: seq<Op>, id: string, r: Replayed)
    requires Lawful(c) && AllProper(c, ops)
    requires var s := StateAfter(c, FRESH, ops); id in s.instances && ReplayReports(c, s, id, r)
    ensures
      var s := StateAfter(c, FRESH, ops);
      || Collides(c.hash, SpecInputs(ops), SpecInputs(ops))
      || (&& s.instances[id].protocolHash in s.protocols
          && WalksTo(s.protocols[s.instances[id].protocolHash].spec, s.db.ledger, id, s.instances[id].state)
          && r == Replayed(true, Some(s.instances[id].state)))
  {
    var s, inputs := StateAfter(c, FRESH, ops), SpecInputs(ops);
    if !Collides(c.hash, inputs, inputs) {
      RunKeepsSane(c, inputs, FRESH, ops);
      ReplayIsValid(c, s, id, r);
      assert InstanceOk(s, id);
    }
  }

  // ---- The engine object ----

  class LegacyEngine {
    const c: Env
    var protocols: map<string, Compiled>
    var instances: map<string, Instance>
    var active: Option<string>
    var db: Database

    function Abstract(): State
      reads this
    {
      State(protocols, instances, active, db)
    }

    constructor (c: Env)
      ensures this.c == c && Abstract() == FRESH
    {
      this.c := c;
      protocols, instances, active, db := map[], map[], None, Database([], []);
    }

    method CompileSpec(doc: Value) returns (r: Result)
      modifies this
      ensures (Abstract(), r) == Compile(c, old(Abstract()), doc)
    {
      var bytes := CanonicalEncode(doc);
      if bytes.None? {
        return Refused(NotEncodable);
      }
      var hash := Hex(c.hash(bytes.value));
      protocols := protocols[hash := Compiled(doc, SpecOf(doc))];
      active := Some(hash);
      return Completed;
    }

    method CreateInstance(id: string) returns (r: Result)
      modifies this
      ensures (Abstract(), r) == Create(old(Abstract()), id)
    {
      if active.None? || active.value !in protocols {
        return Refused(NoProtocol);
      }
      if id in instances {
        return Refused(AlreadyExists);
      }
      var initial := protocols[active.value].spec.initial;
      if initial.None? {
        return Refused(BadSpec);
      }
      instances := instances[id := Instance(initial.value, active.value)];
      return Completed;
    }

    /** Moves the instance one edge and records it, or refuses and changes nothing. */
    method Transition(k: Signer, approvals: Approvals, a: Args, now: string) returns (r: Result)
      modifies this
      ensures (Abstract(), r) == Transit(c, old(Abstract()), k, approvals, a, now)
    {
      var refused := Refusal(Abstract(), approvals, a);
      if refused.Some? {
        return Refused(refused.value);
      }
      var inst := instances[a.instanceId];
      var version := MaxSequence(db.ledger, a.instanceId) + 1;
      var (db', o) := RecordUnindexed(c, k, approvals, db, RequestOf(inst.state, a, a.metadata.value), now);
      db := db';
      if o.Failed? {
        return Refused(NotRecorded(o.error));
      }
      instances := instances[a.instanceId := inst.(state := a.toState)];
      return Moved(version, o.proof);
    }

    method FreezeInstance(id: string)
      modifies this
      ensures Abstract() == Apply(c, old(Abstract()), FreezeOp(id)).0
    {
      db := Freeze(db, DEFAULT_TENANT, id);
    }

    /** Compares each hash column with the stored proof, then verifies the chain. */
    method Replay(id: string) returns (r: Replayed)
      ensures ReplayReports(c, Abstract(), id, r)
    {
      var chain := LedgerChain(db.ledger, DEFAULT_TENANT, id);
      if chain == [] {
        return Replayed(true, Some(if id in instances then instances[id].state else "unknown"));
      }
      var proofs := [];
      for k := 0 to |chain|
        invariant proofs == Proofs(chain)[..k]
        invariant forall j :: 0 <= j < k ==> chain[j].currentHash == chain[j].proof.ledger.currentHash
      {
        if chain[k].currentHash != chain[k].proof.ledger.currentHash {
          return Replayed(false, None);
        }
        proofs := proofs + [chain[k].proof];
      }
      assert proofs == Proofs(chain);
      var v := VerifyChain(c, proofs);
      var last := proofs[|proofs| - 1].decision.toState;
      return Replayed(v.valid, if v.finalState.Some? && v.finalState.value != "" then v.finalState else Some(last));
    }
  }
}
