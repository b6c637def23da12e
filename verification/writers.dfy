/**
  Any number of processes writing one ledger: `record_decision` and
  `append_ledger_entry` as separate steps that interleave in any order
  (provable_ai/engine.py, provable_ai/storage.py).
 */
module Writers {
  import opened Prelude
  import opened TextEncoding
  import opened Tables
  import opened ProofModel
  import opened Verifier
  import opened Storage
  import opened Engine

  /**
    Where one process stands. A proof originates in a call of the engine, which
    placed it after a tip that it read, or comes (with no origin) from a direct
    caller of the storage, who may have put anything in it.
   */
  datatype Writer =
    | Idle
    | Admitted(request: Request, approvals: Approvals)
    | TipRead(request: Request, approvals: Approvals, tip: Tip)
    | Built(tenant: string, proof: Proof, origin: Option<Call>)
    | TenantChecked(tenant: string, proof: Proof, origin: Option<Call>)
    | Checked(tenant: string, proof: Proof, origin: Option<Call>)
    | Finished(outcome: Outcome)

  datatype System = System(db: Database, writers: map<nat, Writer>)

  /** One atomic step: a query, a computation, or a transaction. */
  datatype Action =
    | Begin(w: nat, request: Request, approvals: Approvals)
    | FetchTip(w: nat)
    | HashAndSign(w: nat, signer: Signer, now: string)
    | Submit(w: nat, tenant: string, proof: Proof)
    | CheckTenant(w: nat)
    | CheckTip(w: nat)
    | Insert(w: nat)
    | UpdateRow(w: nat, k: nat, row: LedgerRow)
    | DeleteRow(w: nat, k: nat)
    | FreezeRows(w: nat, tenant: string, instanceId: string)

  function WriterOf(sys: System, w: nat): Writer {
    if w in sys.writers then sys.writers[w] else Idle
  }

  /** The first query of `_validate_chain_integrity`. */
  predicate OwnedElsewhere(ledger: seq<LedgerRow>, t: string, i: string) {
    exists k :: 0 <= k < |ledger| && ledger[k].instanceId == i && ledger[k].tenantId != t
  }

  /** Its second query and the comparisons with the result. */
  function PlaceError(ledger: seq<LedgerRow>, r: LedgerRow): Option<StorageError> {
    if r.sequenceId < ExpectedSeq(ledger, r.tenantId, r.instanceId) then Some(DuplicateSequenceId)
    else if r.sequenceId > ExpectedSeq(ledger, r.tenantId, r.instanceId) then Some(SequenceGapFound)
    else if r.previousHash != ExpectedPrev(ledger, r.tenantId, r.instanceId) then Some(LinkBroken)
    else None
  }

  function AfterInsert(db: Database, t: string, p: Proof): (Database, Outcome) {
    var (db', e) := InsertRow(db, RowOf(t, p));
    (db', if e.Some? then Failed(NotStored(e.value)) else Recorded(p))
  }

  /** What a step does to the database and to the writer that takes it. */
  function Effect(c: Env, db: Database, x: Writer, a: Action): (Database, Writer) {
    match a
    case Begin(_, q, approvals) =>
      if !x.Idle? && !x.Finished? then (db, x)
      else if Admit(approvals, q).Some? then (db, Finished(Failed(Admit(approvals, q).value)))
      else (db, Admitted(q, approvals))
    case FetchTip(_) =>
      if !x.Admitted? then (db, x)
      else
        var tip := ReadTip(c, db.ledger, DEFAULT_TENANT, x.request.instanceId);
        if tip.None? then (db, Finished(Failed(TipNotAHash))) else (db, TipRead(x.request, x.approvals, tip.value))
    case HashAndSign(_, s, now) =>
      if !x.TipRead? then (db, x)
      else
        (match Build(c, s, x.request, x.tip, now)
         case Failed(e) => (db, Finished(Failed(e)))
         case Recorded(p) =>
           (db, Built(DEFAULT_TENANT, p, Some(Call(s, x.approvals, DEFAULT_TENANT, x.request, now)))))
    case Submit(_, t, p) =>
      if !x.Idle? && !x.Finished? then (db, x) else (db, Built(t, p, None))
    case CheckTenant(_) =>
      if !x.Built? then (db, x)
      else if |x.proof.signature.value| != 128 then (db, Finished(Failed(NotStored(SigningFailed))))
      else if OwnedElsewhere(db.ledger, x.tenant, x.proof.instanceId) then (db, Finished(Failed(NotStored(CrossTenant))))
      else (db, TenantChecked(x.tenant, x.proof, x.origin))
    case CheckTip(_) =>
      if !x.TenantChecked? then (db, x)
      else
        var e := PlaceError(db.ledger, RowOf(x.tenant, x.proof));
        if e.Some? then (db, Finished(Failed(NotStored(e.value)))) else (db, Checked(x.tenant, x.proof, x.origin))
    case Insert(_) =>
      if !x.Checked? then (db, x)
      else
        var (db', r) := AfterInsert(db, x.tenant, x.proof);
        (db', Finished(r))
    // the append-only triggers abort both statements
    case UpdateRow(_, _, _) => (db, x)
    case DeleteRow(_, _) => (db, x)
    case FreezeRows(_, t, i) => (Freeze(db, t, i), x)
  }

  function Next(c: Env, sys: System, a: Action): System {
    var (db', x) := Effect(c, sys.db, WriterOf(sys, a.w), a);
    System(db', sys.writers[a.w := x])
  }

  function Run(c: Env, sys: System, actions: seq<Action>): System
    decreases actions
  {
    if actions == [] then sys else Run(c, Next(c, sys, actions[0]), actions[1..])
  }

  const START := System(Database([], []), map[])

  // ---- Uninterrupted steps are `record_decision` ----

  function OneCall(w: nat, k: Call): seq<Action> {
    [Begin(w, k.request, k.approvals), FetchTip(w), HashAndSign(w, k.signer, k.now), CheckTenant(w), CheckTip(w), Insert(w)]
  }

  /** The storage half of a call, run without interruption, is `append_ledger_entry`. */
  lemma UninterruptedAppend(c: Env, db: Database, t: string, p: Proof, origin: Option<Call>, w: nat)
    ensures
      var (db1, x1) := Effect(c, db, Built(t, p, origin), CheckTenant(w));
      var (db2, x2) := Effect(c, db1, x1, CheckTip(w));
      var (db3, x3) := Effect(c, db2, x2, Insert(w));
      var (db', e) := Append(db, t, p);
      db3 == db' && x3 == Finished(if e.Some? then Failed(NotStored(e.value)) else Recorded(p))
  {
  }

  /** The database and the writer after some steps of one writer. */
  function Solo(c: Env, db: Database, x: Writer, actions: seq<Action>): (Database, Writer)
    decreases actions
  {
    if actions == [] then (db, x)
    else
      var (db', x') := Effect(c, db, x, actions[0]);
      Solo(c, db', x', actions[1..])
  }

  lemma {:induction false} RunOfOneWriter(c: Env, sys: System, w: nat, actions: seq<Action>)
    requires forall j :: 0 <= j < |actions| ==> actions[j].w == w
    ensures
      var (db, x) := Solo(c, sys.db, WriterOf(sys, w), actions);
      Run(c, sys, actions).db == db && WriterOf(Run(c, sys, actions), w) == x
    decreases actions
  {
    if actions != [] {
      RunOfOneWriter(c, Next(c, sys, actions[0]), w, actions[1..]);
    }
  }

  lemma SoloStep(c: Env, db: Database, x: Writer, a: Action, rest: seq<Action>)
    ensures Solo(c, db, x, [a] + rest) == Solo(c, Effect(c, db, x, a).0, Effect(c, db, x, a).1, rest)
  {
    assert ([a] + rest)[1..] == rest;
  }

  /** Nobody but `Begin` and `Submit` moves a finished writer. */
  lemma {:induction false} FinishedStays(c: Env, db: Database, r: Outcome, actions: seq<Action>)
    requires forall j :: 0 <= j < |actions| ==>
      actions[j].FetchTip? || actions[j].HashAndSign? || actions[j].CheckTenant? || actions[j].CheckTip? || actions[j].Insert?
    ensures Solo(c, db, Finished(r), actions) == (db, Finished(r))
    decreases actions
  {
    if actions != [] { FinishedStays(c, db, r, actions[1..]); }
  }

  /** One writer alone, from a state of rest, does what `Record` says. */
  lemma UninterruptedCallIsRecord(c: Env, sys: System, w: nat, k: Call)
    requires k.tenant == DEFAULT_TENANT && WriterOf(sys, w).Idle?
    ensures
      var sys' := Run(c, sys, OneCall(w, k));
      var (db', r) := Record(c, k.signer, k.approvals, sys.db, k.tenant, k.request, k.now);
      sys'.db == db' && WriterOf(sys', w) == Finished(r)
  {
    var as_, db, q := OneCall(w, k), sys.db, k.request;
    RunOfOneWriter(c, sys, w, as_);
    assert as_ == [as_[0]] + ([as_[1]] + ([as_[2]] + as_[3..]));
    SoloStep(c, db, Idle, as_[0], [as_[1]] + ([as_[2]] + as_[3..]));
    if Admit(k.approvals, q).Some? {
      FinishedStays(c, db, Failed(Admit(k.approvals, q).value), [as_[1]] + ([as_[2]] + as_[3..]));
    } else {
      SoloStep(c, db, Admitted(q, k.approvals), as_[1], [as_[2]] + as_[3..]);
      var tip := ReadTip(c, db.ledger, DEFAULT_TENANT, q.instanceId);
      if tip.None? {
        FinishedStays(c, db, Failed(TipNotAHash), [as_[2]] + as_[3..]);
      } else {
        SoloStep(c, db, TipRead(q, k.approvals, tip.value), as_[2], as_[3..]);
        match Build(c, k.signer, q, tip.value, k.now)
        case Failed(e) => FinishedStays(c, db, Failed(e), as_[3..]);
        case Recorded(p) => SoloAppend(c, db, p, Some(Call(k.signer, k.approvals, DEFAULT_TENANT, q, k.now)), w, as_[3..]);
      }
    }
  }

  lemma SoloAppend(c: Env, db: Database, p: Proof, origin: Option<Call>, w: nat, rest: seq<Action>)
    requires rest == [CheckTenant(w), CheckTip(w), Insert(w)]
    ensures
      var (db', e) := Append(db, DEFAULT_TENANT, p);
      Solo(c, db, Built(DEFAULT_TENANT, p, origin), rest)
        == (db', Finished(if e.Some? then Failed(NotStored(e.value)) else Recorded(p)))
  {
    var x := Built(DEFAULT_TENANT, p, origin);
    var (db1, x1) := Effect(c, db, x, CheckTenant(w));
    var (db2, x2) := Effect(c, db1, x1, CheckTip(w));
    assert rest == [CheckTenant(w)] + ([CheckTip(w)] + ([Insert(w)] + []));
    SoloStep(c, db, x, CheckTenant(w), [CheckTip(w)] + ([Insert(w)] + []));
    SoloStep(c, db1, x1, CheckTip(w), [Insert(w)] + []);
    SoloStep(c, db2, x2, Insert(w), []);
    UninterruptedAppend(c, db, DEFAULT_TENANT, p, origin, w);
  }

  // ---- What a step may change ----

  /**
    Only an insert that records its proof touches the ledger, and it adds that
    one row; a writer that fails, and every other step, changes no row.
   */
  lemma StepAppendsAtMostOne(c: Env, sys: System, a: Action)
    ensures
      var sys' := Next(c, sys, a);
      var x, x' := WriterOf(sys, a.w), WriterOf(sys', a.w);
      && (sys'.db.ledger == sys.db.ledger <==> !(a.Insert? && x.Checked? && x'.Finished? && x'.outcome.Recorded?))
      && (x.Checked? && a.Insert? && x'.Finished? && x'.outcome.Recorded? ==>
          sys'.db.ledger == sys.db.ledger + [RowOf(x.tenant, x.proof)] && x'.outcome.proof == x.proof)
      && (x' != x && x'.Finished? && x'.outcome.Failed? ==> sys'.db == sys.db)
      && forall w :: w != a.w ==> WriterOf(sys', w) == WriterOf(sys, w)
  {
    var x := WriterOf(sys, a.w);
    if a.Insert? && x.Checked? {
      assert |sys.db.ledger + [RowOf(x.tenant, x.proof)]| != |sys.db.ledger|;
    }
  }

  /** The ledger never loses or changes a row. */
  lemma {:induction false} LedgerOnlyGrows(c: Env, sys: System, actions: seq<Action>)
    ensures sys.db.ledger <= Run(c, sys, actions).db.ledger
    decreases actions
  {
    if actions != [] {
      StepAppendsAtMostOne(c, sys, actions[0]);
      LedgerOnlyGrows(c, Next(c, sys, actions[0]), actions[1..]);
    }
  }

  // ---- Every interleaving keeps every chain linked ----

  ghost predicate AllLinked(ledger: seq<LedgerRow>) {
    forall t, i :: Linked(Rows(ledger, t, i))
  }

  /**
    A position that was right when the writer looked: not beyond the next one,
    and if it is still the next one then the link is right too.
   */
  ghost predicate WasNext(ledger: seq<LedgerRow>, t: string, i: string, n: int, prev: string) {
    && 1 <= n <= |Rows(ledger, t, i)| + 1
    && (n == |Rows(ledger, t, i)| + 1 ==> prev == ExpectedPrev(ledger, t, i))
  }

  ghost predicate ProofWasNext(ledger: seq<LedgerRow>, t: string, p: Proof) {
    WasNext(ledger, t, p.instanceId, p.ledger.sequenceId, p.ledger.previousHash)
  }

  /** What a writer relies on between its steps. */
  ghost predicate WriterOk(ledger: seq<LedgerRow>, x: Writer) {
    match x
    case Idle => true
    case Admitted(_, _) => true
    case TipRead(q, _, tip) => WasNext(ledger, DEFAULT_TENANT, q.instanceId, tip.seq_, tip.prev)
    case Built(t, p, origin) => origin.Some? ==> ProofWasNext(ledger, t, p)
    case TenantChecked(t, p, origin) => origin.Some? ==> ProofWasNext(ledger, t, p)
    case Checked(t, p, _) => ProofWasNext(ledger, t, p)
    case Finished(_) => true
  }

  ghost predicate Consistent(sys: System) {
    AllLinked(sys.db.ledger) && forall w :: w in sys.writers ==> WriterOk(sys.db.ledger, sys.writers[w])
  }

  lemma TipWasNext(c: Env, ledger: seq<LedgerRow>, t: string, i: string)
    requires AllLinked(ledger) && ReadTip(c, ledger, t, i).Some?
    ensures
      var tip := ReadTip(c, ledger, t, i).value;
      tip.prev == ExpectedPrev(ledger, t, i) && tip.seq_ == |Rows(ledger, t, i)| + 1
  {
    assert Linked(Rows(ledger, t, i));
    ExpectedNext(ledger, t, i);
  }

  lemma BuildKeepsTip(c: Env, s: Signer, q: Request, tip: Tip, now: string)
    requires Build(c, s, q, tip, now).Recorded?
    ensures
      var p := Build(c, s, q, tip, now).proof;
      p.instanceId == q.instanceId && p.ledger.sequenceId == tip.seq_ && p.ledger.previousHash == tip.prev
  {
  }

  /** The tip check passes exactly for the next position with the right link. */
  lemma CheckedIsNext(ledger: seq<LedgerRow>, r: LedgerRow)
    requires AllLinked(ledger)
    ensures PlaceError(ledger, r).None? <==>
      && r.sequenceId == |Rows(ledger, r.tenantId, r.instanceId)| + 1
      && r.previousHash == ExpectedPrev(ledger, r.tenantId, r.instanceId)
    ensures PlaceError(ledger, r) == Some(DuplicateSequenceId) <==>
      r.sequenceId <= |Rows(ledger, r.tenantId, r.instanceId)|
  {
    assert Linked(Rows(ledger, r.tenantId, r.instanceId));
    ExpectedNext(ledger, r.tenantId, r.instanceId);
  }

  /** A stale position stays harmless while other writers append. */
  lemma WasNextSurvives(ledger: seq<LedgerRow>, r: LedgerRow, t: string, i: string, n: int, prev: string)
    requires AllLinked(ledger) && AllLinked(ledger + [r]) && WasNext(ledger, t, i, n, prev)
    ensures WasNext(ledger + [r], t, i, n, prev)
  {
    RowsAppend(ledger, r, t, i);
    assert Linked(Rows(ledger, t, i)) && Linked(Rows(ledger + [r], t, i));
    ExpectedNext(ledger, t, i);
    ExpectedNext(ledger + [r], t, i);
  }

  lemma WriterOkSurvives(ledger: seq<LedgerRow>, r: LedgerRow, x: Writer)
    requires AllLinked(ledger) && AllLinked(ledger + [r]) && WriterOk(ledger, x)
    ensures WriterOk(ledger + [r], x)
  {
    if x.TipRead? {
      WasNextSurvives(ledger, r, DEFAULT_TENANT, x.request.instanceId, x.tip.seq_, x.tip.prev);
    } else if (x.Built? || x.TenantChecked? || x.Checked?) && ProofWasNext(ledger, x.tenant, x.proof) {
      WasNextSurvives(ledger, r, x.tenant, x.proof.instanceId, x.proof.ledger.sequenceId, x.proof.ledger.previousHash);
    }
  }

  /** A row that passed its check long ago and is still insertable belongs exactly there. */
  lemma InsertKeepsLinked(ledger: seq<LedgerRow>, r: LedgerRow)
    requires AllLinked(ledger) && Insertable(ledger, r)
    requires WasNext(ledger, r.tenantId, r.instanceId, r.sequenceId, r.previousHash)
    ensures AllLinked(ledger + [r])
    ensures r.sequenceId == |Rows(ledger, r.tenantId, r.instanceId)| + 1
    ensures r.previousHash == ExpectedPrev(ledger, r.tenantId, r.instanceId)
  {
    assert Linked(Rows(ledger, r.tenantId, r.instanceId));
    InsertableIsNext(ledger, r);
    forall t, i ensures Linked(Rows(ledger + [r], t, i)) {
      RowsAppend(ledger, r, t, i);
      assert Linked(Rows(ledger, t, i));
      if r.tenantId == t && r.instanceId == i {
        ExpectedNext(ledger, t, i);
        LinkedAppend(Rows(ledger, t, i), r);
      }
    }
  }

  /** Steps that do not insert leave the ledger alone and the writer consistent. */
  lemma QuietStep(c: Env, db: Database, x: Writer, a: Action)
    requires AllLinked(db.ledger) && WriterOk(db.ledger, x) && !a.Insert?
    ensures Effect(c, db, x, a).0.ledger == db.ledger
    ensures WriterOk(db.ledger, Effect(c, db, x, a).1)
  {
    if a.FetchTip? && x.Admitted? {
      if ReadTip(c, db.ledger, DEFAULT_TENANT, x.request.instanceId).Some? {
        TipWasNext(c, db.ledger, DEFAULT_TENANT, x.request.instanceId);
      }
    } else if a.HashAndSign? && x.TipRead? {
      if Build(c, a.signer, x.request, x.tip, a.now).Recorded? {
        BuildKeepsTip(c, a.signer, x.request, x.tip, a.now);
      }
    } else if a.CheckTip? && x.TenantChecked? {
      CheckedIsNext(db.ledger, RowOf(x.tenant, x.proof));
    }
  }

  /** No assumption on the callers, the hash or the signatures: any step, of any writer. */
  lemma StepKeepsConsistent(c: Env, sys: System, a: Action)
    requires Consistent(sys)
    ensures Consistent(Next(c, sys, a))
  {
    var x := WriterOf(sys, a.w);
    if !a.Insert? {
      QuietStep(c, sys.db, x, a);
    } else if x.Checked? && Insertable(sys.db.ledger, RowOf(x.tenant, x.proof)) {
      var ledger, r := sys.db.ledger, RowOf(x.tenant, x.proof);
      InsertKeepsLinked(ledger, r);
      forall w | w in sys.writers ensures WriterOk(ledger + [r], sys.writers[w]) {
        WriterOkSurvives(ledger, r, sys.writers[w]);
      }
    }
  }

  lemma {:induction false} RunKeepsConsistent(c: Env, sys: System, actions: seq<Action>)
    requires Consistent(sys)
    ensures Consistent(Run(c, sys, actions))
    decreases actions
  {
    if actions != [] {
      StepKeepsConsistent(c, sys, actions[0]);
      RunKeepsConsistent(c, Next(c, sys, actions[0]), actions[1..]);
    }
  }

  /**
    For any number of writers, engines and direct callers alike, and any order
    of their steps, every chain of every reachable ledger is contiguous from 1,
    genesis-rooted and hash-linked.
   */
  lemma EveryInterleavingIsLinked(c: Env, actions: seq<Action>, t: string, i: string)
    ensures Linked(Rows(Run(c, START, actions).db.ledger, t, i))
  {
    RunKeepsConsistent(c, START, actions);
  }

  // ---- Every interleaving keeps every chain verifiable ----

  /** Signers obey the law of signatures, and what direct callers submit are well recorded proofs. */
  ghost predicate Honest(c: Env, a: Action) {
    (a.HashAndSign? ==> SignerLaw(c, a.signer)) && (a.Submit? ==> WellRecorded(c, a.proof))
  }

  ghost predicate AllHonest(c: Env, actions: seq<Action>) {
    forall j :: 0 <= j < |actions| ==> Honest(c, actions[j])
  }

  predicate NoSubmits(actions: seq<Action>) {
    forall j :: 0 <= j < |actions| ==> !actions[j].Submit?
  }

  ghost predicate WriterSound(c: Env, x: Writer) {
    match x
    case Idle => true
    case Admitted(q, approvals) => Admit(approvals, q).None?
    case TipRead(q, approvals, _) => Admit(approvals, q).None?
    case Built(_, p, _) => WellRecorded(c, p)
    case TenantChecked(_, p, _) => WellRecorded(c, p)
    case Checked(_, p, _) => WellRecorded(c, p)
    case Finished(_) => true
  }

  ghost predicate RowsSound(c: Env, ledger: seq<LedgerRow>) {
    forall k :: 0 <= k < |ledger| ==> RowSound(c, ledger[k])
  }

  ghost predicate AllSound(c: Env, sys: System) {
    RowsSound(c, sys.db.ledger) && forall w :: w in sys.writers ==> WriterSound(c, sys.writers[w])
  }

  lemma EffectKeepsSound(c: Env, db: Database, x: Writer, a: Action)
    requires Lawful(c) && Honest(c, a) && RowsSound(c, db.ledger) && WriterSound(c, x)
    ensures RowsSound(c, Effect(c, db, x, a).0.ledger) && WriterSound(c, Effect(c, db, x, a).1)
  {
    if a.HashAndSign? && x.TipRead? {
      SigningKeepsSound(c, db, x, a);
    } else if !a.Insert? {
      OtherKeepsSound(c, db, x, a);
    }
  }

  lemma OtherKeepsSound(c: Env, db: Database, x: Writer, a: Action)
    requires Honest(c, a) && WriterSound(c, x) && !a.Insert? && !(a.HashAndSign? && x.TipRead?)
    ensures Effect(c, db, x, a).0.ledger == db.ledger && WriterSound(c, Effect(c, db, x, a).1)
  {
  }

  lemma SigningKeepsSound(c: Env, db: Database, x: Writer, a: Action)
    requires Lawful(c) && a.HashAndSign? && SignerLaw(c, a.signer) && x.TipRead? && Admit(x.approvals, x.request).None?
    ensures Effect(c, db, x, a).0 == db && WriterSound(c, Effect(c, db, x, a).1)
  {
    if Build(c, a.signer, x.request, x.tip, a.now).Recorded? {
      BuildIsWellRecorded(c, a.signer, x.approvals, x.request, x.tip, a.now);
    }
  }

  lemma {:induction false} RunKeepsAllSound(c: Env, sys: System, actions: seq<Action>)
    requires Lawful(c) && AllSound(c, sys) && AllHonest(c, actions)
    ensures AllSound(c, Run(c, sys, actions))
    decreases actions
  {
    if actions != [] {
      EffectKeepsSound(c, sys.db, WriterOf(sys, actions[0].w), actions[0]);
      RunKeepsAllSound(c, Next(c, sys, actions[0]), actions[1..]);
    }
  }

  /**
    End to end under concurrency: in every reachable state every chain passes
    `verify_chain` exactly when it is not empty and holds no seeded strict
    proof, and its export passes both package verifiers.
   */
  lemma EveryInterleavingVerifies(c: Env, actions: seq<Action>, t: string, i: string, s: Signer)
    requires Lawful(c) && SignerLaw(c, s) && AllHonest(c, actions)
    ensures
      var ps := ChainOf(Run(c, START, actions).db.ledger, t, i);
      && (ChainAccepted(c, ps) <==> ps != [] && forall k :: 0 <= k < |ps| ==> !SeededStrict(ps[k]))
      && (ps != [] && Export(c, s, ps, i).Some? ==>
          PackageAccepted(c, Export(c, s, ps, i).value) && OfflineAccepted(c, Export(c, s, ps, i).value))
  {
    var ledger := Run(c, START, actions).db.ledger;
    RunKeepsConsistent(c, START, actions);
    RunKeepsAllSound(c, START, actions);
    assert SoundLedger(c, ledger);
    SoundChainVerifies(c, ledger, t, i);
    var ps := ChainOf(ledger, t, i);
    if ps != [] && Export(c, s, ps, i).Some? {
      ExportVerifies(c, s, ledger, t, i);
    }
  }

  // ---- Tenant isolation ----

  /** The step inserts a row of an instance that another tenant has come to own since the check. */
  predicate Crosses(sys: System, a: Action) {
    var x := WriterOf(sys, a.w);
    && a.Insert? && x.Checked? && Insertable(sys.db.ledger, RowOf(x.tenant, x.proof))
    && OwnedElsewhere(sys.db.ledger, x.tenant, x.proof.instanceId)
  }

  lemma AppendIsolated(ledger: seq<LedgerRow>, r: LedgerRow)
    requires Isolated(ledger)
    ensures Isolated(ledger + [r]) <==> !OwnedElsewhere(ledger, r.tenantId, r.instanceId)
  {
    var all := ledger + [r];
    if k :| 0 <= k < |ledger| && ledger[k].instanceId == r.instanceId && ledger[k].tenantId != r.tenantId {
      assert all[k] == ledger[k] && all[|ledger|] == r;
    }
  }

  /** A step breaks tenant isolation exactly if it crosses. */
  lemma StepIsolatedIff(c: Env, sys: System, a: Action)
    requires Isolated(sys.db.ledger)
    ensures Isolated(Next(c, sys, a).db.ledger) <==> !Crosses(sys, a)
  {
    var x := WriterOf(sys, a.w);
    StepAppendsAtMostOne(c, sys, a);
    if x.Checked? { AppendIsolated(sys.db.ledger, RowOf(x.tenant, x.proof)); }
  }

  predicate NeverCrosses(c: Env, sys: System, actions: seq<Action>)
    decreases actions
  {
    actions != [] ==> !Crosses(sys, actions[0]) && NeverCrosses(c, Next(c, sys, actions[0]), actions[1..])
  }

  lemma {:induction false} RunIsolatedIff(c: Env, sys: System, actions: seq<Action>)
    requires Isolated(sys.db.ledger)
    ensures Isolated(Run(c, sys, actions).db.ledger) <==> NeverCrosses(c, sys, actions)
    decreases actions
  {
    if actions != [] {
      var sys' := Next(c, sys, actions[0]);
      StepIsolatedIff(c, sys, actions[0]);
      if Isolated(sys'.db.ledger) {
        RunIsolatedIff(c, sys', actions[1..]);
      } else {
        LedgerOnlyGrows(c, sys', actions[1..]);
      }
    }
  }

  /**
    In every run no instance id comes to stand under two tenants, exactly if no
    insert finds its instance owned elsewhere; the check before the insert does
    not ensure that, because others may insert in between.
   */
  lemma EveryInterleavingIsolatedIff(c: Env, actions: seq<Action>)
    ensures Isolated(Run(c, START, actions).db.ledger) <==> NeverCrosses(c, START, actions)
  {
    RunIsolatedIff(c, START, actions);
  }

  // A condition on the callers

  datatype Claim = Claim(tenant: string, instanceId: string)

  /** The tenant and instance that an action brings in. */
  function ClaimOf(a: Action): set<Claim> {
    match a
    case Begin(_, q, _) => {Claim(DEFAULT_TENANT, q.instanceId)}
    case Submit(_, t, p) => {Claim(t, p.instanceId)}
    case _ => {}
  }

  function Claims(actions: seq<Action>): set<Claim> {
    if actions == [] then {} else ClaimOf(actions[0]) + Claims(actions[1..])
  }

  /** Each instance id is used under one tenant. */
  predicate OneOwner(claims: set<Claim>) {
    forall x, y :: x in claims && y in claims && x.instanceId == y.instanceId ==> x.tenant == y.tenant
  }

  predicate Claimed(claims: set<Claim>, t: string, i: string) {
    Claim(t, i) in claims
  }

  predicate WriterClaimed(claims: set<Claim>, x: Writer) {
    match x
    case Idle => true
    case Admitted(q, _) => Claimed(claims, DEFAULT_TENANT, q.instanceId)
    case TipRead(q, _, _) => Claimed(claims, DEFAULT_TENANT, q.instanceId)
    case Built(t, p, _) => Claimed(claims, t, p.instanceId)
    case TenantChecked(t, p, _) => Claimed(claims, t, p.instanceId)
    case Checked(t, p, _) => Claimed(claims, t, p.instanceId)
    case Finished(_) => true
  }

  ghost predicate RowsClaimed(claims: set<Claim>, ledger: seq<LedgerRow>) {
    forall k :: 0 <= k < |ledger| ==> Claimed(claims, ledger[k].tenantId, ledger[k].instanceId)
  }

  ghost predicate AllClaimed(claims: set<Claim>, sys: System) {
    RowsClaimed(claims, sys.db.ledger) && forall w :: w in sys.writers ==> WriterClaimed(claims, sys.writers[w])
  }

  lemma EffectKeepsClaimed(c: Env, claims: set<Claim>, db: Database, x: Writer, a: Action)
    requires RowsClaimed(claims, db.ledger) && WriterClaimed(claims, x) && ClaimOf(a) <= claims
    ensures RowsClaimed(claims, Effect(c, db, x, a).0.ledger) && WriterClaimed(claims, Effect(c, db, x, a).1)
  {
    if a.HashAndSign? && x.TipRead? && Build(c, a.signer, x.request, x.tip, a.now).Recorded? {
      BuildKeepsTip(c, a.signer, x.request, x.tip, a.now);
    }
  }

  lemma {:induction false} RunKeepsClaimed(c: Env, claims: set<Claim>, sys: System, actions: seq<Action>)
    requires AllClaimed(claims, sys) && Claims(actions) <= claims
    ensures AllClaimed(claims, Run(c, sys, actions))
    decreases actions
  {
    if actions != [] {
      EffectKeepsClaimed(c, claims, sys.db, WriterOf(sys, actions[0].w), actions[0]);
      RunKeepsClaimed(c, claims, Next(c, sys, actions[0]), actions[1..]);
    }
  }

  /** If every instance id is submitted under one tenant, every interleaving keeps tenants apart. */
  lemma OneOwnerKeepsIsolation(c: Env, actions: seq<Action>)
    requires OneOwner(Claims(actions))
    ensures Isolated(Run(c, START, actions).db.ledger)
  {
    var claims, ledger := Claims(actions), Run(c, START, actions).db.ledger;
    RunKeepsClaimed(c, claims, START, actions);
    forall j, k | 0 <= j < |ledger| && 0 <= k < |ledger| && ledger[j].instanceId == ledger[k].instanceId
      ensures ledger[j].tenantId == ledger[k].tenantId {
      assert Claimed(claims, ledger[j].tenantId, ledger[j].instanceId);
      assert Claimed(claims, ledger[k].tenantId, ledger[k].instanceId);
    }
  }

  // A run that breaks isolation

  /** Two direct callers that both check before either inserts. */
  function Race(t: string, p: Proof, t': string, p': Proof): seq<Action> {
    [Submit(0, t, p), Submit(1, t', p'), CheckTenant(0), CheckTenant(1), CheckTip(0), CheckTip(1), Insert(0), Insert(1)]
  }

  /** A first proof of a chain, with hash and signature of the right lengths. */
  predicate FirstProof(p: Proof) {
    && p.ledger.sequenceId == 1 && p.ledger.previousHash == GENESIS_HEX
    && |p.ledger.currentHash| == 64 && |p.signature.value| == 128
  }

  lemma RunStep(c: Env, sys: System, a: Action, rest: seq<Action>)
    ensures Run(c, sys, [a] + rest) == Run(c, Next(c, sys, a), rest)
  {
    assert ([a] + rest)[1..] == rest;
  }

  lemma BothCheck(c: Env, t: string, p: Proof, t': string, p': Proof)
    requires FirstProof(p) && FirstProof(p')
    ensures Run(c, START, Race(t, p, t', p')[..6])
      == System(Database([], []), map[0 := Checked(t, p, None), 1 := Checked(t', p', None)])
  {
    var race := Race(t, p, t', p')[..6];
    var db, none: Option<Call> := Database([], []), None;
    assert race == [race[0]] + ([race[1]] + ([race[2]] + ([race[3]] + ([race[4]] + ([race[5]] + [])))));
    var s1 := Next(c, START, race[0]);
    var s2 := Next(c, s1, race[1]);
    var s3 := Next(c, s2, race[2]);
    var s4 := Next(c, s3, race[3]);
    var s5 := Next(c, s4, race[4]);
    var s6 := Next(c, s5, race[5]);
    RunStep(c, START, race[0], [race[1]] + ([race[2]] + ([race[3]] + ([race[4]] + ([race[5]] + [])))));
    RunStep(c, s1, race[1], [race[2]] + ([race[3]] + ([race[4]] + ([race[5]] + []))));
    RunStep(c, s2, race[2], [race[3]] + ([race[4]] + ([race[5]] + [])));
    RunStep(c, s3, race[3], [race[4]] + ([race[5]] + []));
    RunStep(c, s4, race[4], [race[5]] + []);
    RunStep(c, s5, race[5], []);
    assert s1 == System(db, map[0 := Built(t, p, none)]);
    assert s2 == System(db, map[0 := Built(t, p, none), 1 := Built(t', p', none)]);
    assert s3 == System(db, map[0 := TenantChecked(t, p, none), 1 := Built(t', p', none)]);
    assert s4 == System(db, map[0 := TenantChecked(t, p, none), 1 := TenantChecked(t', p', none)]);
    assert s5 == System(db, map[0 := Checked(t, p, none), 1 := TenantChecked(t', p', none)]);
    assert s6 == System(db, map[0 := Checked(t, p, none), 1 := Checked(t', p', none)]);
  }

  /**
    The race is reachable from the empty database: both rows are recorded, and
    the instance stands under two tenants.
   */
  lemma RaceBreaksIsolation(c: Env, t: string, p: Proof, t': string, p': Proof)
    requires FirstProof(p) && FirstProof(p') && p.instanceId == p'.instanceId && t != t'
    ensures Run(c, START, Race(t, p, t', p')).db.ledger == [RowOf(t, p), RowOf(t', p')]
    ensures !Isolated(Run(c, START, Race(t, p, t', p')).db.ledger)
  {
    var race := Race(t, p, t', p');
    var s6 := Run(c, START, race[..6]);
    BothCheck(c, t, p, t', p');
    RunConcat(c, START, race[..6], race[6..]);
    assert race == race[..6] + race[6..];
    assert race[6..] == [Insert(0)] + ([Insert(1)] + []);
    var s7 := Next(c, s6, Insert(0));
    RunStep(c, s6, Insert(0), [Insert(1)] + []);
    RunStep(c, s7, Insert(1), []);
    assert s7.db.ledger == [RowOf(t, p)];
    var ledger := Next(c, s7, Insert(1)).db.ledger;
    assert ledger == [RowOf(t, p), RowOf(t', p')];
    assert ledger[0].tenantId == t && ledger[1].tenantId == t';
  }

  lemma {:induction false} RunConcat(c: Env, sys: System, xs: seq<Action>, ys: seq<Action>)
    ensures Run(c, sys, xs + ys) == Run(c, Run(c, sys, xs), ys)
    decreases xs
  {
    if xs == [] {
      assert xs + ys == ys;
    } else {
      assert (xs + ys)[0] == xs[0] && (xs + ys)[1..] == xs[1..] + ys;
      RunConcat(c, Next(c, sys, xs[0]), xs[1..], ys);
    }
  }

  // ---- Every interleaving is a sequence of calls ----

  /** The call builds this proof from the tip that the proof names. */
  ghost predicate Originates(c: Env, k: Call, p: Proof) {
    && k.tenant == DEFAULT_TENANT && Admit(k.approvals, k.request).None? && p.instanceId == k.request.instanceId
    && Build(c, k.signer, k.request, Tip(p.ledger.previousHash, p.ledger.sequenceId), k.now) == Recorded(p)
  }

  ghost predicate OwnProof(c: Env, t: string, p: Proof, origin: Option<Call>) {
    t == DEFAULT_TENANT && origin.Some? && Originates(c, origin.value, p)
  }

  ghost predicate FromEngine(c: Env, x: Writer) {
    match x
    case Idle => true
    case Admitted(q, approvals) => Admit(approvals, q).None?
    case TipRead(q, approvals, _) => Admit(approvals, q).None?
    case Built(t, p, origin) => OwnProof(c, t, p, origin)
    case TenantChecked(t, p, origin) => OwnProof(c, t, p, origin) && |p.signature.value| == 128
    case Checked(t, p, origin) => OwnProof(c, t, p, origin) && |p.signature.value| == 128
    case Finished(_) => true
  }

  ghost predicate OneTenant(ledger: seq<LedgerRow>) {
    forall k :: 0 <= k < |ledger| ==> ledger[k].tenantId == DEFAULT_TENANT
  }

  /** Only engines write. */
  ghost predicate EngineOnly(c: Env, sys: System) {
    OneTenant(sys.db.ledger) && forall w :: w in sys.writers ==> FromEngine(c, sys.writers[w])
  }

  lemma EffectKeepsEngineOnly(c: Env, db: Database, x: Writer, a: Action)
    requires OneTenant(db.ledger) && FromEngine(c, x) && !a.Submit?
    ensures OneTenant(Effect(c, db, x, a).0.ledger) && FromEngine(c, Effect(c, db, x, a).1)
  {
    if a.HashAndSign? && x.TipRead? && Build(c, a.signer, x.request, x.tip, a.now).Recorded? {
      BuildKeepsTip(c, a.signer, x.request, x.tip, a.now);
    }
  }

  /** The call that a step completes, if it is an insert that succeeds. */
  function Completed(sys: System, a: Action): seq<Call> {
    var x := WriterOf(sys, a.w);
    if a.Insert? && x.Checked? && x.origin.Some? && AfterInsert(sys.db, x.tenant, x.proof).1.Recorded?
    then [x.origin.value] else []
  }

  /** The completed calls of a run, in the order of their inserts. */
  function Serial(c: Env, sys: System, actions: seq<Action>): seq<Call>
    decreases actions
  {
    if actions == [] then []
    else Completed(sys, actions[0]) + Serial(c, Next(c, sys, actions[0]), actions[1..])
  }

  /** What the writer of a completed call is given. */
  function Answer(c: Env, sys: System, a: Action): seq<Outcome> {
    if Completed(sys, a) == [] then [] else [WriterOf(Next(c, sys, a), a.w).outcome]
  }

  function Answers(c: Env, sys: System, actions: seq<Action>): seq<Outcome>
    decreases actions
  {
    if actions == [] then [] else Answer(c, sys, actions[0]) + Answers(c, Next(c, sys, actions[0]), actions[1..])
  }

  /** A proof that fits its chain now is what its call would record now, without interruption. */
  lemma CallWouldRecord(c: Env, db: Database, k: Call, p: Proof)
    requires AllLinked(db.ledger) && RowsSound(c, db.ledger) && OneTenant(db.ledger) && Originates(c, k, p)
    requires Insertable(db.ledger, RowOf(DEFAULT_TENANT, p))
    requires p.ledger.sequenceId == |Rows(db.ledger, DEFAULT_TENANT, p.instanceId)| + 1
    requires p.ledger.previousHash == ExpectedPrev(db.ledger, DEFAULT_TENANT, p.instanceId)
    ensures Record(c, k.signer, k.approvals, db, k.tenant, k.request, k.now)
      == (InsertRow(db, RowOf(DEFAULT_TENANT, p)).0, Recorded(p))
  {
    var r := RowOf(DEFAULT_TENANT, p);
    CheckedIsNext(db.ledger, r);
    TipIsReadable(c, db.ledger, p.instanceId);
    assert ValidateChain(db.ledger, r).None?;
  }

  lemma TipIsReadable(c: Env, ledger: seq<LedgerRow>, i: string)
    requires AllLinked(ledger) && RowsSound(c, ledger)
    ensures ReadTip(c, ledger, DEFAULT_TENANT, i)
      == Some(Tip(ExpectedPrev(ledger, DEFAULT_TENANT, i), |Rows(ledger, DEFAULT_TENANT, i)| + 1))
  {
    var rows := Rows(ledger, DEFAULT_TENANT, i);
    assert Linked(rows);
    ExpectedNext(ledger, DEFAULT_TENANT, i);
    if rows != [] {
      assert SoundLedger(c, ledger);
      SoundRows(c, ledger, DEFAULT_TENANT, i, |rows| - 1);
    }
  }

  lemma StepIsSerial(c: Env, sys: System, a: Action, db: Database)
    requires Consistent(sys) && AllSound(c, sys) && EngineOnly(c, sys) && !a.Submit? && db.ledger == sys.db.ledger
    ensures DatabaseAfter(c, db, Completed(sys, a)).ledger == Next(c, sys, a).db.ledger
    ensures OutcomesOf(c, db, Completed(sys, a)) == Answer(c, sys, a)
  {
    var x := WriterOf(sys, a.w);
    StepAppendsAtMostOne(c, sys, a);
    if a.Insert? && x.Checked? {
      assert FromEngine(c, x) && WriterOk(sys.db.ledger, x);
      var k, r := x.origin.value, RowOf(x.tenant, x.proof);
      if Insertable(sys.db.ledger, r) {
        InsertKeepsLinked(sys.db.ledger, r);
        CallWouldRecord(c, sys.db, k, x.proof);
        RecordNeedsLedgerOnly(c, k, sys.db, db);
      }
    }
  }

  lemma {:induction false} AfterConcat(c: Env, db: Database, xs: seq<Call>, ys: seq<Call>)
    ensures DatabaseAfter(c, db, xs + ys) == DatabaseAfter(c, DatabaseAfter(c, db, xs), ys)
    ensures OutcomesOf(c, db, xs + ys) == OutcomesOf(c, db, xs) + OutcomesOf(c, DatabaseAfter(c, db, xs), ys)
    decreases xs
  {
    if xs == [] {
      assert xs + ys == ys;
    } else {
      var k := xs[0];
      assert (xs + ys)[0] == k && (xs + ys)[1..] == xs[1..] + ys;
      AfterConcat(c, Record(c, k.signer, k.approvals, db, k.tenant, k.request, k.now).0, xs[1..], ys);
    }
  }

  lemma {:induction false} RunIsSerial(c: Env, sys: System, actions: seq<Action>, db: Database)
    requires Lawful(c) && Consistent(sys) && AllSound(c, sys) && EngineOnly(c, sys) && db.ledger == sys.db.ledger
    requires AllHonest(c, actions) && NoSubmits(actions)
    ensures DatabaseAfter(c, db, Serial(c, sys, actions)).ledger == Run(c, sys, actions).db.ledger
    ensures OutcomesOf(c, db, Serial(c, sys, actions)) == Answers(c, sys, actions)
    decreases actions
  {
    if actions != [] {
      var a, x := actions[0], WriterOf(sys, actions[0].w);
      var sys' := Next(c, sys, a);
      StepIsSerial(c, sys, a, db);
      StepKeepsConsistent(c, sys, a);
      EffectKeepsSound(c, sys.db, x, a);
      EffectKeepsEngineOnly(c, sys.db, x, a);
      RunIsSerial(c, sys', actions[1..], DatabaseAfter(c, db, Completed(sys, a)));
      AfterConcat(c, db, Completed(sys, a), Serial(c, sys', actions[1..]));
    }
  }

  /**
    Serialisability: whatever the interleaving of any number of engines, the
    ledger is the one that the completed calls, made one after the other in the
    order of their inserts, would have produced, and each of them returns the
    same proof.
   */
  lemma EveryInterleavingIsSerial(c: Env, actions: seq<Action>)
    requires Lawful(c)
    requires AllHonest(c, actions) && NoSubmits(actions)
    ensures Run(c, START, actions).db.ledger
      == DatabaseAfter(c, Database([], []), Serial(c, START, actions)).ledger
    ensures OutcomesOf(c, Database([], []), Serial(c, START, actions)) == Answers(c, START, actions)
  {
    RunIsSerial(c, START, actions, Database([], []));
  }

  // ---- Why a writer loses ----

  /**
    The engine's writers lose the tip check only to a row that took their
    position, and always as DuplicateSequenceId: the gap and broken-link errors
    are never raised for them.
   */
  lemma TipCheckLosesOnlyToANewerRow(ledger: seq<LedgerRow>, t: string, p: Proof)
    requires AllLinked(ledger) && ProofWasNext(ledger, t, p)
    ensures PlaceError(ledger, RowOf(t, p)).Some? <==> p.ledger.sequenceId <= |Rows(ledger, t, p.instanceId)|
    ensures PlaceError(ledger, RowOf(t, p)).Some? ==> PlaceError(ledger, RowOf(t, p)) == Some(DuplicateSequenceId)
  {
    CheckedIsNext(ledger, RowOf(t, p));
  }

  /** The same over runs: what the storage can answer to an engine's writer. */
  lemma EngineNeverSeesAGap(c: Env, actions: seq<Action>, a: Action)
    ensures
      var sys := Run(c, START, actions);
      var x, x' := WriterOf(sys, a.w), WriterOf(Next(c, sys, a), a.w);
      x.TenantChecked? && x.origin.Some? && x'.Finished? ==>
        && x'.outcome == Failed(NotStored(DuplicateSequenceId))
        && x.proof.ledger.sequenceId <= |Rows(sys.db.ledger, x.tenant, x.proof.instanceId)|
  {
    RunKeepsConsistent(c, START, actions);
    var sys := Run(c, START, actions);
    var x := WriterOf(sys, a.w);
    if x.TenantChecked? && x.origin.Some? && a.CheckTip? {
      TipCheckLosesOnlyToANewerRow(sys.db.ledger, x.tenant, x.proof);
    }
  }

  /** The payload of a proof in the ledger collides with that of the proof at hand. */
  ghost predicate PayloadCollision(c: Env, ledger: seq<LedgerRow>, p: Proof) {
    Collides(c.hash, HashedPayloads(c, [p]), HashedPayloads(c, Proofs(ledger)))
  }

  /**
    A checked writer loses the insert only to a row that took its position
    after the check; the unique index on hashes never refuses anything else,
    unless two different payloads collide.
   */
  lemma InsertLosesOnlyToANewerRow(c: Env, ledger: seq<LedgerRow>, t: string, p: Proof)
    requires Lawful(c) && AllLinked(ledger) && RowsSound(c, ledger)
    requires WellRecorded(c, p) && IsProofObject(p) && ProofObjects(Proofs(ledger))
    requires ProofWasNext(ledger, t, p) && !Insertable(ledger, RowOf(t, p))
    ensures p.ledger.sequenceId <= |Rows(ledger, t, p.instanceId)| || PayloadCollision(c, ledger, p)
  {
    var r := RowOf(t, p);
    var k :| 0 <= k < |ledger| && ledger[k].tenantId == t && ledger[k].instanceId == p.instanceId
      && (ledger[k].sequenceId == r.sequenceId || ledger[k].currentHash == r.currentHash);
    var q := ledger[k].proof;
    assert RowSound(c, ledger[k]);
    StoredPosition(ledger, k);
    if ledger[k].sequenceId != r.sequenceId {
      SameHashSamePosition(c, ledger, k, p);
    }
  }

  /** A stored row's sequence id is at most the length of its chain. */
  lemma StoredPosition(ledger: seq<LedgerRow>, k: nat)
    requires AllLinked(ledger) && k < |ledger|
    ensures ledger[k].sequenceId <= |Rows(ledger, ledger[k].tenantId, ledger[k].instanceId)|
  {
    var t, i := ledger[k].tenantId, ledger[k].instanceId;
    var rows := Rows(ledger, t, i);
    FilterMembers(OfChain(t, i), ledger);
    assert ledger[k] in rows;
    var j :| 0 <= j < |rows| && rows[j] == ledger[k];
    assert Linked(rows) && PlacedAt(rows, j);
  }

  lemma SameHashSamePosition(c: Env, ledger: seq<LedgerRow>, k: nat, p: Proof)
    requires k < |ledger| && CanonicalPayload(c) && HashOk(c, p) && HashOk(c, ledger[k].proof)
    requires IsProofObject(p) && IsProofObject(ledger[k].proof)
    requires ledger[k].proof.ledger.currentHash == p.ledger.currentHash
    requires ledger[k].proof.ledger.sequenceId != p.ledger.sequenceId
    ensures PayloadCollision(c, ledger, p)
  {
    var q := ledger[k].proof;
    LastHashBinds(c, p, q, [p], Proofs(ledger));
  }
}
