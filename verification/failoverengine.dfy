/**
  The engine signing through the failover signer while other threads move it:
  which key signs a proof and which it names (engine.py, signer_failover.py).
 */
module FailoverEngine {
  import opened Prelude
  import opened TextEncoding
  import opened Tables
  import opened ProofModel
  import opened Verifier
  import opened Storage
  import opened Engine
  import opened StrictSeed
  import Writers
  import F = Failover

  /** How the primary answers during one call. */
  datatype Mode = Up | Unavailable | Broken

  /**
    One decision: how the primary answers, the events of other threads while
    the signature is made, then before the key id is read, then before the
    public key is read, whether both keys can be read, and the request.
   */
  datatype Turn = Turn(
    mode: Mode, during: seq<F.Event>, toKeyId: seq<F.Event>, toPublicKey: seq<F.Event>, answers: bool,
    approvals: Approvals, tenant: string, request: Request, now: string)

  /** The two keys and the threshold. */
  datatype Setup = Setup(threshold: int, primary: Signer, fallback: Signer)

  ghost predicate LawfulSetup(c: Env, u: Setup) {
    SignerLaw(c, u.primary) && SignerLaw(c, u.fallback)
  }

  // ---- One signature among other threads ----

  /** The key that makes the signature, if one is made; it is chosen when signing starts. */
  function SignedBy(st: F.State, turn: Turn): F.KeyName {
    if st.healthy && turn.mode.Up? then F.Primary else F.Fallback
  }

  function KeyOf(u: Setup, k: F.KeyName): Signer {
    if k.Primary? then u.primary else u.fallback
  }

  /** What `sign_hash` gives the engine. */
  function SignatureOf(u: Setup, st: F.State, turn: Turn, m: Bytes): Option<string> {
    if st.healthy && turn.mode.Broken? then None else KeyOf(u, SignedBy(st, turn)).sign(m)
  }

  /** The state once a signature has been made: it was counted first, and the primary's answer last. */
  function Completed(u: Setup, st: F.State, turn: Turn): F.State {
    var s1 := F.Run(u.threshold, st.(totalSigns := st.totalSigns + 1), turn.during);
    if !st.healthy || turn.mode.Broken? then s1
    else if turn.mode.Up? then s1.(consecutive := 0)
    else F.PrimaryFailure(u.threshold, s1)
  }

  /** The state after an attempt that gave no signature. */
  function Abandoned(u: Setup, st: F.State, turn: Turn): F.State {
    var s1 := F.Run(u.threshold, st.(totalSigns := st.totalSigns + 1), turn.during);
    if !st.healthy then s1.(fallbackErrors := s1.fallbackErrors + 1)
    else if !turn.mode.Unavailable? then s1
    else
      var s2 := F.PrimaryFailure(u.threshold, s1);
      s2.(fallbackErrors := s2.fallbackErrors + 1)
  }

  function AtKeyId(u: Setup, st: F.State, turn: Turn): F.State {
    F.Run(u.threshold, Completed(u, st, turn), turn.toKeyId)
  }

  function AtPublicKey(u: Setup, st: F.State, turn: Turn): F.State {
    F.Run(u.threshold, AtKeyId(u, st, turn), turn.toPublicKey)
  }

  /** The key in use when the engine reads the public key. */
  function InUse(u: Setup, st: F.State, turn: Turn): F.KeyName {
    F.Reported(AtPublicKey(u, st, turn))
  }

  /** The proof names the key that signed it. */
  predicate Matched(u: Setup, st: F.State, turn: Turn) {
    InUse(u, st, turn) == SignedBy(st, turn)
  }

  /** What the engine makes of its three calls; it records nothing when a key cannot be read. */
  function Seen(u: Setup, st: F.State, turn: Turn): Signer {
    Signer(KeyOf(u, F.Reported(AtKeyId(u, st, turn))).keyId, KeyOf(u, InUse(u, st, turn)).publicKey,
           (m: Bytes) => if turn.answers then SignatureOf(u, st, turn, m) else None)
  }

  function PrimaryAnswer(u: Setup, turn: Turn, m: Bytes): F.PrimaryReply {
    match turn.mode
    case Up => (match u.primary.sign(m) case Some(v) => F.PrimarySigns(v) case None => F.PrimaryRaises)
    case Unavailable => F.PrimaryFailsOver
    case Broken => F.PrimaryRaises
  }

  function FallbackAnswer(u: Setup, m: Bytes): F.FallbackReply {
    match u.fallback.sign(m)
    case Some(v) => F.FallbackSigns(v)
    case None => F.FallbackRaises
  }

  /**
    Without events of other threads this is `sign_hash` as one step, and the
    key named is the key that signed unless the primary fails over below the
    threshold.
   */
  lemma AloneIsSignHash(u: Setup, st: F.State, turn: Turn, m: Bytes)
    requires turn.during == turn.toKeyId == turn.toPublicKey == []
    ensures
      var (st', r) := F.SignHash(u.threshold, st, 32, PrimaryAnswer(u, turn, m), FallbackAnswer(u, m));
      var v := SignatureOf(u, st, turn, m);
      && (r.Signed? <==> v.Some?)
      && (v.Some? ==> r == F.Signed(SignedBy(st, turn), v.value) && st' == AtPublicKey(u, st, turn))
      && (v.None? ==> st' == Abandoned(u, st, turn))
      && (v.Some? ==>
            (Matched(u, st, turn) <==> !(st.healthy && turn.mode.Unavailable? && st.consecutive + 1 < u.threshold)))
  {
    if SignatureOf(u, st, turn, m).Some? {
      F.ReportedKeySigned(u.threshold, st, 32, PrimaryAnswer(u, turn, m), FallbackAnswer(u, m));
    }
  }

  // ---- A recorded proof checks exactly if it names the key that signed ----

  /** What one key signs does not verify under the other. */
  ghost predicate KeysDiffer(c: Env, u: Setup) {
    && (forall m :: u.fallback.sign(m).Some? ==> !c.verify(u.primary.publicKey, m, u.fallback.sign(m).value))
    && (forall m :: u.primary.sign(m).Some? ==> !c.verify(u.fallback.publicKey, m, u.primary.sign(m).value))
  }

  /** All that holds of a recorded proof whatever its signer did. */
  ghost predicate WellBuilt(c: Env, p: Proof) {
    SchemaOk(c, p) && HashOk(c, p) && ModeRecorded(c, p.determinism)
  }

  lemma BuildIsWellBuilt(c: Env, s: Signer, a: Approvals, q: Request, tip: Tip, now: string)
    requires Lawful(c) && Admit(a, q).None? && Build(c, s, q, tip, now).Recorded?
    ensures
      var p := Build(c, s, q, tip, now).proof;
      && WellBuilt(c, p)
      && p.instanceId == q.instanceId && p.ledger.sequenceId == tip.seq_ && p.ledger.previousHash == tip.prev
      && s.sign(c.hash(c.payload(p).value)) == Some(p.signature.value) && p.signature.publicKey == s.publicKey
  {
    var calls := if q.mode == ReplayWithRecordedIO && q.externalCalls.Calls?
                 then Some(Hex(c.hash(q.externalCalls.bytes.value))) else None;
    var draft := Draft(c, s, q, tip, now, q.rawInputs.value, calls);
    var digest := c.hash(c.payload(draft).value);
    SigningKeepsPayload(c, draft, Hex(digest), s.sign(digest).value);
    if calls.Some? { HexIsHash(c, c.hash(q.externalCalls.bytes.value)); }
  }

  /** Whatever other threads did, the signature of a recorded proof checks exactly if the proof names the key that made it. */
  lemma SignatureChecksIff(c: Env, u: Setup, st: F.State, turn: Turn, tip: Tip)
    requires Lawful(c) && LawfulSetup(c, u) && KeysDiffer(c, u) && Admit(turn.approvals, turn.request).None?
    requires Build(c, Seen(u, st, turn), turn.request, tip, turn.now).Recorded?
    ensures SignatureOk(c, Build(c, Seen(u, st, turn), turn.request, tip, turn.now).proof) <==> Matched(u, st, turn)
  {
    var p := Build(c, Seen(u, st, turn), turn.request, tip, turn.now).proof;
    BuildIsWellBuilt(c, Seen(u, st, turn), turn.approvals, turn.request, tip, turn.now);
    var m := c.hash(c.payload(p).value);
    assert KeyOf(u, SignedBy(st, turn)).sign(m) == Some(p.signature.value);
  }

  // ---- Runs ----

  /** A step of the world: an event of another thread, or a decision. */
  datatype Item = Other(event: F.Event) | Decide(turn: Turn)

  datatype World = World(st: F.State, db: Database)

  const START := World(F.START, Database([], []))

  /** A recorded proof, the key that signed it, and the key that it names. */
  datatype Recording = Recording(tenant: string, proof: Proof, signedBy: F.KeyName, named: F.KeyName)

  function CallBy(c: Env, u: Setup, w: World, turn: Turn): (Database, Outcome) {
    Record(c, Seen(u, w.st, turn), turn.approvals, w.db, turn.tenant, turn.request, turn.now)
  }

  /** The digest that a decision asks to be signed, if it gets that far. */
  function Asked(c: Env, u: Setup, w: World, turn: Turn): Option<Digest> {
    var s, q, tip := Seen(u, w.st, turn), turn.request, ReadTip(c, w.db.ledger, turn.tenant, turn.request.instanceId);
    if Admit(turn.approvals, q).Some? || tip.None? || q.rawInputs.None?
      || (q.mode == ReplayWithRecordedIO && q.externalCalls.Calls? && q.externalCalls.bytes.None?) then None
    else
      var calls := if q.mode == ReplayWithRecordedIO && q.externalCalls.Calls?
                   then Some(Hex(c.hash(q.externalCalls.bytes.value))) else None;
      var draft := Draft(c, s, q, tip.value, turn.now, q.rawInputs.value, calls);
      if !BodyOk(c, draft) || c.payload(draft).None? then None else Some(c.hash(c.payload(draft).value))
  }

  /** The signer's state after a decision: other threads go on whatever the engine does. */
  function StateAfter(c: Env, u: Setup, w: World, turn: Turn): F.State {
    match Asked(c, u, w, turn)
    case None => F.Run(u.threshold, w.st, turn.during + (turn.toKeyId + turn.toPublicKey))
    case Some(m) =>
      if SignatureOf(u, w.st, turn, m).Some? then AtPublicKey(u, w.st, turn)
      else F.Run(u.threshold, Abandoned(u, w.st, turn), turn.toKeyId + turn.toPublicKey)
  }

  function Do(c: Env, u: Setup, w: World, item: Item): World {
    match item
    case Other(event) => w.(st := F.Step(u.threshold, w.st, event).0)
    case Decide(turn) => World(StateAfter(c, u, w, turn), CallBy(c, u, w, turn).0)
  }

  function RunItems(c: Env, u: Setup, w: World, items: seq<Item>): World
    decreases items
  {
    if items == [] then w else RunItems(c, u, Do(c, u, w, items[0]), items[1..])
  }

  /** What a step records. */
  function Records(c: Env, u: Setup, w: World, item: Item): seq<Recording> {
    if item.Other? || CallBy(c, u, w, item.turn).1.Failed? then []
    else [Recording(item.turn.tenant, CallBy(c, u, w, item.turn).1.proof, SignedBy(w.st, item.turn), InUse(u, w.st, item.turn))]
  }

  function Recordings(c: Env, u: Setup, w: World, items: seq<Item>): seq<Recording>
    decreases items
  {
    if items == [] then [] else Records(c, u, w, items[0]) + Recordings(c, u, Do(c, u, w, items[0]), items[1..])
  }

  function RowOfRecording(r: Recording): LedgerRow {
    RowOf(r.tenant, r.proof)
  }

  ghost predicate RowBuilt(c: Env, r: LedgerRow) {
    r == RowOf(r.tenantId, r.proof) && WellBuilt(c, r.proof)
  }

  /** Like a sound ledger, but for the signatures. */
  ghost predicate BuiltLedger(c: Env, ledger: seq<LedgerRow>) {
    (forall k :: 0 <= k < |ledger| ==> RowBuilt(c, ledger[k])) && Writers.AllLinked(ledger)
  }

  lemma AppendKeepsBuilt(c: Env, db: Database, t: string, p: Proof)
    requires BuiltLedger(c, db.ledger) && WellBuilt(c, p)
    ensures BuiltLedger(c, Append(db, t, p).0.ledger)
    ensures Append(db, t, p).0.ledger == if Append(db, t, p).1.Some? then db.ledger else db.ledger + [RowOf(t, p)]
  {
    if Append(db, t, p).1.None? {
      var r := RowOf(t, p);
      assert Writers.PlaceError(db.ledger, r).None?;
      Writers.CheckedIsNext(db.ledger, r);
      Writers.InsertKeepsLinked(db.ledger, r);
    }
  }

  /** The signature of a recording checks exactly if the key it names signed it. */
  ghost predicate ChecksIffMatched(c: Env, r: Recording) {
    SignatureOk(c, r.proof) <==> r.signedBy == r.named
  }

  /** The call of a decision adds the row of what it records, or nothing. */
  lemma CallKeepsBuilt(c: Env, u: Setup, w: World, turn: Turn)
    requires Lawful(c) && BuiltLedger(c, w.db.ledger)
    ensures
      var (db, r) := CallBy(c, u, w, turn);
      && BuiltLedger(c, db.ledger)
      && db.ledger == w.db.ledger + (if r.Recorded? then [RowOf(turn.tenant, r.proof)] else [])
  {
    var s, q, tip := Seen(u, w.st, turn), turn.request, ReadTip(c, w.db.ledger, turn.tenant, turn.request.instanceId);
    if Admit(turn.approvals, q).None? && tip.Some? && Build(c, s, q, tip.value, turn.now).Recorded? {
      BuildIsWellBuilt(c, s, turn.approvals, q, tip.value, turn.now);
      AppendKeepsBuilt(c, w.db, turn.tenant, Build(c, s, q, tip.value, turn.now).proof);
    }
  }

  lemma CallChecksIff(c: Env, u: Setup, w: World, turn: Turn)
    requires Lawful(c) && LawfulSetup(c, u) && KeysDiffer(c, u) && CallBy(c, u, w, turn).1.Recorded?
    ensures SignatureOk(c, CallBy(c, u, w, turn).1.proof) <==> Matched(u, w.st, turn)
  {
    SignatureChecksIff(c, u, w.st, turn, ReadTip(c, w.db.ledger, turn.tenant, turn.request.instanceId).value);
  }

  /** One step keeps the ledger built, adds what it records, and records only proofs that check iff matched. */
  ghost predicate StepGood(c: Env, w: World, w': World, rs: seq<Recording>) {
    && BuiltLedger(c, w'.db.ledger)
    && w'.db.ledger == w.db.ledger + Map(RowOfRecording, rs)
    && forall r :: r in rs ==> ChecksIffMatched(c, r)
  }

  lemma StepIsGood(c: Env, u: Setup, w: World, item: Item)
    requires Lawful(c) && LawfulSetup(c, u) && KeysDiffer(c, u) && BuiltLedger(c, w.db.ledger)
    ensures StepGood(c, w, Do(c, u, w, item), Records(c, u, w, item))
  {
    if item.Decide? {
      CallKeepsBuilt(c, u, w, item.turn);
      if CallBy(c, u, w, item.turn).1.Recorded? { CallChecksIff(c, u, w, item.turn); }
    }
  }

  lemma StepsCompose(c: Env, w: World, w1: World, w2: World, rs: seq<Recording>, rs': seq<Recording>)
    requires StepGood(c, w, w1, rs) && StepGood(c, w1, w2, rs')
    ensures StepGood(c, w, w2, rs + rs')
  {
    MapConcat(RowOfRecording, rs, rs');
  }

  lemma MapConcat<T, V>(f: T -> V, xs: seq<T>, ys: seq<T>)
    ensures Map(f, xs + ys) == Map(f, xs) + Map(f, ys)
  {
  }

  /**
    In every run, whatever the other threads do and when, the ledger holds
    exactly what was recorded, and the signature of each recorded proof checks
    if and only if the key that signed it is the one in use when the public key
    was read.
   */
  lemma {:induction false} EveryRecordingChecksIff(c: Env, u: Setup, w: World, items: seq<Item>)
    requires Lawful(c) && LawfulSetup(c, u) && KeysDiffer(c, u) && BuiltLedger(c, w.db.ledger)
    ensures StepGood(c, w, RunItems(c, u, w, items), Recordings(c, u, w, items))
    decreases items
  {
    if items != [] {
      var w1 := Do(c, u, w, items[0]);
      StepIsGood(c, u, w, items[0]);
      EveryRecordingChecksIff(c, u, w1, items[1..]);
      StepsCompose(c, w, w1, RunItems(c, u, w1, items[1..]), Records(c, u, w, items[0]), Recordings(c, u, w1, items[1..]));
    }
  }

  // ---- Chains ----

  lemma BuiltRow(c: Env, ledger: seq<LedgerRow>, t: string, i: string, k: nat)
    requires BuiltLedger(c, ledger) && k < |Rows(ledger, t, i)|
    ensures RowBuilt(c, Rows(ledger, t, i)[k])
  {
    RowsInLedger(ledger, t, i, k);
    var j :| 0 <= j < |ledger| && ledger[j] == Rows(ledger, t, i)[k];
    assert RowBuilt(c, ledger[j]);
  }

  lemma BuiltChainAt(c: Env, ledger: seq<LedgerRow>, t: string, i: string, k: nat)
    requires BuiltLedger(c, ledger) && k < |Rows(ledger, t, i)|
    ensures ChainOf(ledger, t, i) == Proofs(Rows(ledger, t, i))
    ensures AcceptedAt(c, ChainOf(ledger, t, i), k) <==>
      SignatureOk(c, ChainOf(ledger, t, i)[k]) && !SeededStrict(ChainOf(ledger, t, i)[k])
  {
    var rows, ps := Rows(ledger, t, i), ChainOf(ledger, t, i);
    assert Linked(rows);
    ExpectedNext(ledger, t, i);
    BuiltRow(c, ledger, t, i, k);
    assert PlacedAt(rows, k);
    if k > 0 { BuiltRow(c, ledger, t, i, k - 1); }
    assert LinkedAt(ps, k) && ps[k].ledger.sequenceId == k + 1;
    AcceptedIffSound(c, ps, k);
  }

  /** A chain of a built ledger verifies exactly if it is not empty and each proof checks and is no seeded strict one. */
  lemma BuiltChainVerifiesIff(c: Env, ledger: seq<LedgerRow>, t: string, i: string)
    requires BuiltLedger(c, ledger)
    ensures ChainAccepted(c, ChainOf(ledger, t, i)) <==>
      && Rows(ledger, t, i) != []
      && forall r :: r in Rows(ledger, t, i) ==> SignatureOk(c, r.proof) && !SeededStrict(r.proof)
  {
    var rows, ps := Rows(ledger, t, i), ChainOf(ledger, t, i);
    assert Linked(rows);
    ExpectedNext(ledger, t, i);
    forall k | 0 <= k < |rows|
      ensures AcceptedAt(c, ps, k) <==> SignatureOk(c, rows[k].proof) && !SeededStrict(rows[k].proof) {
      BuiltChainAt(c, ledger, t, i, k);
    }
    if ChainAccepted(c, ps) {
      forall r | r in rows ensures SignatureOk(c, r.proof) && !SeededStrict(r.proof) {
        var k :| 0 <= k < |rows| && rows[k] == r;
        assert AcceptedAt(c, ps, k);
      }
    }
    if rows != [] && forall r :: r in rows ==> SignatureOk(c, r.proof) && !SeededStrict(r.proof) {
      forall k | 0 <= k < |ps| ensures AcceptedAt(c, ps, k) { assert rows[k] in rows; }
    }
  }

  /** The recording belongs to the chain of the tenant's instance. */
  predicate InChain(r: Recording, t: string, i: string) {
    r.tenant == t && r.proof.instanceId == i
  }

  /** The recording names the key that signed it and holds no seed in strict mode. */
  predicate Good(r: Recording) {
    r.signedBy == r.named && !SeededStrict(r.proof)
  }

  lemma RecordedRows(rs: seq<Recording>, t: string, i: string)
    ensures forall r :: r in rs && InChain(r, t, i) ==> RowOfRecording(r) in Rows(Map(RowOfRecording, rs), t, i)
    ensures forall x :: x in Rows(Map(RowOfRecording, rs), t, i) ==>
      exists r :: r in rs && InChain(r, t, i) && x == RowOfRecording(r)
  {
    var ledger := Map(RowOfRecording, rs);
    FilterMembers(OfChain(t, i), ledger);
    forall r | r in rs && InChain(r, t, i) ensures RowOfRecording(r) in Rows(ledger, t, i) {
      var j :| 0 <= j < |rs| && rs[j] == r;
      assert ledger[j] == RowOfRecording(r);
    }
    forall x | x in Rows(ledger, t, i) ensures exists r :: r in rs && InChain(r, t, i) && x == RowOfRecording(r) {
      var j :| 0 <= j < |ledger| && ledger[j] == x;
      assert rs[j] in rs && x == RowOfRecording(rs[j]);
    }
  }

  /**
    In every run of the engine from the empty database, whatever other threads
    do to the signer, a chain passes `verify_chain` if and only if something was
    recorded in it and every recording names the key that signed it and is no
    seeded strict proof.
   */
  lemma EveryRunVerifiesIff(c: Env, u: Setup, items: seq<Item>, t: string, i: string)
    requires Lawful(c) && LawfulSetup(c, u) && KeysDiffer(c, u)
    ensures
      var rs := Recordings(c, u, START, items);
      ChainAccepted(c, ChainOf(RunItems(c, u, START, items).db.ledger, t, i)) <==>
        && (exists r :: r in rs && InChain(r, t, i))
        && (forall r :: r in rs && InChain(r, t, i) ==> Good(r))
  {
    var rs, ledger := Recordings(c, u, START, items), RunItems(c, u, START, items).db.ledger;
    EveryRecordingChecksIff(c, u, START, items);
    assert ledger == Map(RowOfRecording, rs);
    RecordedRows(rs, t, i);
    BuiltChainVerifiesIff(c, ledger, t, i);
    RecordingsDecide(c, rs, t, i);
  }

  lemma RecordingsDecide(c: Env, rs: seq<Recording>, t: string, i: string)
    requires forall r :: r in rs ==> ChecksIffMatched(c, r)
    ensures
      var rows := Rows(Map(RowOfRecording, rs), t, i);
      (rows != [] && forall x :: x in rows ==> SignatureOk(c, x.proof) && !SeededStrict(x.proof)) <==>
        && (exists r :: r in rs && InChain(r, t, i))
        && (forall r :: r in rs && InChain(r, t, i) ==> Good(r))
  {
    var rows := Rows(Map(RowOfRecording, rs), t, i);
    RecordedRows(rs, t, i);
    if rows != [] { assert rows[0] in rows; }
    forall r | r in rs && InChain(r, t, i)
      ensures Good(r) <==> SignatureOk(c, RowOfRecording(r).proof) && !SeededStrict(RowOfRecording(r).proof) {
      assert ChecksIffMatched(c, r);
    }
  }

  lemma {:induction false} RecordingsGrow(c: Env, u: Setup, w: World, items: seq<Item>, more: seq<Item>)
    ensures Recordings(c, u, w, items) <= Recordings(c, u, w, items + more)
    decreases items
  {
    if items != [] {
      assert (items + more)[0] == items[0] && (items + more)[1..] == items[1..] + more;
      RecordingsGrow(c, u, Do(c, u, w, items[0]), items[1..], more);
    }
  }

  /** A proof recorded under the wrong key spoils its chain, then and after anything that follows. */
  lemma MismatchSpoilsTheChainForGood(c: Env, u: Setup, items: seq<Item>, more: seq<Item>, r: Recording)
    requires Lawful(c) && LawfulSetup(c, u) && KeysDiffer(c, u)
    requires r in Recordings(c, u, START, items) && r.signedBy != r.named
    ensures !ChainAccepted(c, ChainOf(RunItems(c, u, START, items + more).db.ledger, r.tenant, r.proof.instanceId))
  {
    EveryRunVerifiesIff(c, u, items + more, r.tenant, r.proof.instanceId);
    RecordingsGrow(c, u, START, items, more);
    assert r in Recordings(c, u, START, items + more) && InChain(r, r.tenant, r.proof.instanceId) && !Good(r);
  }

  // ---- A condition to check before the call ----

  /** No event switches between the keys. */
  predicate KeepsHealth(threshold: int, s: F.State, events: seq<F.Event>)
    decreases events
  {
    events != [] ==>
      && F.Step(threshold, s, events[0]).0.healthy == s.healthy
      && KeepsHealth(threshold, F.Step(threshold, s, events[0]).0, events[1..])
  }

  lemma {:induction false} KeptHealth(threshold: int, s: F.State, events: seq<F.Event>)
    requires KeepsHealth(threshold, s, events)
    ensures F.Run(threshold, s, events).healthy == s.healthy
    decreases events
  {
    if events != [] { KeptHealth(threshold, F.Step(threshold, s, events[0]).0, events[1..]); }
  }

  /**
    No other thread switches keys from the start of signing to the reading of
    the public key, and if the primary fails over, its failures reach the
    threshold.
   */
  predicate Steady(u: Setup, st: F.State, turn: Turn) {
    && KeepsHealth(u.threshold, st.(totalSigns := st.totalSigns + 1), turn.during)
    && (st.healthy && turn.mode.Unavailable? ==>
          F.Run(u.threshold, st.(totalSigns := st.totalSigns + 1), turn.during).consecutive + 1 >= u.threshold)
    && KeepsHealth(u.threshold, Completed(u, st, turn), turn.toKeyId)
    && KeepsHealth(u.threshold, AtKeyId(u, st, turn), turn.toPublicKey)
  }

  lemma SteadyIsMatched(u: Setup, st: F.State, turn: Turn)
    requires Steady(u, st, turn) && !(st.healthy && turn.mode.Broken?)
    ensures Matched(u, st, turn)
  {
    KeptHealth(u.threshold, st.(totalSigns := st.totalSigns + 1), turn.during);
    KeptHealth(u.threshold, Completed(u, st, turn), turn.toKeyId);
    KeptHealth(u.threshold, AtKeyId(u, st, turn), turn.toPublicKey);
  }

  /** Every decision of the run is steady. */
  predicate AllSteady(c: Env, u: Setup, w: World, items: seq<Item>)
    decreases items
  {
    items != [] ==>
      && (items[0].Decide? ==> Steady(u, w.st, items[0].turn))
      && AllSteady(c, u, Do(c, u, w, items[0]), items[1..])
  }

  lemma SteadyRecordsMatched(c: Env, u: Setup, w: World, turn: Turn)
    requires Lawful(c) && Steady(u, w.st, turn)
    ensures forall r :: r in Records(c, u, w, Decide(turn)) ==> r.signedBy == r.named
  {
    if Records(c, u, w, Decide(turn)) != [] {
      var tip := ReadTip(c, w.db.ledger, turn.tenant, turn.request.instanceId).value;
      BuildIsWellBuilt(c, Seen(u, w.st, turn), turn.approvals, turn.request, tip, turn.now);
      SteadyIsMatched(u, w.st, turn);
    }
  }

  lemma {:induction false} SteadyRecordings(c: Env, u: Setup, w: World, items: seq<Item>)
    requires Lawful(c) && AllSteady(c, u, w, items)
    ensures forall r :: r in Recordings(c, u, w, items) ==> r.signedBy == r.named
    decreases items
  {
    if items != [] {
      if items[0].Decide? { SteadyRecordsMatched(c, u, w, items[0].turn); }
      SteadyRecordings(c, u, Do(c, u, w, items[0]), items[1..]);
    }
  }

  /** A steady run leaves every chain verifying, unless it holds a seeded strict proof. */
  lemma SteadyRunVerifies(c: Env, u: Setup, items: seq<Item>, t: string, i: string)
    requires Lawful(c) && LawfulSetup(c, u) && KeysDiffer(c, u) && AllSteady(c, u, START, items)
    ensures
      var rs := Recordings(c, u, START, items);
      ChainAccepted(c, ChainOf(RunItems(c, u, START, items).db.ledger, t, i)) <==>
        && (exists r :: r in rs && InChain(r, t, i))
        && (forall r :: r in rs && InChain(r, t, i) ==> !SeededStrict(r.proof))
  {
    EveryRunVerifiesIff(c, u, items, t, i);
    SteadyRecordings(c, u, START, items);
  }

  /** With a threshold of one it is enough that no other thread switches keys. */
  lemma ThresholdOneIsSteady(u: Setup, st: F.State, turn: Turn)
    requires u.threshold <= 1
    ensures Steady(u, st, turn) <==>
      && KeepsHealth(u.threshold, st.(totalSigns := st.totalSigns + 1), turn.during)
      && KeepsHealth(u.threshold, Completed(u, st, turn), turn.toKeyId)
      && KeepsHealth(u.threshold, AtKeyId(u, st, turn), turn.toPublicKey)
  {
    assert F.Run(u.threshold, st.(totalSigns := st.totalSigns + 1), turn.during).consecutive >= 0;
  }

  // ---- Runs that end in a refused chain ----

  function PlainRequest(inputs: Bytes): Request {
    Unseeded(SeededRequest(inputs))
  }

  /** A first decision in which the primary answers as given, with the events before the public key is read. */
  function FirstTurn(mode: Mode, toPublicKey: seq<F.Event>, now: string, inputs: Bytes): Turn {
    Turn(mode, [], [], toPublicKey, true, APPROVED, DEFAULT_TENANT, PlainRequest(inputs), now)
  }

  ghost predicate ReliableSetup(c: Env, u: Setup) {
    Reliable(c, u.primary) && Reliable(c, u.fallback)
  }

  /** On an empty database the first decision of a reliable pair of keys is recorded. */
  lemma FirstTurnRecords(c: Env, u: Setup, st: F.State, turn: Turn, now: string, inputs: Bytes)
    requires Lawful(c) && ReliableSetup(c, u) && |now| >= 20 && now[|now| - 1] == 'Z'
    requires turn == FirstTurn(turn.mode, turn.toPublicKey, now, inputs) && !(st.healthy && turn.mode.Broken?)
    ensures
      var w := World(st, Database([], []));
      && CallBy(c, u, w, turn).1.Recorded?
      && CallBy(c, u, w, turn).1.proof.instanceId == turn.request.instanceId
  {
    var s, q, tip := Seen(u, st, turn), turn.request, Tip(GENESIS_HEX, 1);
    SeenIsReliable(c, u, st, turn);
    SeededRequestBuilds(c, s, now, inputs, None);
    assert ReadTip(c, [], DEFAULT_TENANT, q.instanceId) == Some(tip);
    BuildIsWellBuilt(c, s, APPROVED, q, tip, now);
    assert Append(Database([], []), DEFAULT_TENANT, Build(c, s, q, tip, now).proof).1.None?;
  }

  lemma SeenIsReliable(c: Env, u: Setup, st: F.State, turn: Turn)
    requires ReliableSetup(c, u) && turn.answers && !(st.healthy && turn.mode.Broken?)
    ensures Reliable(c, Seen(u, st, turn))
  {
    var s := Seen(u, st, turn);
    forall m ensures s.sign(m).Some? && |s.sign(m).value| == 128 && c.base16(s.sign(m).value) {
      assert KeyOf(u, SignedBy(st, turn)).sign(m).Some?;
    }
  }

  lemma OneItem(c: Env, u: Setup, w: World, item: Item)
    ensures RunItems(c, u, w, [item]) == Do(c, u, w, item)
    ensures Recordings(c, u, w, [item]) == Records(c, u, w, item)
  {
    assert [item][1..] == [];
  }

  /**
    With any larger threshold, the default two included, one failure of the
    primary is enough: the first decision of a run is recorded and its chain is
    refused.
   */
  lemma LargerThresholdRunRefused(c: Env, u: Setup, now: string, inputs: Bytes)
    requires Lawful(c) && LawfulSetup(c, u) && ReliableSetup(c, u) && KeysDiffer(c, u)
    requires u.threshold >= 2 && |now| >= 20 && now[|now| - 1] == 'Z'
    ensures
      var run := [Decide(FirstTurn(Unavailable, [], now, inputs))];
      && |Recordings(c, u, START, run)| == 1
      && !ChainAccepted(c, ChainOf(RunItems(c, u, START, run).db.ledger, DEFAULT_TENANT, PlainRequest(inputs).instanceId))
  {
    var turn := FirstTurn(Unavailable, [], now, inputs);
    FirstTurnRecords(c, u, F.START, turn, now, inputs);
    OneItem(c, u, START, Decide(turn));
    assert !Matched(u, F.START, turn);
    MismatchSpoilsTheChainForGood(c, u, [Decide(turn)], [], Recordings(c, u, START, [Decide(turn)])[0]);
    assert [Decide(turn)] + [] == [Decide(turn)];
  }

  /** A maintenance failover, a signature by the fallback, and the probe's failback before the public key is read. */
  function FailbackRun(now: string, inputs: Bytes): seq<Item> {
    [Other(F.ForceFailover), Decide(FirstTurn(Up, [F.Probe(true)], now, inputs))]
  }

  /** With every threshold, one included, a failback between signature and public key gives a refused chain. */
  lemma FailbackRunRefused(c: Env, u: Setup, now: string, inputs: Bytes)
    requires Lawful(c) && LawfulSetup(c, u) && ReliableSetup(c, u) && KeysDiffer(c, u)
    requires |now| >= 20 && now[|now| - 1] == 'Z'
    ensures
      var run := FailbackRun(now, inputs);
      && |Recordings(c, u, START, run)| == 1
      && !ChainAccepted(c, ChainOf(RunItems(c, u, START, run).db.ledger, DEFAULT_TENANT, PlainRequest(inputs).instanceId))
  {
    var run, turn := FailbackRun(now, inputs), FirstTurn(Up, [F.Probe(true)], now, inputs);
    var w := Do(c, u, START, run[0]);
    assert run[1..] == [Decide(turn)];
    FirstTurnRecords(c, u, w.st, turn, now, inputs);
    OneItem(c, u, w, Decide(turn));
    FailbackMismatches(u, w.st, turn);
    MismatchSpoilsTheChainForGood(c, u, run, [], Recordings(c, u, START, run)[0]);
    assert run + [] == run;
  }

  lemma FailbackMismatches(u: Setup, st: F.State, turn: Turn)
    requires st == F.Step(u.threshold, F.START, F.ForceFailover).0
    requires turn.during == turn.toKeyId == [] && turn.toPublicKey == [F.Probe(true)]
    ensures SignedBy(st, turn) == F.Fallback && InUse(u, st, turn) == F.Primary
  {
    var s1 := AtKeyId(u, st, turn);
    assert !s1.healthy && s1.probing;
    assert F.Run(u.threshold, s1, [F.Probe(true)]) == F.Run(u.threshold, F.Step(u.threshold, s1, F.Probe(true)).0, []);
  }
}
