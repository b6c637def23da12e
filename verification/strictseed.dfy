/**
  A seed in strict mode: the engine records it (provable_ai/engine.py) and the
  verifier refuses what was recorded (provable_ai/verifier.py).
 */
module StrictSeed {
  import opened Prelude
  import opened TextEncoding
  import opened Sorting
  import opened Tables
  import opened Json
  import opened ProofModel
  import opened Verifier
  import opened Storage
  import opened Engine
  import opened Writers

  /** The signer has a well-formed key and never fails. */
  ghost predicate Reliable(c: Env, s: Signer) {
    && |s.keyId| >= 1 && !c.blank(s.keyId) && IsHash(c, s.publicKey)
    && forall m :: s.sign(m).Some? && |s.sign(m).value| == 128 && c.base16(s.sign(m).value)
  }

  /** What holds of every request: its dictionaries have distinct keys. */
  ghost predicate IsRequestObject(q: Request) {
    && IsPython(q.metadata)
    && forall i :: 0 <= i < |q.features| ==> NoDuplicates(FeatureNames(q.features[i]))
  }

  function Unseeded(q: Request): Request {
    q.(seed := None)
  }

  lemma PayloadExists(c: Env, p: Proof)
    requires CanonicalPayload(c) && IsProofObject(p)
    ensures c.payload(p).Some? <==> Validated(p.context.metadata)
  {
    assert CanonicalFor(c, p);
    PayloadIsPython(p);
  }

  /** With a reliable signer an admitted strict request is recorded, for a given tip, exactly if its body is well formed. */
  lemma StrictBuildsIff(c: Env, s: Signer, a: Approvals, q: Request, tip: Tip, now: string)
    requires Lawful(c) && Reliable(c, s) && IsRequestObject(q)
    requires q.mode == StrictDeterministic && Admit(a, q).None? && IsHash(c, tip.prev) && tip.seq_ >= 1
    ensures Build(c, s, q, tip, now).Recorded? <==>
      && q.rawInputs.Some? && q.instanceId != "" && |now| >= 20 && now[|now| - 1] == 'Z'
      && BodyOk(c, Draft(c, s, q, tip, now, q.rawInputs.value, None))
  {
    if q.rawInputs.Some? {
      var draft := Draft(c, s, q, tip, now, q.rawInputs.value, None);
      PayloadExists(c, draft);
      if c.payload(draft).Some? {
        var digest := c.hash(c.payload(draft).value);
        HexIsHash(c, digest);
        assert s.sign(digest).Some?;
      }
    }
  }

  lemma SeedIgnoredByBuild(c: Env, s: Signer, a: Approvals, q: Request, tip: Tip, now: string)
    requires Lawful(c) && Reliable(c, s) && IsRequestObject(q)
    requires q.mode == StrictDeterministic && Admit(a, q).None? && IsHash(c, tip.prev) && tip.seq_ >= 1
    ensures Admit(a, Unseeded(q)).None?
    ensures Build(c, s, q, tip, now).Recorded? <==> Build(c, s, Unseeded(q), tip, now).Recorded?
  {
    StrictBuildsIff(c, s, a, q, tip, now);
    StrictBuildsIff(c, s, a, Unseeded(q), tip, now);
  }

  /** The proof built for the request collides with a stored one. */
  ghost predicate Clashes(c: Env, s: Signer, ledger: seq<LedgerRow>, t: string, q: Request, now: string) {
    var tip := ReadTip(c, ledger, t, q.instanceId);
    && tip.Some? && Build(c, s, q, tip.value, now).Recorded?
    && PayloadCollision(c, ledger, Build(c, s, q, tip.value, now).proof)
  }

  /** On a sound ledger a built proof is stored exactly if no other tenant owns its instance, or its payload collides. */
  lemma BuiltIsStoredIff(c: Env, ledger: seq<LedgerRow>, instances: seq<InstanceRow>, t: string, p: Proof)
    requires Lawful(c) && SoundLedger(c, ledger) && ProofObjects(Proofs(ledger)) && IsProofObject(p) && WellRecorded(c, p)
    requires p.ledger.sequenceId == |Rows(ledger, t, p.instanceId)| + 1
    requires p.ledger.previousHash == ExpectedPrev(ledger, t, p.instanceId)
    ensures (Append(Database(ledger, instances), t, p).1.None? <==> !OwnedElsewhere(ledger, t, p.instanceId))
         || PayloadCollision(c, ledger, p)
  {
    assert AllLinked(ledger) && RowsSound(c, ledger);
    CheckedIsNext(ledger, RowOf(t, p));
    if !Insertable(ledger, RowOf(t, p)) {
      InsertLosesOnlyToANewerRow(c, ledger, t, p);
    }
  }

  lemma RecordsIff(c: Env, s: Signer, a: Approvals, db: Database, t: string, q: Request, now: string)
    requires Lawful(c) && SignerLaw(c, s) && SoundLedger(c, db.ledger) && ProofObjects(Proofs(db.ledger))
    requires IsRequestObject(q) && Admit(a, q).None? && !Clashes(c, s, db.ledger, t, q, now)
    ensures Record(c, s, a, db, t, q, now).1.Recorded? <==>
      var tip := ReadTip(c, db.ledger, t, q.instanceId);
      tip.Some? && Build(c, s, q, tip.value, now).Recorded? && !OwnedElsewhere(db.ledger, t, q.instanceId)
  {
    var tip := ReadTip(c, db.ledger, t, q.instanceId);
    if tip.Some? && Build(c, s, q, tip.value, now).Recorded? {
      BuildIsWellRecorded(c, s, a, q, tip.value, now);
      TipWasNext(c, db.ledger, t, q.instanceId);
      BuiltIsStoredIff(c, db.ledger, db.instances, t, Build(c, s, q, tip.value, now).proof);
    }
  }

  lemma TipIsWellFormed(c: Env, ledger: seq<LedgerRow>, t: string, i: string)
    requires Lawful(c) && AllLinked(ledger) && ReadTip(c, ledger, t, i).Some?
    ensures IsHash(c, ReadTip(c, ledger, t, i).value.prev) && ReadTip(c, ledger, t, i).value.seq_ >= 1
  {
    TipWasNext(c, ledger, t, i);
    HexOfGenesis(GENESIS);
    HexIsHash(c, GENESIS);
  }

  /**
    The engine never looks at a seed in strict mode: a strict request with one
    is recorded exactly when the same request without it is, unless one of the
    two payloads collides with a stored one.
   */
  lemma SeedIsRecordedAlike(c: Env, s: Signer, a: Approvals, db: Database, t: string, q: Request, now: string)
    requires Lawful(c) && SignerLaw(c, s) && Reliable(c, s) && SoundLedger(c, db.ledger) && ProofObjects(Proofs(db.ledger))
    requires IsRequestObject(q) && q.mode == StrictDeterministic
    ensures
      || Record(c, s, a, db, t, q, now).1.Recorded? == Record(c, s, a, db, t, Unseeded(q), now).1.Recorded?
      || Clashes(c, s, db.ledger, t, q, now) || Clashes(c, s, db.ledger, t, Unseeded(q), now)
  {
    assert Admit(a, q) == Admit(a, Unseeded(q));
    if Admit(a, q).None? && !Clashes(c, s, db.ledger, t, q, now) && !Clashes(c, s, db.ledger, t, Unseeded(q), now) {
      RecordsIff(c, s, a, db, t, q, now);
      RecordsIff(c, s, a, db, t, Unseeded(q), now);
      var tip := ReadTip(c, db.ledger, t, q.instanceId);
      if tip.Some? {
        assert AllLinked(db.ledger);
        TipIsWellFormed(c, db.ledger, t, q.instanceId);
        SeedIgnoredByBuild(c, s, a, q, tip.value, now);
      }
    }
  }

  /** A row stays in its chain whatever is recorded later. */
  lemma RowStays(ledger: seq<LedgerRow>, ledger': seq<LedgerRow>, r: LedgerRow)
    requires ledger <= ledger' && r in ledger
    ensures r in Rows(ledger', r.tenantId, r.instanceId)
  {
    FilterMembers(OfChain(r.tenantId, r.instanceId), ledger');
    assert r in ledger';
  }

  lemma SeededRowRefused(c: Env, ledger: seq<LedgerRow>, r: LedgerRow)
    requires SoundLedger(c, ledger) && SeededStrict(r.proof) && r in Rows(ledger, r.tenantId, r.instanceId)
    ensures !ChainAccepted(c, ChainOf(ledger, r.tenantId, r.instanceId))
  {
    var rows, ps := Rows(ledger, r.tenantId, r.instanceId), ChainOf(ledger, r.tenantId, r.instanceId);
    SoundChain(c, ledger, r.tenantId, r.instanceId);
    SoundChainVerifies(c, ledger, r.tenantId, r.instanceId);
    var k :| 0 <= k < |rows| && rows[k] == r;
    assert ps[k] == r.proof;
  }

  lemma SeededRowSpoils(c: Env, db: Database, r: LedgerRow, calls: seq<Call>)
    requires Lawful(c) && SoundLedger(c, db.ledger) && r in db.ledger && SeededStrict(r.proof)
    requires LawfulSigners(c, calls)
    ensures !ChainAccepted(c, ChainOf(DatabaseAfter(c, db, calls).ledger, r.tenantId, r.instanceId))
  {
    RunKeepsSound(c, db, calls);
    RowStays(db.ledger, DatabaseAfter(c, db, calls).ledger, r);
    SeededRowRefused(c, DatabaseAfter(c, db, calls).ledger, r);
  }

  lemma SeedIsStored(c: Env, s: Signer, a: Approvals, db: Database, t: string, q: Request, now: string)
    returns (r: LedgerRow)
    requires Lawful(c) && SignerLaw(c, s) && SoundLedger(c, db.ledger)
    requires q.mode == StrictDeterministic && q.seed.Some? && Record(c, s, a, db, t, q, now).1.Recorded?
    ensures
      var db' := Record(c, s, a, db, t, q, now).0;
      SoundLedger(c, db'.ledger) && r in db'.ledger
    ensures SeededStrict(r.proof) && r.tenantId == t && r.instanceId == q.instanceId
  {
    RecordKeepsSound(c, s, a, db, t, q, now);
    r := RowOf(t, Record(c, s, a, db, t, q, now).1.proof);
  }

  /**
    Once a strict request with a seed has been recorded, its chain is refused by
    `verify_chain`, then and after every later run of calls.
   */
  lemma SeedSpoilsTheChainForGood(
    c: Env, s: Signer, a: Approvals, db: Database, t: string, q: Request, now: string, calls: seq<Call>)
    requires Lawful(c) && SignerLaw(c, s) && SoundLedger(c, db.ledger)
    requires LawfulSigners(c, calls)
    requires q.mode == StrictDeterministic && q.seed.Some? && Record(c, s, a, db, t, q, now).1.Recorded?
    ensures
      var db' := Record(c, s, a, db, t, q, now).0;
      !ChainAccepted(c, ChainOf(DatabaseAfter(c, db', calls).ledger, t, q.instanceId))
  {
    var r := SeedIsStored(c, s, a, db, t, q, now);
    SeededRowSpoils(c, Record(c, s, a, db, t, q, now).0, r, calls);
  }

  // ---- A run that ends in a refused chain ----

  const APPROVED := Approvals({"model-1"}, {"agent-1"}, {"policy-1"})

  function SeededRequest(inputs: Bytes): Request {
    Request("loan-1", Decision("pending", "approved"), Governance("model-1", "agent-1", "policy-1"),
            "SCORE_ABOVE_THRESHOLD", "policy-1.rule-1", Some(inputs), [], None, Dict([]), StrictDeterministic, Some("42"), NoCalls)
  }

  lemma SeededBodyOk(c: Env, s: Signer, tip: Tip, now: string, inputs: Bytes, seed: Option<string>)
    requires Lawful(c)
    ensures BodyOk(c, Draft(c, s, SeededRequest(inputs).(seed := seed), tip, now, inputs, None))
  {
    HexIsHash(c, c.hash(inputs));
  }

  lemma BuildsAtGenesis(c: Env, s: Signer, a: Approvals, q: Request, now: string)
    requires Lawful(c) && Reliable(c, s) && IsRequestObject(q) && q.mode == StrictDeterministic && Admit(a, q).None?
    requires q.rawInputs.Some? && q.instanceId != "" && |now| >= 20 && now[|now| - 1] == 'Z'
    requires BodyOk(c, Draft(c, s, q, Tip(GENESIS_HEX, 1), now, q.rawInputs.value, None))
    ensures Build(c, s, q, Tip(GENESIS_HEX, 1), now).Recorded?
  {
    HexOfGenesis(GENESIS);
    HexIsHash(c, GENESIS);
    StrictBuildsIff(c, s, a, q, Tip(GENESIS_HEX, 1), now);
  }

  lemma SeededRequestBuilds(c: Env, s: Signer, now: string, inputs: Bytes, seed: Option<string>)
    requires Lawful(c) && Reliable(c, s) && |now| >= 20 && now[|now| - 1] == 'Z'
    ensures Admit(APPROVED, SeededRequest(inputs).(seed := seed)).None?
    ensures Build(c, s, SeededRequest(inputs).(seed := seed), Tip(GENESIS_HEX, 1), now).Recorded?
  {
    SeededBodyOk(c, s, Tip(GENESIS_HEX, 1), now, inputs, seed);
    BuildsAtGenesis(c, s, APPROVED, SeededRequest(inputs).(seed := seed), now);
  }

  /** From the empty database one call records a proof, and the chain it starts is refused. */
  lemma SeededRunIsRefused(c: Env, s: Signer, now: string, inputs: Bytes)
    requires Lawful(c) && SignerLaw(c, s) && Reliable(c, s) && |now| >= 20 && now[|now| - 1] == 'Z'
    ensures
      var q := SeededRequest(inputs);
      var (db, r) := Record(c, s, APPROVED, Database([], []), DEFAULT_TENANT, q, now);
      && r.Recorded? && db.ledger == [RowOf(DEFAULT_TENANT, r.proof)]
      && !ChainAccepted(c, ChainOf(db.ledger, DEFAULT_TENANT, q.instanceId))
  {
    var q, empty := SeededRequest(inputs), Database([], []);
    SeededRequestBuilds(c, s, now, inputs, q.seed);
    assert q == q.(seed := q.seed);
    var p := Build(c, s, q, Tip(GENESIS_HEX, 1), now).proof;
    BuildIsWellRecorded(c, s, APPROVED, q, Tip(GENESIS_HEX, 1), now);
    assert ReadTip(c, [], DEFAULT_TENANT, q.instanceId) == Some(Tip(GENESIS_HEX, 1));
    assert Append(empty, DEFAULT_TENANT, p).1.None?;
    RecordKeepsSound(c, s, APPROVED, empty, DEFAULT_TENANT, q, now);
    SeedSpoilsTheChainForGood(c, s, APPROVED, empty, DEFAULT_TENANT, q, now, []);
  }
}
