/**
  Batch exports of a tenant's ledger, and how the server's and the standalone
  verifier judge them (provable_ai/audit_batch.py, verify/verify_batch.py).
 */
module BatchExport {
  import opened Prelude
  import opened TextEncoding
  import opened Sorting
  import opened Tables
  import opened Merkle
  import opened AuditBatch
  import opened ProofModel
  import opened Storage
  import Engine

  // ---- _fetch_proofs ----

  /** The optional date bounds; an empty text is no bound. */
  predicate InRange(from: Option<string>, to: Option<string>, timestamp: string) {
    && (from.Some? && from.value != "" ==> LexLe(from.value, timestamp))
    && (to.Some? && to.value != "" ==> LexLe(timestamp, to.value))
  }

  function OfExport(t: string, from: Option<string>, to: Option<string>): LedgerRow -> bool {
    (r: LedgerRow) => r.tenantId == t && InRange(from, to, r.proof.ledger.timestamp)
  }

  /** ORDER BY instance_id, sequence_id. */
  function ExportLe(a: LedgerRow, b: LedgerRow): bool {
    if a.instanceId != b.instanceId then LexLe(a.instanceId, b.instanceId) else a.sequenceId <= b.sequenceId
  }

  function Selected(ledger: seq<LedgerRow>, t: string, from: Option<string>, to: Option<string>): seq<LedgerRow> {
    Sort(ExportLe, Filter(OfExport(t, from, to), ledger))
  }

  /** The selection holds exactly the tenant's rows in the range, as often as the ledger does. */
  lemma SelectedRows(ledger: seq<LedgerRow>, t: string, from: Option<string>, to: Option<string>)
    ensures multiset(Selected(ledger, t, from, to)) == multiset(Filter(OfExport(t, from, to), ledger))
    ensures forall r :: r in Selected(ledger, t, from, to) <==>
      r in ledger && r.tenantId == t && InRange(from, to, r.proof.ledger.timestamp)
  {
    SortPermutes(ExportLe, Filter(OfExport(t, from, to), ledger));
    SortMembers(ExportLe, Filter(OfExport(t, from, to), ledger));
    FilterMembers(OfExport(t, from, to), ledger);
  }

  // ---- build_batch_export ----

  /** `_derive_proof_id`. */
  function DerivedId(h: HashFn, p: Proof): string {
    Hex(h(Utf8(p.ledger.currentHash + ":" + Decimal(p.ledger.sequenceId))))
  }

  /** A stored proof carries no id: it is computed, not dumped. */
  function Exported(h: HashFn): LedgerRow -> BatchProof {
    (r: LedgerRow) => BatchProof(None, DerivedId(h, r.proof))
  }

  function ExportedProofs(h: HashFn, rows: seq<LedgerRow>): seq<BatchProof> {
    Map(Exported(h), rows)
  }

  /** The ids under which the exported proofs enter the tree. */
  function ExportedIds(h: HashFn, rows: seq<LedgerRow>): (r: seq<string>)
    ensures |r| == |rows|
    ensures forall i :: 0 <= i < |rows| ==> r[i] == DerivedId(h, rows[i].proof)
  {
    Map(ServerId, ExportedProofs(h, rows))
  }

  /** `None` when the signer raises. */
  method BuildBatchExport(c: Env, s: Engine.Signer, ledger: seq<LedgerRow>, t: string, from: Option<string>, to: Option<string>)
    returns (b: Option<Batch>)
    ensures b.Some? <==> s.sign(MerkleRoot(c.hash, ExportedIds(c.hash, Selected(ledger, t, from, to)))).Some?
    ensures b.Some? ==> IsExport(c, s, Selected(ledger, t, from, to), b.value)
  {
    var proofs := ExportedProofs(c.hash, Selected(ledger, t, from, to));
    var root, levels := BuildMerkleTree(c.hash, Map(ServerId, proofs));
    var signature := s.sign(root);
    if signature.None? {
      return None;
    }
    return Some(Batch(proofs, Hex(root), signature.value, s.publicKey));
  }

  /** The batch holds the given rows' proofs under the signed root of their derived ids. */
  ghost predicate IsExport(c: Env, s: Engine.Signer, rows: seq<LedgerRow>, b: Batch) {
    && b.proofs == ExportedProofs(c.hash, rows)
    && b.merkleRoot == Hex(MerkleRoot(c.hash, ExportedIds(c.hash, rows)))
    && b.publicKey == s.publicKey
    && s.sign(MerkleRoot(c.hash, ExportedIds(c.hash, rows))) == Some(b.signature)
  }

  // ---- How an export is judged ----

  /** The server verifier accepts every export. */
  lemma ServerAcceptsExport(c: Env, s: Engine.Signer, rows: seq<LedgerRow>, b: Batch)
    requires Engine.SignerLaw(c, s) && IsExport(c, s, rows, b)
    ensures ServerAccepts(c.hash, c.verify, b)
  {
    assert ServerIds(b) == ExportedIds(c.hash, rows);
  }

  /** The standalone verifier accepts an export exactly if its root is the genesis value. */
  lemma StandaloneAcceptsExportIff(c: Env, s: Engine.Signer, rows: seq<LedgerRow>, b: Batch)
    requires Engine.SignerLaw(c, s) && IsExport(c, s, rows, b)
    ensures StandaloneIds(b) == []
    ensures StandaloneAccepts(c.hash, c.verify, b) <==> MerkleRoot(c.hash, ExportedIds(c.hash, rows)) == GENESIS
  {
    FilterNone(CarriesId, b.proofs);
    assert StandaloneIds(b) == [];
    if Hex(MerkleRoot(c.hash, ExportedIds(c.hash, rows))) == Hex(GENESIS) {
      HexInjective(MerkleRoot(c.hash, ExportedIds(c.hash, rows)), GENESIS);
    }
  }

  /**
    So the standalone verifier accepts exactly the exports of an empty selection,
    unless a string hashed for the export's own tree has the genesis digest.
   */
  lemma StandaloneAcceptsOnlyEmptyExports(c: Env, s: Engine.Signer, rows: seq<LedgerRow>, b: Batch)
    requires Engine.SignerLaw(c, s) && IsExport(c, s, rows, b)
    ensures (StandaloneAccepts(c.hash, c.verify, b) <==> rows == [])
         || HitsGenesis(c.hash, RootInputs(c.hash, ExportedIds(c.hash, rows)))
  {
    StandaloneAcceptsExportIff(c, s, rows, b);
    if MerkleRoot(c.hash, ExportedIds(c.hash, rows)) == GENESIS {
      GenesisRootIsEmpty(c.hash, ExportedIds(c.hash, rows));
    }
  }

  // ---- Batches of any kind ----

  /**
    The two verifiers agree on a batch that the server accepts, and that has a
    key and a signature, exactly if the ids it carries have the root of all ids.
   */
  lemma TwinsAgreeIff(h: HashFn, verify: VerifyFn, b: Batch)
    requires ServerAccepts(h, verify, b) && b.signature != "" && b.publicKey != ""
    ensures StandaloneAccepts(h, verify, b) <==> MerkleRoot(h, StandaloneIds(b)) == MerkleRoot(h, ServerIds(b))
  {
    if Hex(MerkleRoot(h, StandaloneIds(b))) == Hex(MerkleRoot(h, ServerIds(b))) {
      HexInjective(MerkleRoot(h, StandaloneIds(b)), MerkleRoot(h, ServerIds(b)));
    }
  }

  /** In terms of the ids: exactly if leaving out the uncarried ids pads out to the same tree. */
  lemma TwinsAgreeIffSameTree(h: HashFn, verify: VerifyFn, b: Batch)
    requires ServerAccepts(h, verify, b) && b.signature != "" && b.publicKey != ""
    requires StandaloneIds(b) != [] && !Broken(h, StandaloneIds(b), ServerIds(b))
    ensures StandaloneAccepts(h, verify, b) <==> SameTree(StandaloneIds(b), ServerIds(b))
  {
    CarriedAreServed(b);
    assert StandaloneIds(b)[0] in StandaloneIds(b);
    assert ServerIds(b) != [];
    TwinsAgreeIff(h, verify, b);
    SameRootIffSameTree(h, StandaloneIds(b), ServerIds(b));
  }

  lemma CarriedAreServed(b: Batch)
    ensures forall id :: id in StandaloneIds(b) ==> id in ServerIds(b)
  {
    FilterMembers(CarriesId, b.proofs);
    var carried := Filter(CarriesId, b.proofs);
    forall id | id in StandaloneIds(b) ensures id in ServerIds(b) {
      var i :| 0 <= i < |carried| && StandaloneIds(b)[i] == id;
      assert carried[i] in b.proofs;
      var j :| 0 <= j < |b.proofs| && b.proofs[j] == carried[i];
      assert ServerIds(b)[j] == id;
    }
  }

  /** A proof without an id can only go unnoticed if another proof carries the id it would have. */
  lemma LeftOutIdIsRepeated(h: HashFn, verify: VerifyFn, b: Batch, i: nat)
    requires ServerAccepts(h, verify, b) && StandaloneAccepts(h, verify, b)
    requires i < |b.proofs| && !CarriesId(b.proofs[i])
    ensures
      || b.proofs[i].derivedId in StandaloneIds(b)
      || HitsGenesis(h, RootInputs(h, ServerIds(b)))
      || (StandaloneIds(b) != [] && Broken(h, StandaloneIds(b), ServerIds(b)))
  {
    assert ServerIds(b)[i] == b.proofs[i].derivedId;
    assert ServerIds(b) != [] && b.proofs[i].derivedId in ServerIds(b);
    TwinsAgreeIff(h, verify, b);
    if StandaloneIds(b) == [] {
      GenesisRootIsEmpty(h, ServerIds(b));
    } else if !Broken(h, StandaloneIds(b), ServerIds(b)) {
      SameRootIffSameTree(h, StandaloneIds(b), ServerIds(b));
      SameTreeSameRoot(h, StandaloneIds(b), ServerIds(b));
    }
  }
}
