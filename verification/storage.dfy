/**
  The ledger and instance tables with their append rules
  (provable_ai/storage.py).
 */
module Storage {
  import opened Prelude
  import opened TextEncoding
  import opened Sorting
  import opened Tables
  import opened ProofModel

  /** A ledger row: the indexed columns, and the proof kept in `proof_json`. */
  datatype LedgerRow = LedgerRow(
    tenantId: string, instanceId: string, sequenceId: int, previousHash: string, currentHash: string,
    signature: string, proof: Proof)

  datatype InstanceRow = InstanceRow(tenantId: string, instanceId: string, frozen: bool)

  datatype Database = Database(ledger: seq<LedgerRow>, instances: seq<InstanceRow>)

  datatype StorageError =
    | SigningFailed | CrossTenant | DuplicateSequenceId | SequenceGapFound | LinkBroken | IntegrityError

  // ---- Queries ----

  function OfChain(t: string, i: string): LedgerRow -> bool {
    (r: LedgerRow) => r.tenantId == t && r.instanceId == i
  }

  function SequenceLe(a: LedgerRow, b: LedgerRow): bool {
    a.sequenceId <= b.sequenceId
  }

  /** The rows of one (tenant, instance), in insertion order. */
  function Rows(ledger: seq<LedgerRow>, t: string, i: string): seq<LedgerRow> {
    Filter(OfChain(t, i), ledger)
  }

  /** `get_ledger_chain`: the same rows ordered by sequence id. */
  function LedgerChain(ledger: seq<LedgerRow>, t: string, i: string): seq<LedgerRow> {
    Sort(SequenceLe, Rows(ledger, t, i))
  }

  /** The row with the largest sequence id. */
  function Latest(ledger: seq<LedgerRow>, t: string, i: string): Option<LedgerRow> {
    var chain := LedgerChain(ledger, t, i);
    if chain == [] then None else Some(chain[|chain| - 1])
  }

  /** The link and position that the next row of a chain must have. */
  function ExpectedPrev(ledger: seq<LedgerRow>, t: string, i: string): string {
    var last := Latest(ledger, t, i);
    if last.None? then GENESIS_HEX else last.value.currentHash
  }

  function ExpectedSeq(ledger: seq<LedgerRow>, t: string, i: string): int {
    var last := Latest(ledger, t, i);
    if last.None? then 1 else last.value.sequenceId + 1
  }

  // ---- Checks and constraints ----

  /** `_validate_chain_integrity`. */
  function ValidateChain(ledger: seq<LedgerRow>, r: LedgerRow): Option<StorageError> {
    if exists k :: 0 <= k < |ledger| && ledger[k].instanceId == r.instanceId && ledger[k].tenantId != r.tenantId
    then Some(CrossTenant)
    else if r.sequenceId < ExpectedSeq(ledger, r.tenantId, r.instanceId) then Some(DuplicateSequenceId)
    else if r.sequenceId > ExpectedSeq(ledger, r.tenantId, r.instanceId) then Some(SequenceGapFound)
    else if r.previousHash != ExpectedPrev(ledger, r.tenantId, r.instanceId) then Some(LinkBroken)
    else None
  }

  /** The two UNIQUE indexes and the CHECK constraints admit the row. */
  predicate Insertable(ledger: seq<LedgerRow>, r: LedgerRow) {
    && (forall k :: 0 <= k < |ledger| && ledger[k].tenantId == r.tenantId && ledger[k].instanceId == r.instanceId ==>
          ledger[k].sequenceId != r.sequenceId && ledger[k].currentHash != r.currentHash)
    && |r.currentHash| == 64 && |r.signature| == 128 && r.sequenceId >= 0
  }

  /** `_ensure_instance`: INSERT OR IGNORE against the unique instance id. */
  function EnsureInstance(instances: seq<InstanceRow>, t: string, i: string): seq<InstanceRow> {
    if exists k :: 0 <= k < |instances| && instances[k].instanceId == i then instances
    else instances + [InstanceRow(t, i, false)]
  }

  /** The insert itself; a violated constraint rolls back the instance row too. */
  function InsertRow(db: Database, r: LedgerRow): (Database, Option<StorageError>) {
    if Insertable(db.ledger, r)
    then (Database(db.ledger + [r], EnsureInstance(db.instances, r.tenantId, r.instanceId)), None)
    else (db, Some(IntegrityError))
  }

  function RowOf(t: string, p: Proof): LedgerRow {
    LedgerRow(t, p.instanceId, p.ledger.sequenceId, p.ledger.previousHash, p.ledger.currentHash, p.signature.value, p)
  }

  /** `append_ledger_entry`, uninterrupted. */
  function Append(db: Database, t: string, p: Proof): (Database, Option<StorageError>) {
    var r := RowOf(t, p);
    if |r.signature| != 128 then (db, Some(SigningFailed))
    else if ValidateChain(db.ledger, r).Some? then (db, ValidateChain(db.ledger, r))
    else InsertRow(db, r)
  }

  // ---- What every reachable ledger satisfies ----

  /** Row k of a chain has position k + 1 and names its predecessor's hash. */
  ghost predicate PlacedAt(rows: seq<LedgerRow>, k: nat)
    requires k < |rows|
  {
    rows[k].sequenceId == k + 1 && rows[k].previousHash == (if k == 0 then GENESIS_HEX else rows[k - 1].currentHash)
  }

  /** Contiguous from 1, genesis-rooted and hash-linked, in insertion order. */
  ghost predicate Linked(rows: seq<LedgerRow>) {
    forall k :: 0 <= k < |rows| ==> PlacedAt(rows, k)
  }

  lemma LinkedIsSorted(rows: seq<LedgerRow>)
    requires Linked(rows)
    ensures Sort(SequenceLe, rows) == rows
  {
    forall i, j | 0 <= i < j < |rows| ensures SequenceLe(rows[i], rows[j]) {
      assert PlacedAt(rows, i) && PlacedAt(rows, j);
    }
    SortFixesSorted(SequenceLe, rows);
  }

  /** On a linked chain the expected link and position are those of the last inserted row. */
  lemma ExpectedNext(ledger: seq<LedgerRow>, t: string, i: string)
    requires Linked(Rows(ledger, t, i))
    ensures
      var rows := Rows(ledger, t, i);
      && LedgerChain(ledger, t, i) == rows
      && ExpectedSeq(ledger, t, i) == |rows| + 1
      && ExpectedPrev(ledger, t, i) == if rows == [] then GENESIS_HEX else rows[|rows| - 1].currentHash
  {
    var rows := Rows(ledger, t, i);
    LinkedIsSorted(rows);
    if rows != [] { assert PlacedAt(rows, |rows| - 1); }
  }

  lemma LinkedAppend(rows: seq<LedgerRow>, r: LedgerRow)
    requires Linked(rows) && r.sequenceId == |rows| + 1
    requires r.previousHash == if rows == [] then GENESIS_HEX else rows[|rows| - 1].currentHash
    ensures Linked(rows + [r])
  {
    forall k | 0 <= k < |rows| + 1 ensures PlacedAt(rows + [r], k) {
      if k < |rows| { assert PlacedAt(rows, k); }
    }
  }

  lemma RowsAppend(ledger: seq<LedgerRow>, r: LedgerRow, t: string, i: string)
    ensures Rows(ledger + [r], t, i) ==
      if r.tenantId == t && r.instanceId == i then Rows(ledger, t, i) + [r] else Rows(ledger, t, i)
  {
    FilterAppend(OfChain(t, i), ledger, r);
  }

  /** Members of a chain are rows of the table. */
  lemma RowsInLedger(ledger: seq<LedgerRow>, t: string, i: string, k: nat)
    requires k < |Rows(ledger, t, i)|
    ensures exists j :: 0 <= j < |ledger| && ledger[j] == Rows(ledger, t, i)[k]
    ensures Rows(ledger, t, i)[k].tenantId == t && Rows(ledger, t, i)[k].instanceId == i
  {
    FilterMembers(OfChain(t, i), ledger);
    assert Rows(ledger, t, i)[k] in Rows(ledger, t, i);
  }

  /**
    Why the UNIQUE index makes a stale writer harmless: a row whose position was
    free and right at some earlier time can only be inserted if it still is.
   */
  lemma InsertableIsNext(ledger: seq<LedgerRow>, r: LedgerRow)
    requires Linked(Rows(ledger, r.tenantId, r.instanceId)) && Insertable(ledger, r)
    requires 1 <= r.sequenceId <= |Rows(ledger, r.tenantId, r.instanceId)| + 1
    ensures r.sequenceId == |Rows(ledger, r.tenantId, r.instanceId)| + 1
  {
    var rows := Rows(ledger, r.tenantId, r.instanceId);
    if r.sequenceId <= |rows| {
      var k := r.sequenceId - 1;
      assert PlacedAt(rows, k);
      RowsInLedger(ledger, r.tenantId, r.instanceId, k);
    }
  }

  /** No instance appears under two tenants. */
  ghost predicate Isolated(ledger: seq<LedgerRow>) {
    forall j, k :: 0 <= j < |ledger| && 0 <= k < |ledger| && ledger[j].instanceId == ledger[k].instanceId ==>
      ledger[j].tenantId == ledger[k].tenantId
  }

  // ---- The storage object ----

  class SQLiteStorage {
    var db: Database

    constructor ()
      ensures db == Database([], [])
    {
      db := Database([], []);
    }

    /** Validates, ensures the instance row, inserts; on any error nothing changes. */
    method AppendLedgerEntry(t: string, p: Proof) returns (e: Option<StorageError>)
      modifies this
      ensures (db, e) == Append(old(db), t, p)
      ensures e.Some? ==> db == old(db)
      ensures e.None? ==> db.ledger == old(db.ledger) + [RowOf(t, p)]
    {
      if |p.signature.value| != 128 {
        return Some(SigningFailed);
      }
      var r := RowOf(t, p);
      e := ValidateChain(db.ledger, r);
      if e.Some? {
        return;
      }
      if !Insertable(db.ledger, r) {
        return Some(IntegrityError);
      }
      db := Database(db.ledger + [r], EnsureInstance(db.instances, t, p.instanceId));
      return None;
    }

    /**
      Freezes exactly the named instance, if it has a row; every row stays where
      it is, and the ledger is untouched.
     */
    method FreezeInstance(t: string, i: string)
      modifies this
      ensures db == Freeze(old(db), t, i)
      ensures db.ledger == old(db.ledger) && |db.instances| == |old(db.instances)|
      ensures forall k :: 0 <= k < |db.instances| ==>
        && db.instances[k].tenantId == old(db.instances)[k].tenantId
        && db.instances[k].instanceId == old(db.instances)[k].instanceId
        && db.instances[k].frozen ==
             (old(db.instances)[k].frozen || (db.instances[k].tenantId == t && db.instances[k].instanceId == i))
      ensures forall t', i' :: Frozen(db, t', i') <==>
        Frozen(old(db), t', i') || (t' == t && i' == i && HasInstance(old(db), t, i))
    {
      forall t', i' ensures Frozen(Freeze(db, t, i), t', i') <==>
        Frozen(db, t', i') || (t' == t && i' == i && HasInstance(db, t, i)) {
        FreezeIsExact(db, t, i, t', i');
      }
      db := Freeze(db, t, i);
    }
  }

  function Freeze(db: Database, t: string, i: string): Database {
    db.(instances := seq(|db.instances|, k requires 0 <= k < |db.instances| =>
          var x := db.instances[k];
          if x.tenantId == t && x.instanceId == i then x.(frozen := true) else x))
  }

  /** `get_instance(...)["frozen"]`, false when there is no row. */
  predicate Frozen(db: Database, t: string, i: string) {
    exists k :: 0 <= k < |db.instances| && db.instances[k] == InstanceRow(t, i, true)
  }

  predicate HasInstance(db: Database, t: string, i: string) {
    exists k :: 0 <= k < |db.instances| && db.instances[k].tenantId == t && db.instances[k].instanceId == i
  }

  /** Freezing freezes the named instance if it has a row, and no other; it adds and removes no row. */
  lemma FreezeIsExact(db: Database, t: string, i: string, t': string, i': string)
    ensures Frozen(Freeze(db, t, i), t', i') <==> Frozen(db, t', i') || (t' == t && i' == i && HasInstance(db, t, i))
    ensures HasInstance(Freeze(db, t, i), t', i') <==> HasInstance(db, t', i')
    ensures Freeze(db, t, i).ledger == db.ledger
  {
    var db' := Freeze(db, t, i);
    assert forall k :: 0 <= k < |db.instances| ==>
      db'.instances[k].tenantId == db.instances[k].tenantId && db'.instances[k].instanceId == db.instances[k].instanceId;
    if Frozen(db, t', i') {
      var k :| 0 <= k < |db.instances| && db.instances[k] == InstanceRow(t', i', true);
      assert db'.instances[k] == InstanceRow(t', i', true);
    }
    if t' == t && i' == i && HasInstance(db, t, i) {
      var k :| 0 <= k < |db.instances| && db.instances[k].tenantId == t && db.instances[k].instanceId == i;
      assert db'.instances[k] == InstanceRow(t, i, true);
    }
  }
}
