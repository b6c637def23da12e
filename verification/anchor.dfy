/**
  The anchor store: chain hashes anchored in a table that is itself hash
  chained per tenant (provable_ai/audit_anchor.py), and the standalone check of
  that table (verify/verify_anchor.py).
 */
module AnchorStore {
  import opened Prelude
  import opened Sorting
  import opened Json
  import opened Canonical
  import opened HashChain
  import opened ChainedLog

  /** The six hashed fields of an anchor. */
  datatype Anchor = Anchor(
    anchorId: string, tenantId: string, chainHash: string, anchoredAt: string, anchorSeq: int,
    rfc3161Json: Option<string>)

  /** The list of backends and the previous hash are stored but not hashed. */
  datatype Stored = Stored(anchor: Anchor, backends: seq<string>, prevAnchorHash: string)

  type Table = seq<Row<Stored>>

  const ROW_KEYS: seq<string> := ["anchor_id", "tenant_id", "chain_hash", "anchored_at", "anchor_seq", "rfc3161"]

  lemma RowKeysDistinct()
    ensures NoDuplicates(ROW_KEYS)
  {
  }

  function RowValues(a: Anchor): seq<Value> {
    [Str(a.anchorId), Str(a.tenantId), Str(a.chainHash), Str(a.anchoredAt), Int(a.anchorSeq), Text(a.rfc3161Json)]
  }

  function RowContent(a: Anchor): Bytes {
    RecordBytes(ROW_KEYS, RowValues(a), true)
  }

  lemma RowContentInjective(a: Anchor, b: Anchor)
    requires RowContent(a) == RowContent(b)
    ensures a == b
  {
    RowKeysDistinct();
    RecordBytesInjective(ROW_KEYS, RowValues(a), RowValues(b), true);
    var xs, ys := RowValues(a), RowValues(b);
    assert xs[0] == ys[0] && xs[1] == ys[1] && xs[2] == ys[2] && xs[3] == ys[3] && xs[4] == ys[4] && xs[5] == ys[5];
  }

  function ContentOf(e: Stored): Bytes { RowContent(e.anchor) }
  function TenantOf(e: Stored): string { e.anchor.tenantId }
  function NumberOf(e: Stored): int { e.anchor.anchorSeq }
  function PrevOf(e: Stored): string { e.prevAnchorHash }

  function AnchorSchema(): Schema<Stored> {
    Schema(ContentOf, TenantOf, NumberOf, PrevOf)
  }

  /** Everything the outside world contributes to one call of `anchor`. */
  datatype Request = Request(
    tenantId: string, chainHash: string, now: string, anchorId: string,
    rfc3161Json: Option<string>, granted: bool, writtenToS3: bool)

  /** `sorted(set(backends))`. */
  function Backends(q: Request): (r: seq<string>)
    ensures forall b :: b in r <==>
      b == "local" || b == "stdout" || (b == "rfc3161" && q.granted) || (b == "s3" && q.writtenToS3)
    ensures forall i, j :: 0 <= i < j < |r| ==> LexLe(r[i], r[j]) && r[i] != r[j]
  {
    ["local"] + (if q.granted then ["rfc3161"] else []) + (if q.writtenToS3 then ["s3"] else []) + ["stdout"]
  }

  function Maker(q: Request): (string, int) -> Stored {
    (prev: string, n: int) =>
      Stored(Anchor(q.anchorId, q.tenantId, q.chainHash, q.now, n, q.rfc3161Json), Backends(q), prev)
  }

  function AnchorCall(q: Request): Insertion<Stored> {
    Insertion(q.tenantId, Maker(q))
  }

  /** The UNIQUE constraint on `anchor_id` would reject the insert. */
  predicate Taken(rows: Table, anchorId: string) {
    exists i :: 0 <= i < |rows| && rows[i].entry.anchor.anchorId == anchorId
  }

  /** The table after a call. */
  function Anchored(h: HashFn, rows: Table, q: Request): Table {
    if Taken(rows, q.anchorId) then rows else Run(h, AnchorSchema(), rows, [AnchorCall(q)])
  }

  function RunAnchors(h: HashFn, rows: Table, qs: seq<Request>): Table
    decreases qs
  {
    if qs == [] then rows else RunAnchors(h, Anchored(h, rows, qs[0]), qs[1..])
  }

  lemma AnchorKeepsChains(h: HashFn, rows: Table, q: Request)
    requires forall t :: WellChained(h, AnchorSchema(), rows, t)
    ensures forall t :: WellChained(h, AnchorSchema(), Anchored(h, rows, q), t)
    ensures rows <= Anchored(h, rows, q)
  {
    assert Faithful(AnchorSchema(), AnchorCall(q));
    RunKeepsChains(h, AnchorSchema(), rows, [AnchorCall(q)]);
  }

  /** Every run of `anchor` calls leaves every tenant with an intact chain numbered 1..n. */
  lemma {:induction false} EveryRunIsChained(h: HashFn, rows: Table, qs: seq<Request>)
    requires forall t :: WellChained(h, AnchorSchema(), rows, t)
    ensures forall t :: WellChained(h, AnchorSchema(), RunAnchors(h, rows, qs), t)
    ensures rows <= RunAnchors(h, rows, qs)
    decreases qs
  {
    if qs != [] {
      AnchorKeepsChains(h, rows, qs[0]);
      EveryRunIsChained(h, Anchored(h, rows, qs[0]), qs[1..]);
    }
  }

  /**
    Two accepted anchor chains that end in the same hash hold the same anchors,
    or exhibit a collision or a preimage of the genesis value. Nothing is
    claimed about the backends, which are not hashed.
   */
  lemma AnchorBinding(h: HashFn, a: Table, b: Table)
    requires Intact(h, Links(AnchorSchema(), a)) && Intact(h, Links(AnchorSchema(), b))
    requires FinalHash(Links(AnchorSchema(), a)) == FinalHash(Links(AnchorSchema(), b))
    ensures (|a| == |b| && forall i :: 0 <= i < |a| ==> a[i].entry.anchor == b[i].entry.anchor)
         || Compromised(h, Contents(Links(AnchorSchema(), a)), Contents(Links(AnchorSchema(), b)))
  {
    LogBinding(h, AnchorSchema(), a, b);
    if |a| == |b| && forall i :: 0 <= i < |a| ==> ContentOf(a[i].entry) == ContentOf(b[i].entry) {
      forall i | 0 <= i < |a| ensures a[i].entry.anchor == b[i].entry.anchor {
        RowContentInjective(a[i].entry.anchor, b[i].entry.anchor);
      }
    }
  }

  class AuditAnchorStore {
    const h: HashFn
    var rows: Table

    ghost predicate Valid()
      reads this
    {
      forall t :: WellChained(h, AnchorSchema(), rows, t)
    }

    constructor (h: HashFn)
      ensures Valid() && this.h == h && rows == []
    {
      this.h := h;
      rows := [];
    }

    /** Appends the anchor, or raises IntegrityError for a used id and appends nothing. */
    method AnchorHash(q: Request) returns (ok: bool)
      requires Valid()
      modifies this
      ensures Valid()
      ensures ok <==> !Taken(old(rows), q.anchorId)
      ensures rows == Anchored(h, old(rows), q)
      ensures ok ==>
        && |rows| == |old(rows)| + 1 && rows[..|old(rows)|] == old(rows)
        && rows[|old(rows)|].entry.anchor ==
           Anchor(q.anchorId, q.tenantId, q.chainHash, q.now,
                  |TenantRows(AnchorSchema(), old(rows), q.tenantId)| + 1, q.rfc3161Json)
        && rows[|old(rows)|].entry.backends == Backends(q)
    {
      if Taken(rows, q.anchorId) {
        return false;
      }
      assert Faithful(AnchorSchema(), AnchorCall(q));
      InsertKeepsAll(h, AnchorSchema(), rows, AnchorCall(q));
      var row := NextRow(h, AnchorSchema(), rows, q.tenantId, Maker(q)).value;
      rows := rows + [row];
      return true;
    }

    method VerifyAnchorChain(t: string) returns (r: ChainReport)
      ensures Reports(h, AnchorSchema(), TenantRows(AnchorSchema(), rows, t), r)
    {
      r := VerifyRows(h, AnchorSchema(), TenantRows(AnchorSchema(), rows, t));
    }
  }

  datatype StandaloneReport = StandaloneReport(report: ChainReport, finalHash: Option<string>)

  /**
    The standalone check reads the table itself, which may be missing. On a
    table that is there it reaches the verdict of the store, and a valid chain
    is reported with its final hash.
   */
  method VerifyAnchorChainStandalone(h: HashFn, db: Option<Table>, t: string) returns (r: StandaloneReport)
    ensures db.None? ==> !r.report.valid && r.report.total == 0 && r.finalHash.None?
    ensures db.Some? ==>
      var mine := TenantRows(AnchorSchema(), db.value, t);
      && Reports(h, AnchorSchema(), mine, r.report)
      && r.finalHash == if r.report.valid && mine != [] then Some(FinalHash(Links(AnchorSchema(), mine))) else None
  {
    if db.None? {
      return StandaloneReport(ChainReport(false, 0, None), None);
    }
    var mine := TenantRows(AnchorSchema(), db.value, t);
    var report := VerifyRows(h, AnchorSchema(), mine);
    var final := if report.valid && mine != [] then Some(FinalHash(Links(AnchorSchema(), mine))) else None;
    return StandaloneReport(report, final);
  }
}
