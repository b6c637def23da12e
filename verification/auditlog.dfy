/**
  The verification audit log: an append-only table with one numbered hash chain
  per tenant (provable_ai/audit_log.py).
 */
module AuditLog {
  import opened Prelude
  import opened TextEncoding
  import opened Sorting
  import opened Json
  import opened Canonical
  import opened HashChain
  import opened ChainedLog

  /** The thirteen hashed fields of a row. */
  datatype AuditEntry = AuditEntry(
    tenantId: string, traceId: string, instanceId: Option<string>, sequenceId: Option<int>,
    sequenceNum: int, proofId: Option<string>, verifiedAt: string, result: string,
    failureCode: Option<string>, failureMsg: Option<string>, keyId: Option<string>,
    governanceJson: Option<string>, recordedAt: string)

  /** `prev_chain_hash` is stored beside the hashed fields, not among them. */
  datatype Stored = Stored(entry: AuditEntry, prevChainHash: string)

  type Table = seq<Row<Stored>>

  /** What a call of `record` is given about one verification. */
  datatype Event = Event(
    tenantId: string, traceId: string, instanceId: Option<string>, sequenceId: Option<int>,
    proofId: Option<string>, verifiedAt: Option<string>, valid: bool, failureCode: Option<string>,
    failureMsg: Option<string>, keyId: Option<string>, governanceJson: Option<string>)

  // ---- Row content ----

  const ROW_KEYS: seq<string> :=
    ["tenant_id", "trace_id", "instance_id", "sequence_id", "sequence_num", "proof_id", "verified_at",
     "result", "failure_code", "failure_msg", "key_id", "governance_json", "recorded_at"]

  lemma RowKeysDistinct()
    ensures NoDuplicates(ROW_KEYS)
  {
  }

  function RowValues(e: AuditEntry): (r: seq<Value>)
    ensures |r| == 13 && forall i :: 0 <= i < |r| ==> Plain(r[i])
  {
    [Str(e.tenantId), Str(e.traceId), Text(e.instanceId), Number(e.sequenceId), Int(e.sequenceNum),
     Text(e.proofId), Str(e.verifiedAt), Str(e.result), Text(e.failureCode), Text(e.failureMsg),
     Text(e.keyId), Text(e.governanceJson), Str(e.recordedAt)]
  }

  function RowContent(e: AuditEntry): Bytes {
    RecordBytes(ROW_KEYS, RowValues(e), false)
  }

  lemma RowContentInjective(e: AuditEntry, f: AuditEntry)
    requires RowContent(e) == RowContent(f)
    ensures e == f
  {
    SameContentSameValues(e, f);
    SameValuesSameEntry(e, f);
  }

  lemma SameContentSameValues(e: AuditEntry, f: AuditEntry)
    requires RowContent(e) == RowContent(f)
    ensures RowValues(e) == RowValues(f)
  {
    RowBytesInjective(RowValues(e), RowValues(f));
  }

  lemma RowBytesInjective(xs: seq<Value>, ys: seq<Value>)
    requires |xs| == |ys| == 13 && forall i :: 0 <= i < 13 ==> Plain(xs[i]) && Plain(ys[i])
    requires RecordBytes(ROW_KEYS, xs, false) == RecordBytes(ROW_KEYS, ys, false)
    ensures xs == ys
  {
    RowKeysDistinct();
    RecordBytesInjective(ROW_KEYS, xs, ys, false);
  }

  lemma SameValuesSameEntry(e: AuditEntry, f: AuditEntry)
    requires RowValues(e) == RowValues(f)
    ensures e == f
  {
    var xs, ys := RowValues(e), RowValues(f);
    assert xs[0] == ys[0] && xs[1] == ys[1] && xs[2] == ys[2] && xs[3] == ys[3] && xs[4] == ys[4];
    assert xs[5] == ys[5] && xs[6] == ys[6] && xs[7] == ys[7] && xs[8] == ys[8] && xs[9] == ys[9];
    assert xs[10] == ys[10] && xs[11] == ys[11] && xs[12] == ys[12];
  }

  function ContentOf(e: Stored): Bytes { RowContent(e.entry) }
  function TenantOf(e: Stored): string { e.entry.tenantId }
  function NumberOf(e: Stored): int { e.entry.sequenceNum }
  function PrevOf(e: Stored): string { e.prevChainHash }

  function AuditSchema(): Schema<Stored> {
    Schema(ContentOf, TenantOf, NumberOf, PrevOf)
  }

  // ---- record ----

  /** The entry for an event; a missing or empty `verified_at` becomes the current time. */
  function EntryFor(e: Event, now: string, sequenceNum: int): AuditEntry {
    AuditEntry(e.tenantId, e.traceId, e.instanceId, e.sequenceId, sequenceNum, e.proofId,
               if e.verifiedAt.Some? && e.verifiedAt.value != "" then e.verifiedAt.value else now,
               if e.valid then "valid" else "invalid",
               e.failureCode, e.failureMsg, e.keyId, e.governanceJson, now)
  }

  /** The entry says what the event says. */
  predicate Tells(entry: AuditEntry, e: Event, now: string) {
    && entry.tenantId == e.tenantId && entry.traceId == e.traceId && entry.instanceId == e.instanceId
    && entry.sequenceId == e.sequenceId && entry.proofId == e.proofId && entry.keyId == e.keyId
    && entry.failureCode == e.failureCode && entry.failureMsg == e.failureMsg
    && entry.governanceJson == e.governanceJson && entry.recordedAt == now
    && (entry.result == "valid" <==> e.valid) && (entry.result == "invalid" <==> !e.valid)
    && entry.verifiedAt == (if e.verifiedAt.Some? && e.verifiedAt.value != "" then e.verifiedAt.value else now)
  }

  function Maker(e: Event, now: string): (string, int) -> Stored {
    (prev: string, n: int) => Stored(EntryFor(e, now, n), prev)
  }

  function RecordCall(e: Event, now: string): Insertion<Stored> {
    Insertion(e.tenantId, Maker(e, now))
  }

  datatype Call = Call(event: Event, now: string)

  /** The table after the given `record` calls on an empty log. */
  function LogAfter(h: HashFn, calls: seq<Call>): Table {
    Run(h, AuditSchema(), [], Insertions(calls))
  }

  function Insertions(calls: seq<Call>): (r: seq<Insertion<Stored>>)
    ensures |r| == |calls|
    ensures forall i :: 0 <= i < |calls| ==> r[i] == RecordCall(calls[i].event, calls[i].now)
  {
    seq(|calls|, i requires 0 <= i < |calls| => RecordCall(calls[i].event, calls[i].now))
  }

  /**
    Every run of `record` calls, successes and failures, interleaved across
    tenants, leaves every tenant with an intact chain numbered 1..n.
   */
  lemma EveryRunIsChained(h: HashFn, calls: seq<Call>)
    ensures forall t :: WellChained(h, AuditSchema(), LogAfter(h, calls), t)
    ensures |LogAfter(h, calls)| == |calls|
  {
    RunKeepsChains(h, AuditSchema(), [], Insertions(calls));
  }

  /** `verify_chain_at_block(k)` is settled once row k exists. */
  lemma BlockSettled(h: HashFn, calls: seq<Call>, more: seq<Call>, t: string, k: nat)
    requires k <= |TenantRows(AuditSchema(), LogAfter(h, calls), t)|
    ensures
      var s, rows := AuditSchema(), LogAfter(h, calls);
      var later := Run(h, s, rows, Insertions(more));
      && BlockRows(s, later, t, k) == BlockRows(s, rows, t, k)
      && Intact(h, Links(s, BlockRows(s, later, t, k)))
      && FinalHash(Links(s, BlockRows(s, later, t, k)))
         == Hex(Tip(h, Contents(Links(s, TenantRows(s, rows, t)))[..k]))
  {
    EveryRunIsChained(h, calls);
    BlockIsStable(h, AuditSchema(), LogAfter(h, calls), Insertions(more), t, k);
  }

  /**
    Two accepted chains that end in the same chain hash hold the same entries,
    or exhibit a collision or a preimage of the genesis value.
   */
  lemma AuditBinding(h: HashFn, a: Table, b: Table)
    requires Intact(h, Links(AuditSchema(), a)) && Intact(h, Links(AuditSchema(), b))
    requires FinalHash(Links(AuditSchema(), a)) == FinalHash(Links(AuditSchema(), b))
    ensures (|a| == |b| && forall i :: 0 <= i < |a| ==> a[i].entry.entry == b[i].entry.entry)
         || Compromised(h, Contents(Links(AuditSchema(), a)), Contents(Links(AuditSchema(), b)))
  {
    LogBinding(h, AuditSchema(), a, b);
    if |a| == |b| && forall i :: 0 <= i < |a| ==> ContentOf(a[i].entry) == ContentOf(b[i].entry) {
      forall i | 0 <= i < |a| ensures a[i].entry.entry == b[i].entry.entry {
        RowContentInjective(a[i].entry.entry, b[i].entry.entry);
      }
    }
  }

  // ---- The log object ----

  datatype BlockReport = BlockReport(
    valid: bool, chainHash: Option<string>, totalRows: nat, brokenAtSequence: Option<int>)

  /** Row k has the given number, the rows before it are intact, and it breaks the chain. */
  ghost predicate BrokenAtNumber(h: HashFn, block: Table, k: nat, number: int)
    requires k < |block|
  {
    && block[k].entry.entry.sequenceNum == number
    && Intact(h, Links(AuditSchema(), block[..k])) && !Intact(h, Links(AuditSchema(), block[..k + 1]))
  }

  class VerificationAuditLog {
    const h: HashFn
    var rows: Table

    /** The condition that every reachable log satisfies. */
    ghost predicate Valid()
      reads this
    {
      forall t :: WellChained(h, AuditSchema(), rows, t)
    }

    constructor (h: HashFn)
      ensures Valid() && this.h == h && rows == []
    {
      this.h := h;
      rows := [];
    }

    /** Appends one row for the event: the tenant's chain grows by it, every other chain stays. */
    method Record(e: Event, now: string) returns (row: Row<Stored>)
      requires Valid()
      modifies this
      ensures Valid()
      ensures rows == old(rows) + [row]
      ensures rows == Run(h, AuditSchema(), old(rows), [RecordCall(e, now)])
      ensures Tells(row.entry.entry, e, now)
      ensures row.entry.entry.sequenceNum == |TenantRows(AuditSchema(), old(rows), e.tenantId)| + 1
    {
      assert Faithful(AuditSchema(), RecordCall(e, now));
      InsertKeepsAll(h, AuditSchema(), rows, RecordCall(e, now));
      row := NextRow(h, AuditSchema(), rows, e.tenantId, Maker(e, now)).value;
      rows := rows + [row];
    }

    /** Accepts exactly the intact chains and otherwise names the first bad row. */
    method VerifyChain(t: string) returns (r: ChainReport)
      ensures Reports(h, AuditSchema(), TenantRows(AuditSchema(), rows, t), r)
    {
      r := VerifyRows(h, AuditSchema(), TenantRows(AuditSchema(), rows, t));
    }

    /** The chain state at a block: intact or not, and its hash if intact. */
    method VerifyChainAtBlock(t: string, sequenceNum: int) returns (r: BlockReport)
      ensures
        var block := Links(AuditSchema(), BlockRows(AuditSchema(), rows, t, sequenceNum));
        && r.totalRows == |block|
        && (r.valid <==> Intact(h, block))
        && (r.valid <==> r.brokenAtSequence.None?)
        && (!r.valid ==> exists k :: 0 <= k < |block| && BrokenAtNumber(
              h, BlockRows(AuditSchema(), rows, t, sequenceNum), k, r.brokenAtSequence.value))
        && r.chainHash == if r.valid then Some(FinalHash(block)) else None
    {
      var block := BlockRows(AuditSchema(), rows, t, sequenceNum);
      var links := Links(AuditSchema(), block);
      var broken := WalkChain(h, links);
      if broken.None? {
        return BlockReport(true, Some(FinalHash(links)), |block|, None);
      }
      var k := broken.value;
      assert links[..k] == Links(AuditSchema(), block[..k]) && links[..k + 1] == Links(AuditSchema(), block[..k + 1]);
      assert BrokenAtNumber(h, block, k, block[k].entry.entry.sequenceNum);
      return BlockReport(false, None, |block|, Some(block[k].entry.entry.sequenceNum));
    }
  }
}
