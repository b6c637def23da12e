/**
  The key registry: an append-only, hash-chained history of each tenant's
  signing keys (provable_ai/audit_keyregistry.py).
 */
module KeyRegistry {
  import opened Prelude
  import opened Sorting
  import opened Tables
  import opened Json
  import opened Canonical
  import opened HashChain
  import opened ChainedLog

  datatype Status = Active | Retired

  datatype KeyEntry = KeyEntry(
    keyId: string, tenantId: string, publicKey: string, algorithm: string, source: string, status: Status,
    registeredAt: string, retiredAt: Option<string>, supersededBy: Option<string>, notes: Option<string>)

  type Table = seq<Row<KeyEntry>>

  // ---- Row content ----

  const ROW_KEYS: seq<string> :=
    ["key_id", "tenant_id", "public_key", "algorithm", "source", "status",
     "registered_at", "retired_at", "superseded_by", "notes"]

  lemma RowKeysDistinct()
    ensures NoDuplicates(ROW_KEYS)
  {
  }

  function RowValues(e: KeyEntry): seq<Value> {
    [Str(e.keyId), Str(e.tenantId), Str(e.publicKey), Str(e.algorithm), Str(e.source),
     Str(if e.status == Active then "active" else "retired"), Str(e.registeredAt),
     Text(e.retiredAt), Text(e.supersededBy), Text(e.notes)]
  }

  /** `_row_hash` serialises with Python's default `ensure_ascii=True`. */
  function RowContent(e: KeyEntry): Bytes {
    RecordBytes(ROW_KEYS, RowValues(e), true)
  }

  lemma RowContentInjective(e: KeyEntry, f: KeyEntry)
    requires RowContent(e) == RowContent(f)
    ensures e == f
  {
    RowKeysDistinct();
    RecordBytesInjective(ROW_KEYS, RowValues(e), RowValues(f), true);
    SameValuesSameEntry(e, f);
  }

  lemma SameValuesSameEntry(e: KeyEntry, f: KeyEntry)
    requires RowValues(e) == RowValues(f)
    ensures e == f
  {
    var xs, ys := RowValues(e), RowValues(f);
    assert xs[0] == ys[0] && xs[1] == ys[1] && xs[2] == ys[2] && xs[3] == ys[3] && xs[4] == ys[4];
    assert xs[5] == ys[5] && xs[6] == ys[6] && xs[7] == ys[7] && xs[8] == ys[8] && xs[9] == ys[9];
    assert "active"[0] != "retired"[0];
  }

  function TenantOf(e: KeyEntry): string { e.tenantId }
  function NoNumber(e: KeyEntry): int { 0 }
  function NoPrev(e: KeyEntry): string { "" }

  function KeySchema(): Schema<KeyEntry> {
    Schema(RowContent, TenantOf, NoNumber, NoPrev)
  }

  /**
    Two accepted key histories that end in the same chain hash are the same
    history, or exhibit a collision or a preimage of the genesis value.
   */
  lemma KeyHistoryBinding(h: HashFn, a: Table, b: Table)
    requires Intact(h, Links(KeySchema(), a)) && Intact(h, Links(KeySchema(), b))
    requires FinalHash(Links(KeySchema(), a)) == FinalHash(Links(KeySchema(), b))
    ensures (|a| == |b| && forall i :: 0 <= i < |a| ==> a[i].entry == b[i].entry)
         || Compromised(h, Contents(Links(KeySchema(), a)), Contents(Links(KeySchema(), b)))
  {
    LogBinding(h, KeySchema(), a, b);
    if |a| == |b| && forall i :: 0 <= i < |a| ==> RowContent(a[i].entry) == RowContent(b[i].entry) {
      forall i | 0 <= i < |a| ensures a[i].entry == b[i].entry {
        RowContentInjective(a[i].entry, b[i].entry);
      }
    }
  }

  // ---- Queries ----

  function ActiveOf(t: string): KeyEntry -> bool {
    (e: KeyEntry) => e.tenantId == t && e.status == Active
  }

  function RetiredOf(t: string): KeyEntry -> bool {
    (e: KeyEntry) => e.tenantId == t && e.status == Retired
  }

  function KeyIs(k: string): KeyEntry -> bool {
    (e: KeyEntry) => e.keyId == k
  }

  function ActiveKey(k: string, t: string): KeyEntry -> bool {
    (e: KeyEntry) => e.keyId == k && e.tenantId == t && e.status == Active
  }

  function RetiredKey(k: string, t: string): KeyEntry -> bool {
    (e: KeyEntry) => e.keyId == k && e.tenantId == t && e.status == Retired
  }

  function Actives(es: seq<KeyEntry>, t: string): seq<KeyEntry> { Filter(ActiveOf(t), es) }
  function Retireds(es: seq<KeyEntry>, t: string): seq<KeyEntry> { Filter(RetiredOf(t), es) }

  /** `get_active`: the most recently inserted active row. */
  function GetActive(es: seq<KeyEntry>, t: string): Option<KeyEntry> {
    var a := Actives(es, t);
    if a == [] then None else Some(a[|a| - 1])
  }

  /** `was_active_at`, with its string comparison of timestamps. */
  predicate WasActiveAt(es: seq<KeyEntry>, k: string, t: string, timestamp: string) {
    var active, retired := Filter(ActiveKey(k, t), es), Filter(RetiredKey(k, t), es);
    && active != []
    && LexLe(active[0].registeredAt, timestamp)
    && !(retired != [] && retired[0].retiredAt.Some? && retired[0].retiredAt.value != ""
         && LexLe(retired[0].retiredAt.value, timestamp))
  }

  // ---- Operations ----

  datatype Key = Key(keyId: string, publicKey: string, algorithm: string, source: string)

  datatype Op =
    | Register(tenant: string, key: Key, notes: Option<string>, now: string)
    | RegisterOrUpdate(tenant: string, key: Key, now: string)
    | Rotate(tenant: string, key: Key, notes: Option<string>, now: string)

  function ActiveEntry(t: string, k: Key, notes: Option<string>, now: string): KeyEntry {
    KeyEntry(k.keyId, t, k.publicKey, k.algorithm, k.source, Active, now, None, None, notes)
  }

  function RetirementOf(retiree: KeyEntry, successor: string, notes: Option<string>, now: string): KeyEntry {
    KeyEntry(retiree.keyId, retiree.tenantId, retiree.publicKey, retiree.algorithm, retiree.source, Retired,
             retiree.registeredAt, Some(now), Some(successor), notes)
  }

  const AUTO_RETIRED := "Auto-retired during startup key registration"

  /** The entries an operation appends; `None` is the ValueError of `register_key`. */
  function Appended(es: seq<KeyEntry>, op: Op): Option<seq<KeyEntry>> {
    var current := GetActive(es, op.tenant);
    var known := Filter(ActiveKey(op.key.keyId, op.tenant), es) != [];
    match op
    case Register(t, k, notes, now) =>
      if known then Some([])
      else if current.Some? then None
      else Some([ActiveEntry(t, k, notes, now)])
    case RegisterOrUpdate(t, k, now) =>
      if known then Some([])
      else if current.Some? && current.value.keyId != k.keyId
      then Some([RetirementOf(current.value, k.keyId, Some(AUTO_RETIRED), now), ActiveEntry(t, k, None, now)])
      else Some([ActiveEntry(t, k, None, now)])
    case Rotate(t, k, notes, now) =>
      if current.Some?
      then Some([RetirementOf(current.value, k.keyId, notes, now), ActiveEntry(t, k, notes, now)])
      else Some([ActiveEntry(t, k, notes, now)])
  }

  // ---- A tenant's history as consecutive tenures ----

  /**
    `a` are the activations and `r` the retirements of one tenant, oldest first:
    every key but the last is retired at the moment its successor starts, starts
    never go back, and no key starts twice.
   */
  ghost predicate History(a: seq<KeyEntry>, r: seq<KeyEntry>) {
    && |r| == (if a == [] then 0 else |a| - 1)
    && (forall i :: 0 <= i < |a| ==> a[i].registeredAt != "")
    && (forall i :: 0 <= i < |r| ==> r[i].keyId == a[i].keyId && r[i].retiredAt == Some(a[i + 1].registeredAt))
    && (forall i, j :: 0 <= i < j < |a| ==> LexLe(a[i].registeredAt, a[j].registeredAt))
    && (forall i, j :: 0 <= i < j < |a| ==> a[i].keyId != a[j].keyId)
  }

  lemma {:induction false} FilterUniqueKey(s: seq<KeyEntry>, i: nat)
    requires i < |s| && forall j :: 0 <= j < |s| && j != i ==> s[j].keyId != s[i].keyId
    ensures Filter(KeyIs(s[i].keyId), s) == [s[i]]
  {
    var n := |s| - 1;
    if i == n {
      FilterNone(KeyIs(s[i].keyId), s[..n]);
    } else {
      FilterUniqueKey(s[..n], i);
    }
  }

  /** A key's rows are found in the tenant's activations and retirements. */
  lemma KeyRows(es: seq<KeyEntry>, k: string, t: string)
    ensures Filter(ActiveKey(k, t), es) == Filter(KeyIs(k), Actives(es, t))
    ensures Filter(RetiredKey(k, t), es) == Filter(KeyIs(k), Retireds(es, t))
  {
    FilterFilter(ActiveOf(t), KeyIs(k), ActiveKey(k, t), es);
    FilterFilter(RetiredOf(t), KeyIs(k), RetiredKey(k, t), es);
  }

  /** The i-th key reigned at the timestamp: it had started, and its successor had not. */
  ghost predicate Reigns(a: seq<KeyEntry>, i: nat, timestamp: string) {
    i < |a| && LexLe(a[i].registeredAt, timestamp) && (i + 1 < |a| ==> !LexLe(a[i + 1].registeredAt, timestamp))
  }

  lemma ActiveIffReigns(es: seq<KeyEntry>, t: string, i: nat, timestamp: string)
    requires History(Actives(es, t), Retireds(es, t)) && i < |Actives(es, t)|
    ensures WasActiveAt(es, Actives(es, t)[i].keyId, t, timestamp) <==> Reigns(Actives(es, t), i, timestamp)
  {
    var a, r := Actives(es, t), Retireds(es, t);
    var k := a[i].keyId;
    KeyRows(es, k, t);
    FilterUniqueKey(a, i);
    if i < |r| {
      assert r[i].keyId == k;
      FilterUniqueKey(r, i);
    } else {
      FilterNone(KeyIs(k), r);
    }
  }

  lemma UnknownKeyNeverActive(es: seq<KeyEntry>, t: string, k: string, timestamp: string)
    requires forall i :: 0 <= i < |Actives(es, t)| ==> Actives(es, t)[i].keyId != k
    ensures !WasActiveAt(es, k, t, timestamp)
  {
    KeyRows(es, k, t);
    FilterNone(KeyIs(k), Actives(es, t));
  }

  /** At a time from the first start on, some key reigns. */
  lemma {:induction false} SomeoneReigns(a: seq<KeyEntry>, timestamp: string) returns (i: nat)
    requires a != [] && LexLe(a[0].registeredAt, timestamp)
    ensures Reigns(a, i, timestamp)
  {
    var n := |a| - 1;
    if LexLe(a[n].registeredAt, timestamp) {
      i := n;
    } else {
      i := SomeoneReigns(a[..n], timestamp);
    }
  }

  /** While one key reigns, no later key has started. */
  lemma LaterNotStarted(a: seq<KeyEntry>, i: nat, j: nat, timestamp: string)
    requires forall x, y :: 0 <= x < y < |a| ==> LexLe(a[x].registeredAt, a[y].registeredAt)
    requires Reigns(a, i, timestamp) && i < j < |a|
    ensures !LexLe(a[j].registeredAt, timestamp)
  {
    LexOrder();
    assert i + 1 == j || LexLe(a[i + 1].registeredAt, a[j].registeredAt);
  }

  lemma OnlyOneReigns(a: seq<KeyEntry>, i: nat, j: nat, timestamp: string)
    requires forall x, y :: 0 <= x < y < |a| ==> LexLe(a[x].registeredAt, a[y].registeredAt)
    requires Reigns(a, i, timestamp) && Reigns(a, j, timestamp)
    ensures i == j
  {
    if i < j {
      LaterNotStarted(a, i, j, timestamp);
    } else if j < i {
      LaterNotStarted(a, j, i, timestamp);
    }
  }

  /**
    Key history partition: at every timestamp from the first registration on,
    exactly one of the tenant's keys was active, and from the last registration
    on it is the one `get_active` returns.
   */
  lemma ExactlyOneKeyActive(es: seq<KeyEntry>, t: string, timestamp: string) returns (k: string)
    requires History(Actives(es, t), Retireds(es, t)) && Actives(es, t) != []
    requires LexLe(Actives(es, t)[0].registeredAt, timestamp)
    ensures WasActiveAt(es, k, t, timestamp)
    ensures forall k' :: WasActiveAt(es, k', t, timestamp) ==> k' == k
    ensures LexLe(GetActive(es, t).value.registeredAt, timestamp) ==> k == GetActive(es, t).value.keyId
  {
    var a := Actives(es, t);
    var i := SomeoneReigns(a, timestamp);
    k := a[i].keyId;
    ActiveIffReigns(es, t, i, timestamp);
    forall k' | WasActiveAt(es, k', t, timestamp) ensures k' == k {
      ActiveIsTheReigning(es, t, i, k', timestamp);
    }
    if LexLe(a[|a| - 1].registeredAt, timestamp) {
      OnlyOneReigns(a, i, |a| - 1, timestamp);
    }
  }

  lemma ActiveIsTheReigning(es: seq<KeyEntry>, t: string, i: nat, k: string, timestamp: string)
    requires History(Actives(es, t), Retireds(es, t)) && Reigns(Actives(es, t), i, timestamp)
    requires WasActiveAt(es, k, t, timestamp)
    ensures k == Actives(es, t)[i].keyId
  {
    var a := Actives(es, t);
    if j :| 0 <= j < |a| && a[j].keyId == k {
      ActiveIffReigns(es, t, j, timestamp);
      OnlyOneReigns(a, i, j, timestamp);
    } else {
      UnknownKeyNeverActive(es, t, k, timestamp);
    }
  }

  // ---- Operations keep the history ----

  /** A new key id for the tenant; only `rotate_key` leaves this to its caller. */
  predicate FreshKey(es: seq<KeyEntry>, t: string, k: string) {
    forall i :: 0 <= i < |Actives(es, t)| ==> Actives(es, t)[i].keyId != k
  }

  /** The tenant's history is sound and lies in the past of `clock`. */
  ghost predicate Sound(es: seq<KeyEntry>, t: string, clock: string) {
    var a := Actives(es, t);
    History(a, Retireds(es, t)) && (a != [] ==> LexLe(a[|a| - 1].registeredAt, clock))
  }

  lemma AppendSplits(es: seq<KeyEntry>, t: string, e: KeyEntry)
    ensures Actives(es + [e], t) == if e.tenantId == t && e.status == Active then Actives(es, t) + [e] else Actives(es, t)
    ensures Retireds(es + [e], t) == if e.tenantId == t && e.status == Retired then Retireds(es, t) + [e] else Retireds(es, t)
  {
    FilterAppend(ActiveOf(t), es, e);
    FilterAppend(RetiredOf(t), es, e);
  }

  lemma KnownIffNotFresh(es: seq<KeyEntry>, t: string, k: string)
    ensures Filter(ActiveKey(k, t), es) == [] <==> FreshKey(es, t, k)
  {
    KeyRows(es, k, t);
    var a := Actives(es, t);
    FilterMembers(KeyIs(k), a);
    if FreshKey(es, t, k) {
      FilterNone(KeyIs(k), a);
    } else {
      var i :| 0 <= i < |a| && a[i].keyId == k;
      assert a[i] in Filter(KeyIs(k), a);
    }
  }

  /** Starting a first key, or succeeding the current one, extends the history. */
  lemma HistoryExtends(a: seq<KeyEntry>, r: seq<KeyEntry>, e: KeyEntry, x: KeyEntry)
    requires History(a, r) && e.registeredAt != ""
    requires forall i :: 0 <= i < |a| ==> a[i].keyId != e.keyId
    requires a != [] ==>
      && LexLe(a[|a| - 1].registeredAt, e.registeredAt)
      && x.keyId == a[|a| - 1].keyId && x.retiredAt == Some(e.registeredAt)
    ensures History(a + [e], if a == [] then r else r + [x])
  {
    LexOrder();
    var a', r' := a + [e], if a == [] then r else r + [x];
    forall i, j | 0 <= i < j < |a'| ensures LexLe(a'[i].registeredAt, a'[j].registeredAt) {
      if j == |a| && i < |a| - 1 { assert LexLe(a[i].registeredAt, a[|a| - 1].registeredAt); }
    }
    forall i | 0 <= i < |r'| ensures r'[i].keyId == a'[i].keyId && r'[i].retiredAt == Some(a'[i + 1].registeredAt) {
      if i < |r| { assert r[i].keyId == a[i].keyId; }
    }
  }

  /** The current key of a tenant is an entry of that tenant. */
  lemma CurrentIsOwn(es: seq<KeyEntry>, t: string)
    ensures GetActive(es, t).Some? ==> GetActive(es, t).value.tenantId == t
  {
    var a := Actives(es, t);
    FilterMembers(ActiveOf(t), es);
    if a != [] { assert a[|a| - 1] in a; }
  }

  /** The start of a key carries the key's data as given to the operation. */
  predicate StartOf(op: Op, e: KeyEntry) {
    && e.status == Active && e.tenantId == op.tenant && e.registeredAt == op.now
    && e.keyId == op.key.keyId && e.publicKey == op.key.publicKey
    && e.algorithm == op.key.algorithm && e.source == op.key.source
    && e.retiredAt.None? && e.supersededBy.None?
    && e.notes == (if op.RegisterOrUpdate? then None else op.notes)
  }

  /** A retirement repeats the retired key's data, at the time and in favour of the new key. */
  predicate RetirementFor(op: Op, retiree: KeyEntry, e: KeyEntry) {
    && e.status == Retired && e.tenantId == op.tenant
    && e.keyId == retiree.keyId && e.publicKey == retiree.publicKey && e.algorithm == retiree.algorithm
    && e.source == retiree.source && e.registeredAt == retiree.registeredAt
    && e.retiredAt == Some(op.now) && e.supersededBy == Some(op.key.keyId)
    && e.notes == (if op.RegisterOrUpdate? then Some(AUTO_RETIRED) else op.notes)
  }

  /**
    What an operation does to the table: `register_key` refuses while another key is
    active; registering a known key appends nothing; otherwise the key starts, after
    the current key has been retired if there is one to retire.
   */
  lemma OperationsAppend(es: seq<KeyEntry>, op: Op)
    ensures
      var (added, current) := (Appended(es, op), GetActive(es, op.tenant));
      var known := !FreshKey(es, op.tenant, op.key.keyId);
      && (added.None? <==> op.Register? && !known && current.Some?)
      && (added == Some([]) <==> !op.Rotate? && known)
      && (added.Some? && added.value != [] ==>
          var n := |added.value| - 1;
          && StartOf(op, added.value[n])
          && n == (if current.Some? then 1 else 0)
          && (n == 1 ==> RetirementFor(op, current.value, added.value[0])))
  {
    KnownIffNotFresh(es, op.tenant, op.key.keyId);
    CurrentIsOwn(es, op.tenant);
  }

  /** An operation appends nothing, a start, or a retirement of the current key and a start. */
  lemma AppendedShape(es: seq<KeyEntry>, op: Op)
    requires Appended(es, op).Some? && Appended(es, op).value != []
    ensures
      var added, a := Appended(es, op).value, Actives(es, op.tenant);
      var e := added[|added| - 1];
      && e.tenantId == op.tenant && e.status == Active && e.keyId == op.key.keyId && e.registeredAt == op.now
      && (|added| == 1 ||
          (|added| == 2 && a != [] && added[0].tenantId == op.tenant && added[0].status == Retired
           && added[0].keyId == a[|a| - 1].keyId && added[0].retiredAt == Some(op.now)))
  {
    CurrentIsOwn(es, op.tenant);
  }

  /** How the appended entries show up in a tenant's history. */
  lemma AppendedSplits(es: seq<KeyEntry>, op: Op, t: string)
    requires Appended(es, op).Some? && Appended(es, op).value != []
    ensures
      var added := Appended(es, op).value;
      && (|added| == 1 || |added| == 2)
      && Actives(es + added, t) == (if t == op.tenant then Actives(es, t) + [added[|added| - 1]] else Actives(es, t))
      && Retireds(es + added, t) ==
         (if t == op.tenant && |added| == 2 then Retireds(es, t) + [added[0]] else Retireds(es, t))
  {
    var added := Appended(es, op).value;
    AppendedShape(es, op);
    AppendSplits(es, t, added[0]);
    if |added| == 2 {
      AppendSplits(es + [added[0]], t, added[1]);
      assert es + added == es + [added[0]] + [added[1]];
    } else {
      assert es + added == es + [added[0]];
    }
  }

  lemma SoundLater(es: seq<KeyEntry>, t: string, clock: string, now: string)
    requires Sound(es, t, clock) && LexLe(clock, now)
    ensures Sound(es, t, now)
  {
    var a := Actives(es, t);
    if a != [] { LexTransitive(a[|a| - 1].registeredAt, clock, now); }
  }

  lemma OwnOpKeepsHistory(es: seq<KeyEntry>, op: Op)
    requires Sound(es, op.tenant, op.now) && op.now != ""
    requires Appended(es, op).Some? && Appended(es, op).value != [] && FreshKey(es, op.tenant, op.key.keyId)
    requires |Appended(es, op).value| == 2 <==> Actives(es, op.tenant) != []
    ensures Sound(es + Appended(es, op).value, op.tenant, op.now)
  {
    var added := Appended(es, op).value;
    AppendedSplits(es, op, op.tenant);
    AppendedShape(es, op);
    HistoryExtends(Actives(es, op.tenant), Retireds(es, op.tenant), added[|added| - 1], added[0]);
    LexTotal(op.now, op.now);
  }

  lemma OpKeepsHistory(es: seq<KeyEntry>, op: Op, t: string, clock: string)
    requires Sound(es, t, clock) && Sound(es, op.tenant, clock) && LexLe(clock, op.now) && op.now != ""
    requires op.Rotate? ==> FreshKey(es, op.tenant, op.key.keyId)
    requires Appended(es, op).Some?
    ensures Sound(es + Appended(es, op).value, t, op.now)
  {
    SoundLater(es, t, clock, op.now);
    if Appended(es, op).value == [] {
      assert es + Appended(es, op).value == es;
    } else if t == op.tenant {
      AppendedOnlyIfFresh(es, op);
      OwnOpKeepsHistory(es, op);
    } else {
      OtherOpKeepsHistory(es, op, t);
    }
  }

  lemma OtherOpKeepsHistory(es: seq<KeyEntry>, op: Op, t: string)
    requires t != op.tenant && Appended(es, op).Some? && Appended(es, op).value != [] && Sound(es, t, op.now)
    ensures Sound(es + Appended(es, op).value, t, op.now)
  {
    AppendedSplits(es, op, t);
  }

  /** Rows are only appended for a new id, after retiring the current key if there is one. */
  lemma AppendedOnlyIfFresh(es: seq<KeyEntry>, op: Op)
    requires op.Rotate? ==> FreshKey(es, op.tenant, op.key.keyId)
    requires Appended(es, op).Some? && Appended(es, op).value != []
    ensures FreshKey(es, op.tenant, op.key.keyId)
    ensures |Appended(es, op).value| == 2 <==> Actives(es, op.tenant) != []
  {
    KnownIffNotFresh(es, op.tenant, op.key.keyId);
  }

  /** The whole table after a run of operations; a refused one appends nothing. */
  function EntriesAfter(es: seq<KeyEntry>, ops: seq<Op>): seq<KeyEntry>
    decreases ops
  {
    if ops == [] then es
    else
      var added := Appended(es, ops[0]);
      EntriesAfter(if added.Some? then es + added.value else es, ops[1..])
  }

  /** The clock never runs backwards, and every rotation uses a new id. */
  ghost predicate Orderly(es: seq<KeyEntry>, clock: string, ops: seq<Op>)
    decreases ops
  {
    ops != [] ==>
      && LexLe(clock, ops[0].now) && ops[0].now != ""
      && (ops[0].Rotate? ==> FreshKey(es, ops[0].tenant, ops[0].key.keyId))
      && Orderly(EntriesAfter(es, [ops[0]]), ops[0].now, ops[1..])
  }

  function LastClock(clock: string, ops: seq<Op>): string {
    if ops == [] then clock else ops[|ops| - 1].now
  }

  lemma OneOp(es: seq<KeyEntry>, op: Op)
    ensures EntriesAfter(es, [op]) == if Appended(es, op).Some? then es + Appended(es, op).value else es
  {
    assert [op][1..] == [];
  }

  lemma {:induction false} RunKeepsHistory(es: seq<KeyEntry>, clock: string, ops: seq<Op>)
    requires (forall t :: Sound(es, t, clock)) && Orderly(es, clock, ops)
    ensures forall t :: Sound(EntriesAfter(es, ops), t, LastClock(clock, ops))
    decreases ops
  {
    if ops != [] {
      var op := ops[0];
      var es' := EntriesAfter(es, [op]);
      OneOp(es, op);
      forall t ensures Sound(es', t, op.now) {
        assert Sound(es, t, clock) && Sound(es, op.tenant, clock);
        if Appended(es, op).Some? {
          OpKeepsHistory(es, op, t, clock);
        } else {
          SoundLater(es, t, clock, op.now);
        }
      }
      RunKeepsHistory(es', op.now, ops[1..]);
      assert EntriesAfter(es, ops) == EntriesAfter(es', ops[1..]);
      assert LastClock(clock, ops) == LastClock(op.now, ops[1..]);
    }
  }

  /**
    After every orderly run from an empty registry, for every tenant with a key
    and every timestamp from its first registration on, exactly one key was
    active, and from the last operation on it is the one `get_active` returns.
   */
  lemma EveryRunPartitionsTime(ops: seq<Op>, t: string, timestamp: string) returns (k: string)
    requires Orderly([], "", ops)
    requires
      var a := Actives(EntriesAfter([], ops), t);
      a != [] && LexLe(a[0].registeredAt, timestamp)
    ensures
      var es := EntriesAfter([], ops);
      && WasActiveAt(es, k, t, timestamp)
      && (forall k' :: WasActiveAt(es, k', t, timestamp) ==> k' == k)
      && (LexLe(LastClock("", ops), timestamp) ==> GetActive(es, t).Some? && k == GetActive(es, t).value.keyId)
  {
    RunKeepsHistory([], "", ops);
    var es := EntriesAfter([], ops);
    assert Sound(es, t, LastClock("", ops));
    k := ExactlyOneKeyActive(es, t, timestamp);
    LexOrder();
  }

  /**
    What a rotation to a known id does: `get_active` returns that id, and
    `was_active_at` denies it at that very moment. From a sound history the two
    agree after a rotation exactly when the id is new.
   */
  lemma RotationAgreesIffFresh(es: seq<KeyEntry>, op: Op, clock: string)
    requires op.Rotate? && Sound(es, op.tenant, clock) && LexLe(clock, op.now) && op.now != ""
    ensures Appended(es, op).Some?
    ensures
      var es' := es + Appended(es, op).value;
      && GetActive(es', op.tenant).Some?
      && GetActive(es', op.tenant).value.keyId == op.key.keyId
      && (WasActiveAt(es', op.key.keyId, op.tenant, op.now) <==> FreshKey(es, op.tenant, op.key.keyId))
  {
    var t, k, added := op.tenant, op.key.keyId, Appended(es, op).value;
    var a := Actives(es, t);
    AppendedShape(es, op);
    AppendedSplits(es, op, t);
    LexTotal(op.now, op.now);
    if a != [] { LexTransitive(a[|a| - 1].registeredAt, clock, op.now); }
    if FreshKey(es, t, k) {
      OpKeepsHistory(es, op, t, clock);
      ActiveIffReigns(es + added, t, |a|, op.now);
    } else {
      KnownKeyDenied(es + added, a, Retireds(es, t), t, k, op.now);
    }
  }

  /**
    `register_or_update` promises that the given key is in force afterwards. With
    a key in force before, it keeps that exactly for a new id and for the current
    one; a retired id is left retired.
   */
  lemma UpdateReachesKeyIff(es: seq<KeyEntry>, op: Op)
    requires op.RegisterOrUpdate? && GetActive(es, op.tenant).Some?
    ensures Appended(es, op).Some?
    ensures
      var after := GetActive(es + Appended(es, op).value, op.tenant);
      && after.Some?
      && (after.value.keyId == op.key.keyId <==>
            FreshKey(es, op.tenant, op.key.keyId) || GetActive(es, op.tenant).value.keyId == op.key.keyId)
  {
    OperationsAppend(es, op);
    if Appended(es, op).value == [] {
      assert es + [] == es;
    } else {
      AppendedSplits(es, op, op.tenant);
    }
  }

  lemma KnownKeyDenied(es': seq<KeyEntry>, a: seq<KeyEntry>, r: seq<KeyEntry>, t: string, k: string, now: string)
    requires History(a, r) && a != [] && LexLe(a[|a| - 1].registeredAt, now) && now != ""
    requires exists i :: 0 <= i < |a| && a[i].keyId == k
    requires |Retireds(es', t)| == |a| && Retireds(es', t)[..|r|] == r
    requires Retireds(es', t)[|r|].keyId == a[|a| - 1].keyId && Retireds(es', t)[|r|].retiredAt == Some(now)
    ensures !WasActiveAt(es', k, t, now)
  {
    var r' := Retireds(es', t);
    var i :| 0 <= i < |a| && a[i].keyId == k;
    KeyRows(es', k, t);
    forall j | 0 <= j < |r'| ensures r'[j].keyId == a[j].keyId {
      if j < |r| { assert r'[j] == r[j]; }
    }
    FilterUniqueKey(r', i);
    LexOrder();
    if i < |r| {
      assert r'[i] == r[i];
      assert LexLe(a[i + 1].registeredAt, now) by {
        if i + 1 < |a| - 1 { assert LexLe(a[i + 1].registeredAt, a[|a| - 1].registeredAt); }
      }
    } else {
      assert LexLe(now, now);
    }
  }

  // ---- The registry object ----

  function EntryOf(r: Row<KeyEntry>): KeyEntry { r.entry }

  function Entries(rows: Table): seq<KeyEntry> {
    Map(EntryOf, rows)
  }

  function Fixed(e: KeyEntry): (string, int) -> KeyEntry {
    (prev: string, n: int) => e
  }

  class KeyStore {
    const h: HashFn
    var rows: Table

    /** Every tenant's chain is intact. */
    ghost predicate Valid()
      reads this
    {
      forall t :: Chained(h, KeySchema(), rows, t)
    }

    constructor (h: HashFn)
      ensures Valid() && this.h == h && rows == []
    {
      this.h := h;
      rows := [];
    }

    /** `_insert_row`: appends one chained row. */
    method InsertRow(e: KeyEntry)
      requires Valid()
      modifies this
      ensures Valid()
      ensures Entries(rows) == Entries(old(rows)) + [e]
      ensures old(rows) <= rows
    {
      ghost var s := KeySchema();
      forall t ensures
        var r := NextRow(h, s, rows, e.tenantId, Fixed(e));
        r.Some? && Chained(h, s, rows + [r.value], t)
      {
        InsertKeepsChain(h, s, rows, e.tenantId, Fixed(e), t);
      }
      NextRowHashes(h, s, rows, e.tenantId, Fixed(e));
      var r := NextRow(h, KeySchema(), rows, e.tenantId, Fixed(e)).value;
      rows := rows + [r];
    }

    /** Appends what the operation calls for, or refuses and appends nothing. */
    method Apply(op: Op) returns (ok: bool)
      requires Valid()
      modifies this
      ensures Valid()
      ensures ok <==> Appended(Entries(old(rows)), op).Some?
      ensures Entries(rows) == EntriesAfter(Entries(old(rows)), [op])
      ensures old(rows) <= rows
    {
      ghost var es := Entries(rows);
      OneOp(es, op);
      var added := Appended(Entries(rows), op);
      if added.None? {
        return false;
      }
      if |added.value| > 0 {
        InsertRow(added.value[0]);
      }
      if |added.value| > 1 {
        InsertRow(added.value[1]);
      }
      assert Entries(rows) == es + added.value;
      return true;
    }

    /** Accepts exactly the intact chains and otherwise names the first bad row. */
    method VerifyChain(t: string) returns (r: ChainReport)
      ensures Reports(h, KeySchema(), TenantRows(KeySchema(), rows, t), r)
    {
      r := VerifyRows(h, KeySchema(), TenantRows(KeySchema(), rows, t));
    }
  }
}
