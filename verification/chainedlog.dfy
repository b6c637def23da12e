/**
  An append-only table with one hash chain per tenant, for any kind of entry.
  The audit log, the key registry and the anchor store are its instances.
 */
module ChainedLog {
  import opened Prelude
  import opened TextEncoding
  import opened Tables
  import opened HashChain
  import opened Sorting

  /**
    How entries are hashed, scoped and numbered, and where they keep the chain
    hash of their predecessor.
   */
  datatype Schema<!E> = Schema(content: E -> Bytes, tenant: E -> string, number: E -> int, prev: E -> string)

  datatype Row<+E> = Row(id: nat, entry: E, rowHash: string, chainHash: string)

  function OfTenant<E>(s: Schema<E>, t: string): Row<E> -> bool {
    (r: Row<E>) => s.tenant(r.entry) == t
  }

  /** `SELECT * ... WHERE tenant_id = ? ORDER BY id ASC`. */
  function TenantRows<E>(s: Schema<E>, rows: seq<Row<E>>, t: string): seq<Row<E>> {
    Filter(OfTenant(s, t), rows)
  }

  function LinkOf<E>(s: Schema<E>, r: Row<E>): Link {
    Link(s.content(r.entry), r.rowHash, r.chainHash)
  }

  function Links<E>(s: Schema<E>, rows: seq<Row<E>>): (r: seq<Link>)
    ensures |r| == |rows|
    ensures forall i :: 0 <= i < |rows| ==> r[i] == LinkOf(s, rows[i])
  {
    seq(|rows|, i requires 0 <= i < |rows| => LinkOf(s, rows[i]))
  }

  /** The chain of one tenant is intact. */
  ghost predicate Chained<E>(h: HashFn, s: Schema<E>, rows: seq<Row<E>>, t: string) {
    Intact(h, Links(s, TenantRows(s, rows, t)))
  }

  ghost predicate Numbered<E>(s: Schema<E>, rows: seq<Row<E>>) {
    forall k :: 0 <= k < |rows| ==> s.number(rows[k].entry) == k + 1
  }

  /** `COALESCE(MAX(number), 0)`. */
  function MaxNumber<E>(s: Schema<E>, rows: seq<Row<E>>): int {
    if rows == [] then 0
    else
      var m, last := MaxNumber(s, rows[..|rows| - 1]), s.number(rows[|rows| - 1].entry);
      if |rows| == 1 || last > m then last else m
  }

  /**
    The row inserted for tenant `t`, whose entry is made from the tenant's
    current tip and next number; `None` when the stored tip is not hexadecimal.
   */
  function NextRow<E>(h: HashFn, s: Schema<E>, rows: seq<Row<E>>, t: string, make: (string, int) -> E): Option<Row<E>> {
    var mine := TenantRows(s, rows, t);
    var prev := FinalHash(Links(s, mine));
    if FromHex(prev).None? then None
    else
      var entry := make(prev, MaxNumber(s, mine) + 1);
      var rowHash := h(s.content(entry));
      Some(Row(|rows| + 1, entry, Hex(rowHash), Hex(h(Cat(FromHex(prev).value, rowHash)))))
  }

  lemma {:induction false} MaxOfNumbered<E>(s: Schema<E>, rows: seq<Row<E>>)
    requires Numbered(s, rows)
    ensures MaxNumber(s, rows) == |rows|
  {
    if rows != [] { MaxOfNumbered(s, rows[..|rows| - 1]); }
  }

  /** On an intact chain the next row exists and carries the next correct hashes. */
  lemma NextRowHashes<E>(h: HashFn, s: Schema<E>, rows: seq<Row<E>>, t: string, make: (string, int) -> E)
    requires Chained(h, s, rows, t)
    ensures
      var mine := TenantRows(s, rows, t);
      var r := NextRow(h, s, rows, t, make);
      && r.Some?
      && r.value.entry == make(FinalHash(Links(s, mine)), MaxNumber(s, mine) + 1)
      && r.value.rowHash == Hex(h(s.content(r.value.entry)))
      && r.value.chainHash == Hex(h(Cat(Tip(h, Contents(Links(s, mine))), h(s.content(r.value.entry)))))
  {
    var mine := TenantRows(s, rows, t);
    IntactFinalHash(h, Links(s, mine));
    HexRoundTrip(Tip(h, Contents(Links(s, mine))));
  }

  lemma TenantRowsAppend<E>(s: Schema<E>, rows: seq<Row<E>>, r: Row<E>, t: string)
    ensures TenantRows(s, rows + [r], t) ==
      if s.tenant(r.entry) == t then TenantRows(s, rows, t) + [r] else TenantRows(s, rows, t)
  {
    FilterAppend(OfTenant(s, t), rows, r);
  }

  lemma TenantRowsExtend<E>(s: Schema<E>, rows: seq<Row<E>>, rows': seq<Row<E>>, t: string)
    requires rows <= rows'
    ensures TenantRows(s, rows, t) <= TenantRows(s, rows', t)
  {
    assert rows' == rows + rows'[|rows|..];
    FilterExtends(OfTenant(s, t), rows, rows'[|rows|..]);
  }

  /** Inserting for one tenant keeps the chain of every tenant. */
  lemma InsertKeepsChain<E>(h: HashFn, s: Schema<E>, rows: seq<Row<E>>, t: string, make: (string, int) -> E, u: string)
    requires Chained(h, s, rows, t) && Chained(h, s, rows, u)
    requires forall prev, n :: s.tenant(make(prev, n)) == t
    ensures NextRow(h, s, rows, t, make).Some?
    ensures Chained(h, s, rows + [NextRow(h, s, rows, t, make).value], u)
  {
    NextRowHashes(h, s, rows, t, make);
    var r := NextRow(h, s, rows, t, make).value;
    TenantRowsAppend(s, rows, r, u);
    if u == t {
      var mine := TenantRows(s, rows, t);
      assert Links(s, mine + [r]) == Links(s, mine) + [LinkOf(s, r)];
      IntactAppend(h, Links(s, mine), LinkOf(s, r));
    }
  }

  // ---- Numbered chains and runs ----

  /** A tenant's rows form an intact chain numbered 1..n, each naming its predecessor's hash. */
  ghost predicate WellChained<E>(h: HashFn, s: Schema<E>, rows: seq<Row<E>>, t: string) {
    var mine := TenantRows(s, rows, t);
    && Chained(h, s, rows, t)
    && Numbered(s, mine)
    && NamesPredecessors(s, mine)
  }

  ghost predicate NamesPredecessors<E>(s: Schema<E>, rows: seq<Row<E>>) {
    forall k :: 0 <= k < |rows| ==> s.prev(rows[k].entry) == FinalHash(Links(s, rows[..k]))
  }

  lemma NumberingAppend<E>(s: Schema<E>, rows: seq<Row<E>>, r: Row<E>)
    requires Numbered(s, rows) && NamesPredecessors(s, rows)
    requires s.number(r.entry) == |rows| + 1 && s.prev(r.entry) == FinalHash(Links(s, rows))
    ensures Numbered(s, rows + [r]) && NamesPredecessors(s, rows + [r])
  {
    var all := rows + [r];
    assert all[..|rows|] == rows;
    forall k | 0 <= k < |all| ensures s.prev(all[k].entry) == FinalHash(Links(s, all[..k])) {
      if k < |rows| { assert all[..k] == rows[..k]; }
    }
  }

  /** A call that inserts one row for a tenant. */
  datatype Insertion<!E> = Insertion(tenant: string, make: (string, int) -> E)

  ghost predicate Faithful<E>(s: Schema<E>, c: Insertion<E>) {
    forall prev, n ::
      s.tenant(c.make(prev, n)) == c.tenant && s.number(c.make(prev, n)) == n && s.prev(c.make(prev, n)) == prev
  }

  lemma InsertKeepsNumbering<E>(h: HashFn, s: Schema<E>, rows: seq<Row<E>>, c: Insertion<E>, u: string)
    requires WellChained(h, s, rows, c.tenant) && WellChained(h, s, rows, u) && Faithful(s, c)
    ensures NextRow(h, s, rows, c.tenant, c.make).Some?
    ensures
      var r := NextRow(h, s, rows, c.tenant, c.make).value;
      && r.entry == c.make(FinalHash(Links(s, TenantRows(s, rows, c.tenant))), |TenantRows(s, rows, c.tenant)| + 1)
      && WellChained(h, s, rows + [r], u)
  {
    var t, mine := c.tenant, TenantRows(s, rows, c.tenant);
    InsertKeepsChain(h, s, rows, t, c.make, u);
    NextRowHashes(h, s, rows, t, c.make);
    MaxOfNumbered(s, mine);
    var r := NextRow(h, s, rows, t, c.make).value;
    TenantRowsAppend(s, rows, r, u);
    if u == t { NumberingAppend(s, mine, r); }
  }

  /** One call appends its row and keeps the chain of every tenant. */
  lemma InsertKeepsAll<E>(h: HashFn, s: Schema<E>, rows: seq<Row<E>>, c: Insertion<E>)
    requires (forall t :: WellChained(h, s, rows, t)) && Faithful(s, c)
    ensures
      var r := NextRow(h, s, rows, c.tenant, c.make);
      && r.Some?
      && r.value.entry == c.make(FinalHash(Links(s, TenantRows(s, rows, c.tenant))), |TenantRows(s, rows, c.tenant)| + 1)
      && Run(h, s, rows, [c]) == rows + [r.value]
      && forall t :: WellChained(h, s, rows + [r.value], t)
  {
    assert WellChained(h, s, rows, c.tenant);
    InsertKeepsNumbering(h, s, rows, c, c.tenant);
    forall t ensures WellChained(h, s, rows + [NextRow(h, s, rows, c.tenant, c.make).value], t) {
      InsertKeepsNumbering(h, s, rows, c, t);
    }
    assert [c][1..] == [];
  }

  /** The table after a sequence of calls; a refused call leaves it alone. */
  function Run<E>(h: HashFn, s: Schema<E>, rows: seq<Row<E>>, calls: seq<Insertion<E>>): seq<Row<E>>
    decreases calls
  {
    if calls == [] then rows
    else
      var r := NextRow(h, s, rows, calls[0].tenant, calls[0].make);
      Run(h, s, if r.Some? then rows + [r.value] else rows, calls[1..])
  }

  /** Any sequence of calls, interleaved across tenants, keeps every chain and only appends. */
  lemma {:induction false} RunKeepsChains<E>(h: HashFn, s: Schema<E>, rows: seq<Row<E>>, calls: seq<Insertion<E>>)
    requires forall t :: WellChained(h, s, rows, t)
    requires forall i :: 0 <= i < |calls| ==> Faithful(s, calls[i])
    ensures forall t :: WellChained(h, s, Run(h, s, rows, calls), t)
    ensures |Run(h, s, rows, calls)| == |rows| + |calls| && rows <= Run(h, s, rows, calls)
    decreases calls
  {
    if calls != [] {
      var c := calls[0];
      InsertKeepsAll(h, s, rows, c);
      RunKeepsChains(h, s, rows + [NextRow(h, s, rows, c.tenant, c.make).value], calls[1..]);
    }
  }

  // ---- The state of a chain at a block ----

  function UpToBlock<E>(s: Schema<E>, t: string, k: int): Row<E> -> bool {
    (r: Row<E>) => s.tenant(r.entry) == t && s.number(r.entry) <= k
  }

  function NumberUpTo<E>(s: Schema<E>, k: int): Row<E> -> bool {
    (r: Row<E>) => s.number(r.entry) <= k
  }

  function NumberLe<E>(s: Schema<E>): (Row<E>, Row<E>) -> bool {
    (a: Row<E>, b: Row<E>) => s.number(a.entry) <= s.number(b.entry)
  }

  /** `WHERE tenant_id = ? AND number <= ? ORDER BY number ASC`. */
  function BlockRows<E>(s: Schema<E>, rows: seq<Row<E>>, t: string, k: int): seq<Row<E>> {
    Sort(NumberLe(s), Filter(UpToBlock(s, t, k), rows))
  }

  lemma {:induction false} NumberedPrefix<E>(s: Schema<E>, rows: seq<Row<E>>, k: nat)
    requires Numbered(s, rows)
    ensures Filter(NumberUpTo(s, k), rows) == rows[..if k < |rows| then k else |rows|]
  {
    if rows != [] {
      var init := rows[..|rows| - 1];
      NumberedPrefix(s, init, k);
      FilterAppend(NumberUpTo(s, k), init, rows[|rows| - 1]);
      assert init + [rows[|rows| - 1]] == rows;
    }
  }

  /** On a numbered chain the block is the first k rows of the tenant. */
  lemma BlockIsPrefix<E>(s: Schema<E>, rows: seq<Row<E>>, t: string, k: nat)
    requires Numbered(s, TenantRows(s, rows, t))
    ensures
      var mine := TenantRows(s, rows, t);
      BlockRows(s, rows, t, k) == mine[..if k < |mine| then k else |mine|]
  {
    var mine := TenantRows(s, rows, t);
    FilterFilter(OfTenant(s, t), NumberUpTo(s, k), UpToBlock(s, t, k), rows);
    NumberedPrefix(s, mine, k);
    var block := mine[..if k < |mine| then k else |mine|];
    assert Sorted(NumberLe(s), block);
    SortFixesSorted(NumberLe(s), block);
  }

  /**
    The chain state at block k of a well-chained table is intact and is the
    fold over the tenant's first k rows, and no later call changes it.
   */
  lemma BlockIsStable<E>(h: HashFn, s: Schema<E>, rows: seq<Row<E>>, calls: seq<Insertion<E>>, t: string, k: nat)
    requires forall u :: WellChained(h, s, rows, u)
    requires forall i :: 0 <= i < |calls| ==> Faithful(s, calls[i])
    requires k <= |TenantRows(s, rows, t)|
    ensures
      var block := Links(s, BlockRows(s, rows, t, k));
      && |block| == k
      && Intact(h, block)
      && FinalHash(block) == Hex(Tip(h, Contents(Links(s, TenantRows(s, rows, t)))[..k]))
    ensures BlockRows(s, Run(h, s, rows, calls), t, k) == BlockRows(s, rows, t, k)
  {
    var mine, later := TenantRows(s, rows, t), Run(h, s, rows, calls);
    assert WellChained(h, s, rows, t);
    BlockIsPrefix(s, rows, t, k);
    BlockHash(h, s, mine, k);
    RunKeepsChains(h, s, rows, calls);
    assert WellChained(h, s, later, t);
    TenantRowsExtend(s, rows, later, t);
    BlockIsPrefix(s, later, t, k);
    assert TenantRows(s, later, t)[..k] == mine[..k];
  }

  lemma BlockHash<E>(h: HashFn, s: Schema<E>, mine: seq<Row<E>>, k: nat)
    requires Intact(h, Links(s, mine)) && k <= |mine|
    ensures Intact(h, Links(s, mine[..k]))
    ensures FinalHash(Links(s, mine[..k])) == Hex(Tip(h, Contents(Links(s, mine))[..k]))
  {
    assert Links(s, mine[..k]) == Links(s, mine)[..k];
    IntactPrefix(h, Links(s, mine), k);
    IntactFinalHash(h, Links(s, mine)[..k]);
  }

  // ---- Binding and verification ----

  /** Accepted chains with the same final hash have the same hashed contents row by row. */
  lemma LogBinding<E>(h: HashFn, s: Schema<E>, a: seq<Row<E>>, b: seq<Row<E>>)
    requires Intact(h, Links(s, a)) && Intact(h, Links(s, b)) && FinalHash(Links(s, a)) == FinalHash(Links(s, b))
    ensures (|a| == |b| && forall i :: 0 <= i < |a| ==> s.content(a[i].entry) == s.content(b[i].entry))
         || Compromised(h, Contents(Links(s, a)), Contents(Links(s, b)))
  {
    IntactBinding(h, Links(s, a), Links(s, b));
    var xs, ys := Contents(Links(s, a)), Contents(Links(s, b));
    if xs == ys {
      forall i | 0 <= i < |a| ensures s.content(a[i].entry) == s.content(b[i].entry) {
        assert xs[i] == ys[i];
      }
    }
  }

  /** Row k has the given id, the rows before it are intact, and it breaks the chain. */
  ghost predicate FirstBroken<E>(h: HashFn, s: Schema<E>, rows: seq<Row<E>>, k: nat, id: nat)
    requires k < |rows|
  {
    rows[k].id == id && Intact(h, Links(s, rows[..k])) && !Intact(h, Links(s, rows[..k + 1]))
  }

  datatype ChainReport = ChainReport(valid: bool, total: nat, brokenAt: Option<nat>)

  /** The verdict on a list of rows: valid exactly when intact, else the first bad row. */
  ghost predicate Reports<E>(h: HashFn, s: Schema<E>, rows: seq<Row<E>>, r: ChainReport) {
    && r.total == |rows|
    && (r.valid <==> Intact(h, Links(s, rows)))
    && (r.valid <==> r.brokenAt.None?)
    && (!r.valid ==> exists k :: 0 <= k < |rows| && FirstBroken(h, s, rows, k, r.brokenAt.value))
  }

  /** The walk that every store's chain verification performs over its rows. */
  method VerifyRows<E>(h: HashFn, s: Schema<E>, rows: seq<Row<E>>) returns (r: ChainReport)
    ensures Reports(h, s, rows, r)
  {
    var broken := WalkChain(h, Links(s, rows));
    if broken.None? {
      return ChainReport(true, |rows|, None);
    }
    var k := broken.value;
    assert Links(s, rows)[..k] == Links(s, rows[..k]) && Links(s, rows)[..k + 1] == Links(s, rows[..k + 1]);
    assert FirstBroken(h, s, rows, k, rows[k].id);
    return ChainReport(false, |rows|, Some(rows[k].id));
  }

  lemma FirstBrokenUnique<E>(h: HashFn, s: Schema<E>, rows: seq<Row<E>>, j: nat, k: nat, id: nat, id': nat)
    requires j < |rows| && k < |rows| && FirstBroken(h, s, rows, j, id) && FirstBroken(h, s, rows, k, id')
    ensures j >= k
  {
    if j < k {
      assert Links(s, rows[..k])[..j + 1] == Links(s, rows[..j + 1]);
      IntactPrefix(h, Links(s, rows[..k]), j + 1);
    }
  }

  /** Two verdicts on the same rows are the same verdict. */
  lemma VerdictUnique<E>(h: HashFn, s: Schema<E>, rows: seq<Row<E>>, r: ChainReport, r': ChainReport)
    requires Reports(h, s, rows, r) && Reports(h, s, rows, r')
    ensures r == r'
  {
    if !r.valid {
      var j :| 0 <= j < |rows| && FirstBroken(h, s, rows, j, r.brokenAt.value);
      var k :| 0 <= k < |rows| && FirstBroken(h, s, rows, k, r'.brokenAt.value);
      FirstBrokenUnique(h, s, rows, j, k, r.brokenAt.value, r'.brokenAt.value);
      FirstBrokenUnique(h, s, rows, k, j, r'.brokenAt.value, r.brokenAt.value);
    }
  }
}
