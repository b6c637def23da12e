/**
  Merkle roots over audit entries and the verification of exported batches
  (provable_ai/audit_batch.py, verify/verify_batch.py, and the audit leaf of
  provable_ai/audit_log.py).
 */
module AuditBatch {
  import opened Prelude
  import opened TextEncoding
  import opened Sorting
  import opened Tables
  import opened AuditLog
  import opened Merkle

  // ---- The audit leaf: six fields joined by bars ----

  function OrEmpty(o: Option<string>): string {
    if o.Some? then o.value else ""
  }

  function SequenceText(e: AuditEntry): string {
    if e.sequenceId.Some? then Decimal(e.sequenceId.value) else ""
  }

  /** What the leaf renders; an absent field and an empty one look alike. */
  function LeafFields(e: AuditEntry): seq<string> {
    [e.tenantId, OrEmpty(e.instanceId), SequenceText(e), e.result, e.verifiedAt, OrEmpty(e.failureCode)]
  }

  /** `"|".join(fields)`. */
  function Join(fields: seq<string>): string
    requires fields != []
  {
    if |fields| == 1 then fields[0] else fields[0] + "|" + Join(fields[1..])
  }

  function LeafText(e: AuditEntry): string {
    Join(LeafFields(e))
  }

  function Bars(s: string): nat {
    if s == "" then 0 else (if s[0] == '|' then 1 else 0) + Bars(s[1..])
  }

  lemma {:induction false} BarsConcat(a: string, b: string)
    ensures Bars(a + b) == Bars(a) + Bars(b)
  {
    if a == "" {
      assert a + b == b;
    } else {
      assert (a + b)[1..] == a[1..] + b;
      BarsConcat(a[1..], b);
    }
  }

  function TotalBars(fields: seq<string>): nat {
    if fields == [] then 0 else Bars(fields[0]) + TotalBars(fields[1..])
  }

  lemma {:induction false} JoinBars(fields: seq<string>)
    requires fields != []
    ensures Bars(Join(fields)) == TotalBars(fields) + |fields| - 1
  {
    if |fields| > 1 {
      JoinBars(fields[1..]);
      BarsConcat(fields[0] + "|", Join(fields[1..]));
      BarsConcat(fields[0], "|");
      assert Bars("|") == 1 by { assert "|"[1..] == ""; }
    } else {
      assert TotalBars(fields[1..]) == 0;
    }
  }

  /** The text before the first bar is determined by the whole text. */
  lemma {:induction false} SplitFirst(a: string, r: string, b: string, q: string)
    requires Bars(a) == 0 && Bars(b) == 0 && a + "|" + r == b + "|" + q
    ensures a == b && r == q
  {
    var t, u := a + "|" + r, b + "|" + q;
    assert a == "" <==> t[0] == '|';
    assert b == "" <==> u[0] == '|';
    if a == "" {
      assert r == t[1..] && q == u[1..];
    } else {
      assert t[0] == a[0] && u[0] == b[0];
      assert t[1..] == a[1..] + "|" + r && u[1..] == b[1..] + "|" + q;
      SplitFirst(a[1..], r, b[1..], q);
      assert a == [a[0]] + a[1..] && b == [b[0]] + b[1..];
    }
  }

  lemma {:induction false} JoinInjective(xs: seq<string>, ys: seq<string>)
    requires |xs| == |ys| > 0 && TotalBars(xs) == 0 && TotalBars(ys) == 0 && Join(xs) == Join(ys)
    ensures xs == ys
  {
    if |xs| > 1 {
      SplitFirst(xs[0], Join(xs[1..]), ys[0], Join(ys[1..]));
      JoinInjective(xs[1..], ys[1..]);
      assert xs == [xs[0]] + xs[1..] && ys == [ys[0]] + ys[1..];
    }
  }

  predicate ProperResult(e: AuditEntry) {
    e.result == "valid" || e.result == "invalid"
  }

  /** The same audit state: the six fields of the leaf, as they are in the entries. */
  predicate SameState(e: AuditEntry, f: AuditEntry) {
    && e.tenantId == f.tenantId && e.instanceId == f.instanceId && e.sequenceId == f.sequenceId
    && e.result == f.result && e.verifiedAt == f.verifiedAt && e.failureCode == f.failureCode
  }

  /** No entry in a different audit state has the same leaf. */
  ghost predicate Unambiguous(e: AuditEntry) {
    forall f: AuditEntry :: ProperResult(f) && LeafText(f) == LeafText(e) ==> SameState(f, e)
  }

  /** Neither optional text field is absent or empty, which the leaf cannot tell apart. */
  predicate Definite(e: AuditEntry) {
    OrEmpty(e.instanceId) != "" && OrEmpty(e.failureCode) != ""
  }

  /** No optional text field is present but empty. */
  predicate Regular(e: AuditEntry) {
    e.instanceId != Some("") && e.failureCode != Some("")
  }

  /** No regular entry in a different audit state has the same leaf. */
  ghost predicate UnambiguousAmongRegular(e: AuditEntry) {
    forall f: AuditEntry :: ProperResult(f) && Regular(f) && LeafText(f) == LeafText(e) ==> SameState(f, e)
  }

  /** None of the free-text fields contains the separator. */
  predicate BarFree(e: AuditEntry) {
    Bars(e.tenantId) == 0 && Bars(OrEmpty(e.instanceId)) == 0 && Bars(e.verifiedAt) == 0 && Bars(OrEmpty(e.failureCode)) == 0
  }

  lemma {:induction false} DigitsBarFree(n: nat)
    ensures Bars(Digits(n)) == 0
  {
    if n < 10 {
      assert Digits(n)[1..] == "";
    } else {
      DigitsBarFree(n / 10);
      var last := [('0' as int + n % 10) as char];
      BarsConcat(Digits(n / 10), last);
      assert last[1..] == "";
    }
  }

  lemma FixedFieldsBarFree(e: AuditEntry)
    requires ProperResult(e)
    ensures Bars(SequenceText(e)) == 0 && Bars(e.result) == 0
    ensures TotalBars(LeafFields(e)) == 0 <==> BarFree(e)
  {
    if e.sequenceId.Some? {
      var n := e.sequenceId.value;
      DigitsBarFree(if n < 0 then -n else n);
      BarsConcat("-", Digits(if n < 0 then -n else n));
      assert "-"[1..] == "";
    }
    ResultBarFree(e.result);
    SixBars(LeafFields(e));
  }

  lemma ResultBarFree(r: string)
    requires r == "valid" || r == "invalid"
    ensures Bars(r) == 0
  {
    var v := "valid";
    assert v[1..] == "alid" && "alid"[1..] == "lid" && "lid"[1..] == "id" && "id"[1..] == "d" && "d"[1..] == "";
    assert Bars("id") == 0 && Bars("lid") == 0 && Bars("alid") == 0 && Bars(v) == 0;
    assert "in" + v == "invalid";
    BarsConcat("in", v);
    assert "in"[1..] == "n" && "n"[1..] == "";
    assert Bars("n") == 0 && Bars("in") == 0;
  }

  lemma SixBars(fs: seq<string>)
    requires |fs| == 6
    ensures TotalBars(fs) == Bars(fs[0]) + Bars(fs[1]) + Bars(fs[2]) + Bars(fs[3]) + Bars(fs[4]) + Bars(fs[5])
  {
    assert fs[1..][1..] == fs[2..] && fs[2..][1..] == fs[3..] && fs[3..][1..] == fs[4..] && fs[4..][1..] == fs[5..];
    assert TotalBars(fs[5..]) == Bars(fs[5]);
    assert TotalBars(fs[4..]) == Bars(fs[4]) + Bars(fs[5]);
    assert TotalBars(fs[3..]) == Bars(fs[3]) + TotalBars(fs[4..]);
    assert TotalBars(fs[2..]) == Bars(fs[2]) + TotalBars(fs[3..]);
    assert TotalBars(fs[1..]) == Bars(fs[1]) + TotalBars(fs[2..]);
  }

  /** A text with a bar splits around it. */
  lemma {:induction false} BarSplits(s: string) returns (a: string, b: string)
    requires Bars(s) > 0
    ensures s == a + "|" + b
  {
    if s[0] == '|' {
      a, b := "", s[1..];
      assert s == "" + "|" + s[1..];
    } else {
      a, b := BarSplits(s[1..]);
      assert s == ([s[0]] + a) + "|" + b;
      a := [s[0]] + a;
    }
  }

  lemma SixJoined(fs: seq<string>)
    requires |fs| == 6
    ensures Join(fs) == fs[0] + "|" + (fs[1] + "|" + (fs[2] + "|" + (fs[3] + "|" + (fs[4] + "|" + fs[5]))))
  {
    assert fs[1..][1..] == fs[2..] && fs[2..][1..] == fs[3..] && fs[3..][1..] == fs[4..] && fs[4..][1..] == fs[5..];
    assert Join(fs[5..]) == fs[5];
    assert Join(fs[4..]) == fs[4] + "|" + Join(fs[5..]);
    assert Join(fs[3..]) == fs[3] + "|" + Join(fs[4..]);
    assert Join(fs[2..]) == fs[2] + "|" + Join(fs[3..]);
    assert Join(fs[1..]) == fs[1] + "|" + Join(fs[2..]);
  }

  function Optional(s: string): (r: Option<string>)
    ensures OrEmpty(r) == s && r != Some("")
  {
    if s == "" then None else Some(s)
  }

  /** Only the concatenation of neighbouring fields matters to the text. */
  lemma RetextHead(e: AuditEntry, tenant: string, instance: string)
    requires e.tenantId + "|" + OrEmpty(e.instanceId) == tenant + "|" + instance
    ensures LeafText(e.(tenantId := tenant, instanceId := Optional(instance))) == LeafText(e)
  {
    var f := e.(tenantId := tenant, instanceId := Optional(instance));
    SixJoined(LeafFields(e));
    SixJoined(LeafFields(f));
    var tail := "|" + (SequenceText(e) + "|" + (e.result + "|" + (e.verifiedAt + "|" + OrEmpty(e.failureCode))));
    assert LeafText(e) == (e.tenantId + "|" + OrEmpty(e.instanceId)) + tail;
    assert LeafText(f) == (tenant + "|" + instance) + tail;
  }

  lemma RetextTail(e: AuditEntry, verifiedAt: string, failureCode: string)
    requires e.verifiedAt + "|" + OrEmpty(e.failureCode) == verifiedAt + "|" + failureCode
    ensures LeafText(e.(verifiedAt := verifiedAt, failureCode := Optional(failureCode))) == LeafText(e)
  {
    SixJoined(LeafFields(e));
    SixJoined(LeafFields(e.(verifiedAt := verifiedAt, failureCode := Optional(failureCode))));
  }

  /** An entry with a bar in a field shares its leaf with an entry in a different state. */
  lemma BarGivesTwin(e: AuditEntry) returns (f: AuditEntry)
    requires ProperResult(e) && !BarFree(e)
    ensures ProperResult(f) && LeafText(f) == LeafText(e) && !SameState(f, e)
    ensures Regular(e) ==> Regular(f)
  {
    if Bars(e.tenantId) > 0 || Bars(OrEmpty(e.instanceId)) > 0 {
      var tenant, instance := MoveBar(e.tenantId, OrEmpty(e.instanceId));
      f := e.(tenantId := tenant, instanceId := Optional(instance));
      RetextHead(e, tenant, instance);
    } else {
      var verifiedAt, failureCode := MoveBar(e.verifiedAt, OrEmpty(e.failureCode));
      f := e.(verifiedAt := verifiedAt, failureCode := Optional(failureCode));
      RetextTail(e, verifiedAt, failureCode);
    }
  }

  function OtherEmpty(o: Option<string>): Option<string> {
    if o.None? then Some("") else None
  }

  /** An absent optional field and an empty one give the same leaf. */
  lemma IndefiniteGivesTwin(e: AuditEntry) returns (f: AuditEntry)
    requires ProperResult(e) && !Definite(e)
    ensures ProperResult(f) && LeafText(f) == LeafText(e) && !SameState(f, e)
  {
    if OrEmpty(e.instanceId) == "" {
      f := e.(instanceId := OtherEmpty(e.instanceId));
    } else {
      f := e.(failureCode := OtherEmpty(e.failureCode));
    }
    assert LeafFields(f) == LeafFields(e);
  }

  /** Reads two neighbouring fields, one with a bar, as two other fields. */
  lemma MoveBar(x: string, y: string) returns (x': string, y': string)
    requires Bars(x) > 0 || Bars(y) > 0
    ensures x + "|" + y == x' + "|" + y' && x' != x
  {
    if Bars(x) > 0 {
      var a, b := BarSplits(x);
      x', y' := a, b + "|" + y;
      assert |x'| < |x|;
    } else {
      var a, b := BarSplits(y);
      x', y' := x + "|" + a, b;
      assert |x'| > |x|;
    }
  }

  /** Without bars the leaf gives back what it renders. */
  lemma BarFreeLeaf(e: AuditEntry, f: AuditEntry)
    requires ProperResult(e) && ProperResult(f) && BarFree(e) && LeafText(f) == LeafText(e)
    ensures LeafFields(f) == LeafFields(e)
  {
    FixedFieldsBarFree(e);
    JoinBars(LeafFields(e));
    JoinBars(LeafFields(f));
    JoinInjective(LeafFields(f), LeafFields(e));
  }

  lemma SameFieldsSameState(e: AuditEntry, f: AuditEntry)
    requires LeafFields(f) == LeafFields(e) && (Definite(e) || (Regular(e) && Regular(f)))
    ensures SameState(f, e)
  {
    var x, y := LeafFields(f), LeafFields(e);
    assert x[0] == y[0] && x[1] == y[1] && x[2] == y[2] && x[3] == y[3] && x[4] == y[4] && x[5] == y[5];
    if e.sequenceId.Some? && f.sequenceId.Some? {
      DecimalInjective(e.sequenceId.value, f.sequenceId.value);
    }
  }

  /**
    The leaf is documented to tell any two audit states apart. It does so
    exactly for the entries whose free-text fields contain no separator and
    whose optional text fields are neither absent nor empty.
   */
  lemma LeafUnambiguousIff(e: AuditEntry)
    requires ProperResult(e)
    ensures Unambiguous(e) <==> BarFree(e) && Definite(e)
  {
    if !BarFree(e) {
      var f := BarGivesTwin(e);
    } else if !Definite(e) {
      var f := IndefiniteGivesTwin(e);
    } else {
      forall f: AuditEntry | ProperResult(f) && LeafText(f) == LeafText(e) ensures SameState(f, e) {
        BarFreeLeaf(e, f);
        SameFieldsSameState(e, f);
      }
    }
  }

  /** Among entries that never hold an empty optional text, the separator alone decides. */
  lemma RegularLeafUnambiguousIff(e: AuditEntry)
    requires ProperResult(e) && Regular(e)
    ensures UnambiguousAmongRegular(e) <==> BarFree(e)
  {
    if !BarFree(e) {
      var f := BarGivesTwin(e);
    } else {
      forall f: AuditEntry | ProperResult(f) && Regular(f) && LeafText(f) == LeafText(e) ensures SameState(f, e) {
        BarFreeLeaf(e, f);
        SameFieldsSameState(e, f);
      }
    }
  }

  // ---- merkle_root_from_entries ----

  /** Comparison of the tuples (tenant_id, verified_at, trace_id). */
  predicate EntryLe(a: AuditEntry, b: AuditEntry) {
    if a.tenantId != b.tenantId then LexLe(a.tenantId, b.tenantId)
    else if a.verifiedAt != b.verifiedAt then LexLe(a.verifiedAt, b.verifiedAt)
    else LexLe(a.traceId, b.traceId)
  }

  function LeafTexts(entries: seq<AuditEntry>): seq<string> {
    Map(LeafText, entries)
  }

  /** `sha256(text.encode()).hexdigest()`. */
  function HashText(h: HashFn): string -> string {
    (t: string) => Hex(h(Utf8(t)))
  }

  /** The leaf hashes, in the sorted order of the entries, become the ids of a tree. */
  function LeafIds(h: HashFn, entries: seq<AuditEntry>): seq<string> {
    Map(HashText(h), LeafTexts(Sort(EntryLe, entries)))
  }

  function EntriesRoot(h: HashFn, entries: seq<AuditEntry>): Digest {
    MerkleRoot(h, LeafIds(h, entries))
  }

  /** Reordering the entries never changes the root, even when sort keys tie. */
  lemma EntriesRootIgnoresOrder(h: HashFn, es: seq<AuditEntry>, es': seq<AuditEntry>)
    requires multiset(es) == multiset(es')
    ensures EntriesRoot(h, es) == EntriesRoot(h, es')
  {
    var s, s' := Sort(EntryLe, es), Sort(EntryLe, es');
    SortPermutes(EntryLe, es);
    SortPermutes(EntryLe, es');
    MapPermutes(LeafText, s, s');
    MapPermutes(HashText(h), LeafTexts(s), LeafTexts(s'));
    RootIgnoresOrder(h, LeafIds(h, es), LeafIds(h, es'));
  }

  lemma IdInputsRemove(xs: seq<string>, j: nat)
    requires j < |xs|
    ensures IdInputs(RemoveAt(xs, j)) <= IdInputs(xs)
  {
    var r := RemoveAt(xs, j);
    forall i | 0 <= i < |r| ensures Utf8(r[i]) in IdInputs(xs) {
      assert r[i] == xs[if i < j then i else i + 1];
    }
  }

  /** The first text occurs among the others, or there is a collision. */
  lemma HashesBindFirst(h: HashFn, xs: seq<string>, ys: seq<string>) returns (j: nat)
    requires xs != [] && multiset(Map(HashText(h), xs)) == multiset(Map(HashText(h), ys))
    ensures j < |ys|
    ensures xs[0] == ys[j] || Collides(h, IdInputs(xs), IdInputs(ys))
    ensures multiset(Map(HashText(h), RemoveAt(xs, 0))) == multiset(Map(HashText(h), RemoveAt(ys, j)))
  {
    var f := HashText(h);
    SameMembers(Map(f, xs), Map(f, ys));
    assert Map(f, xs)[0] in Map(f, ys);
    j :| 0 <= j < |ys| && Map(f, ys)[j] == Map(f, xs)[0];
    MapSplitsAt(f, xs, 0);
    MapSplitsAt(f, ys, j);
    CancelOne(multiset(Map(f, RemoveAt(xs, 0))), multiset(Map(f, RemoveAt(ys, j))), f(xs[0]));
    HexInjective(h(Utf8(xs[0])), h(Utf8(ys[j])));
    if Utf8(xs[0]) == Utf8(ys[j]) {
      Utf8Injective(xs[0], ys[j]);
    } else {
      assert Utf8(xs[0]) in IdInputs(xs) && Utf8(ys[j]) in IdInputs(ys);
    }
  }

  /** Equal hashes mean equal texts, up to rearrangement, or a collision. */
  lemma {:induction false} HashesBindTexts(h: HashFn, xs: seq<string>, ys: seq<string>)
    requires multiset(Map(HashText(h), xs)) == multiset(Map(HashText(h), ys))
    ensures multiset(xs) == multiset(ys) || Collides(h, IdInputs(xs), IdInputs(ys))
  {
    SameMembers(Map(HashText(h), xs), Map(HashText(h), ys));
    if xs != [] {
      var j := HashesBindFirst(h, xs, ys);
      var r, r' := RemoveAt(xs, 0), RemoveAt(ys, j);
      HashesBindTexts(h, r, r');
      IdInputsRemove(xs, 0);
      IdInputsRemove(ys, j);
      if Collides(h, IdInputs(r), IdInputs(r')) {
        CollidesWiden(h, IdInputs(r), IdInputs(r'), IdInputs(xs), IdInputs(ys));
      } else if xs[0] == ys[j] {
        RemoveAtMultiset(xs, 0);
        RemoveAtMultiset(ys, j);
        assert multiset(xs) == multiset(r) + multiset{xs[0]};
        assert multiset(ys) == multiset(r') + multiset{ys[j]};
      }
    }
  }

  /** Everything hashed for an entries root. */
  function EntriesInputs(h: HashFn, es: seq<AuditEntry>): set<Bytes> {
    IdInputs(LeafTexts(Sort(EntryLe, es))) + RootInputs(h, LeafIds(h, es))
  }

  /** Equally many entries with the same root have the same leaves, or collide. */
  lemma EntriesRootBinding(h: HashFn, es: seq<AuditEntry>, es': seq<AuditEntry>)
    requires |es| == |es'| && EntriesRoot(h, es) == EntriesRoot(h, es')
    ensures multiset(LeafTexts(es)) == multiset(LeafTexts(es'))
         || Collides(h, EntriesInputs(h, es), EntriesInputs(h, es'))
  {
    var s, s' := Sort(EntryLe, es), Sort(EntryLe, es');
    SortPermutes(EntryLe, es);
    SortPermutes(EntryLe, es');
    MerkleBinding(h, LeafIds(h, es), LeafIds(h, es'));
    if multiset(LeafIds(h, es)) == multiset(LeafIds(h, es')) {
      HashesBindTexts(h, LeafTexts(s), LeafTexts(s'));
      MapPermutes(LeafText, s, es);
      MapPermutes(LeafText, s', es');
    }
  }

  // ---- Batch verification: the server's and the standalone one ----

  /** A proof in a batch: the id it carries, if any, and the id derived from its ledger fields. */
  datatype BatchProof = BatchProof(proofId: Option<string>, derivedId: string)

  datatype Batch = Batch(proofs: seq<BatchProof>, merkleRoot: string, signature: string, publicKey: string)

  predicate CarriesId(p: BatchProof) {
    p.proofId.Some? && p.proofId.value != ""
  }

  /** `p.get("proof_id") or _derive_proof_id(p)`. */
  function ServerId(p: BatchProof): string {
    if CarriesId(p) then p.proofId.value else p.derivedId
  }

  function CarriedId(p: BatchProof): string {
    OrEmpty(p.proofId)
  }

  function ServerIds(b: Batch): seq<string> {
    Map(ServerId, b.proofs)
  }

  /** The standalone verifier skips proofs that carry no id. */
  function StandaloneIds(b: Batch): seq<string> {
    Map(CarriedId, Filter(CarriesId, b.proofs))
  }

  predicate SignedRoot(h: HashFn, verify: VerifyFn, b: Batch, ids: seq<string>) {
    Hex(MerkleRoot(h, ids)) == b.merkleRoot && verify(b.publicKey, MerkleRoot(h, ids), b.signature)
  }

  /** `verify_batch_signature`. */
  predicate ServerAccepts(h: HashFn, verify: VerifyFn, b: Batch) {
    SignedRoot(h, verify, b, ServerIds(b))
  }

  /** `verify_batch`, which also demands a signature and a key. */
  predicate StandaloneAccepts(h: HashFn, verify: VerifyFn, b: Batch) {
    SignedRoot(h, verify, b, StandaloneIds(b)) && b.signature != "" && b.publicKey != ""
  }

  /** Ed25519 refuses an empty key and an empty signature. */
  ghost predicate RefusesEmpty(verify: VerifyFn) {
    forall k, m, s :: verify(k, m, s) ==> k != "" && s != ""
  }

  method VerifyBatchSignature(h: HashFn, verify: VerifyFn, b: Batch) returns (valid: bool)
    ensures valid <==> ServerAccepts(h, verify, b)
  {
    var root, levels := BuildMerkleTree(h, ServerIds(b));
    if Hex(root) != b.merkleRoot {
      return false;
    }
    HexRoundTrip(root);
    return verify(b.publicKey, FromHex(b.merkleRoot).value, b.signature);
  }

  method VerifyBatch(h: HashFn, verify: VerifyFn, b: Batch) returns (valid: bool, rootValid: bool)
    ensures valid <==> StandaloneAccepts(h, verify, b)
    ensures rootValid <==> b.merkleRoot == Hex(MerkleRoot(h, StandaloneIds(b)))
  {
    var root, levels := BuildMerkleTree(h, StandaloneIds(b));
    if Hex(root) != b.merkleRoot {
      return false, false;
    }
    if b.signature == "" || b.publicKey == "" {
      return false, true;
    }
    return verify(b.publicKey, root, b.signature), true;
  }

  /**
    Checks one id against a batch by building its inclusion proof on the fly:
    accepted exactly when the batch carries the id, the batch's root is the root
    of its ids, and the signature, if key and signature are there, is good.
   */
  method VerifyProofInBatch(h: HashFn, verify: VerifyFn, b: Batch, target: string) returns (valid: bool)
    ensures valid <==>
      && target in StandaloneIds(b)
      && b.merkleRoot == Hex(MerkleRoot(h, StandaloneIds(b)))
      && (b.signature == "" || b.publicKey == "" || verify(b.publicKey, MerkleRoot(h, StandaloneIds(b)), b.signature))
  {
    var ids := StandaloneIds(b);
    if target !in ids {
      return false;
    }
    var leaves, leaf := Leaves(h, ids), h(Utf8(target));
    LeafOfMember(h, ids, target);
    var start := FirstIndex(leaves, leaf);
    var path, root := WalkUp(h, leaves, start);
    PathRebuildsRoot(h, leaves, start);
    DecodeEncodePath(path);
    HexRoundTrip(leaf);
    HexRoundTrip(root);
    valid := VerifyInclusionProof(h, verify,
      InclusionProof(Hex(leaf), start, EncodePath(path), b.merkleRoot, b.merkleRoot, b.signature, b.publicKey, ""));
  }

  /** In an accepted batch, exactly the ids that it carries are accepted one by one. */
  method AcceptedBatchHasItsIds(h: HashFn, verify: VerifyFn, b: Batch, target: string) returns (valid: bool)
    requires StandaloneAccepts(h, verify, b)
    ensures valid <==> target in StandaloneIds(b)
  {
    valid := VerifyProofInBatch(h, verify, b, target);
  }

  /** Two accepted batches of one size and root list the same ids, or collide. */
  lemma BatchBinding(h: HashFn, verify: VerifyFn, a: Batch, b: Batch)
    requires ServerAccepts(h, verify, a) && ServerAccepts(h, verify, b)
    requires a.merkleRoot == b.merkleRoot && |a.proofs| == |b.proofs|
    ensures multiset(ServerIds(a)) == multiset(ServerIds(b))
         || Collides(h, RootInputs(h, ServerIds(a)), RootInputs(h, ServerIds(b)))
  {
    HexInjective(MerkleRoot(h, ServerIds(a)), MerkleRoot(h, ServerIds(b)));
    MerkleBinding(h, ServerIds(a), ServerIds(b));
  }

  /** When every proof carries its id, the two verifiers agree. */
  lemma TwinsAgreeOnCarriedIds(h: HashFn, verify: VerifyFn, b: Batch)
    requires RefusesEmpty(verify)
    requires forall i :: 0 <= i < |b.proofs| ==> CarriesId(b.proofs[i])
    ensures StandaloneAccepts(h, verify, b) <==> ServerAccepts(h, verify, b)
  {
    FilterAll(CarriesId, b.proofs);
    assert StandaloneIds(b) == ServerIds(b);
  }
}
