/**
  Merkle roots over proof ids, inclusion proofs and their verifier
  (provable_ai/audit_batch.py and its standalone twin verify/verify_batch.py).
 */
module Merkle {
  import opened Prelude
  import opened TextEncoding
  import opened Sorting

  // ---- The tree as a function of its leaves ----

  /** Duplicates the last node of an odd level. */
  function Pad(level: seq<Digest>): (r: seq<Digest>)
    requires level != []
    ensures |r| % 2 == 0 && |r| == |level| + |level| % 2
    ensures forall d :: d in r <==> d in level
  {
    if |level| % 2 == 1 then level + [level[|level| - 1]] else level
  }

  /** The string hashed for the parent of nodes `2i` and `2i + 1`. */
  function PairInput(level: seq<Digest>, i: nat): Bytes
    requires 2 * i + 1 < |level|
  {
    Cat(level[2 * i], level[2 * i + 1])
  }

  function Parents(h: HashFn, level: seq<Digest>): (r: seq<Digest>)
    requires |level| % 2 == 0
    ensures |r| == |level| / 2
  {
    seq<Digest>(|level| / 2, i requires 0 <= i < |level| / 2 => h(PairInput(level, i)))
  }

  /** One level up: pad, then hash pairs. */
  function Up(h: HashFn, level: seq<Digest>): (r: seq<Digest>)
    requires level != []
    ensures |r| == (|level| + 1) / 2
  {
    Parents(h, Pad(level))
  }

  function Root(h: HashFn, level: seq<Digest>): Digest
    requires level != []
    decreases |level|
  {
    if |level| == 1 then level[0] else Root(h, Up(h, level))
  }

  /** Number of levels above `n` leaves. */
  function Height(n: nat): nat
    requires n > 0
  {
    if n == 1 then 0 else 1 + Height((n + 1) / 2)
  }

  /** `sorted(proof_ids)`. */
  function SortIds(ids: seq<string>): (r: seq<string>)
    ensures |r| == |ids|
  {
    SortPermutes(LexLe, ids);
    Sort(LexLe, ids)
  }

  function LeafHashes(h: HashFn, ids: seq<string>): (r: seq<Digest>)
    ensures |r| == |ids|
    ensures forall i :: 0 <= i < |ids| ==> r[i] == h(Utf8(ids[i]))
  {
    seq<Digest>(|ids|, i requires 0 <= i < |ids| => h(Utf8(ids[i])))
  }

  /** A single leaf is paired with itself. */
  function PairSingle(leaves: seq<Digest>): seq<Digest> {
    if |leaves| == 1 then leaves + leaves else leaves
  }

  function Leaves(h: HashFn, ids: seq<string>): (r: seq<Digest>)
    ensures ids != [] ==> |r| >= 2
    ensures |ids| >= 2 ==> |r| == |ids|
  {
    PairSingle(LeafHashes(h, SortIds(ids)))
  }

  function MerkleRoot(h: HashFn, ids: seq<string>): Digest {
    if ids == [] then GENESIS else Root(h, Leaves(h, ids))
  }

  // ---- build_merkle_tree ----

  method HashPairs(h: HashFn, current: seq<Digest>) returns (next: seq<Digest>)
    requires |current| % 2 == 0
    ensures next == Parents(h, current)
  {
    next := [];
    var i := 0;
    while i < |current|
      invariant 0 <= i <= |current| && i % 2 == 0
      invariant next == Parents(h, current)[..i / 2]
    {
      next := next + [h(Cat(current[i], current[i + 1]))];
      assert PairInput(current, i / 2) == Cat(current[i], current[i + 1]);
      i := i + 2;
    }
  }

  /**
    The stored levels. Each level is computed from the padded level below; the
    inner ones are padded in storage too, because the list that the next round
    pads in place is the one already stored. The leaves are a copy and stay
    as they are.
   */
  ghost predicate StoredLevels(h: HashFn, levels: seq<seq<Digest>>) {
    && (forall i :: 0 <= i < |levels| ==> levels[i] != [])
    && (forall i :: 0 < i < |levels| ==> StoredAbove(h, levels, i))
  }

  ghost predicate StoredAbove(h: HashFn, levels: seq<seq<Digest>>, i: nat)
    requires 0 < i < |levels| && levels[i - 1] != []
  {
    levels[i] == if i < |levels| - 1 then Pad(Up(h, levels[i - 1])) else Up(h, levels[i - 1])
  }

  /** One round: pad the last stored level unless it is the leaves, then store the parents. */
  function StoreRound(h: HashFn, levels: seq<seq<Digest>>): seq<seq<Digest>>
    requires levels != [] && levels[|levels| - 1] != []
  {
    var last := |levels| - 1;
    (if last > 0 then levels[last := Pad(levels[last])] else levels) + [Up(h, levels[last])]
  }

  lemma StoreRoundKeepsShape(h: HashFn, levels: seq<seq<Digest>>)
    requires levels != [] && StoredLevels(h, levels)
    ensures StoredLevels(h, StoreRound(h, levels))
  {
    var levels' := StoreRound(h, levels);
    var last := |levels| - 1;
    forall i | 0 < i < |levels'| ensures StoredAbove(h, levels', i) {
      if i < last {
        assert StoredAbove(h, levels, i);
      } else if i == last {
        assert StoredAbove(h, levels, i);
      } else if last > 0 {
        assert Pad(Pad(levels[last])) == Pad(levels[last]);
      }
    }
  }

  /** What holds between rounds; `current` is the list stored last. */
  ghost predicate Building(h: HashFn, leaves: seq<Digest>, levels: seq<seq<Digest>>, current: seq<Digest>) {
    && leaves != [] && current != [] && levels != []
    && levels[0] == leaves && levels[|levels| - 1] == current
    && StoredLevels(h, levels)
    && Root(h, current) == Root(h, leaves)
    && |levels| + Height(|current|) == Height(|leaves|) + 1
  }

  lemma BuildRound(h: HashFn, leaves: seq<Digest>, levels: seq<seq<Digest>>, current: seq<Digest>)
    requires Building(h, leaves, levels, current) && |current| > 1
    ensures Building(h, leaves, StoreRound(h, levels), Up(h, current))
  {
    StoreRoundKeepsShape(h, levels);
  }

  method BuildMerkleTree(h: HashFn, ids: seq<string>) returns (root: Digest, levels: seq<seq<Digest>>)
    ensures root == MerkleRoot(h, ids)
    ensures ids == [] ==> levels == []
    ensures ids != [] ==>
      && |levels| == Height(|Leaves(h, ids)|) + 1
      && levels[0] == Leaves(h, ids)
      && levels[|levels| - 1] == [root]
      && StoredLevels(h, levels)
  {
    if ids == [] {
      return GENESIS, [];
    }
    var leaves := Leaves(h, ids);
    root, levels := BuildLevels(h, leaves);
  }

  method BuildLevels(h: HashFn, leaves: seq<Digest>) returns (root: Digest, levels: seq<seq<Digest>>)
    requires leaves != []
    ensures root == Root(h, leaves)
    ensures |levels| == Height(|leaves|) + 1 && levels[0] == leaves && levels[|levels| - 1] == [root]
    ensures StoredLevels(h, levels)
  {
    var current := leaves;
    levels := [leaves];
    while |current| > 1
      invariant Building(h, leaves, levels, current)
      decreases |current|
    {
      ghost var stored := levels;
      ghost var before := current;
      BuildRound(h, leaves, levels, current);
      if |current| % 2 == 1 {
        current := current + [current[|current| - 1]];
        if |levels| > 1 {
          // `current` is the very list stored last
          levels := levels[|levels| - 1 := current];
        }
      }
      current := HashPairs(h, current);
      levels := levels + [current];
      assert current == Up(h, before);
      assert levels == StoreRound(h, stored);
    }
    root := current[0];
    assert current == [root];
  }

  // ---- Inclusion paths ----

  /** One step of a path: the sibling, and whether it stands on the left. */
  datatype Step = Step(sibling: Bytes, left: bool)

  function StepInput(x: Bytes, s: Step): Bytes {
    if s.left then s.sibling + x else x + s.sibling
  }

  /** The value rebuilt from `x` along `path`. */
  function Climb(h: HashFn, x: Bytes, path: seq<Step>): Bytes
    decreases path
  {
    if path == [] then x else Climb(h, h(StepInput(x, path[0])), path[1..])
  }

  /** The strings hashed while climbing. */
  function ClimbInputs(h: HashFn, x: Bytes, path: seq<Step>): set<Bytes>
    decreases path
  {
    if path == [] then {} else {StepInput(x, path[0])} + ClimbInputs(h, h(StepInput(x, path[0])), path[1..])
  }

  /** The strings hashed while building the tree above `level`. */
  function TreeInputs(h: HashFn, level: seq<Digest>): set<Bytes>
    requires level != []
    decreases |level|
  {
    if |level| == 1 then {}
    else (set i | 0 <= i < |Pad(level)| / 2 :: PairInput(Pad(level), i)) + TreeInputs(h, Up(h, level))
  }

  lemma TreeInputsHere(h: HashFn, level: seq<Digest>, i: nat)
    requires |level| > 1 && 2 * i + 1 < |Pad(level)|
    ensures PairInput(Pad(level), i) in TreeInputs(h, level)
  {
  }

  function SiblingOf(level: seq<Digest>, i: nat): Step
    requires level != [] && i < |level|
  {
    if i % 2 == 0 then Step(Pad(level)[i + 1], false) else Step(Pad(level)[i - 1], true)
  }

  /** The sibling path of position `i`. */
  function PathOf(h: HashFn, level: seq<Digest>, i: nat): seq<Step>
    requires i < |level|
    decreases |level|
  {
    if |level| == 1 then [] else [SiblingOf(level, i)] + PathOf(h, Up(h, level), i / 2)
  }

  lemma SiblingGivesParent(h: HashFn, level: seq<Digest>, i: nat)
    requires i < |level| && |level| > 1
    ensures h(StepInput(level[i], SiblingOf(level, i))) == Up(h, level)[i / 2]
  {
    assert StepInput(level[i], SiblingOf(level, i)) == PairInput(Pad(level), i / 2);
  }

  /** Completeness, for any hash function: the path of a position rebuilds the root. */
  lemma {:induction false} PathRebuildsRoot(h: HashFn, level: seq<Digest>, i: nat)
    requires i < |level|
    ensures Climb(h, level[i], PathOf(h, level, i)) == Root(h, level)
    ensures |PathOf(h, level, i)| == Height(|level|)
    decreases |level|
  {
    if |level| > 1 {
      SiblingGivesParent(h, level, i);
      PathRebuildsRoot(h, Up(h, level), i / 2);
    }
  }

  function Pow2(k: nat): nat {
    if k == 0 then 1 else 2 * Pow2(k - 1)
  }

  /** Paths are as short as a binary tree allows. */
  lemma {:induction false} HeightBounds(n: nat)
    requires n >= 2
    ensures Height(n) >= 1 && Pow2(Height(n) - 1) < n <= Pow2(Height(n))
  {
    if n > 2 { HeightBounds((n + 1) / 2); }
  }

  lemma CollidesWiden(h: HashFn, xs: set<Bytes>, ys: set<Bytes>, xs': set<Bytes>, ys': set<Bytes>)
    requires Collides(h, xs, ys) && xs <= xs' && ys <= ys'
    ensures Collides(h, xs', ys')
  {
  }

  /**
    Soundness: a 32-byte value that a path of tree height with 32-byte siblings
    leads to the root is one of the nodes of the level, even through duplicated
    odd nodes, or the climb and the tree exhibit a collision.
   */
  lemma {:induction false} ClimbFromMember(h: HashFn, level: seq<Digest>, x: Digest, path: seq<Step>)
    requires level != [] && |path| == Height(|level|)
    requires forall i :: 0 <= i < |path| ==> |path[i].sibling| == 32
    requires Climb(h, x, path) == Root(h, level)
    ensures x in level || Collides(h, ClimbInputs(h, x, path), TreeInputs(h, level))
    decreases |level|
  {
    if |level| > 1 {
      var pre := StepInput(x, path[0]);
      ClimbFromMember(h, Up(h, level), h(pre), path[1..]);
      if h(pre) in Up(h, level) {
        var i :| 0 <= i < |Up(h, level)| && Up(h, level)[i] == h(pre);
        var node := PairInput(Pad(level), i);
        TreeInputsHere(h, level, i);
        if pre == node {
          assert x in Pad(level) by {
            if path[0].left {
              assert x == pre[32..] == node[32..] == Pad(level)[2 * i + 1];
            } else {
              assert x == pre[..32] == node[..32] == Pad(level)[2 * i];
            }
          }
        }
      } else {
        CollidesWiden(h, ClimbInputs(h, h(pre), path[1..]), TreeInputs(h, Up(h, level)),
                      ClimbInputs(h, x, path), TreeInputs(h, level));
      }
    }
  }

  // ---- The root binds the ids ----

  lemma {:induction false} RootBindsLevel(h: HashFn, a: seq<Digest>, b: seq<Digest>)
    requires |a| == |b| > 0 && Root(h, a) == Root(h, b)
    ensures a == b || Collides(h, TreeInputs(h, a), TreeInputs(h, b))
    decreases |a|
  {
    if |a| > 1 {
      RootBindsLevel(h, Up(h, a), Up(h, b));
      if Up(h, a) == Up(h, b) {
        if i :| 0 <= i < |Up(h, a)| && PairInput(Pad(a), i) != PairInput(Pad(b), i) {
          TreeInputsHere(h, a, i);
          TreeInputsHere(h, b, i);
          assert Up(h, a)[i] == h(PairInput(Pad(a), i)) && Up(h, b)[i] == h(PairInput(Pad(b), i));
        } else {
          SamePairsSameLevel(a, b);
        }
      } else {
        CollidesWiden(h, TreeInputs(h, Up(h, a)), TreeInputs(h, Up(h, b)), TreeInputs(h, a), TreeInputs(h, b));
      }
    }
  }

  lemma SamePairsSameLevel(a: seq<Digest>, b: seq<Digest>)
    requires |a| == |b| > 0
    requires forall i :: 0 <= i < |Pad(a)| / 2 ==> PairInput(Pad(a), i) == PairInput(Pad(b), i)
    ensures a == b
  {
    forall k | 0 <= k < |a| ensures a[k] == b[k] {
      var x, y := PairInput(Pad(a), k / 2), PairInput(Pad(b), k / 2);
      assert x == y;
      if k % 2 == 0 {
        assert a[k] == x[..32] == y[..32] == b[k];
      } else {
        assert a[k] == x[32..] == y[32..] == b[k];
      }
    }
  }

  function IdInputs(ids: seq<string>): set<Bytes> {
    set i | 0 <= i < |ids| :: Utf8(ids[i])
  }

  /** Everything that `build_merkle_tree` hashes. */
  function RootInputs(h: HashFn, ids: seq<string>): set<Bytes> {
    if ids == [] then {} else IdInputs(SortIds(ids)) + TreeInputs(h, Leaves(h, ids))
  }

  /**
    Binding: equally many ids with the same root are the same multiset of ids,
    or the two computations exhibit a collision.
   */
  lemma MerkleBinding(h: HashFn, ids: seq<string>, ids': seq<string>)
    requires |ids| == |ids'| && MerkleRoot(h, ids) == MerkleRoot(h, ids')
    ensures multiset(ids) == multiset(ids') || Collides(h, RootInputs(h, ids), RootInputs(h, ids'))
  {
    if ids != [] {
      var s, s' := SortIds(ids), SortIds(ids');
      SortPermutes(LexLe, ids);
      SortPermutes(LexLe, ids');
      var a, b := Leaves(h, ids), Leaves(h, ids');
      RootBindsLevel(h, a, b);
      if a == b {
        if i :| 0 <= i < |s| && s[i] != s'[i] {
          assert a[i] == h(Utf8(s[i])) && b[i] == h(Utf8(s'[i]));
          if Utf8(s[i]) == Utf8(s'[i]) { Utf8Injective(s[i], s'[i]); }
          assert Utf8(s[i]) in RootInputs(h, ids) && Utf8(s'[i]) in RootInputs(h, ids');
        } else {
          assert s == s';
        }
      } else {
        CollidesWiden(h, TreeInputs(h, a), TreeInputs(h, b), RootInputs(h, ids), RootInputs(h, ids'));
      }
    } else {
      assert ids' == [];
    }
  }

  /** Every permutation of the ids gives the same root. */
  lemma RootIgnoresOrder(h: HashFn, ids: seq<string>, ids': seq<string>)
    requires multiset(ids) == multiset(ids')
    ensures MerkleRoot(h, ids) == MerkleRoot(h, ids')
  {
    SameMembers(ids, ids');
    SortStringsIgnoresOrder(ids, ids');
  }

  lemma LargestSortsLast(ids: seq<string>, top: string)
    requires top in ids && forall id :: id in ids ==> LexLe(id, top)
    ensures SortIds(ids + [top]) == SortIds(ids) + [top]
    ensures SortIds(ids)[|ids| - 1] == top
  {
    GreatestSortsLast(LexLe, ids, top);
    var s := SortIds(ids);
    SortMembers(LexLe, ids);
    LexOrder();
    SortSorts(LexLe, ids);
    var i :| 0 <= i < |s| && s[i] == top;
    if i < |s| - 1 {
      assert LexLe(top, s[|s| - 1]) && LexLe(s[|s| - 1], top);
    }
  }

  /**
    Why binding needs the count: an odd list and the same list with its largest
    id once more have the same root, whatever the hash function.
   */
  lemma DuplicateOfLargestKeepsRoot(h: HashFn, ids: seq<string>, top: string)
    requires |ids| % 2 == 1 && top in ids && forall id :: id in ids ==> LexLe(id, top)
    ensures MerkleRoot(h, ids + [top]) == MerkleRoot(h, ids)
  {
    LargestSortsLast(ids, top);
    var leaves := LeafHashes(h, SortIds(ids));
    assert LeafHashes(h, SortIds(ids + [top])) == leaves + [leaves[|leaves| - 1]];
    if |ids| == 1 {
      assert leaves + leaves == leaves + [leaves[0]];
    } else {
    }
  }

  // ---- When lists of different lengths have the same root ----

  /** The node of `n` that stands at place `i` once every odd level has been padded up to the root. */
  function Spread(n: nat, i: nat): (k: nat)
    requires n > 0
    ensures k < n
  {
    if n == 1 then 0
    else
      var j := 2 * Spread((n + 1) / 2, i / 2) + i % 2;
      if j < n then j else n - 1
  }

  lemma SpreadChildren(n: nat, j: nat)
    requires n > 1
    ensures
      var k := Spread((n + 1) / 2, j);
      && Spread(n, 2 * j) == (if 2 * k < n then 2 * k else n - 1)
      && Spread(n, 2 * j + 1) == (if 2 * k + 1 < n then 2 * k + 1 else n - 1)
  {
    assert (2 * j) / 2 == j && (2 * j) % 2 == 0 && (2 * j + 1) / 2 == j && (2 * j + 1) % 2 == 1;
  }

  /** Every node stands at some place. */
  lemma {:induction false} SpreadCovers(n: nat, k: nat) returns (i: nat)
    requires k < n
    ensures i < Pow2(Height(n)) && Spread(n, i) == k
  {
    if n == 1 {
      i := 0;
    } else {
      var j := SpreadCovers((n + 1) / 2, k / 2);
      SpreadChildren(n, j);
      i := if k % 2 == 0 then 2 * j else 2 * j + 1;
    }
  }

  ghost predicate SameAt<T>(a: seq<T>, b: seq<T>, i: nat)
    requires a != [] && b != []
  {
    a[Spread(|a|, i)] == b[Spread(|b|, i)]
  }

  /** Both lists pad out to the same list of `2^height` nodes. */
  ghost predicate SameSpread<T>(a: seq<T>, b: seq<T>)
    requires a != [] && b != []
  {
    && Height(|a|) == Height(|b|)
    && forall i: nat :: i < Pow2(Height(|a|)) ==> SameAt(a, b, i)
  }

  lemma SpreadSameMembers<T>(a: seq<T>, b: seq<T>, x: T)
    requires a != [] && b != [] && SameSpread(a, b) && x in a
    ensures x in b
  {
    var k :| 0 <= k < |a| && a[k] == x;
    var i := SpreadCovers(|a|, k);
    assert SameAt(a, b, i);
  }

  /** The two children under place `j` of the level above. */
  lemma PairAtPlace(h: HashFn, level: seq<Digest>, j: nat)
    requires |level| > 1
    ensures
      var k := Spread(|Up(h, level)|, j);
      && 2 * k + 1 < |Pad(level)|
      && PairInput(Pad(level), k) == Cat(level[Spread(|level|, 2 * j)], level[Spread(|level|, 2 * j + 1)])
      && Up(h, level)[k] == h(PairInput(Pad(level), k))
  {
    var k := Spread(|Up(h, level)|, j);
    SpreadChildren(|level|, j);
  }

  /** Levels that pad out to the same nodes have the same root, whatever the hash function. */
  lemma {:induction false} SpreadGivesRoot(h: HashFn, a: seq<Digest>, b: seq<Digest>)
    requires a != [] && b != [] && SameSpread(a, b)
    ensures Root(h, a) == Root(h, b)
    decreases |a|
  {
    if |a| == 1 {
      assert SameAt(a, b, 0);
    } else {
      forall j: nat | j < Pow2(Height(|Up(h, a)|)) ensures SameAt(Up(h, a), Up(h, b), j) {
        assert SameAt(a, b, 2 * j) && SameAt(a, b, 2 * j + 1);
        PairAtPlace(h, a, j);
        PairAtPlace(h, b, j);
      }
      SpreadGivesRoot(h, Up(h, a), Up(h, b));
    }
  }

  /** At one height, equal roots mean that the levels pad out to the same nodes, or there is a collision. */
  lemma {:induction false} RootBindsSpread(h: HashFn, a: seq<Digest>, b: seq<Digest>)
    requires a != [] && b != [] && Height(|a|) == Height(|b|) && Root(h, a) == Root(h, b)
    ensures SameSpread(a, b) || Collides(h, TreeInputs(h, a), TreeInputs(h, b))
    decreases |a|
  {
    if |a| > 1 {
      var a', b' := Up(h, a), Up(h, b);
      RootBindsSpread(h, a', b');
      if SameSpread(a', b') {
        if !Collides(h, TreeInputs(h, a), TreeInputs(h, b)) { SpreadDown(h, a, b); }
      } else {
        CollidesWiden(h, TreeInputs(h, a'), TreeInputs(h, b'), TreeInputs(h, a), TreeInputs(h, b));
      }
    }
  }

  lemma SpreadDown(h: HashFn, a: seq<Digest>, b: seq<Digest>)
    requires |a| > 1 && |b| > 1 && SameSpread(Up(h, a), Up(h, b))
    requires !Collides(h, TreeInputs(h, a), TreeInputs(h, b))
    ensures SameSpread(a, b)
  {
    forall i: nat | i < Pow2(Height(|a|)) ensures SameAt(a, b, i) {
      HalfPlace(|a|, i);
      PlaceAgrees(h, a, b, i / 2, i);
    }
  }

  lemma HalfPlace(n: nat, i: nat)
    requires n > 1 && i < Pow2(Height(n))
    ensures i / 2 < Pow2(Height((n + 1) / 2))
    ensures i == 2 * (i / 2) || i == 2 * (i / 2) + 1
  {
  }

  lemma PlaceAgrees(h: HashFn, a: seq<Digest>, b: seq<Digest>, j: nat, i: nat)
    requires |a| > 1 && |b| > 1 && SameSpread(Up(h, a), Up(h, b)) && j < Pow2(Height(|Up(h, a)|))
    requires !Collides(h, TreeInputs(h, a), TreeInputs(h, b)) && (i == 2 * j || i == 2 * j + 1)
    ensures SameAt(a, b, i)
  {
    assert SameAt(Up(h, a), Up(h, b), j);
    ChildrenAgree(h, a, b, j);
  }

  lemma ChildrenAgree(h: HashFn, a: seq<Digest>, b: seq<Digest>, j: nat)
    requires |a| > 1 && |b| > 1 && SameAt(Up(h, a), Up(h, b), j)
    requires !Collides(h, TreeInputs(h, a), TreeInputs(h, b))
    ensures SameAt(a, b, 2 * j) && SameAt(a, b, 2 * j + 1)
  {
    PairAtPlace(h, a, j);
    PairAtPlace(h, b, j);
    var k, l := Spread(|Up(h, a)|, j), Spread(|Up(h, b)|, j);
    TreeInputsHere(h, a, k);
    TreeInputsHere(h, b, l);
    var x, y := PairInput(Pad(a), k), PairInput(Pad(b), l);
    assert x == y;
    assert a[Spread(|a|, 2 * j)] == x[..32] == y[..32] == b[Spread(|b|, 2 * j)];
    assert a[Spread(|a|, 2 * j + 1)] == x[32..] == y[32..] == b[Spread(|b|, 2 * j + 1)];
  }

  /** The root of two or more nodes is the digest of a string of the tree. */
  lemma {:induction false} RootIsHashed(h: HashFn, level: seq<Digest>)
    requires |level| > 1
    ensures exists x :: x in TreeInputs(h, level) && h(x) == Root(h, level)
    decreases |level|
  {
    if |level| == 2 {
      var x := PairInput(Pad(level), 0);
      TreeInputsHere(h, level, 0);
      assert Up(h, level)[0] == h(x) && Root(h, Up(h, level)) == Up(h, level)[0];
      assert Root(h, level) == h(x);
    } else {
      RootIsHashed(h, Up(h, level));
    }
  }

  /** The left half of a string hashed above the parents is the digest of a string of the tree. */
  lemma {:induction false} LeftHalfIsHashed(h: HashFn, level: seq<Digest>, x: Bytes)
    requires |level| > 1 && x in TreeInputs(h, Up(h, level))
    ensures |x| == 64
    ensures exists y :: y in TreeInputs(h, level) && h(y) == x[..32]
    decreases |level|
  {
    var up := Up(h, level);
    if k :| 0 <= k < |Pad(up)| / 2 && x == PairInput(Pad(up), k) {
      assert x[..32] == Pad(up)[2 * k] && Pad(up)[2 * k] in up;
      var i :| 0 <= i < |up| && up[i] == x[..32];
      TreeInputsHere(h, level, i);
    } else {
      LeftHalfIsHashed(h, up, x);
    }
  }

  /** A node of the level is the digest of a string hashed inside the other tree. */
  ghost predicate HoldsInner(h: HashFn, a: seq<Digest>, b: seq<Digest>)
    requires b != []
  {
    exists y :: y in TreeInputs(h, b) && h(y) in a
  }

  /** Under different heights, equal roots put an inner node of the higher tree among the leaves of the lower. */
  lemma {:induction false} LowerHoldsInner(h: HashFn, a: seq<Digest>, b: seq<Digest>)
    requires a != [] && b != [] && Height(|a|) < Height(|b|) && Root(h, a) == Root(h, b)
    ensures HoldsInner(h, a, b) || Collides(h, TreeInputs(h, a), TreeInputs(h, b))
    decreases |a|
  {
    if |a| == 1 {
      RootIsHashed(h, b);
      var y :| y in TreeInputs(h, b) && h(y) == Root(h, b);
      assert h(y) == a[0];
    } else {
      var a', b' := Up(h, a), Up(h, b);
      LowerHoldsInner(h, a', b');
      if HoldsInner(h, a', b') {
        var x :| x in TreeInputs(h, b') && h(x) in a';
        var i :| 0 <= i < |a'| && a'[i] == h(x);
        TreeInputsHere(h, a, i);
        if x == PairInput(Pad(a), i) {
          LeftHalfIsHashed(h, b, x);
          assert x[..32] == Pad(a)[2 * i] && Pad(a)[2 * i] in a;
        } else {
          assert x in TreeInputs(h, b);
        }
      } else {
        CollidesWiden(h, TreeInputs(h, a'), TreeInputs(h, b'), TreeInputs(h, a), TreeInputs(h, b));
      }
    }
  }

  // ---- The same for ids ----

  /** The sorted ids in the order of their leaves; a single id stands twice. */
  function LeafOrder(ids: seq<string>): (r: seq<string>)
    ensures ids != [] ==> r != []
  {
    if |ids| == 1 then SortIds(ids) + SortIds(ids) else SortIds(ids)
  }

  lemma LeavesOfOrder(h: HashFn, ids: seq<string>)
    ensures Leaves(h, ids) == LeafHashes(h, LeafOrder(ids))
    ensures forall id :: id in LeafOrder(ids) <==> id in ids
  {
    SortMembers(LexLe, ids);
  }

  /** The text of an id is, byte for byte, a pair of nodes that the tree over the other ids hashes. */
  ghost predicate Confused(h: HashFn, ids: seq<string>, ids': seq<string>)
    requires ids' != []
  {
    exists id :: id in ids && Utf8(id) in TreeInputs(h, Leaves(h, ids'))
  }

  /** The two lists of ids give the same tree once padded. */
  ghost predicate SameTree(ids: seq<string>, ids': seq<string>) {
    || (ids == [] && ids' == [])
    || (ids != [] && ids' != [] && SameSpread(LeafOrder(ids), LeafOrder(ids')))
  }

  /** Lists with the same padded tree have the same root for every hash function, and the same ids as a set. */
  lemma SameTreeSameRoot(h: HashFn, ids: seq<string>, ids': seq<string>)
    requires SameTree(ids, ids')
    ensures MerkleRoot(h, ids) == MerkleRoot(h, ids')
    ensures forall id :: id in ids <==> id in ids'
  {
    if ids != [] {
      var s, t := LeafOrder(ids), LeafOrder(ids');
      LeavesOfOrder(h, ids);
      LeavesOfOrder(h, ids');
      forall i: nat | i < Pow2(Height(|s|)) ensures SameAt(Leaves(h, ids), Leaves(h, ids'), i) && SameAt(t, s, i) {
        assert SameAt(s, t, i);
      }
      SpreadGivesRoot(h, Leaves(h, ids), Leaves(h, ids'));
      forall id ensures id in ids <==> id in ids' {
        if id in s { SpreadSameMembers(s, t, id); }
        if id in t { SpreadSameMembers(t, s, id); }
      }
    }
  }

  /** What breaks the hash or confuses leaves with nodes when two non-empty lists share a root. */
  ghost predicate Broken(h: HashFn, ids: seq<string>, ids': seq<string>)
    requires ids != [] && ids' != []
  {
    Collides(h, RootInputs(h, ids), RootInputs(h, ids')) || Confused(h, ids, ids') || Confused(h, ids', ids)
  }

  /** An id whose leaf is an inner node of the other tree is confused with it, or collides. */
  lemma InnerLeafBreaks(h: HashFn, ids: seq<string>, ids': seq<string>)
    requires ids != [] && ids' != [] && HoldsInner(h, Leaves(h, ids), Leaves(h, ids'))
    ensures Confused(h, ids, ids') || Collides(h, RootInputs(h, ids), RootInputs(h, ids'))
  {
    LeavesOfOrder(h, ids);
    var y :| y in TreeInputs(h, Leaves(h, ids')) && h(y) in Leaves(h, ids);
    var i :| 0 <= i < |Leaves(h, ids)| && Leaves(h, ids)[i] == h(y);
    var id := LeafOrder(ids)[i];
    assert id in LeafOrder(ids);
    IdIsHashed(h, ids, id);
    if Utf8(id) != y {
      assert Utf8(id) in RootInputs(h, ids) && y in RootInputs(h, ids');
    }
  }

  lemma IdIsHashed(h: HashFn, ids: seq<string>, id: string)
    requires id in ids
    ensures Utf8(id) in RootInputs(h, ids)
  {
    SortMembers(LexLe, ids);
    assert id in SortIds(ids);
    var j :| 0 <= j < |SortIds(ids)| && SortIds(ids)[j] == id;
    assert Utf8(SortIds(ids)[j]) in IdInputs(SortIds(ids));
  }

  lemma LeafSpreadBindsIds(h: HashFn, ids: seq<string>, ids': seq<string>)
    requires ids != [] && ids' != [] && SameSpread(Leaves(h, ids), Leaves(h, ids'))
    ensures SameTree(ids, ids') || Collides(h, RootInputs(h, ids), RootInputs(h, ids'))
  {
    var s, t := LeafOrder(ids), LeafOrder(ids');
    LeavesOfOrder(h, ids);
    LeavesOfOrder(h, ids');
    if !Collides(h, RootInputs(h, ids), RootInputs(h, ids')) {
      forall i: nat | i < Pow2(Height(|s|)) ensures SameAt(s, t, i) {
        assert SameAt(Leaves(h, ids), Leaves(h, ids'), i);
        var x, y := s[Spread(|s|, i)], t[Spread(|t|, i)];
        assert x in s && y in t;
        IdIsHashed(h, ids, x);
        IdIsHashed(h, ids', y);
        assert h(Utf8(x)) == h(Utf8(y));
        Utf8Injective(x, y);
      }
    }
  }

  /**
    When two lists of any lengths have the same root: they pad out to the same
    tree, and so hold the same ids, or the hash is broken on their data, or the
    text of an id is a pair of nodes of the other tree. Lists with the same
    padded tree always have the same root.
   */
  lemma SameRootIffSameTree(h: HashFn, ids: seq<string>, ids': seq<string>)
    requires ids != [] && ids' != [] && !Broken(h, ids, ids')
    ensures MerkleRoot(h, ids) == MerkleRoot(h, ids') <==> SameTree(ids, ids')
  {
    if MerkleRoot(h, ids) == MerkleRoot(h, ids') {
      RootsBindIds(h, ids, ids');
    }
    if SameTree(ids, ids') { SameTreeSameRoot(h, ids, ids'); }
  }

  lemma RootsBindIds(h: HashFn, ids: seq<string>, ids': seq<string>)
    requires ids != [] && ids' != [] && MerkleRoot(h, ids) == MerkleRoot(h, ids')
    ensures SameTree(ids, ids') || Broken(h, ids, ids')
  {
    var a, b := Leaves(h, ids), Leaves(h, ids');
    if Height(|a|) == Height(|b|) {
      RootBindsSpread(h, a, b);
      if SameSpread(a, b) {
        LeafSpreadBindsIds(h, ids, ids');
      } else {
        CollidesWiden(h, TreeInputs(h, a), TreeInputs(h, b), RootInputs(h, ids), RootInputs(h, ids'));
      }
    } else if Height(|a|) < Height(|b|) {
      LowerRootBreaks(h, ids, ids');
    } else {
      LowerRootBreaks(h, ids', ids);
    }
  }

  /** Only the empty list has the genesis root, unless a string of the tree hashes to it. */
  lemma GenesisRootIsEmpty(h: HashFn, ids: seq<string>)
    requires MerkleRoot(h, ids) == GENESIS
    ensures ids == [] || HitsGenesis(h, RootInputs(h, ids))
  {
    if ids != [] { RootIsHashed(h, Leaves(h, ids)); }
  }

  lemma LowerRootBreaks(h: HashFn, ids: seq<string>, ids': seq<string>)
    requires ids != [] && ids' != [] && Root(h, Leaves(h, ids)) == Root(h, Leaves(h, ids'))
    requires Height(|Leaves(h, ids)|) < Height(|Leaves(h, ids')|)
    ensures Broken(h, ids, ids')
  {
    var a, b := Leaves(h, ids), Leaves(h, ids');
    LowerHoldsInner(h, a, b);
    if HoldsInner(h, a, b) {
      InnerLeafBreaks(h, ids, ids');
    } else {
      CollidesWiden(h, TreeInputs(h, a), TreeInputs(h, b), RootInputs(h, ids), RootInputs(h, ids'));
    }
  }

  // ---- compute_inclusion_proof and verify_inclusion_proof ----

  datatype PathEntry = PathEntry(hash: string, position: string)

  datatype InclusionProof = InclusionProof(
    leafHash: string, leafIndex: nat, path: seq<PathEntry>, root: string,
    signedRoot: string, signature: string, publicKey: string, keyId: string)

  /** The part of a batch export that an inclusion proof is bound to. */
  datatype BatchHead = BatchHead(merkleRoot: string, signature: string, publicKey: string, keyId: string)

  function EncodeStep(s: Step): PathEntry {
    PathEntry(Hex(s.sibling), if s.left then "left" else "right")
  }

  function EncodePath(path: seq<Step>): (r: seq<PathEntry>)
    ensures |r| == |path|
    ensures forall i :: 0 <= i < |path| ==> r[i] == EncodeStep(path[i])
  {
    seq(|path|, i requires 0 <= i < |path| => EncodeStep(path[i]))
  }

  /** Any position other than "left" is taken as right. */
  function DecodeStep(e: PathEntry): Option<Step> {
    match FromHex(e.hash)
    case None => None
    case Some(b) => Some(Step(b, e.position == "left"))
  }

  function DecodePath(path: seq<PathEntry>): Option<seq<Step>> {
    if path == [] then Some([])
    else if DecodeStep(path[0]).None? || DecodePath(path[1..]).None? then None
    else Some([DecodeStep(path[0]).value] + DecodePath(path[1..]).value)
  }

  lemma {:induction false} DecodeEncodePath(path: seq<Step>)
    ensures DecodePath(EncodePath(path)) == Some(path)
  {
    if path != [] {
      HexRoundTrip(path[0].sibling);
      assert EncodePath(path)[1..] == EncodePath(path[1..]);
      DecodeEncodePath(path[1..]);
      assert path == [path[0]] + path[1..];
    }
  }

  /** The text that the verifier compares with the claimed root. */
  function Rebuilt(h: HashFn, leafHash: string, path: seq<PathEntry>): Option<string> {
    if path == [] then Some(leafHash)
    else if FromHex(leafHash).None? || DecodePath(path).None? then None
    else Some(Hex(Climb(h, FromHex(leafHash).value, DecodePath(path).value)))
  }

  /** What the verifier accepts, stated without its loop. */
  predicate InclusionAccepted(h: HashFn, verify: VerifyFn, p: InclusionProof) {
    && Rebuilt(h, p.leafHash, p.path) == Some(p.root)
    && (p.signedRoot == "" || p.signedRoot == p.root)
    && (p.signature == "" || p.publicKey == "" ||
        (FromHex(p.root).Some? && verify(p.publicKey, FromHex(p.root).value, p.signature)))
  }

  lemma RebuiltStep(h: HashFn, leafHash: string, path: seq<PathEntry>)
    requires path != []
    ensures Rebuilt(h, leafHash, path) ==
      if FromHex(leafHash).None? || DecodeStep(path[0]).None? then None
      else Rebuilt(h, Hex(h(StepInput(FromHex(leafHash).value, DecodeStep(path[0]).value))), path[1..])
  {
    if FromHex(leafHash).Some? && DecodeStep(path[0]).Some? {
      var step := DecodeStep(path[0]).value;
      HexRoundTrip(h(StepInput(FromHex(leafHash).value, step)));
      if DecodePath(path[1..]).Some? {
        var steps := [step] + DecodePath(path[1..]).value;
        assert steps[1..] == DecodePath(path[1..]).value;
        assert DecodePath(path) == Some(steps);
        assert Climb(h, FromHex(leafHash).value, steps)
            == Climb(h, h(StepInput(FromHex(leafHash).value, step)), steps[1..]);
      }
    }
  }

  method VerifyInclusionProof(h: HashFn, verify: VerifyFn, p: InclusionProof) returns (ok: bool)
    ensures ok == InclusionAccepted(h, verify, p)
  {
    var current := p.leafHash;
    var i := 0;
    while i < |p.path|
      invariant 0 <= i <= |p.path|
      invariant Rebuilt(h, current, p.path[i..]) == Rebuilt(h, p.leafHash, p.path)
    {
      RebuiltStep(h, current, p.path[i..]);
      var sibling, value := FromHex(p.path[i].hash), FromHex(current);
      if sibling.None? || value.None? {
        return false;
      }
      var combined := if p.path[i].position == "left" then sibling.value + value.value
                      else value.value + sibling.value;
      current := Hex(h(combined));
      assert p.path[i..][1..] == p.path[i + 1..];
      i := i + 1;
    }
    assert p.path[i..] == [];
    if current != p.root {
      return false;
    }
    if p.signedRoot != "" && current != p.signedRoot {
      return false;
    }
    if p.signature != "" && p.publicKey != "" {
      if FromHex(p.root).None? {
        return false;
      }
      return verify(p.publicKey, FromHex(p.root).value, p.signature);
    }
    return true;
  }

  /** `leaves.index(leaf)`. */
  method FirstIndex(leaves: seq<Digest>, leaf: Digest) returns (k: nat)
    requires leaf in leaves
    ensures k < |leaves| && leaves[k] == leaf && leaf !in leaves[..k]
  {
    k := 0;
    while leaves[k] != leaf
      invariant k < |leaves| && leaf !in leaves[..k]
      decreases |leaves| - k
    {
      assert leaves == leaves[..k] + leaves[k..];
      k := k + 1;
    }
  }

  /** What holds between the rounds of the walk from a leaf to the root. */
  ghost predicate Walking(h: HashFn, leaves: seq<Digest>, start: nat, path: seq<Step>, current: seq<Digest>, idx: nat) {
    && start < |leaves| && idx < |current|
    && path + PathOf(h, current, idx) == PathOf(h, leaves, start)
    && Root(h, current) == Root(h, leaves)
  }

  lemma WalkRound(h: HashFn, leaves: seq<Digest>, start: nat, path: seq<Step>, level: seq<Digest>, i: nat)
    requires Walking(h, leaves, start, path, level, i) && |level| > 1
    ensures Walking(h, leaves, start, path + [SiblingOf(level, i)], Up(h, level), i / 2)
  {
    assert path + PathOf(h, level, i) == path + [SiblingOf(level, i)] + PathOf(h, Up(h, level), i / 2);
  }

  /** The loop that walks from a leaf to the root, collecting siblings. */
  method WalkUp(h: HashFn, leaves: seq<Digest>, start: nat) returns (path: seq<Step>, root: Digest)
    requires start < |leaves|
    ensures path == PathOf(h, leaves, start)
    ensures root == Root(h, leaves)
  {
    path := [];
    var current, idx: nat := leaves, start;
    while |current| > 1
      invariant Walking(h, leaves, start, path, current, idx)
      decreases |current|
    {
      ghost var level := current;
      WalkRound(h, leaves, start, path, current, idx);
      if |current| % 2 == 1 {
        current := current + [current[|current| - 1]];
      }
      var step := if idx % 2 == 0 then Step(current[idx + 1], false) else Step(current[idx - 1], true);
      assert step == SiblingOf(level, idx);
      path := path + [step];
      current := HashPairs(h, current);
      assert current == Up(h, level);
      idx := idx / 2;
    }
    root := current[0];
  }

  lemma LeafOfMember(h: HashFn, ids: seq<string>, target: string)
    requires target in ids
    ensures h(Utf8(target)) in Leaves(h, ids)
  {
    SortMembers(LexLe, ids);
    var sorted := SortIds(ids);
    var i :| 0 <= i < |sorted| && sorted[i] == target;
    assert Leaves(h, ids)[i] == h(Utf8(target));
  }

  /**
    Builds the proof in the order of `compute_inclusion_proof`; `None` is the
    ValueError for an empty list or an unknown id.
   */
  method ComputeInclusionProof(h: HashFn, ids: seq<string>, target: string, batch: Option<BatchHead>)
    returns (r: Option<InclusionProof>)
    ensures r.Some? <==> target in ids
    ensures r.Some? ==>
      && r.value.leafHash == Hex(h(Utf8(target)))
      && r.value.root == Hex(MerkleRoot(h, ids))
      && |r.value.path| == Height(|Leaves(h, ids)|)
      && Rebuilt(h, r.value.leafHash, r.value.path) == Some(r.value.root)
      && r.value.signedRoot == (if batch.Some? then batch.value.merkleRoot else r.value.root)
      && r.value.signature == (if batch.Some? then batch.value.signature else "")
      && r.value.publicKey == (if batch.Some? then batch.value.publicKey else "")
  {
    if target !in ids {
      return None;
    }
    var leaves := Leaves(h, ids);
    var leaf := h(Utf8(target));
    LeafOfMember(h, ids, target);
    var start := FirstIndex(leaves, leaf);
    var path, root := WalkUp(h, leaves, start);
    PathRebuildsRoot(h, leaves, start);
    DecodeEncodePath(path);
    HexRoundTrip(leaf);
    var head := if batch.Some? then batch.value else BatchHead(Hex(root), "", "", "");
    r := Some(InclusionProof(Hex(leaf), start, EncodePath(path), Hex(root),
                             head.merkleRoot, head.signature, head.publicKey, head.keyId));
  }

  /**
    End to end: the proof computed for a member is accepted when it is bound to
    no batch, and when it is bound to a batch whose root is the root of these
    ids and whose signature, if there is one, is good.
   */
  method ProveAndVerify(h: HashFn, verify: VerifyFn, ids: seq<string>, target: string, batch: Option<BatchHead>)
    returns (ok: bool)
    requires target in ids
    requires batch.Some? ==>
      && batch.value.merkleRoot == Hex(MerkleRoot(h, ids))
      && (batch.value.signature != "" && batch.value.publicKey != "" ==>
          verify(batch.value.publicKey, MerkleRoot(h, ids), batch.value.signature))
    ensures ok
  {
    var p := ComputeInclusionProof(h, ids, target, batch);
    HexRoundTrip(MerkleRoot(h, ids));
    ok := VerifyInclusionProof(h, verify, p.value);
  }

  /** Soundness of the verifier as deployed, on the hexadecimal proof. */
  lemma AcceptedProofHasMember(h: HashFn, verify: VerifyFn, ids: seq<string>, p: InclusionProof)
    requires ids != [] && p.root == Hex(MerkleRoot(h, ids)) && InclusionAccepted(h, verify, p)
    requires |p.path| == Height(|Leaves(h, ids)|)
    requires FromHex(p.leafHash).Some? && |FromHex(p.leafHash).value| == 32
    requires forall i :: 0 <= i < |p.path| ==>
      FromHex(p.path[i].hash).Some? ==> |FromHex(p.path[i].hash).value| == 32
    ensures
      var leaf: Digest := FromHex(p.leafHash).value;
      && DecodePath(p.path).Some?
      && (leaf in Leaves(h, ids) ||
          Collides(h, ClimbInputs(h, leaf, DecodePath(p.path).value), TreeInputs(h, Leaves(h, ids))))
  {
    var leaf: Digest := FromHex(p.leafHash).value;
    assert p.path != [];
    var path := DecodePath(p.path).value;
    DecodedSiblings(p.path);
    HexInjective(Climb(h, leaf, path), MerkleRoot(h, ids));
    ClimbFromMember(h, Leaves(h, ids), leaf, path);
  }

  lemma {:induction false} DecodedSiblings(path: seq<PathEntry>)
    requires DecodePath(path).Some?
    ensures |DecodePath(path).value| == |path|
    ensures forall i :: 0 <= i < |path| ==> FromHex(path[i].hash) == Some(DecodePath(path).value[i].sibling)
  {
    if path != [] { DecodedSiblings(path[1..]); }
  }
}
