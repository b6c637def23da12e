/**
  The chaining scheme shared by the audit log, the key registry and the anchor
  store: `chain_hash = SHA-256(previous chain_hash || row_hash)`, rooted in the
  genesis value.
 */
module HashChain {
  import opened Prelude
  import opened TextEncoding

  /** The chain hash after rows with the given contents. */
  function Tip(h: HashFn, contents: seq<Bytes>): Digest
    decreases |contents|, 1
  {
    if contents == [] then GENESIS else h(LinkInput(h, contents))
  }

  /** What is hashed for the last link. */
  function LinkInput(h: HashFn, contents: seq<Bytes>): Bytes
    requires contents != []
    decreases |contents|, 0
  {
    var n := |contents| - 1;
    Cat(Tip(h, contents[..n]), h(contents[n]))
  }

  lemma TipAppend(h: HashFn, contents: seq<Bytes>, c: Bytes)
    ensures Tip(h, contents + [c]) == h(Cat(Tip(h, contents), h(c)))
  {
    assert (contents + [c])[..|contents|] == contents;
  }

  /** Everything that is hashed for a chain. */
  function ChainInputs(h: HashFn, contents: seq<Bytes>): set<Bytes> {
    if contents == [] then {}
    else ChainInputs(h, contents[..|contents| - 1]) + {contents[|contents| - 1], LinkInput(h, contents)}
  }

  /** The two chains exhibit a collision, or one of them a preimage of the genesis value. */
  ghost predicate Compromised(h: HashFn, xs: seq<Bytes>, ys: seq<Bytes>) {
    || Collides(h, ChainInputs(h, xs), ChainInputs(h, ys))
    || HitsGenesis(h, ChainInputs(h, xs))
    || HitsGenesis(h, ChainInputs(h, ys))
  }

  /** Equal tips mean equal rows, whatever the lengths, unless the hash is broken here. */
  lemma {:induction false} ChainBinding(h: HashFn, xs: seq<Bytes>, ys: seq<Bytes>)
    requires Tip(h, xs) == Tip(h, ys)
    ensures xs == ys || Compromised(h, xs, ys)
  {
    if xs == [] || ys == [] {
      if xs != [] { assert LinkInput(h, xs) in ChainInputs(h, xs); }
      if ys != [] { assert LinkInput(h, ys) in ChainInputs(h, ys); }
    } else {
      var m, n := |xs| - 1, |ys| - 1;
      var a, b := LinkInput(h, xs), LinkInput(h, ys);
      assert a in ChainInputs(h, xs) && b in ChainInputs(h, ys);
      assert xs[m] in ChainInputs(h, xs) && ys[n] in ChainInputs(h, ys);
      if a == b {
        assert Tip(h, xs[..m]) == a[..32] == b[..32] == Tip(h, ys[..n]);
        assert h(xs[m]) == a[32..] == b[32..] == h(ys[n]);
        ChainBinding(h, xs[..m], ys[..n]);
        assert xs == xs[..m] + [xs[m]] && ys == ys[..n] + [ys[n]];
      }
    }
  }

  // ---- Stored links and their verification ----

  /** A stored row: its hashed content, and the two hash columns as stored. */
  datatype Link = Link(content: Bytes, rowHash: string, chainHash: string)

  function Contents(links: seq<Link>): (r: seq<Bytes>)
    ensures |r| == |links|
    ensures forall i :: 0 <= i < |links| ==> r[i] == links[i].content
  {
    seq(|links|, i requires 0 <= i < |links| => links[i].content)
  }

  predicate IntactAt(h: HashFn, links: seq<Link>, k: nat)
    requires k < |links|
  {
    && links[k].rowHash == Hex(h(links[k].content))
    && links[k].chainHash == Hex(Tip(h, Contents(links)[..k + 1]))
  }

  /** Every stored hash is the one recomputed from the contents before it. */
  ghost predicate Intact(h: HashFn, links: seq<Link>) {
    forall k :: 0 <= k < |links| ==> IntactAt(h, links, k)
  }

  function FinalHash(links: seq<Link>): string {
    if links == [] then GENESIS_HEX else links[|links| - 1].chainHash
  }

  lemma IntactFinalHash(h: HashFn, links: seq<Link>)
    requires Intact(h, links)
    ensures FinalHash(links) == Hex(Tip(h, Contents(links)))
  {
    if links == [] {
      HexOfGenesis(Tip(h, Contents(links)));
    } else {
      assert IntactAt(h, links, |links| - 1);
      assert Contents(links)[..|links|] == Contents(links);
    }
  }

  lemma IntactPrefix(h: HashFn, links: seq<Link>, n: nat)
    requires n <= |links|
    ensures Contents(links[..n]) == Contents(links)[..n]
    ensures Intact(h, links[..n]) <==> forall k :: 0 <= k < n ==> IntactAt(h, links, k)
  {
    var p := links[..n];
    forall k | 0 <= k < n ensures IntactAt(h, p, k) <==> IntactAt(h, links, k) {
      assert Contents(p)[..k + 1] == Contents(links)[..k + 1];
    }
  }

  /** Appending a correctly computed link keeps a chain intact. */
  lemma IntactAppend(h: HashFn, links: seq<Link>, link: Link)
    requires Intact(h, links)
    requires link.rowHash == Hex(h(link.content))
    requires link.chainHash == Hex(h(Cat(Tip(h, Contents(links)), h(link.content))))
    ensures Intact(h, links + [link])
  {
    var all := links + [link];
    assert all[..|links|] == links;
    IntactPrefix(h, all, |links|);
    assert Contents(all) == Contents(links) + [link.content];
    TipAppend(h, Contents(links), link.content);
    assert Contents(all)[..|all|] == Contents(all);
    forall k | 0 <= k < |all| ensures IntactAt(h, all, k) {
      if k < |links| { assert IntactAt(h, links, k); }
    }
  }

  /** Accepted chains with the same final hash have the same contents. */
  lemma IntactBinding(h: HashFn, a: seq<Link>, b: seq<Link>)
    requires Intact(h, a) && Intact(h, b) && FinalHash(a) == FinalHash(b)
    ensures Contents(a) == Contents(b) || Compromised(h, Contents(a), Contents(b))
  {
    IntactFinalHash(h, a);
    IntactFinalHash(h, b);
    HexInjective(Tip(h, Contents(a)), Tip(h, Contents(b)));
    ChainBinding(h, Contents(a), Contents(b));
  }

  lemma TipStep(h: HashFn, links: seq<Link>, k: nat)
    requires k < |links|
    ensures Tip(h, Contents(links)[..k + 1]) == h(Cat(Tip(h, Contents(links)[..k]), h(links[k].content)))
  {
    assert Contents(links)[..k + 1] == Contents(links)[..k] + [links[k].content];
    TipAppend(h, Contents(links)[..k], links[k].content);
  }

  /** What the walk knows before row `k`: the rows so far are intact, and their tip is `prev`. */
  ghost predicate Walked(h: HashFn, links: seq<Link>, k: nat, prev: string)
    requires k <= |links|
  {
    && prev == Hex(Tip(h, Contents(links)[..k]))
    && forall j :: 0 <= j < k ==> IntactAt(h, links, j)
  }

  /** The test that the walk applies to a row. */
  predicate RowMatches(h: HashFn, prev: string, link: Link) {
    && link.rowHash == Hex(h(link.content))
    && FromHex(prev).Some?
    && link.chainHash == Hex(h(Cat(FromHex(prev).value, h(link.content))))
  }

  lemma WalkStarts(h: HashFn, links: seq<Link>)
    ensures Walked(h, links, 0, GENESIS_HEX)
  {
    HexOfGenesis(Tip(h, Contents(links)[..0]));
  }

  lemma WalkStep(h: HashFn, links: seq<Link>, k: nat, prev: string)
    requires k < |links| && Walked(h, links, k, prev)
    ensures RowMatches(h, prev, links[k]) <==> IntactAt(h, links, k)
    ensures IntactAt(h, links, k) ==> Walked(h, links, k + 1, links[k].chainHash)
    ensures !IntactAt(h, links, k) ==>
      Intact(h, links[..k]) && !Intact(h, links[..k + 1]) && !Intact(h, links)
  {
    HexRoundTrip(Tip(h, Contents(links)[..k]));
    TipStep(h, links, k);
    IntactPrefix(h, links, k);
    IntactPrefix(h, links, k + 1);
  }

  /**
    The verification walk. It stops at the first row that breaks the chain:
    the rows before it are intact, the rows up to and including it are not.
   */
  method WalkChain(h: HashFn, links: seq<Link>) returns (broken: Option<nat>)
    ensures broken.None? <==> Intact(h, links)
    ensures broken.Some? ==>
      broken.value < |links| && Intact(h, links[..broken.value]) && !Intact(h, links[..broken.value + 1])
  {
    var prev := GENESIS_HEX;
    WalkStarts(h, links);
    for k := 0 to |links|
      invariant Walked(h, links, k, prev)
    {
      WalkStep(h, links, k, prev);
      if !RowMatches(h, prev, links[k]) {
        return Some(k);
      }
      prev := links[k].chainHash;
    }
    return None;
  }
}
