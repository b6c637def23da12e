/**
  Vocabulary shared by every module: bytes, SHA-256 digests, optional values,
  and what it means to exhibit a hash collision.
 */
module Prelude {

  newtype Byte = x: int | 0 <= x < 256

  type Bytes = seq<Byte>

  /** The 32 raw bytes behind a 64-character hexdigest. */
  type Digest = d: Bytes | |d| == 32 witness seq(32, _ => 0)

  /** SHA-256 enters every statement as an arbitrary function to digests. */
  type HashFn = Bytes -> Digest

  /**
    Ed25519 verification of a hex signature over raw bytes under a hex public
    key (section 5.1.7 of RFC 8032); any failure to decode counts as `false`.
   */
  type VerifyFn = (string, Bytes, string) -> bool

  /** The value `"0" * 64` that roots every chain. */
  const GENESIS: Digest := Zeros(32)

  function Zeros(n: nat): (r: Bytes)
    ensures |r| == n
  {
    seq(n, _ => 0)
  }

  /** Concatenation of raw bytes. */
  function Cat(a: Bytes, b: Bytes): Bytes {
    a + b
  }

  datatype Option<+T> = None | Some(value: T)

  /**
    Two different strings with the same digest, one hashed by each of two
    computations. `xs` and `ys` are the finitely many strings that the two
    computations feed to the hash, so the claim is about concrete data; that
    some collision exists somewhere would be true of every such function.
   */
  ghost predicate Collides(h: HashFn, xs: set<Bytes>, ys: set<Bytes>) {
    exists x, y :: x in xs && y in ys && x != y && h(x) == h(y)
  }

  /** One of the strings that a computation hashed has the genesis digest. */
  ghost predicate HitsGenesis(h: HashFn, xs: set<Bytes>) {
    exists x :: x in xs && h(x) == GENESIS
  }
}
