/**
 Bytes, digests and the hash function.

 SHA-256 is a parameter of every definition that hashes (`Sha`), so each theorem holds for whatever function
 is used. Security statements are reductions: a function that computes a colliding pair of messages from the
 forged input. (That a collision merely exists would say nothing: SHA-256 has collisions.)
 */
module Hashing {

  type byte = n: nat | n < 256

  /** A SHA-256 digest. */
  type Digest = d: seq<byte> | |d| == 32 witness ZERO

  /** The previous-event link of a first entry. */
  const ZERO: seq<byte> :=
    [0, 0, 0, 0, 0, 0, 0, 0, 0, 0, 0, 0, 0, 0, 0, 0, 0, 0, 0, 0, 0, 0, 0, 0, 0, 0, 0, 0, 0, 0, 0, 0]

  type Sha = seq<byte> -> Digest

  datatype Collision = Collision(x: seq<byte>, y: seq<byte>)

  /** `c` is a concrete collision of `h`. */
  predicate Collides(h: Sha, c: Collision) {
    c.x != c.y && h(c.x) == h(c.y)
  }

  /** Hash of a leaf: the prefix byte keeps leaves apart from nodes. */
  function LeafHash(h: Sha, data: seq<byte>): Digest {
    h([0] + data)
  }

  /** Hash of an interior node. */
  function NodeHash(h: Sha, left: Digest, right: Digest): Digest {
    h(NodeMessage(left, right))
  }

  function NodeMessage(left: Digest, right: Digest): seq<byte> {
    [1] + left + right
  }

  function EmptyRoot(h: Sha): Digest {
    h([])
  }

  /** The messages behind two equal node hashes, when they differ. */
  function NodeCollision(a: Digest, b: Digest, c: Digest, d: Digest): Collision {
    Collision(NodeMessage(a, b), NodeMessage(c, d))
  }

  /** Equal node hashes come from equal children, or their messages collide. */
  lemma NodeHashBinds(h: Sha, a: Digest, b: Digest, c: Digest, d: Digest)
    requires NodeHash(h, a, b) == NodeHash(h, c, d)
    ensures (a == c && b == d) || Collides(h, NodeCollision(a, b, c, d))
  {
    var x, y := NodeMessage(a, b), NodeMessage(c, d);
    if x == y {
      assert a == x[1..33] == y[1..33] == c;
      assert b == x[33..] == y[33..] == d;
    }
  }
}
