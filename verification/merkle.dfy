/**
 The Merkle commitment to a block's transactions (types/merkle.go): a layer loop that promotes an
 odd node, proved to compute the recursive tree of section 2.1 of RFC 6962.
 */
module Merkle {
  import opened Types

  type Hash = nat

  const ZERO_HASH: Hash := 0

  /** The two tagged hashes. */
  datatype Hasher = Hasher(leaf: seq<Byte> -> Hash, node: (Hash, Hash) -> Hash)

  /** No collisions: what the leaf and node tags are for. */
  ghost predicate Collisionless(h: Hasher) {
    && (forall d, d' :: h.leaf(d) == h.leaf(d') ==> d == d')
    && (forall l, r, l', r' :: h.node(l, r) == h.node(l', r') ==> l == l' && r == r')
    && (forall d, l, r :: h.leaf(d) != h.node(l, r))
    && (forall d :: h.leaf(d) != ZERO_HASH) && (forall l, r :: h.node(l, r) != ZERO_HASH)
  }

  predicate PowerOfTwo(k: nat) {
    k == 1 || (k > 1 && k % 2 == 0 && PowerOfTwo(k / 2))
  }

  /** The largest power of two smaller than n. */
  function Split(n: nat): (k: nat)
    requires n >= 2
    ensures PowerOfTwo(k) && k < n <= 2 * k
  {
    if n == 2 then 1 else 2 * Split((n + 1) / 2)
  }

  /** The tree of section 2.1 of RFC 6962, with the zero hash for the empty list. */
  function Tree(h: Hasher, leaves: seq<seq<Byte>>): Hash {
    if |leaves| == 0 then ZERO_HASH
    else if |leaves| == 1 then h.leaf(leaves[0])
    else h.node(Tree(h, leaves[..Split(|leaves|)]), Tree(h, leaves[Split(|leaves|)..]))
  }

  /** The same tree over a layer of digests. */
  ghost function Over(h: Hasher, layer: seq<Hash>): Hash
    requires layer != []
  {
    if |layer| == 1 then layer[0]
    else h.node(Over(h, layer[..Split(|layer|)]), Over(h, layer[Split(|layer|)..]))
  }

  function LeafLayer(h: Hasher, leaves: seq<seq<Byte>>): (r: seq<Hash>)
    ensures |r| == |leaves| && forall i :: 0 <= i < |r| ==> r[i] == h.leaf(leaves[i])
  {
    seq(|leaves|, i requires 0 <= i < |leaves| => h.leaf(leaves[i]))
  }

  lemma {:induction false} TreeOverLeaves(h: Hasher, leaves: seq<seq<Byte>>)
    requires leaves != []
    ensures Over(h, LeafLayer(h, leaves)) == Tree(h, leaves)
    decreases |leaves|
  {
    if |leaves| > 1 {
      var k, layer := Split(|leaves|), LeafLayer(h, leaves);
      TreeOverLeaves(h, leaves[..k]);
      TreeOverLeaves(h, leaves[k..]);
      assert layer[..k] == LeafLayer(h, leaves[..k]) && layer[k..] == LeafLayer(h, leaves[k..]);
    }
  }

  /** The layer above: neighbours hashed together, an odd last node promoted as it is. */
  ghost function Pairs(h: Hasher, layer: seq<Hash>): (r: seq<Hash>)
    ensures |r| == (|layer| + 1) / 2
  {
    if |layer| < 2 then layer else [h.node(layer[0], layer[1])] + Pairs(h, layer[2..])
  }

  lemma {:induction false} PairsSplit(h: Hasher, layer: seq<Hash>, k: nat)
    requires k % 2 == 0 && k <= |layer|
    ensures Pairs(h, layer) == Pairs(h, layer[..k]) + Pairs(h, layer[k..])
    decreases k
  {
    if k == 0 {
      assert layer[k..] == layer;
    } else {
      PairsSplit(h, layer[2..], k - 2);
      assert layer[..k][2..] == layer[2..][..k - 2] && layer[2..][k - 2..] == layer[k..];
    }
  }

  lemma OverJoin(h: Hasher, l: seq<Hash>, r: seq<Hash>)
    requires l != [] && r != [] && |l| == Split(|l + r|)
    ensures Over(h, l + r) == h.node(Over(h, l), Over(h, r))
  {
    assert (l + r)[..|l|] == l && (l + r)[|l|..] == r;
  }

  /** Hashing a layer once does not change the tree above it. */
  lemma {:induction false} PairsKeepTree(h: Hasher, layer: seq<Hash>)
    requires layer != []
    ensures Over(h, Pairs(h, layer)) == Over(h, layer)
    decreases |layer|
  {
    if |layer| > 2 {
      hide Over, Pairs;
      var k := Split(|layer|);
      var l, r := layer[..k], layer[k..];
      assert layer == l + r;
      PairsSplit(h, layer, k);
      PairsKeepTree(h, l);
      PairsKeepTree(h, r);
      OverJoin(h, l, r);
      OverJoin(h, Pairs(h, l), Pairs(h, r));
    }
  }

  lemma PairsStep(h: Hasher, layer: seq<Hash>, i: nat, next: seq<Hash>)
    requires i < |layer| && next + Pairs(h, layer[i..]) == Pairs(h, layer)
    ensures i + 1 == |layer| ==> next + [layer[i]] == Pairs(h, layer)
    ensures i + 1 < |layer| ==> next + [h.node(layer[i], layer[i + 1])] + Pairs(h, layer[i + 2..]) == Pairs(h, layer)
  {
    if i + 1 < |layer| {
      assert layer[i..][2..] == layer[i + 2..];
      var n := [h.node(layer[i], layer[i + 1])];
      assert next + (n + Pairs(h, layer[i + 2..])) == next + n + Pairs(h, layer[i + 2..]);
    } else {
      assert layer[i..] == [layer[i]];
    }
  }

  method NextLayer(h: Hasher, layer: seq<Hash>) returns (next: seq<Hash>)
    requires layer != []
    ensures next == Pairs(h, layer)
  {
    next := [];
    var i := 0;
    assert layer[0..] == layer;
    while i < |layer|
      invariant i <= |layer| + 1
      invariant if i < |layer| then next + Pairs(h, layer[i..]) == Pairs(h, layer) else next == Pairs(h, layer)
    {
      PairsStep(h, layer, i, next);
      if i + 1 == |layer| {
        next := next + [layer[i]];
      } else {
        next := next + [h.node(layer[i], layer[i + 1])];
        if i + 2 == |layer| { assert layer[i + 2..] == []; }
      }
      i := i + 2;
    }
  }

  method MerkleRoot(h: Hasher, leaves: seq<seq<Byte>>) returns (root: Hash)
    ensures root == Tree(h, leaves)
  {
    if |leaves| == 0 { return ZERO_HASH; }
    var layer := LeafLayer(h, leaves);
    TreeOverLeaves(h, leaves);
    while |layer| > 1
      invariant layer != [] && Over(h, layer) == Tree(h, leaves)
      decreases |layer|
    {
      PairsKeepTree(h, layer);
      layer := NextLayer(h, layer);
    }
    return layer[0];
  }

  lemma TreeUnfolds(h: Hasher, a: seq<seq<Byte>>)
    ensures |a| == 0 ==> Tree(h, a) == ZERO_HASH
    ensures |a| == 1 ==> Tree(h, a) == h.leaf(a[0]) && a == [a[0]]
    ensures |a| > 1 ==>
              exists l, r :: a == l + r && |l| < |a| && |r| < |a| && Tree(h, a) == h.node(Tree(h, l), Tree(h, r))
  {
    if |a| > 1 {
      var k := Split(|a|);
      assert a == a[..k] + a[k..];
    }
  }

  /** The root determines the whole list, length and order included. */
  lemma {:induction false} RootDeterminesLeaves(h: Hasher, a: seq<seq<Byte>>, b: seq<seq<Byte>>)
    requires Collisionless(h)
    ensures Tree(h, a) == Tree(h, b) <==> a == b
    decreases |a|
  {
    hide Tree;
    TreeUnfolds(h, a);
    TreeUnfolds(h, b);
    if |a| > 1 && |b| > 1 {
      var l, r :| a == l + r && |l| < |a| && |r| < |a| && Tree(h, a) == h.node(Tree(h, l), Tree(h, r));
      var l', r' :| b == l' + r' && |l'| < |b| && |r'| < |b| && Tree(h, b) == h.node(Tree(h, l'), Tree(h, r'));
      RootDeterminesLeaves(h, l, l');
      RootDeterminesLeaves(h, r, r');
    }
  }

  function Hashes<T>(txHash: T -> seq<Byte>, txs: seq<T>): (r: seq<seq<Byte>>)
    ensures |r| == |txs| && forall i :: 0 <= i < |r| ==> r[i] == txHash(txs[i])
  {
    seq(|txs|, i requires 0 <= i < |txs| => txHash(txs[i]))
  }

  /** A block's transaction root: the tree over the transactions' hashes. */
  method TxRoot<T>(h: Hasher, txHash: T -> seq<Byte>, txs: seq<T>) returns (root: Hash)
    ensures root == Tree(h, Hashes(txHash, txs))
  {
    var leaves := [];
    for i := 0 to |txs|
      invariant leaves == Hashes(txHash, txs[..i])
    {
      leaves := leaves + [txHash(txs[i])];
    }
    assert txs[..|txs|] == txs;
    root := MerkleRoot(h, leaves);
  }

  /** So a header that fixes the root fixes the transactions, as far as their hashes tell them apart. */
  lemma TxRootDeterminesTxs<T(!new)>(h: Hasher, txHash: T -> seq<Byte>, a: seq<T>, b: seq<T>)
    requires Collisionless(h) && forall x, y :: txHash(x) == txHash(y) ==> x == y
    ensures Tree(h, Hashes(txHash, a)) == Tree(h, Hashes(txHash, b)) <==> a == b
  {
    hide Tree, Collisionless;
    var s, s' := Hashes(txHash, a), Hashes(txHash, b);
    RootDeterminesLeaves(h, s, s');
    if s == s' {
      forall i | 0 <= i < |a| ensures a[i] == b[i] {
        assert s[i] == s'[i];
      }
    }
  }
}
