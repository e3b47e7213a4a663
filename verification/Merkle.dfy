/**
 The distributor's claim tree (packages/sdk/src/merkle.ts, programs/distributor/src/merkle.rs).

 Digests are free terms: a leaf digest remembers what was hashed, a node digest remembers its two
 children, and every other 32-byte string is `Raw`. This is what collision resistance and the
 72-byte / 64-byte preimage lengths are meant to give, without claiming that a function into
 32-byte strings can be injective.
 */
module Merkle {
  import opened Arith
  import opened Prelude

  type Key = nat  // a 32-byte public key, read as a number

  datatype Digest =
    | Raw(bytes: nat)
    | LeafDigest(epoch: Key, wallet: Key, amount: nat)
    | NodeDigest(lo: Digest, hi: Digest)

  const ZERO_ROOT := Raw(0)

  /** Bytewise comparison of digests. Only totality and antisymmetry (below) matter. */
  predicate AtMost(a: Digest, b: Digest) {
    match (a, b)
    case (Raw(x), Raw(y)) => x <= y
    case (Raw(_), _) => true
    case (LeafDigest(_, _, _), Raw(_)) => false
    case (LeafDigest(e, w, x), LeafDigest(f, v, y)) => e < f || (e == f && (w < v || (w == v && x <= y)))
    case (LeafDigest(_, _, _), NodeDigest(_, _)) => true
    case (NodeDigest(l, h), NodeDigest(m, i)) => if l == m then AtMost(h, i) else AtMost(l, m)
    case (NodeDigest(_, _), _) => false
  }

  lemma {:induction false} AtMostTotalAntisymmetric(a: Digest, b: Digest)
    ensures AtMost(a, b) || AtMost(b, a)
    ensures AtMost(a, b) && AtMost(b, a) ==> a == b
  {
    if a.NodeDigest? && b.NodeDigest? {
      AtMostTotalAntisymmetric(a.lo, b.lo);
      AtMostTotalAntisymmetric(a.hi, b.hi);
    }
  }

  function HashPair(a: Digest, b: Digest): Digest {
    if AtMost(a, b) then NodeDigest(a, b) else NodeDigest(b, a)
  }

  /** No left/right flag is needed in a proof: the parent does not depend on the order of its children. */
  lemma HashPairCommutes(a: Digest, b: Digest)
    ensures HashPair(a, b) == HashPair(b, a)
  {
    AtMostTotalAntisymmetric(a, b);
  }

  /** The smaller digest is hashed first. */
  lemma HashPairOrders(a: Digest, b: Digest)
    ensures HashPair(a, b).NodeDigest? && AtMost(HashPair(a, b).lo, HashPair(a, b).hi)
    ensures HashPair(a, b) == NodeDigest(a, b) || HashPair(a, b) == NodeDigest(b, a)
  {
    AtMostTotalAntisymmetric(a, b);
  }

  // ----- layers and proofs -----

  /** Node `i` of the layer above `layer`: the pair below it, or the odd last node carried up. */
  function Parent(layer: seq<Digest>, i: nat): Digest
    requires 2 * i < |layer|
  {
    if 2 * i + 1 < |layer| then HashPair(layer[2 * i], layer[2 * i + 1]) else layer[2 * i]
  }

  function NextLayer(layer: seq<Digest>): seq<Digest> {
    seq((|layer| + 1) / 2, i requires 0 <= i < (|layer| + 1) / 2 => Parent(layer, i))
  }

  function Layers(leaves: seq<Digest>): seq<seq<Digest>>
    requires leaves != []
    decreases |leaves|
  {
    if |leaves| == 1 then [leaves] else [leaves] + Layers(NextLayer(leaves))
  }

  function Root(leaves: seq<Digest>): Digest
    requires leaves != []
    decreases |leaves|
  {
    if |leaves| == 1 then leaves[0] else Root(NextLayer(leaves))
  }

  function Sibling(i: nat): nat {
    if i % 2 == 1 then i - 1 else i + 1
  }

  function Proof(leaves: seq<Digest>, i: nat): seq<Digest>
    requires i < |leaves|
    decreases |leaves|
  {
    if |leaves| == 1 then [] else
    (if Sibling(i) < |leaves| then [leaves[Sibling(i)]] else []) + Proof(NextLayer(leaves), i / 2)
  }

  /** What a verifier computes from a leaf and a proof. */
  function Fold(leaf: Digest, proof: seq<Digest>): Digest
    decreases |proof|
  {
    if proof == [] then leaf else Fold(HashPair(leaf, proof[0]), proof[1..])
  }

  /** Neighbours are paired from the left, node by node, and an odd last one is carried up. */
  lemma PairsFromTheLeft(layer: seq<Digest>, i: nat)
    ensures 2 * i + 1 < |layer| ==> i < |NextLayer(layer)| && NextLayer(layer)[i] == HashPair(layer[2 * i], layer[2 * i + 1])
    ensures |layer| == 2 * i + 1 ==> |NextLayer(layer)| == i + 1 && NextLayer(layer)[i] == layer[2 * i]
    ensures |layer| == 2 * i ==> |NextLayer(layer)| == i
  {}

  // ----- completeness -----

  /** Every leaf of every tree proves itself, also when odd nodes were carried up on its path. */
  lemma {:induction false} ProofVerifies(leaves: seq<Digest>, i: nat)
    requires i < |leaves|
    ensures Fold(leaves[i], Proof(leaves, i)) == Root(leaves)
    decreases |leaves|
  {
    if |leaves| > 1 {
      var up := NextLayer(leaves);
      ProofVerifies(up, i / 2);
      var s := Sibling(i);
      if s < |leaves| {
        HashPairCommutes(leaves[i], leaves[s]);
        var rest := Proof(up, i / 2);
        assert ([leaves[s]] + rest)[1..] == rest;
        assert up[i / 2] == HashPair(leaves[i], leaves[s]);
      } else {
        assert up[i / 2] == leaves[i];
        assert [] + Proof(up, i / 2) == Proof(up, i / 2);
      }
    }
  }

  /** A proof begins at the leaf: its first node is the leaf's neighbour, if it has one, and the rest proves their parent. */
  lemma ProofFromTheLeaf(leaves: seq<Digest>, i: nat)
    requires i < |leaves| && |leaves| > 1
    ensures var neighbour := if i % 2 == 1 then i - 1 else i + 1; var rest := Proof(NextLayer(leaves), i / 2);
      Proof(leaves, i) == if neighbour < |leaves| then [leaves[neighbour]] + rest else rest
  {
    var rest := Proof(NextLayer(leaves), i / 2);
    assert [] + rest == rest;
  }

  /** A verifier takes the nodes one after another. */
  lemma {:induction false} FoldLast(leaf: Digest, proof: seq<Digest>, node: Digest)
    ensures Fold(leaf, []) == leaf && Fold(leaf, proof + [node]) == HashPair(Fold(leaf, proof), node)
    decreases |proof|
  {
    if proof == [] {
      assert proof + [node] == [node] && [node][1..] == [];
    } else {
      FoldLast(HashPair(leaf, proof[0]), proof[1..], node);
      assert (proof + [node])[1..] == proof[1..] + [node];
    }
  }

  function Pow2(n: nat): (p: nat)
    ensures p >= 1
  {
    if n == 0 then 1 else 2 * Pow2(n - 1)
  }

  /** A proof is never longer than ceil(log2 n): a tree of up to 2^d leaves has proofs of at most d nodes. */
  lemma {:induction false} ProofLength(leaves: seq<Digest>, i: nat, d: nat)
    requires i < |leaves| <= Pow2(d)
    ensures |Proof(leaves, i)| <= d
    decreases |leaves|
  {
    if |leaves| > 1 {
      ProofLength(NextLayer(leaves), i / 2, d - 1);
    }
  }

  /** Layer k has ceil(n / 2^k) nodes, and the last layer is the root alone. */
  lemma {:induction false} LayerWidth(leaves: seq<Digest>, k: nat)
    requires leaves != [] && k < |Layers(leaves)|
    ensures |Layers(leaves)[k]| == (|leaves| + Pow2(k) - 1) / Pow2(k)
    ensures Layers(leaves)[|Layers(leaves)| - 1] == [Root(leaves)]
    decreases |leaves|
  {
    if |leaves| == 1 {
      assert leaves == [leaves[0]];
    } else {
      var up := NextLayer(leaves);
      if k > 0 {
        LayerWidth(up, k - 1);
        HalveTwice(|leaves|, Pow2(k - 1));
      } else {
        LayerWidth(up, 0);
      }
    }
  }

  lemma HalveTwice(n: nat, p: nat)
    requires p >= 1
    ensures ((n + 1) / 2 + p - 1) / p == (n + 2 * p - 1) / (2 * p)
  {
    var m := n + 2 * p - 1;
    assert (n + 1) / 2 + p - 1 == m / 2;
    var q, r := m / (2 * p), m % (2 * p);
    assert m == 2 * (p * q) + r;
    assert m / 2 == p * q + r / 2 && r / 2 < p;
    DivUnique(m / 2, p, q, r / 2);
  }

  // ----- soundness -----

  /** The leaf digests a term was built from. */
  function LeavesIn(d: Digest): set<Digest> {
    match d
    case Raw(_) => {}
    case LeafDigest(_, _, _) => {d}
    case NodeDigest(lo, hi) => LeavesIn(lo) + LeavesIn(hi)
  }

  lemma {:induction false} FoldKeepsLeaves(leaf: Digest, proof: seq<Digest>)
    ensures LeavesIn(leaf) <= LeavesIn(Fold(leaf, proof))
    decreases |proof|
  {
    if proof != [] {
      FoldKeepsLeaves(HashPair(leaf, proof[0]), proof[1..]);
    }
  }

  lemma {:induction false} RootLeaves(layer: seq<Digest>, d: Digest)
    requires layer != [] && d in LeavesIn(Root(layer))
    ensures exists i :: 0 <= i < |layer| && d in LeavesIn(layer[i])
    decreases |layer|
  {
    if |layer| > 1 {
      RootLeaves(NextLayer(layer), d);
      var j :| 0 <= j < |NextLayer(layer)| && d in LeavesIn(NextLayer(layer)[j]);
      assert NextLayer(layer)[j] == Parent(layer, j);
      assert d in LeavesIn(layer[2 * j]) || (2 * j + 1 < |layer| && d in LeavesIn(layer[2 * j + 1]));
    }
  }

  /**
   Whatever proof is presented, a leaf digest that folds to the root is one of the tree's own leaves;
   in particular no inner node can be passed off as a leaf.
   */
  lemma VerifiedLeafIsInTree(leaves: seq<Digest>, leaf: Digest, proof: seq<Digest>)
    requires leaves != [] && forall i :: 0 <= i < |leaves| ==> leaves[i].LeafDigest?
    requires leaf.LeafDigest? && Fold(leaf, proof) == Root(leaves)
    ensures leaf in leaves
  {
    FoldKeepsLeaves(leaf, proof);
    RootLeaves(leaves, leaf);
  }

  /** Hashing never yields a `Raw` digest, so nothing verifies against the zero root of an all-push epoch. */
  lemma {:induction false} NothingVerifiesAgainstZero(leaf: Digest, proof: seq<Digest>)
    requires leaf.LeafDigest?
    ensures Fold(leaf, proof) != ZERO_ROOT
  {
    FoldKeepsLeaves(leaf, proof);
  }

  // ----- the loops -----

  datatype Tree = Tree(layers: seq<seq<Digest>>, root: Digest, leafCount: nat)

  datatype MerkleError = NoLeaves | IndexOutOfRange | NoEntries | DuplicateWallet(wallet: Key) | AmountOutOfRange | WalletNotInTree

  method BuildTree(leaves: seq<Digest>) returns (r: Result<Tree, MerkleError>)
    ensures r == if leaves == [] then Err(NoLeaves) else Ok(Tree(Layers(leaves), Root(leaves), |leaves|))
  {
    if leaves == [] {
      return Err(NoLeaves);
    }
    var layers := [leaves];
    var current := leaves;
    while |current| > 1
      invariant current != [] && layers != []
      invariant layers[..|layers| - 1] + Layers(current) == Layers(leaves)
      invariant layers[|layers| - 1] == current
      invariant Root(current) == Root(leaves)
      decreases |current|
    {
      var next := [];
      var i := 0;
      while i < |current|
        invariant 0 <= i <= |current| + 1 && i % 2 == 0
        invariant |next| == i / 2 <= |NextLayer(current)|
        invariant next == NextLayer(current)[..i / 2]
      {
        if i + 1 < |current| {
          next := next + [HashPair(current[i], current[i + 1])];
        } else {
          next := next + [current[i]];
        }
        assert next[i / 2] == Parent(current, i / 2);
        i := i + 2;
      }
      assert next == NextLayer(current);
      assert layers == layers[..|layers| - 1] + [current];
      layers := layers + [next];
      current := next;
      assert layers[..|layers| - 1] + Layers(current) == Layers(leaves);
    }
    assert Layers(current) == [current];
    assert layers == layers[..|layers| - 1] + [current];
    return Ok(Tree(layers, current[0], |leaves|));
  }

  lemma {:induction false} LayersShape(leaves: seq<Digest>, k: nat)
    requires leaves != [] && k < |Layers(leaves)|
    ensures Layers(leaves)[k] != []
    ensures Layers(leaves)[0] == leaves
    ensures k == |Layers(leaves)| - 1 <==> |Layers(leaves)[k]| == 1
    ensures Layers(Layers(leaves)[k]) == Layers(leaves)[k..]
    decreases |leaves|
  {
    if |leaves| > 1 && k > 0 {
      LayersShape(NextLayer(leaves), k - 1);
      assert Layers(leaves)[k..] == Layers(NextLayer(leaves))[k - 1..];
    } else if |leaves| > 1 {
      LayersShape(NextLayer(leaves), 0);
    }
  }

  lemma NextLayerFollows(leaves: seq<Digest>, k: nat)
    requires leaves != [] && k + 1 < |Layers(leaves)|
    ensures |Layers(leaves)[k]| > 1 && Layers(leaves)[k + 1] == NextLayer(Layers(leaves)[k])
  {
    LayersShape(leaves, k);
    var nodes := Layers(leaves)[k];
    assert Layers(leaves)[k + 1] == Layers(leaves)[k..][1] == Layers(nodes)[1] == Layers(NextLayer(nodes))[0];
    LayersShape(NextLayer(nodes), 0);
  }

  lemma ProofStep(nodes: seq<Digest>, i: nat, done: seq<Digest>)
    requires i < |nodes| && |nodes| > 1
    ensures var taken := if Sibling(i) < |nodes| then done + [nodes[Sibling(i)]] else done;
      taken + Proof(NextLayer(nodes), i / 2) == done + Proof(nodes, i)
  {
    var rest := Proof(NextLayer(nodes), i / 2);
    if Sibling(i) < |nodes| {
      assert Proof(nodes, i) == [nodes[Sibling(i)]] + rest;
    } else {
      assert Proof(nodes, i) == [] + rest;
    }
  }

  method GetProof(leaves: seq<Digest>, layers: seq<seq<Digest>>, index: int) returns (r: Result<seq<Digest>, MerkleError>)
    requires leaves != [] && layers == Layers(leaves)
    ensures !(0 <= index < |leaves|) ==> r == Err(IndexOutOfRange)
    ensures 0 <= index < |leaves| ==> r.Ok? && r.value == Proof(leaves, index) && Fold(leaves[index], r.value) == Root(leaves)
  {
    LayersShape(leaves, 0);
    var leafCount := |layers[0]|;
    if index < 0 || index >= leafCount {
      return Err(IndexOutOfRange);
    }
    var proof: seq<Digest> := [];
    var idx: nat := index;
    var layer := 0;
    while layer < |layers| - 1
      invariant 0 <= layer < |layers|
      invariant idx < |layers[layer]|
      invariant proof + Proof(layers[layer], idx) == Proof(leaves, index)
    {
      var nodes := layers[layer];
      NextLayerFollows(leaves, layer);
      ProofStep(nodes, idx, proof);
      var siblingIdx := Sibling(idx);
      if siblingIdx < |nodes| {
        proof := proof + [nodes[siblingIdx]];
      }
      idx := idx / 2;
      layer := layer + 1;
    }
    LayersShape(leaves, layer);
    ProofVerifies(leaves, index);
    return Ok(proof);
  }

  method Verify(leaf: Digest, proof: seq<Digest>, root: Digest) returns (ok: bool)
    ensures ok == (Fold(leaf, proof) == root)
  {
    var computed := leaf;
    for i := 0 to |proof|
      invariant Fold(computed, proof[i..]) == Fold(leaf, proof)
    {
      assert proof[i..][0] == proof[i] && proof[i..][1..] == proof[i + 1..];
      computed := HashPair(computed, proof[i]);
    }
    return computed == root;
  }
}
