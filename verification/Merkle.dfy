/**
 Merkle trees of transaction lists as Bitcoin builds them, and the branch of the first transaction: the
 coinbase, which changes from miner to miner while the rest of the tree stays.
 */
module Merkle {
  import opened Stratum

  type Bytes = seq<byte>

  // ----- The tree -----

  /** One level up: neighbours are hashed together, left before right; a last one without neighbour, with itself. */
  function PairUp(hash: Hash, nodes: seq<Bytes>): (up: seq<Bytes>)
    ensures |up| == (|nodes| + 1) / 2
    ensures forall i :: 0 <= i < |up| ==>
              up[i] == hash(nodes[2 * i] + if 2 * i + 1 < |nodes| then nodes[2 * i + 1] else nodes[2 * i])
  {
    seq((|nodes| + 1) / 2, i requires 0 <= i < (|nodes| + 1) / 2 =>
        hash(nodes[2 * i] + if 2 * i + 1 < |nodes| then nodes[2 * i + 1] else nodes[2 * i]))
  }

  /** The root over a list of transaction hashes. */
  function TreeRoot(hash: Hash, nodes: seq<Bytes>): Bytes
    requires nodes != []
    decreases |nodes|
  {
    if |nodes| == 1 then nodes[0] else TreeRoot(hash, PairUp(hash, nodes))
  }

  /** The siblings on the way from the first transaction to the root. */
  function Branch(hash: Hash, nodes: seq<Bytes>): seq<Bytes>
    requires nodes != []
    decreases |nodes|
  {
    if |nodes| == 1 then [] else [nodes[1]] + Branch(hash, PairUp(hash, nodes))
  }

  // ----- The fold -----

  /** Folding the branch of the first transaction over its hash gives the root of the tree, for every list. */
  lemma {:induction false} FoldGivesRoot(hash: Hash, nodes: seq<Bytes>)
    requires nodes != []
    ensures FoldBranch(hash, nodes[0], Branch(hash, nodes)) == TreeRoot(hash, nodes)
    decreases |nodes|
  {
    hide PairUp;
    if |nodes| > 1 {
      FirstPair(hash, nodes);
      FoldGivesRoot(hash, PairUp(hash, nodes));
      FoldFirst(hash, nodes[0], nodes[1], Branch(hash, PairUp(hash, nodes)));
    }
  }

  lemma {:induction false} FirstPair(hash: Hash, nodes: seq<Bytes>)
    requires |nodes| >= 2
    ensures PairUp(hash, nodes)[0] == hash(nodes[0] + nodes[1])
  {
    assert nodes[2 * 0] == nodes[0];
  }

  lemma {:induction false} FoldFirst(hash: Hash, root: Bytes, h: Bytes, rest: seq<Bytes>)
    ensures FoldBranch(hash, root, [h] + rest) == FoldBranch(hash, hash(root + h), rest)
  {
    assert ([h] + rest)[1..] == rest;
  }

  /** The branch does not depend on the first transaction, so a pool can hand it out before there is one. */
  lemma {:induction false} BranchWithoutFirst(hash: Hash, first: Bytes, other: Bytes, rest: seq<Bytes>)
    ensures Branch(hash, [first] + rest) == Branch(hash, [other] + rest)
    decreases |rest|
  {
    if rest != [] {
      var a, b := [first] + rest, [other] + rest;
      var up, up' := PairUp(hash, a), PairUp(hash, b);
      assert forall i :: 1 <= i < |up| ==> up[i] == up'[i];
      assert up == [up[0]] + up[1..] && up' == [up'[0]] + up'[1..] && up[1..] == up'[1..];
      BranchWithoutFirst(hash, up[0], up'[0], up[1..]);
    }
  }

  // ----- Any branch -----

  /** Hash by hash the path leads from the leaf to the root, with the siblings of the branch on the right. */
  ghost predicate Climbs(hash: Hash, leaf: Bytes, branch: seq<Bytes>, path: seq<Bytes>, root: Bytes) {
    && |path| == |branch| + 1 && path[0] == leaf && path[|branch|] == root
    && forall i :: 0 <= i < |branch| ==> path[i + 1] == hash(path[i] + branch[i])
  }

  /** For every branch, the fold is the one node that can be reached from the leaf. */
  lemma {:induction false} FoldClimbs(hash: Hash, leaf: Bytes, branch: seq<Bytes>, path: seq<Bytes>, root: Bytes)
    requires Climbs(hash, leaf, branch, path, root)
    ensures FoldBranch(hash, leaf, branch) == root
    decreases |branch|
  {
    if branch != [] {
      var next := path[1..];
      assert path[0 + 1] == hash(path[0] + branch[0]);
      assert next[|branch[1..]|] == path[|branch|];
      forall i | 0 <= i < |branch[1..]| ensures next[i + 1] == hash(next[i] + branch[1..][i]) {
        assert path[(i + 1) + 1] == hash(path[i + 1] + branch[i + 1]);
      }
      FoldClimbs(hash, path[1], branch[1..], next, root);
    }
  }

  /** There is such a path, and it ends in the fold. */
  lemma {:induction false} FoldPath(hash: Hash, leaf: Bytes, branch: seq<Bytes>) returns (path: seq<Bytes>)
    ensures Climbs(hash, leaf, branch, path, FoldBranch(hash, leaf, branch))
    decreases |branch|
  {
    if branch == [] {
      path := [leaf];
    } else {
      var next := FoldPath(hash, hash(leaf + branch[0]), branch[1..]);
      path := [leaf] + next;
      forall i | 0 <= i < |branch| ensures path[i + 1] == hash(path[i] + branch[i]) {
        if i > 0 { assert next[(i - 1) + 1] == hash(next[i - 1] + branch[1..][i - 1]); }
      }
    }
  }

  // ----- The coinbase -----

  /** The bytes are the notification's two parts around the two extranonces, by position. */
  predicate LaidOut(bytes: Bytes, n: Notify, extraNonce1: Bytes, extraNonce2: Bytes) {
    var a := |n.coinBase1|;
    var b := a + |extraNonce1|;
    var c := b + |extraNonce2|;
    && |bytes| == c + |n.coinBase2|
    && bytes[..a] == n.coinBase1 && bytes[a..b] == extraNonce1
    && bytes[b..c] == extraNonce2 && bytes[c..] == n.coinBase2
  }

  lemma {:induction false} CoinBaseLaidOut(bytes: Bytes, n: Notify, extraNonce1: Bytes, extraNonce2: Bytes)
    ensures LaidOut(bytes, n, extraNonce1, extraNonce2) <==> bytes == CoinBase(n, extraNonce1, extraNonce2)
  {
    var a := |n.coinBase1|;
    var b := a + |extraNonce1|;
    var c := b + |extraNonce2|;
    if LaidOut(bytes, n, extraNonce1, extraNonce2) {
      Pieces(bytes, a, b, c);
    }
  }

  lemma {:induction false} Pieces(bytes: Bytes, a: nat, b: nat, c: nat)
    requires a <= b <= c <= |bytes|
    ensures bytes == bytes[..a] + bytes[a..b] + bytes[b..c] + bytes[c..]
  {
    assert bytes[..b] == bytes[..a] + bytes[a..b];
    assert bytes[..c] == bytes[..b] + bytes[b..c];
  }
}
