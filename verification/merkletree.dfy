/**
 * The Merkle-root reducer of the ledger. Despite its name it is a left fold:
 * the first two fingerprints are hashed together and the result replaces them
 * at the front, until one fingerprint remains.
 */
module Merkle {
  import opened Wrappers
  import opened Digest

  /** Root is nil until GetRoot runs; layers records each intermediate list. */
  datatype MerkleTree = MerkleTree(root: Option<string>, transactionIDs: seq<string>, layers: seq<seq<string>>)

  /** hashPair: the digest of two fingerprints written one after the other. */
  function HashPair(hash: HashFn, tx1: string, tx2: string): string
  {
    EncodeSHA256(hash, tx1 + tx2)
  }

  /**
   * Reference definition of the root, recursing on the LAST fingerprint:
   * the root of n fingerprints is the pair-hash of the root of the first
   * n - 1 and the n-th. The empty list has root "".
   */
  function FoldRoot(hash: HashFn, ids: seq<string>): string
    decreases |ids|
  {
    if |ids| == 0 then ""
    else if |ids| == 1 then ids[0]
    else HashPair(hash, FoldRoot(hash, ids[..|ids| - 1]), ids[|ids| - 1])
  }

  /** The left-fold equation: reducing the first two fingerprints keeps the root. */
  lemma {:induction false} FoldRootStep(hash: HashFn, ids: seq<string>)
    requires |ids| >= 2
    ensures FoldRoot(hash, ids) == FoldRoot(hash, [HashPair(hash, ids[0], ids[1])] + ids[2..])
    decreases |ids|
  {
    var reduced := [HashPair(hash, ids[0], ids[1])] + ids[2..];
    if |ids| == 2 {
      assert reduced == [HashPair(hash, ids[0], ids[1])];
    } else {
      var n := |ids|;
      var front := ids[..n - 1];
      FoldRootStep(hash, front);
      assert [HashPair(hash, front[0], front[1])] + front[2..] == reduced[..n - 2];
      assert reduced[n - 2] == ids[n - 1];
    }
  }

  /** The reduction is not a balanced tree: three fingerprints nest to the left. */
  lemma RootOfThree(hash: HashFn, a: string, b: string, c: string)
    ensures FoldRoot(hash, [a, b, c]) == hash(hash(a + b) + c)
  {
    var abc := [a, b, c];
    assert abc[..2] == [a, b];
    assert [a, b][..1] == [a];
    assert FoldRoot(hash, [a]) == a;
    assert FoldRoot(hash, [a, b]) == HashPair(hash, a, b);
  }

  /**
   * GetRoot, recursing exactly as the Go code does: nothing to do for zero or
   * one fingerprint, otherwise one reduction step, recorded as a new layer.
   */
  function GetRoot(hash: HashFn, mt: MerkleTree): (r: MerkleTree)
    ensures r.root.Some?
    ensures |mt.transactionIDs| == 0 ==> r == mt.(root := Some(""))
    ensures |mt.transactionIDs| == 1 ==> r == mt.(root := Some(mt.transactionIDs[0]))
    ensures |mt.transactionIDs| >= 1 ==> r.root == Some(FoldRoot(hash, mt.transactionIDs))
    ensures |mt.transactionIDs| >= 1 ==> r.transactionIDs == [r.root.value]
    decreases |mt.transactionIDs|
  {
    var ids := mt.transactionIDs;
    if |ids| == 0 then
      mt.(root := Some(""))
    else if |ids| == 1 then
      mt.(root := Some(ids[0]))
    else
      var next := [HashPair(hash, ids[0], ids[1])] + ids[2..];
      FoldRootStep(hash, ids);
      GetRoot(hash, mt.(transactionIDs := next, layers := mt.layers + [next]))
  }

  /**
   * The layer trace of GetRoot: n >= 1 fingerprints add n - 1 layers after
   * the existing ones, each one shorter than the last; the first is the
   * result of one reduction step and the last is the final single root.
   */
  lemma {:induction false} GetRootLayers(hash: HashFn, mt: MerkleTree)
    requires |mt.transactionIDs| >= 1
    ensures var r := GetRoot(hash, mt);
      && |r.layers| == |mt.layers| + |mt.transactionIDs| - 1
      && r.layers[..|mt.layers|] == mt.layers
      && (forall k :: |mt.layers| <= k < |r.layers| ==> |r.layers[k]| == |mt.transactionIDs| - 1 - (k - |mt.layers|))
      && (|mt.transactionIDs| >= 2 ==>
            && r.layers[|mt.layers|] == [HashPair(hash, mt.transactionIDs[0], mt.transactionIDs[1])] + mt.transactionIDs[2..]
            && r.layers[|r.layers| - 1] == r.transactionIDs)
    decreases |mt.transactionIDs|
  {
    var ids := mt.transactionIDs;
    if |ids| >= 2 {
      var next := [HashPair(hash, ids[0], ids[1])] + ids[2..];
      var reduced := mt.(transactionIDs := next, layers := mt.layers + [next]);
      GetRootLayers(hash, reduced);
      var r := GetRoot(hash, reduced);
      assert GetRoot(hash, mt) == r;
      assert r.layers[..|mt.layers|] == r.layers[..|reduced.layers|][..|mt.layers|];
    }
  }
}
