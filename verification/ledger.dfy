/**
 * The ledger engine: transactions, blocks, the node's chain state, mining by
 * proof of work, chain validation and longest-valid-chain consensus.
 *
 * State-changing operations take the old state and return the new one. The
 * clock, the DIFFICULTY environment setting and the network are parameters.
 */
module Ledger {
  import opened Wrappers
  import opened Digest
  import opened Decimal
  import opened Merkle

  /** A transfer; its id is derived from the other three fields. */
  datatype Transaction = Transaction(id: string, sender: string, recipient: string, amount: real)

  /** A block; index is 1-based, proof is the nonce found by mining. */
  datatype Block = Block(
    index: int,
    timestamp: int,
    transactions: seq<Transaction>,
    proof: int,
    blockHash: string,
    prevHash: string)

  /** A node's state. length is the length last recorded, not always |chain|. */
  datatype Blockchain = Blockchain(chain: seq<Block>, currentTX: seq<Transaction>, nodes: set<string>, length: int)

  /**
   * What the node takes from outside: the digest function, the difficulty
   * target (the DIFFICULTY environment variable) and the two-decimal
   * formatting of an amount.
   */
  datatype Config = Config(hash: HashFn, difficulty: string, formatAmount: real -> string)

  /** A peer's answer to a chain request: the blocks and the length it reports. */
  datatype ChainReport = ChainReport(chain: seq<Block>, length: int)

  /** The only failure of consensus: indexing Chain[1] of a chain that is too short. */
  datatype Fault = IndexOutOfRange

  datatype Resolution = Resolution(state: Blockchain, replaced: bool)

  // ---------------------------------------------------------------------------
  // Digesting transactions and blocks
  // ---------------------------------------------------------------------------

  /** getTXIDs: the ids of the transactions, in order. */
  function GetTXIDs(txs: seq<Transaction>): (ids: seq<string>)
    ensures |ids| == |txs|
    ensures forall i :: 0 <= i < |txs| ==> ids[i] == txs[i].id
    decreases |txs|
  {
    if txs == [] then [] else GetTXIDs(txs[..|txs| - 1]) + [txs[|txs| - 1].id]
  }

  /** HashTX: the Merkle root of a list of ids, computed by a fresh tree. */
  function HashTX(cfg: Config, txIDs: seq<string>): (root: string)
    ensures root == FoldRoot(cfg.hash, txIDs)
    ensures |txIDs| == 0 ==> root == ""
    ensures |txIDs| == 1 ==> root == txIDs[0]
  {
    GetRoot(cfg.hash, MerkleTree(None, txIDs, [])).root.value
  }

  /** hashBlockData: digest of the transactions' root followed by the previous hash. */
  function HashBlockData(cfg: Config, block: Block): string
  {
    EncodeSHA256(cfg.hash, HashTX(cfg, GetTXIDs(block.transactions)) + block.prevHash)
  }

  /** HashBlock: digest of the block data followed by the decimal proof. */
  function HashBlock(cfg: Config, block: Block): string
  {
    EncodeSHA256(cfg.hash, HashBlockData(cfg, block) + IntToString(block.proof))
  }

  /**
   * The block hash in closed form: digest(digest(root + prevHash) + proof),
   * where root is the left-fold Merkle root of the transaction ids.
   */
  lemma BlockHashFormula(cfg: Config, block: Block)
    ensures HashBlockData(cfg, block)
            == EncodeSHA256(cfg.hash, FoldRoot(cfg.hash, GetTXIDs(block.transactions)) + block.prevHash)
    ensures HashBlock(cfg, block)
            == EncodeSHA256(cfg.hash,
                 EncodeSHA256(cfg.hash, FoldRoot(cfg.hash, GetTXIDs(block.transactions)) + block.prevHash)
                 + IntToString(block.proof))
  {
  }

  /**
   * The block hash commits only to the transaction ids, the previous hash and
   * the proof: index, timestamp, the stored hash and the transactions' other
   * fields do not enter it.
   */
  lemma HashBlockCommitsTo(cfg: Config, b1: Block, b2: Block)
    requires GetTXIDs(b1.transactions) == GetTXIDs(b2.transactions)
    requires b1.prevHash == b2.prevHash && b1.proof == b2.proof
    ensures HashBlock(cfg, b1) == HashBlock(cfg, b2)
  {
  }

  // ---------------------------------------------------------------------------
  // Chain state
  // ---------------------------------------------------------------------------

  /** NewBlock: append a block holding the pending pool, then empty the pool. */
  function NewBlock(b: Blockchain, now: int, proof: int, prevHash: string, blockHash: string): (r: Blockchain)
    ensures |r.chain| == |b.chain| + 1 && r.chain[..|b.chain|] == b.chain
    ensures r.chain[|b.chain|].index == |b.chain| + 1
    ensures r.chain[|b.chain|].transactions == b.currentTX
    ensures r.chain[|b.chain|].timestamp == now && r.chain[|b.chain|].proof == proof
    ensures r.chain[|b.chain|].prevHash == prevHash && r.chain[|b.chain|].blockHash == blockHash
    ensures r.currentTX == [] && r.nodes == b.nodes && r.length == |r.chain|
  {
    var nb := Block(|b.chain| + 1, now, b.currentTX, proof, blockHash, prevHash);
    b.(chain := b.chain + [nb], currentTX := [], length := |b.chain| + 1)
  }

  /** NewBlockchain: a chain holding only the genesis block, with sentinel hashes. */
  function NewBlockchain(now: int): (b: Blockchain)
    ensures |b.chain| == 1 && b.length == 1
    ensures b.chain[0] == Block(1, now, [], 0, "1", "0")
    ensures b.currentTX == [] && b.nodes == {}
  {
    NewBlock(Blockchain([], [], {}, 0), now, 0, "0", "1")
  }

  /** NewTransaction: derive the id and add the transaction to the pending pool. */
  function NewTransaction(cfg: Config, b: Blockchain, sender: string, rcpt: string, amount: real): (r: Blockchain)
    ensures |r.currentTX| == |b.currentTX| + 1 && r.currentTX[..|b.currentTX|] == b.currentTX
    ensures r.currentTX[|b.currentTX|].id == EncodeSHA256(cfg.hash, sender + rcpt + cfg.formatAmount(amount))
    ensures r.currentTX[|b.currentTX|].sender == sender && r.currentTX[|b.currentTX|].recipient == rcpt
    ensures r.currentTX[|b.currentTX|].amount == amount
    ensures r.chain == b.chain && r.nodes == b.nodes && r.length == b.length
  {
    var id := EncodeSHA256(cfg.hash, sender + rcpt + cfg.formatAmount(amount));
    b.(currentTX := b.currentTX + [Transaction(id, sender, rcpt, amount)])
  }

  /** LastBlock: the most recently appended block (Go panics on an empty chain). */
  function LastBlock(b: Blockchain): Block
    requires |b.chain| >= 1
  {
    b.chain[|b.chain| - 1]
  }

  /** The block NewBlock appends is the one LastBlock then returns. */
  lemma LastBlockIsNewest(b: Blockchain, now: int, proof: int, prevHash: string, blockHash: string)
    ensures var r := NewBlock(b, now, proof, prevHash, blockHash);
            LastBlock(r) == Block(|b.chain| + 1, now, b.currentTX, proof, blockHash, prevHash)
            && forall i :: 0 <= i < |b.chain| ==> r.chain[i] == b.chain[i]
  {
  }

  /** NewNode: register a peer; an error reports that it was already there. */
  function NewNode(b: Blockchain, addr: string): (r: (Blockchain, Option<string>))
    ensures r.0.nodes == b.nodes + {addr}
    ensures r.1.Some? <==> addr in b.nodes
    ensures r.0.chain == b.chain && r.0.currentTX == b.currentTX && r.0.length == b.length
  {
    var err := if addr in b.nodes then Some("Node already registered") else None;
    (b.(nodes := b.nodes + {addr}), err)
  }

  /** Registering an address twice: the first call succeeds, the second reports it, and the set grows by one. */
  lemma RegisterTwice(b: Blockchain, addr: string)
    requires addr !in b.nodes
    ensures var first := NewNode(b, addr);
            var second := NewNode(first.0, addr);
            first.1.None? && second.1.Some? && second.0.nodes == first.0.nodes && |second.0.nodes| == |b.nodes| + 1
  {
  }

  // ---------------------------------------------------------------------------
  // Proof of work and mining
  // ---------------------------------------------------------------------------

  /**
   * isValidPoW: the first three characters of digest(data + proof) equal the
   * target. The target is met exactly when it is three characters long and a
   * prefix of the digest; a target of any other length is never met.
   */
  function IsValidPoW(cfg: Config, data: string, proof: int): (ok: bool)
    ensures ok <==> |cfg.difficulty| == 3 && cfg.difficulty <= EncodeSHA256(cfg.hash, data + IntToString(proof))
  {
    var proofHash := EncodeSHA256(cfg.hash, data + IntToString(proof));
    |proofHash| >= 3 && proofHash[..3] == cfg.difficulty
  }

  /**
   * proveAndHash: try nonces 0, 1, 2, ... and return the first that meets the
   * target, with its digest. The ghost knownProof is a nonce known to work; the
   * Go code loops for ever when there is none.
   */
  method ProveAndHash(cfg: Config, blockData: string, ghost knownProof: nat) returns (proof: nat, proofHash: string)
    requires IsValidPoW(cfg, blockData, knownProof)
    ensures IsValidPoW(cfg, blockData, proof)
    ensures proofHash == EncodeSHA256(cfg.hash, blockData + NatToString(proof))
    ensures forall q :: 0 <= q < proof ==> !IsValidPoW(cfg, blockData, q)
    ensures proof <= knownProof
  {
    proof := 0;
    while true
      invariant proof <= knownProof
      invariant forall q :: 0 <= q < proof ==> !IsValidPoW(cfg, blockData, q)
      decreases knownProof - proof
    {
      if IsValidPoW(cfg, blockData, proof) {
        proofHash := EncodeSHA256(cfg.hash, blockData + NatToString(proof));
        return;
      }
      proof := proof + 1;
    }
  }

  /** The data Mine searches a proof for: digest of the pool's root and the last block hash. */
  function PendingBlockData(cfg: Config, b: Blockchain): string
    requires |b.chain| >= 1
  {
    EncodeSHA256(cfg.hash, HashTX(cfg, GetTXIDs(b.currentTX)) + LastBlock(b).blockHash)
  }

  /** The state Mine leaves once its search has settled on `proof`. */
  function Mined(cfg: Config, b: Blockchain, now: int, proof: nat): (r: Blockchain)
    requires |b.chain| >= 1
    ensures |r.chain| == |b.chain| + 1 && r.chain[..|b.chain|] == b.chain
    ensures r.currentTX == [] && r.nodes == b.nodes && r.length == |r.chain|
    ensures LastBlock(r).index == |b.chain| + 1 && LastBlock(r).transactions == b.currentTX
    ensures LastBlock(r).timestamp == now && LastBlock(r).proof == proof
    ensures LastBlock(r).prevHash == LastBlock(b).blockHash
    ensures LastBlock(r).blockHash == HashBlock(cfg, LastBlock(r))
    ensures HashBlockData(cfg, LastBlock(r)) == PendingBlockData(cfg, b)
  {
    var prevHash := LastBlock(b).blockHash;
    var newBlockHash := EncodeSHA256(cfg.hash, PendingBlockData(cfg, b) + NatToString(proof));
    NewBlock(b, now, proof, prevHash, newBlockHash)
  }

  /**
   * Mine: append a block over the pending pool, linked to the last block, with
   * the least proof that meets the target.
   */
  method Mine(cfg: Config, b: Blockchain, now: int, ghost knownProof: nat) returns (r: Blockchain)
    requires |b.chain| >= 1
    requires IsValidPoW(cfg, PendingBlockData(cfg, b), knownProof)
    ensures |r.chain| == |b.chain| + 1 && r.chain[..|b.chain|] == b.chain
    ensures r.currentTX == [] && r.nodes == b.nodes && r.length == |r.chain|
    ensures LastBlock(r).index == |b.chain| + 1 && LastBlock(r).transactions == b.currentTX
    ensures LastBlock(r).timestamp == now
    ensures LastBlock(r).prevHash == LastBlock(b).blockHash
    ensures LastBlock(r).blockHash == HashBlock(cfg, LastBlock(r))
    ensures IsValidPoW(cfg, HashBlockData(cfg, LastBlock(r)), LastBlock(r).proof)
    ensures forall q :: 0 <= q < LastBlock(r).proof ==> !IsValidPoW(cfg, HashBlockData(cfg, LastBlock(r)), q)
    ensures 0 <= LastBlock(r).proof && r == Mined(cfg, b, now, LastBlock(r).proof)
  {
    var pendingBlockData := PendingBlockData(cfg, b);
    var prevHash := LastBlock(b).blockHash;
    var proof, newBlockHash := ProveAndHash(cfg, pendingBlockData, knownProof);
    r := NewBlock(b, now, proof, prevHash, newBlockHash);
    assert r == Mined(cfg, b, now, proof);
  }

  // ---------------------------------------------------------------------------
  // Validation
  // ---------------------------------------------------------------------------

  /** Block i recorded the recomputed hash of block i - 1, and its own proof holds. */
  predicate BlockLinked(cfg: Config, chain: seq<Block>, i: int)
    requires 1 <= i < |chain|
  {
    && chain[i].prevHash == HashBlock(cfg, chain[i - 1])
    && IsValidPoW(cfg, HashBlockData(cfg, chain[i]), chain[i].proof)
  }

  /** What isValidChain checks: every block from 0-based position 2 onward is linked. */
  predicate ChainLinked(cfg: Config, chain: seq<Block>) {
    forall i :: 2 <= i < |chain| ==> BlockLinked(cfg, chain, i)
  }

  /** A chain long enough for isValidChain to walk, and one the walk accepts. */
  predicate Accepted(cfg: Config, chain: seq<Block>) {
    |chain| >= 2 && ChainLinked(cfg, chain)
  }

  /**
   * isValidChain: walk the chain from position 2, stopping at the first block
   * whose link or proof fails. Positions 0 and 1 are taken on trust.
   */
  method IsValidChain(cfg: Config, chain: seq<Block>) returns (valid: bool)
    requires |chain| >= 2
    ensures valid <==> ChainLinked(cfg, chain)
  {
    var lastBlock := chain[1];
    var cur := 2;
    while cur < |chain|
      invariant 2 <= cur <= |chain|
      invariant lastBlock == chain[cur - 1]
      invariant forall i :: 2 <= i < cur ==> BlockLinked(cfg, chain, i)
    {
      var block := chain[cur];
      var hashedLastBlock := HashBlock(cfg, lastBlock);
      if block.prevHash != hashedLastBlock {
        assert !BlockLinked(cfg, chain, cur);
        return false;
      }
      var hashedCurBlockData := HashBlockData(cfg, block);
      if !IsValidPoW(cfg, hashedCurBlockData, block.proof) {
        assert !BlockLinked(cfg, chain, cur);
        return false;
      }
      assert BlockLinked(cfg, chain, cur);
      forall i | 2 <= i <= cur
        ensures BlockLinked(cfg, chain, i)
      {
        if i < cur {
          assert BlockLinked(cfg, chain, i);
        }
      }
      lastBlock := block;
      cur := cur + 1;
    }
    return true;
  }

  /**
   * Validation trusts the first two blocks: any chain of exactly two blocks
   * passes, whatever its hashes and proofs.
   */
  lemma FirstTwoBlocksTrusted(cfg: Config, chain: seq<Block>)
    requires |chain| == 2
    ensures ChainLinked(cfg, chain)
  {
  }

  /**
   * Validation recomputes hashes and never uses a block's stored hash in its
   * verdict (Go only prints it, blockchain.go:171): overwriting it in any
   * block leaves the verdict unchanged.
   */
  lemma StoredHashIgnored(cfg: Config, chain: seq<Block>, k: int, forged: string)
    requires 0 <= k < |chain|
    ensures ChainLinked(cfg, chain) <==> ChainLinked(cfg, chain[k := chain[k].(blockHash := forged)])
  {
    var other := chain[k := chain[k].(blockHash := forged)];
    forall i | 2 <= i < |chain|
      ensures BlockLinked(cfg, chain, i) <==> BlockLinked(cfg, other, i)
    {
      HashBlockCommitsTo(cfg, chain[i - 1], other[i - 1]);
      HashBlockCommitsTo(cfg, chain[i], other[i]);
    }
  }

  // ---------------------------------------------------------------------------
  // Consensus
  // ---------------------------------------------------------------------------

  /** A peer chain that would replace a local chain of `localLength` blocks. */
  predicate Qualifies(cfg: Config, localLength: int, p: ChainReport) {
    p.length > localLength && |p.chain| >= 2 && ChainLinked(cfg, p.chain)
  }

  /** The index of the peer whose chain wins: it qualifies, has the greatest reported length, and is the first with that length. */
  predicate IsWinner(cfg: Config, localLength: int, peers: seq<ChainReport>, k: int) {
    && 0 <= k < |peers|
    && Qualifies(cfg, localLength, peers[k])
    && (forall j :: 0 <= j < |peers| && Qualifies(cfg, localLength, peers[j]) ==> peers[j].length <= peers[k].length)
    && (forall j :: 0 <= j < k && Qualifies(cfg, localLength, peers[j]) ==> peers[j].length < peers[k].length)
  }

  /**
   * The report at position k makes isValidChain index out of range: its chain
   * has fewer than two blocks, yet its length beats the local length and every
   * earlier qualifying report, so it beats the running maximum and Go goes on
   * to validate it.
   */
  predicate Crashes(cfg: Config, localLength: int, peers: seq<ChainReport>, k: int)
    requires 0 <= k < |peers|
  {
    && |peers[k].chain| < 2
    && peers[k].length > localLength
    && forall j :: 0 <= j < k && Qualifies(cfg, localLength, peers[j]) ==> peers[j].length < peers[k].length
  }

  /**
   * What the scan knows after examining the first i reports: none of them
   * crashed, maxLength is the local length or the length of the qualifying
   * report `best`, no earlier qualifying report is as long as `best`, and no
   * examined qualifying report is longer than maxLength.
   */
  predicate ScanState(cfg: Config, localLength: int, peers: seq<ChainReport>, i: int, maxLength: int, best: Option<nat>) {
    && 0 <= i <= |peers|
    && (forall j :: 0 <= j < i ==> !Crashes(cfg, localLength, peers, j))
    && (best.None? ==> maxLength == localLength)
    && (best.Some? ==> best.value < i && Qualifies(cfg, localLength, peers[best.value]))
    && (best.Some? ==> maxLength == peers[best.value].length)
    && (best.Some? ==> forall j :: 0 <= j < best.value && Qualifies(cfg, localLength, peers[j]) ==> peers[j].length < maxLength)
    && (forall j :: 0 <= j < i && Qualifies(cfg, localLength, peers[j]) ==> peers[j].length <= maxLength)
  }

  /**
   * One iteration of the ResolveConflicts loop: a report that beats the
   * running maximum is validated, and adopted when valid; one with fewer
   * than two blocks makes isValidChain index out of range.
   */
  method ExaminePeer(cfg: Config, localLength: int, peers: seq<ChainReport>, i: nat, maxLength: int, best: Option<nat>)
    returns (crashed: bool, maxLength': int, best': Option<nat>)
    requires i < |peers|
    requires ScanState(cfg, localLength, peers, i, maxLength, best)
    ensures crashed <==> Crashes(cfg, localLength, peers, i)
    ensures !crashed ==> ScanState(cfg, localLength, peers, i + 1, maxLength', best')
  {
    crashed, maxLength', best' := false, maxLength, best;
    var nodeChain := peers[i];
    if nodeChain.length > maxLength {
      if |nodeChain.chain| < 2 {
        crashed := true;
        return;
      }
      var valid := IsValidChain(cfg, nodeChain.chain);
      if valid {
        assert Qualifies(cfg, localLength, peers[i]);
        maxLength', best' := nodeChain.length, Some(i);
      } else {
        assert !Qualifies(cfg, localLength, peers[i]);
      }
    } else if best.Some? {
      assert !Crashes(cfg, localLength, peers, i) by {
        assert Qualifies(cfg, localLength, peers[best.value]);
      }
    }
  }

  /**
   * The loop of ResolveConflicts: keep the running maximum length (starting
   * at the local length) and the peer that last raised it with a valid chain.
   */
  method ScanPeers(cfg: Config, localLength: int, peers: seq<ChainReport>) returns (r: Result<Option<nat>, Fault>)
    ensures r.Failure? <==> exists k :: 0 <= k < |peers| && Crashes(cfg, localLength, peers, k)
    ensures (forall k :: 0 <= k < |peers| ==> |peers[k].chain| >= 2) ==> r.Success?
    ensures r.Success? && r.value.None? ==> forall k :: 0 <= k < |peers| ==> !Qualifies(cfg, localLength, peers[k])
    ensures r.Success? && r.value.Some? ==> IsWinner(cfg, localLength, peers, r.value.value)
  {
    var maxLength := localLength;
    var best: Option<nat> := None;
    var i := 0;
    while i < |peers|
      invariant ScanState(cfg, localLength, peers, i, maxLength, best)
    {
      var crashed;
      crashed, maxLength, best := ExaminePeer(cfg, localLength, peers, i, maxLength, best);
      if crashed {
        return Failure(IndexOutOfRange);
      }
      i := i + 1;
    }
    return Success(best);
  }

  /** The chains fetched from the nodes, in the order the nodes are visited. */
  function Reports(fetch: string -> ChainReport, order: seq<string>): (ps: seq<ChainReport>)
    ensures |ps| == |order|
    ensures forall k :: 0 <= k < |order| ==> ps[k] == fetch(order[k])
  {
    if order == [] then [] else [fetch(order[0])] + Reports(fetch, order[1..])
  }

  /**
   * ResolveConflicts: visit every registered node once, in `order` (Go's map
   * order, which is unspecified), fetch its chain, and adopt the valid peer
   * chain with the greatest reported length if that length beats the local
   * chain's; a later peer must report a strictly greater length to win. The
   * recorded length is refreshed before the scan and not after.
   */
  method ResolveConflicts(cfg: Config, b: Blockchain, order: seq<string>, fetch: string -> ChainReport)
    returns (r: Result<Resolution, Fault>)
    requires forall a :: a in order <==> a in b.nodes
    requires forall i, j :: 0 <= i < j < |order| ==> order[i] != order[j]
    ensures var peers := Reports(fetch, order);
              r.Failure? <==> exists k :: 0 <= k < |peers| && Crashes(cfg, |b.chain|, peers, k)
    ensures (forall a :: a in b.nodes ==> |fetch(a).chain| >= 2) ==> r.Success?
    ensures b.nodes == {} ==> r == Success(Resolution(b.(length := |b.chain|), false))
    ensures r.Success? ==> var s := r.value.state;
              s.currentTX == b.currentTX && s.nodes == b.nodes && s.length == |b.chain|
    ensures r.Success? ==>
              (r.value.replaced <==> exists a :: a in b.nodes && Qualifies(cfg, |b.chain|, fetch(a)))
    ensures r.Success? && !r.value.replaced ==> r.value.state.chain == b.chain
    ensures r.Success? && r.value.replaced ==>
              exists k :: IsWinner(cfg, |b.chain|, Reports(fetch, order), k) && r.value.state.chain == fetch(order[k]).chain
  {
    var refreshed := b.(length := |b.chain|);
    var peers := Reports(fetch, order);
    var scan := ScanPeers(cfg, refreshed.length, peers);
    if scan.Failure? {
      var k :| 0 <= k < |peers| && Crashes(cfg, refreshed.length, peers, k);
      assert Crashes(cfg, |b.chain|, peers, k);
      assert exists k :: 0 <= k < |peers| && Crashes(cfg, |b.chain|, peers, k);
      assert peers == Reports(fetch, order);
      r := Failure(scan.error);
      assert r.Failure?;
      return;
    }
    match scan.value
    case Some(k) =>
      assert IsWinner(cfg, |b.chain|, peers, k);
      assert order[k] in b.nodes;
      r := Success(Resolution(refreshed.(chain := peers[k].chain), true));
    case None =>
      forall a | a in b.nodes
        ensures !Qualifies(cfg, |b.chain|, fetch(a))
      {
        var k :| 0 <= k < |order| && order[k] == a;
        assert peers[k] == fetch(a);
      }
      r := Success(Resolution(refreshed, false));
  }
}
