/**
 * What a node's own activity produces: a chain started by NewBlockchain and
 * grown by NewTransaction and Mine passes isValidChain once it has at least
 * two blocks, because Mine stores exactly the hash that HashBlock recomputes.
 */
module History {
  import opened Ledger

  /** Block i links to the stored hash of block i - 1, stores its own hash and carries a valid proof. */
  predicate MinedAt(cfg: Config, chain: seq<Block>, i: int)
    requires 1 <= i < |chain|
  {
    && chain[i].prevHash == chain[i - 1].blockHash
    && chain[i].blockHash == HashBlock(cfg, chain[i])
    && IsValidPoW(cfg, HashBlockData(cfg, chain[i]), chain[i].proof)
  }

  /** The shape of a locally grown chain: genesis, then mined blocks only. */
  predicate WellMined(cfg: Config, chain: seq<Block>) {
    |chain| >= 1 && forall i :: 1 <= i < |chain| ==> MinedAt(cfg, chain, i)
  }

  /** A well-mined chain of at least two blocks passes validation. */
  lemma WellMinedIsLinked(cfg: Config, chain: seq<Block>)
    requires WellMined(cfg, chain)
    ensures ChainLinked(cfg, chain)
  {
    forall i | 2 <= i < |chain|
      ensures BlockLinked(cfg, chain, i)
    {
      assert MinedAt(cfg, chain, i - 1);
      assert MinedAt(cfg, chain, i);
    }
  }

  /** Mining with a proof that meets the target keeps a chain well mined. */
  lemma MinedKeepsWellMined(cfg: Config, b: Blockchain, now: int, proof: nat)
    requires WellMined(cfg, b.chain)
    requires IsValidPoW(cfg, PendingBlockData(cfg, b), proof)
    ensures WellMined(cfg, Mined(cfg, b, now, proof).chain)
  {
    var r := Mined(cfg, b, now, proof);
    var n := |b.chain|;
    forall i | 1 <= i < |r.chain|
      ensures MinedAt(cfg, r.chain, i)
    {
      if i < n {
        assert r.chain[i] == b.chain[i] && r.chain[i - 1] == b.chain[i - 1];
        assert MinedAt(cfg, b.chain, i);
      } else {
        assert r.chain[i] == LastBlock(r) && r.chain[i - 1] == LastBlock(b);
        assert IsValidPoW(cfg, HashBlockData(cfg, LastBlock(r)), LastBlock(r).proof);
      }
    }
  }

  /** A step a node can take on its own: accept a transaction, or mine with a given proof. */
  datatype Command = Submit(sender: string, recipient: string, amount: real) | MineWith(now: int, proof: nat)

  function MineCount(cmds: seq<Command>): nat
    decreases |cmds|
  {
    if cmds == [] then 0 else (if cmds[0].MineWith? then 1 else 0) + MineCount(cmds[1..])
  }

  /** One command applied to a state. */
  function Step(cfg: Config, b: Blockchain, c: Command): Blockchain
    requires |b.chain| >= 1
  {
    match c
    case Submit(sender, recipient, amount) => NewTransaction(cfg, b, sender, recipient, amount)
    case MineWith(now, proof) => Mined(cfg, b, now, proof)
  }

  /** A mining step uses a proof that meets the target, as Mine's search guarantees. */
  predicate StepHonest(cfg: Config, b: Blockchain, c: Command)
    requires |b.chain| >= 1
  {
    c.MineWith? ==> IsValidPoW(cfg, PendingBlockData(cfg, b), c.proof)
  }

  /** One honest step keeps the chain well mined and only ever appends. */
  lemma StepKeepsWellMined(cfg: Config, b: Blockchain, c: Command)
    requires WellMined(cfg, b.chain)
    requires StepHonest(cfg, b, c)
    ensures WellMined(cfg, Step(cfg, b, c).chain)
    ensures |Step(cfg, b, c).chain| == |b.chain| + (if c.MineWith? then 1 else 0)
    ensures Step(cfg, b, c).chain[..|b.chain|] == b.chain
  {
    if c.MineWith? {
      MinedKeepsWellMined(cfg, b, c.now, c.proof);
    }
  }

  /** The state after running the commands in order. */
  function Run(cfg: Config, b: Blockchain, cmds: seq<Command>): Blockchain
    requires |b.chain| >= 1
    decreases |cmds|
  {
    if cmds == [] then b else Run(cfg, Step(cfg, b, cmds[0]), cmds[1..])
  }

  /** Every step of the run is honest. */
  predicate Honest(cfg: Config, b: Blockchain, cmds: seq<Command>)
    requires |b.chain| >= 1
    decreases |cmds|
  {
    cmds == [] || (StepHonest(cfg, b, cmds[0]) && Honest(cfg, Step(cfg, b, cmds[0]), cmds[1..]))
  }

  /** Honest activity keeps the chain well mined, adds one block per mining step and never rewrites a block. */
  lemma {:induction false} RunKeepsWellMined(cfg: Config, b: Blockchain, cmds: seq<Command>)
    requires WellMined(cfg, b.chain)
    requires Honest(cfg, b, cmds)
    ensures WellMined(cfg, Run(cfg, b, cmds).chain)
    ensures |Run(cfg, b, cmds).chain| == |b.chain| + MineCount(cmds)
    ensures Run(cfg, b, cmds).chain[..|b.chain|] == b.chain
    decreases |cmds|
  {
    if cmds != [] {
      var next := Step(cfg, b, cmds[0]);
      StepKeepsWellMined(cfg, b, cmds[0]);
      RunKeepsWellMined(cfg, next, cmds[1..]);
      var final := Run(cfg, next, cmds[1..]).chain;
      assert final[..|b.chain|] == final[..|next.chain|][..|b.chain|];
    }
  }

  /**
   * The central fact: a chain built by NewBlockchain followed by honest
   * transaction submission and at least one Mine passes isValidChain.
   */
  lemma MinedHistoryIsValid(cfg: Config, now: int, cmds: seq<Command>)
    requires Honest(cfg, NewBlockchain(now), cmds)
    requires MineCount(cmds) >= 1
    ensures Accepted(cfg, Run(cfg, NewBlockchain(now), cmds).chain)
  {
    var genesis := NewBlockchain(now);
    assert WellMined(cfg, genesis.chain);
    RunKeepsWellMined(cfg, genesis, cmds);
    WellMinedIsLinked(cfg, Run(cfg, genesis, cmds).chain);
  }
}
