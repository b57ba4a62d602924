# Ledger engine of a minimal Go blockchain node, in Dafny

This project models the ledger engine of a small proof-of-work blockchain node and proves properties of that model. The engine covers:

- transactions, whose id is the digest of sender, recipient and two-decimal amount;
- blocks, which carry an index, a timestamp, the pending transactions, a proof (nonce), their own hash and the previous block's hash;
- the node state `Blockchain`: the chain, the pending-transaction pool `CurrentTX`, the registered peer `Nodes` and the recorded `Length`;
- the Merkle reducer, which collapses transaction ids into one root by a left fold (not a balanced tree);
- mining: a proof-of-work search for the least nonce whose digest starts with the three-character difficulty target;
- chain validation (`isValidChain`) and longest-valid-chain consensus (`ResolveConflicts`).

Files and modules:

- `wrappers.dfy` (`Wrappers`): `Option` and `Result`.
- `digest.dfy` (`Digest`): the digest function. SHA-256 plus hex encoding is the parameter `hash: HashFn`, so every property holds for any digest function.
- `decimal.dfy` (`Decimal`): `strconv.Itoa` as a real decimal rendering, with a parser and round-trip lemmas.
- `merkletree.dfy` (`Merkle`): `hashPair`, the recursive `GetRoot` with its `layers` trace, and `FoldRoot`, an independent reference definition of the root. `hashPair` is the same digest as `encodeSHA256`, applied to the two ids written one after the other, so a single digest parameter serves both packages.
- `ledger.dfy` (`Ledger`): the entities and every operation of `internal/blockchain/blockchain.go`. Operations that change state take the old `Blockchain` and return the new one. The mining search, the validation walk and the consensus scan are methods with loops, written as the Go code writes them.
- `history.dfy` (`History`): the central theorem. A chain started by `NewBlockchain` and grown by any interleaving of `NewTransaction` and `Mine` passes `isValidChain` once it has at least two blocks. This holds because `Mine` stores exactly the hash that `HashBlock` recomputes.

The clock (`time.Now()`), the `DIFFICULTY` environment variable and the amount formatter (`strconv.FormatFloat(amount, 'f', 2, 64)`) come in as parameters: `now` and `Config(hash, difficulty, formatAmount)`. `ResolveConflicts` takes the download of a node's chain as a function `fetch` from address to `ChainReport(chain, length)`, and the visiting order of the registered nodes as a sequence `order` that lists every node in `Nodes` exactly once. Every property of `ResolveConflicts` holds for every such order, which stands in for Go's unspecified map iteration order.

Behaviour of the Go code worth knowing, which the model keeps:

- Validation starts at 0-based position 2 (blockchain.go:166-167), so the first two blocks are trusted. `Ledger.FirstTwoBlocksTrusted` states the consequence: any two-block chain passes.
- `NewNode` also inserts the address on the duplicate path (blockchain.go:157). On a set, that insert changes nothing.
- The transaction id is the digest of sender, recipient and formatted amount only; no timestamp enters it (blockchain.go:78-84).
- `Mine` accepts an empty pending pool and produces a block with no transactions (blockchain.go:114-126).
- A peer report whose chain has fewer than two blocks makes `isValidChain` index `Chain[1]` out of range, but only when its length beats the running maximum; otherwise `ResolveConflicts` skips it without validating it (blockchain.go:209).

## Model

| member | source | states |
|---|---|---|
| Decimal.NatToString | internal/blockchain/blockchain.go:93 | the proof's decimal spelling is non-empty and all digits, and it starts with '0' only for zero, which is spelled "0" |
| Decimal.IntToString | internal/blockchain/blockchain.go:93 | `strconv.Itoa`: a leading '-' exactly for negative values, and the plain digits for non-negative ones |
| Decimal.NatRoundTrip | internal/blockchain/blockchain.go:93 | reading the decimal digits back gives the number, so no information is lost |
| Decimal.IntRoundTrip | internal/blockchain/blockchain.go:93 | `ParseInt(IntToString(i)) == i` for every integer, negatives included |
| Decimal.IntToStringInjective | internal/blockchain/blockchain.go:93 | distinct proofs render to distinct strings, so no two nonces feed the same input to the digest |
| Merkle.FoldRootStep | internal/merkletree/merkletree.go:36-41 | the left-fold equation: `root(t0::t1::rest) == root(hashPair(t0,t1)::rest)`, with the rest kept in order |
| Merkle.RootOfThree | internal/merkletree/merkletree.go:36-41 | `root([a,b,c]) == Hash(Hash(a+b)+c)`: the reduction nests to the left, not as a balanced tree |
| Merkle.GetRoot | internal/merkletree/merkletree.go:24-42 | no ids gives root "" and changes nothing else; one id is the root unchanged, with no hashing; for n >= 1 ids the root is the reference left-fold root and `TransactionIDs` ends as `[Root]` |
| Merkle.GetRootLayers | internal/merkletree/merkletree.go:37-40 | n >= 1 ids append exactly n - 1 layers, each one shorter than the last; the first is `[hashPair(t0,t1)] + t[2:]` and the last is the final one-element list |
| Ledger.GetTXIDs | internal/blockchain/blockchain.go:32-38 | one id per transaction, in the same order |
| Ledger.HashTX | internal/blockchain/blockchain.go:107-111 | a fresh tree's root equals the reference left-fold root of the ids: "" for none, the id itself for one |
| Ledger.BlockHashFormula | internal/blockchain/blockchain.go:91-104 | a block's hash is `digest(digest(root(tx ids) + prevHash) + Itoa(proof))`, with the root taken from the reference fold |
| Ledger.HashBlockCommitsTo | internal/blockchain/blockchain.go:91-104 | the block hash depends only on the transaction ids, the previous hash and the proof; index, timestamp, amounts and the stored hash do not enter it |
| Ledger.NewBlock | internal/blockchain/blockchain.go:61-75 | appends exactly one block and keeps the earlier blocks; the new block has index old length + 1 and holds the old pending pool; afterwards the pool is empty, the nodes are unchanged and `Length == len(Chain)` |
| Ledger.NewBlockchain | internal/blockchain/blockchain.go:49-58 | one genesis block with index 1, proof 0, no transactions, previous hash "0" and hash "1"; no nodes, an empty pool and `Length == 1` |
| Ledger.NewTransaction | internal/blockchain/blockchain.go:78-84 | appends exactly one transaction to the pool, with id `digest(sender + rcpt + format(amount))`; chain, nodes and `Length` are unchanged |
| Ledger.LastBlockIsNewest | internal/blockchain/blockchain.go:86-88 | after `NewBlock`, `LastBlock` is the appended block and every earlier block is unchanged |
| Ledger.NewNode | internal/blockchain/blockchain.go:153-159 | the node set becomes old set plus `addr`, even on the error path; an error is returned exactly when `addr` was already registered |
| Ledger.RegisterTwice | internal/blockchain/blockchain.go:153-159 | registering one address twice: the first call succeeds, the second reports a duplicate, and the set grows by one |
| Ledger.IsValidPoW | internal/blockchain/blockchain.go:143-150 | the proof is accepted exactly when the target has three characters and is a prefix of `digest(data + Itoa(proof))`; a target of any other length is never met |
| Ledger.ProveAndHash | internal/blockchain/blockchain.go:129-140 | returns the least nonce that meets the target, together with its digest; no smaller nonce works |
| Ledger.Mined | internal/blockchain/blockchain.go:114-126 | the block that mining appends links to the previous last block's hash, stores exactly the hash `HashBlock` recomputes, and is hashed over the same data the search used |
| Ledger.Mine | internal/blockchain/blockchain.go:114-126 | appends one block holding the old pool, timestamped `now`, linked to the previous block's hash, with `BlockHash == HashBlock(block)` and the least proof that meets the target; the pool is emptied and the nodes are unchanged |
| Ledger.IsValidChain | internal/blockchain/blockchain.go:162-192 | on a chain of at least two blocks, the walk returns true exactly when every block from 0-based position 2 on records the recomputed hash of its predecessor and carries a valid proof |
| Ledger.FirstTwoBlocksTrusted | internal/blockchain/blockchain.go:166-169 | any chain of exactly two blocks is accepted, because the walk starts at position 2 |
| Ledger.StoredHashIgnored | internal/blockchain/blockchain.go:162-192 | overwriting the stored hash of any block never changes the verdict: validation recomputes hashes and never uses the stored ones in its verdict; it only prints them (blockchain.go:171) |
| Ledger.Reports | internal/blockchain/blockchain.go:204-206 | the chain fetched from each node, in visiting order: one report per node, the k-th being the download of the k-th node |
| Ledger.ExaminePeer | internal/blockchain/blockchain.go:209-214 | one iteration: it crashes exactly when the report has fewer than two blocks, beats the local length and is longer than every earlier qualifying report; otherwise the scan state carries over to the next report |
| Ledger.ScanPeers | internal/blockchain/blockchain.go:201-215 | the scan fails exactly when some report crashes (fewer than two blocks, longer than the local length and every earlier qualifying report); otherwise it picks a peer that qualifies (reported length above the local one, valid chain) with the greatest reported length and is the first to report it, or none when none qualifies |
| Ledger.ResolveConflicts | internal/blockchain/blockchain.go:195-225 | every registered node is fetched once, in any order; the call fails exactly when some fetched report crashes the scan; otherwise the chain is replaced exactly when some registered node's report qualifies, and then by the winner's chain, and is untouched otherwise; with no registered nodes nothing changes but `Length`; the pool and nodes never change; `Length` is the local length from before the scan, even after a replacement |
| History.WellMinedIsLinked | internal/blockchain/blockchain.go:162-192 | a chain whose blocks after genesis each link to their predecessor's stored hash, store their own recomputed hash and carry a valid proof passes validation |
| History.MinedKeepsWellMined | internal/blockchain/blockchain.go:114-126 | mining with a proof that meets the target keeps that shape |
| History.StepKeepsWellMined | internal/blockchain/blockchain.go:78-126 | one honest step, either a transaction or a mining step, keeps the shape and only appends blocks |
| History.RunKeepsWellMined | internal/blockchain/blockchain.go:61-126 | any honest run keeps the shape, adds one block per mining step and never rewrites an existing block |
| History.MinedHistoryIsValid | internal/blockchain/blockchain.go:49-192 | `NewBlockchain` followed by transactions and at least one honest `Mine` yields a chain of at least two blocks that passes `isValidChain` |

## Left out

- The HTTP layer of `internal/api/api.go` is not modelled: routing, JSON encoding and status codes. This includes its rejection of mining with an empty pool, which is transport policy.
- Fetching peer chains over HTTP and unmarshalling them (`internal/blockchain/helpers.go`) is not modelled. The download is the `fetch` parameter. A request error panics in `executeRequest` (helpers.go:36). A response that does not unmarshal yields a nil chain, which `ResolveConflicts` dereferences (blockchain.go:209). Neither path is modelled.
- Terminal printing (`internal/blockchain/debug.go`) is left out, and so is the `fmt.Printf` logging inside `isValidChain` and `ResolveConflicts`.
- The entry points `cmd/main.go` and `cmd/start_node.go` are left out.
- The internals of SHA-256 and hex encoding are left out. The digest is an arbitrary function `HashFn`, so its fixed length of 64 characters is not assumed anywhere.
- Ledger.IsValidPoW: Go slices `proofHash[:3]` and would panic on a digest shorter than three characters. The model's guard `|h| >= 3` returns false instead. A SHA-256 hex digest always has 64 characters, so this case never arises in Go.
- The float64 amount is a `real`. Its two-decimal formatting is the `formatAmount` parameter. NaN, infinities and rounding are not modelled.
- `time.Now()` is the `now` parameter, and `os.Getenv("DIFFICULTY")` is `Config.difficulty`.
- The int64 proof and timestamp and the int index are unbounded integers. Wrap-around of the nonce counter after 2^63 tries is not modelled.
- Ledger.ProveAndHash and Ledger.Mine terminate only given a ghost nonce known to meet the target. The Go code loops forever when no nonce meets it, for example when the difficulty does not have three characters.
- Ledger.ResolveConflicts: a too-short candidate chain makes Go panic on `Chain[1]`. The model returns `Failure(IndexOutOfRange)` instead, and does not report the already-refreshed `Length` that the panicking call left behind.
- Nil `BlockHash` or `PrevHash` pointers in blocks that a peer sent malformed are not modelled. Block hashes are plain strings.
- Go's map iteration order over `Nodes` is nondeterministic. It is the `order` parameter, constrained to list each registered node once.
- Concurrency between HTTP handlers is not modelled, because the engine itself is sequential.
- The JSON wire format of blocks and transactions, with its round trip, belongs to the transport layer and is not modelled.
