# Blockchain simulation: a hash-linked, append-only log

This project models `blockchain_simulation.js`, a single-writer, in-memory
"blockchain". It is a sequence of blocks. Each block stores its index, a
timestamp, a payload, the hash of the block before it and its own hash. The
hash is SHA-256 over the block's other fields. A `Blockchain` starts with a
fixed genesis block. `addBlock` links a caller's block to the current tail,
re-hashes it and appends it. `isChainValid` walks blocks 1 .. n-1 and returns
false at the first block whose stored hash is stale or whose previous hash
does not name its predecessor's hash.

The project has three modules:

- `Blocks` (blocks.dfy) holds a block as a value (`BlockValue`), the fields
  its digest depends on (`HashInput`), the payload (`Json`) and the digest
  function. The digest function is a parameter `h: Hasher`: a total function
  from `HashInput` to `string`. Every result therefore holds for any digest
  function. Most tamper-detection results also need collision-freedom in one
  field at a time: `PayloadInjective(h)`, `IndexInjective(h)` or
  `TimestampInjective(h)`. Each says that with the other three fields fixed,
  two different values of that field never share a digest. The source's
  digest meets these when SHA-256 has no collisions, `JSON.stringify` gives
  different strings for different payloads, and different integers have
  different decimal forms. In each case the changed part sits between a fixed
  prefix and a fixed suffix. Full injectivity is not assumed, because the
  source's digest does not have it (see "Left out").
- `ChainSpec` (chain_spec.dfy) describes the chain as a sequence of block
  values. It defines what validation accepts (`Valid`), what an append
  produces (`AddBlock`) and what a chain built by appends of blocks not yet
  in the chain looks like (`Build`). It also holds the lemmas about them:
  appending keeps validity, built chains are valid, single-field tampering
  is detected, and where detection stops.
- `Simulation` (simulation.dfy) holds the two JavaScript classes as Dafny
  classes whose fields are updated in place. `Block` has mutable fields,
  because both `addBlock` and the demo script overwrite them.
  `Blockchain.chain` is a sequence of `Block` references. The
  `Blockchain` constructor, `AddBlock` and `IsChainValid` are proved against
  `ChainSpec`. `Demo` restates the script at the end of the file.

`addBlock` never compares the incoming index with the chain length, so
`AddBlock` accepts any index. Validation never compares an index with the
block's position either. The index enters only the recomputed digest.

## Model

| member | source | states |
|---|---|---|
| `Blocks.Seal` | blockchain_simulation.js:11 | Re-hashing a block makes its stored hash agree with a recomputation. It leaves index, previous hash, timestamp and payload unchanged. |
| `Blocks.PayloadEditChangesDigest` | blockchain_simulation.js:15-19 | Under payload injectivity, replacing a block's payload changes its recomputed digest, so the hash stored for the original no longer matches. |
| `Blocks.IndexEditChangesDigest` | blockchain_simulation.js:15-19 | Under index injectivity, replacing a block's index changes its recomputed digest. |
| `Blocks.TimestampEditChangesDigest` | blockchain_simulation.js:15-19 | Under timestamp injectivity, replacing a block's timestamp changes its recomputed digest. |
| `Simulation.Block.constructor` | blockchain_simulation.js:6-12 | A new block keeps the given index, timestamp, payload and previous hash. Its hash equals the digest of those four fields. |
| `Simulation.Block.CalculateHash` | blockchain_simulation.js:15-19 | Returns the digest of the current index, previous hash, timestamp and payload, whatever hash is stored. It equals the stored hash exactly when the block is sealed. |
| `Simulation.Blockchain.constructor` | blockchain_simulation.js:24-27 | A new chain holds exactly one block, the genesis block, and is valid. |
| `Simulation.Blockchain.CreateGenesisBlock` | blockchain_simulation.js:30-32 | The genesis block is new and has index 0, timestamp "01/01/2024", payload "Genesis Block" and previous hash "0". Its hash is the digest of those fields. |
| `Simulation.Blockchain.GetLatestBlock` | blockchain_simulation.js:35-37 | Returns the last element of a non-empty chain. |
| `Simulation.Blockchain.AddBlock` | blockchain_simulation.js:40-47 | The chain grows by exactly this block. The block keeps its index, timestamp and payload, and its previous hash becomes the old tail's hash. Its hash is recomputed from the new fields. Other blocks are unchanged. If the block was not already in the chain, the result is `ChainSpec.AddBlock` of the old chain, and validity is unchanged in both directions. |
| `Simulation.Blockchain.IsChainValid` | blockchain_simulation.js:50-66 | The loop with early return answers exactly `ChainSpec.Valid` of the current blocks. |
| `ChainSpec.AddBlock` | blockchain_simulation.js:40-47 | The result is one longer and keeps the old chain as a prefix. The new tail has the caller's index, timestamp and payload, points at the old tail's hash and is sealed. |
| `ChainSpec.AddBlockPreservesValid` | blockchain_simulation.js:40-66 | After an append the chain is valid if and only if it was valid before. |
| `ChainSpec.AddBlockIgnoresCarriedHashes` | blockchain_simulation.js:42-44 | The previous hash and hash the incoming block carried have no effect on the result. |
| `ChainSpec.BuildValid` | blockchain_simulation.js:24-47 | A chain built by the constructor and appends of blocks not already in the chain is valid. It starts with the genesis block and has one block per append, in order, each with its caller's index, timestamp and payload. |
| `ChainSpec.EditData` | blockchain_simulation.js:81 | Replaces the payload of block k. That block keeps its index, timestamp, previous hash and stored hash. No other block changes. |
| `ChainSpec.EditDataAndReseal` | blockchain_simulation.js:81-82 | Replaces the payload of block k and re-hashes that block only. That block keeps its index, timestamp and previous hash and is sealed. No other block changes. |
| `ChainSpec.EditDetected` | blockchain_simulation.js:55-58 | Under payload injectivity, a valid chain whose non-genesis block gets a new payload, without re-hashing, is no longer valid. |
| `ChainSpec.IndexEditDetected` | blockchain_simulation.js:55-58 | Under index injectivity, a valid chain whose non-genesis block gets a new index, without re-hashing, is no longer valid. |
| `ChainSpec.TimestampEditDetected` | blockchain_simulation.js:55-58 | Under timestamp injectivity, a valid chain whose non-genesis block gets a new timestamp, without re-hashing, is no longer valid. |
| `ChainSpec.PreviousHashEditDetected` | blockchain_simulation.js:60-63 | For any digest function, a valid chain whose non-genesis block gets a different previous hash is no longer valid. |
| `ChainSpec.ResealedEditDetected` | blockchain_simulation.js:60-63 | Under payload injectivity, a valid chain whose block k (1 <= k < n-1) gets a new payload and a recomputed hash is no longer valid. The successor's link catches it. |
| `ChainSpec.ResealedTailEditUndetected` | blockchain_simulation.js:51-65 | If the last block gets a new payload and a recomputed hash, a valid chain stays valid. Detection needs a successor. |
| `ChainSpec.GenesisNeverRecomputed` | blockchain_simulation.js:51 | Replacing the genesis block by any block with the same stored hash does not change validity. Its own hash is never checked. |
| `Simulation.HonestDemoChain` | blockchain_simulation.js:70-74 | After the script's two appends the chain has three pairwise distinct blocks: the genesis block, then block 1 ("02/10/2024", `{amount: 4}`), then block 2 ("03/10/2024", `{amount: 10}`). The chain is valid. |
| `Simulation.Demo` | blockchain_simulation.js:69-84 | Under payload injectivity, the script's first validation gives true. The validation after tampering with block 1 gives false. |

## Left out

- SHA-256 and the `crypto` module (blockchain_simulation.js:2, 16-18) are a foreign library. They are modelled as the arbitrary function parameter `h`. Single-field collision-freedom is assumed (`PayloadInjective`, `IndexInjective`, `TimestampInjective`), not proved.
- `JSON.stringify` and JavaScript's number-to-string coercion in the hashed concatenation (blockchain_simulation.js:17) are folded into `h`. The string layout is not modelled.
- The hashed string has no separators, so a joint edit of two adjacent fields can leave it unchanged: index 1 with previous hash "23" and index 12 with previous hash "3" both give "123", as do previous hash "ab" with timestamp "c" and previous hash "a" with timestamp "bc". Such joint edits can escape validation. So can any edit to the genesis block that keeps its stored hash (`ChainSpec.GenesisNeverRecomputed`). An edit to a single field of a later block is proved detected (`ChainSpec.EditDetected`, `ChainSpec.IndexEditDetected`, `ChainSpec.TimestampEditDetected`, `ChainSpec.PreviousHashEditDetected`). Edits to several fields at once are not covered.
- The digest function is a global in the source. Here it is a parameter of `Block`'s constructor and `CalculateHash`, and a constant field `h` of each `Blockchain`.
- Dynamic typing: index is an `int`, timestamp a `string` and the payload a small JSON-like datatype. Values of other JavaScript types are not modelled.
- `Simulation.Blockchain.GetLatestBlock` and `Simulation.Blockchain.AddBlock` require a non-empty chain. On an empty array the source returns `undefined` and then throws a TypeError. The constructor makes the chain non-empty and no operation removes blocks.
- `Simulation.Blockchain.AddBlock` states its exact sequence-level effect only for a block that is not already in the chain. For an aliased block it still states the new block's fields and that every other block is unchanged. Appending a block already in the chain rewrites that earlier element in place, so a chain built that way can fail validation; `ChainSpec.BuildValid` covers appends of blocks not already in the chain only.
- Console output (blockchain_simulation.js:77-78, 84) is I/O. Lines 78 and 84 print the values `Simulation.Demo` returns as `before` and `after`. The JSON dump of the whole chain at line 77 is not modelled.
