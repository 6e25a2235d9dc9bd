# Single-node proof-of-work ledger, modelled in Dafny

This project models the ledger engine of a small blockchain service. One
`Blockchain` object owns three pieces of state: the chain (a list of blocks), the
queue of pending transactions, and the UTXO pool (a map from output id to an entry
with an owner transaction id, an amount and a spent flag). The model covers:

- Genesis creation. The chain starts with one block: index 0, no transactions,
  previous hash `"0"`, nonce 0, and its own hash.
- Block hashing (`compute_hash`) and proof-of-work acceptance (`validate_block`).
- Mining (`mine_block`). It fails on an empty queue. Otherwise it runs a nonce
  search over a candidate that holds a copy of the queue. It then appends the sealed
  block, clears the queue and applies the block to the pool.
- Pool maintenance (`update_utxo_pool`). Inputs found in the pool are marked spent.
  Only the first output id gets an entry, because the source zips the outputs with
  the one-element list `[amount]`. That entry overwrites whatever the id held,
  including a spent entry.
- The logic of three HTTP handlers. `new_transaction` queues without checks.
  `add_block` checks the previous hash and `validate_block`, and does not check the
  index. `verify_transaction` reports the first input that is missing or spent,
  then applies the signature verdict.

Modules: `LedgerTypes` (values and error kinds), `Hashing`, `Mining` (the nonce
search), `UtxoLedger` (the pool) and `Chain` (the `Blockchain` class and the
handlers). The class invariant `Blockchain.Valid()` says five things. The difficulty
is positive. `chain[0]` is a genesis block. The chain is linked: every
`previous_hash` equals the previous block's `hash`. Every later block passes
`ValidateBlock`. The UTXO pool equals the replay, from an empty pool, of every
transaction on the chain in order. The constructor establishes it, and every
public operation (`MineBlock`, `NewTransaction`, `AddBlock`) preserves it.
`CreateGenesisBlock` and `UpdateUtxoPool` are steps inside those operations and do
not preserve it on their own.

Two behaviours of the code are reproduced as written:

- Only the first output id of a transaction gets a UTXO entry
  (`UtxoLedger.OnlyFirstOutputRecorded`).
- An output id that names a spent entry replaces it with an unspent one, so a
  spent entry can become unspent again (`UtxoLedger.OutputOverwritesSpentEntry`).

## Model

| member | source | states |
|---|---|---|
| `Hashing.ComputeHashIgnoresOwnHash` | blockchain_app.py:58-67 | the recomputed hash does not depend on the block's stored `hash` field |
| `Hashing.ComputeHashDeterministic` | blockchain_app.py:58-67 | two blocks that agree on index, timestamp, transactions, previous hash and nonce get the same hash |
| `Hashing.Zeros` | blockchain_app.py:83 | `"0" * d` has length `d` and every character is `'0'` |
| `Hashing.HasZeroPrefixChars` | blockchain_app.py:95 | `startswith("0" * d)` holds iff the hash has at least `d` characters and the first `d` are all `'0'` |
| `Hashing.ShortHashFails` | blockchain_app.py:80-83 | a hash shorter than the difficulty (such as the candidate's empty hash) never passes the prefix test |
| `Hashing.ValidateBlock` | blockchain_app.py:92-97 | true iff the stored hash equals the digest of the block's other five fields and starts with `difficulty` zero characters |
| `Hashing.TamperedBlockRejected` | blockchain_app.py:92-94 | replacing a valid block's transactions while keeping its hash is rejected whenever the digest tells the two lists apart |
| `Mining.NextAttempt` | blockchain_app.py:84-85 | one loop turn keeps the block's content, increments the nonce, and stores the hash recomputed for the new nonce |
| `Mining.SearchFound` | blockchain_app.py:83-85 | a successful search returns the candidate with the smallest nonce past the start whose hash passes, and that block's stored hash is its recomputation; content is unchanged and the nonce is within the fuel |
| `Mining.SearchExhausted` | blockchain_app.py:83-85 | a failed search means the candidate's own hash and the hash of every nonce within the fuel fail the prefix test |
| `Mining.SearchSucceedsIff` | blockchain_app.py:83-85 | the search succeeds iff the candidate already passes or some nonce within the fuel passes |
| `Mining.SearchNonce` | blockchain_app.py:83-85 | the loop returns exactly what the search specification returns |
| `UtxoLedger.SpendInputs` | blockchain_app.py:101-103 | the pool keeps its keys; an entry named as an input is marked spent and keeps owner and amount; every other entry is unchanged |
| `UtxoLedger.RecordOutputsSingleAmount` | blockchain_app.py:105-110 | zipping the outputs with `[amount]` writes an unspent entry for the first output only, and writes nothing when there are no outputs |
| `UtxoLedger.ApplyTransactionEffect` | blockchain_app.py:100-110 | one transaction adds no key except its first output; that output's entry becomes `Utxo(tx.id, tx.amount, false)`; every other key keeps owner and amount and is spent iff it was spent or is an input |
| `UtxoLedger.ApplyTransactionsEffect` | blockchain_app.py:99-110 | over a whole block, the pool's keys become the old keys plus the transactions' first outputs; a key no transaction re-creates keeps owner and amount and ends spent iff it was spent or is some transaction's input |
| `UtxoLedger.ApplyTransactionsAppend` | blockchain_app.py:99-110 | applying two transaction lists one after the other gives the same pool as applying their concatenation |
| `UtxoLedger.SpendInputsIdempotent` | blockchain_app.py:101-103 | spending the same inputs twice gives the same pool as spending them once, so a re-spend passes silently |
| `UtxoLedger.OutputOverwritesSpentEntry` | blockchain_app.py:105-110 | an output id naming a spent entry makes it unspent again, owned by the new transaction |
| `UtxoLedger.OnlyFirstOutputRecorded` | blockchain_app.py:105 | an output id other than the first that was absent from the pool stays absent |
| `UtxoLedger.SingleOutputBlockCreatesEntry` | blockchain_app.py:105-110 | a block with one transaction that has no inputs and output `u1` leaves `u1` unspent with that transaction's id and amount |
| `UtxoLedger.ReplayFailsCheck` | blockchain_app.py:101-103 | after a transaction whose first input is in the pool is applied, its inputs no longer pass the spendability check, unless its first output re-created that input |
| `UtxoLedger.FirstUnspendable` | blockchain_app.py:176-178 | returns nothing iff every input is in the pool and unspent; otherwise returns the first input that is missing or spent |
| `Chain.LinkedAppend` | blockchain_app.py:148 | appending a block whose previous hash is the tip's hash keeps every link of the chain |
| `Chain.ChainTransactionsAppend` | blockchain_app.py:87 | appending a block to the chain appends its transactions, in order, to the chain's transactions |
| `Chain.ReplayAppend` | blockchain_app.py:154-155 | if the pool is the replay of the chain's transactions, appending a block and applying it keeps the pool the replay of the longer chain |
| `Chain.Genesis` | blockchain_app.py:46-55 | the genesis block has index 0, no transactions, previous hash `"0"`, nonce 0, and a hash equal to its own recomputation |
| `Chain.Blockchain.constructor` | blockchain_app.py:39-44 | a new ledger has difficulty 4, a chain holding only the genesis block, an empty queue and an empty pool, and satisfies the invariant |
| `Chain.Blockchain.CreateGenesisBlock` | blockchain_app.py:46-56 | appends the genesis block to the chain |
| `Chain.Blockchain.UpdateUtxoPool` | blockchain_app.py:99-110 | the in-place loops leave the pool equal to the old pool with the block's transactions applied in order |
| `Chain.Blockchain.MineBlock` | blockchain_app.py:69-90 | with an empty queue it fails and changes nothing; on success it appends one block with index `last.index + 1`, previous hash `last.hash`, the old queue as transactions, nonce at least 1 and a valid hash, clears the queue, applies the block to the pool, and keeps the invariant |
| `Chain.NewTransaction` | blockchain_app.py:131-134 | appends the transaction to the queue unchecked and echoes it |
| `Chain.AddBlock` | blockchain_app.py:144-156 | accepts iff the previous hash is the tip's hash and the block validates; `PreviousHashMismatch` is checked first, then `InvalidBlockHash`; rejection changes nothing; acceptance appends the block whatever its index, applies it to the pool, and keeps the invariant |
| `Chain.VerifyTransaction` | blockchain_app.py:174-185 | succeeds iff every input is in the pool and unspent and the signature verdict is true; otherwise reports the first missing or spent input, or else `InvalidSignature`; changes no state |

## Left out

- SHA-256 and the key-sorted JSON encoding are not modelled. The digest is a
  parameter of the ledger: any total function of (index, timestamp, transactions,
  previous hash, nonce). Collision resistance is therefore not assumed, and
  `TamperedBlockRejected` requires the two digests to differ.
- Chain.Blockchain.MineBlock: the nonce search gets a `fuel` bound and fails with
  `NonceSearchExhausted` when the fuel runs out, leaving all state unchanged. The
  source loops until it finds a nonce and may never return. Termination and
  expected cost of proof-of-work are not modelled.
- Timestamps (`time.time()`) are a `now` parameter. Amounts are `real` values that
  are copied and never computed on, so float behaviour is not modelled.
- ECDSA key generation, signing, signature verification and public-key parsing are
  not modelled. `VerifyTransaction` takes the verifier's verdict as a boolean. Two
  inputs raise in the source instead of producing a verdict: a malformed sender key
  (`VerifyingKey.from_string`), and a signature that is not valid hex
  (`bytes.fromhex` raises `ValueError`, which `verify_signature` does not catch,
  since it catches only `BadSignatureError`). The model folds both into a false
  verdict.
- The HTTP layer is not modelled: FastAPI routing, pydantic wire types, response
  dictionaries, and the read-only `/chain` and `/utxo_pool` listings. The handlers
  act on a `Blockchain` object passed to them instead of the module-level global
  instance. Concurrent requests are not modelled.
- The source flips `is_spent` on the pool's UTXO object in place. The model
  replaces the map entry instead. No other reference to those objects exists, so no
  aliasing is lost.
- Blocks and transactions are immutable values in the model. The source never
  mutates a transaction after queuing it, and a mined block holds a shallow copy of
  the queue, so clearing the queue does not affect the block.
