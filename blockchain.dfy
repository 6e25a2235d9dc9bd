/** The ledger engine: the `Blockchain` object that owns the chain, the pending
    queue and the UTXO pool, and the handlers that act on it. */
module Chain {
  import opened LedgerTypes
  import opened Hashing
  import opened Mining
  import opened UtxoLedger

  /** Every block names the hash of the block before it. */
  predicate Linked(chain: seq<Block>)
  {
    forall i :: 1 <= i < |chain| ==> chain[i].previousHash == chain[i - 1].hash
  }

  /** Appending a block that names the tip's hash keeps the chain linked. */
  lemma LinkedAppend(chain: seq<Block>, b: Block)
    requires Linked(chain) && |chain| > 0
    requires b.previousHash == chain[|chain| - 1].hash
    ensures Linked(chain + [b])
  {
  }

  /** Every transaction on the chain, block by block, in chain order. */
  function ChainTransactions(chain: seq<Block>): seq<Transaction>
    decreases |chain|
  {
    if chain == [] then [] else ChainTransactions(chain[..|chain| - 1]) + chain[|chain| - 1].transactions
  }

  /** Appending a block appends its transactions to the chain's. */
  lemma ChainTransactionsAppend(chain: seq<Block>, b: Block)
    ensures ChainTransactions(chain + [b]) == ChainTransactions(chain) + b.transactions
  {
  }

  /** If the pool is the replay of the chain's transactions, it stays so when a block
      is appended and applied. */
  lemma ReplayAppend(pool: Pool, chain: seq<Block>, b: Block)
    requires pool == ApplyTransactions(map[], ChainTransactions(chain))
    ensures ApplyTransactions(pool, b.transactions) == ApplyTransactions(map[], ChainTransactions(chain + [b]))
  {
    ChainTransactionsAppend(chain, b);
    ApplyTransactionsAppend(map[], ChainTransactions(chain), b.transactions);
  }

  /** The shape of the first block: index 0, no transactions, previous hash "0",
      nonce 0, and a hash that is its own recomputation. */
  predicate IsGenesis(hasher: Hasher, b: Block)
  {
    b.index == 0 && b.transactions == [] && b.previousHash == "0" && b.nonce == 0 &&
    b.hash == ComputeHash(hasher, b)
  }

  /** `create_genesis_block`'s block, stamped with `now`. */
  function Genesis(hasher: Hasher, now: real): (g: Block)
    ensures IsGenesis(hasher, g) && g.timestamp == now
  {
    var b := Block(0, now, [], "0", 0, "");
    b.(hash := ComputeHash(hasher, b))
  }

  /** The candidate `mine_block` builds on top of `last` before the nonce search. */
  function Candidate(last: Block, pending: seq<Transaction>, now: real): Block
  {
    Block(last.index + 1, now, pending, last.hash, 0, "")
  }

  class Blockchain {
    /** compute_hash's encoding and digest. */
    const hasher: Hasher
    /** Required count of leading zero hex digits. */
    const difficulty: nat
    var chain: seq<Block>
    var pendingTransactions: seq<Transaction>
    var utxoPool: Pool

    /** The chain starts with a genesis block, is linked, and every later block is
        sealed: its hash is its recomputation and passes the difficulty. The pool is
        the replay, from an empty pool, of every transaction on the chain. */
    ghost predicate Valid()
      reads this
    {
      && difficulty >= 1
      && |chain| >= 1
      && IsGenesis(hasher, chain[0])
      && Linked(chain)
      && (forall i :: 1 <= i < |chain| ==> ValidateBlock(hasher, difficulty, chain[i]))
      && utxoPool == ApplyTransactions(map[], ChainTransactions(chain))
    }

    /** `chain[-1]`. */
    function Last(): Block
      reads this
      requires Valid()
    {
      chain[|chain| - 1]
    }

    /** `__init__`: empty state, difficulty 4, then the genesis block. */
    constructor (hasher: Hasher, now: real)
      ensures Valid()
      ensures this.hasher == hasher && difficulty == 4
      ensures chain == [Genesis(hasher, now)]
      ensures pendingTransactions == [] && utxoPool == map[]
    {
      this.hasher := hasher;
      difficulty := 4;
      chain := [];
      pendingTransactions := [];
      utxoPool := map[];
      new;
      CreateGenesisBlock(now);
    }

    /** `create_genesis_block`: hash the genesis block, then append it. */
    method CreateGenesisBlock(now: real)
      modifies this`chain
      ensures chain == old(chain) + [Genesis(hasher, now)]
    {
      var genesis := Genesis(hasher, now);
      chain := chain + [genesis];
    }

    /** `update_utxo_pool`: for each transaction in order, mark its inputs that
        are in the pool spent, then record `zip(outputs, [amount])`. */
    method UpdateUtxoPool(block: Block)
      modifies this`utxoPool
      ensures utxoPool == ApplyTransactions(old(utxoPool), block.transactions)
    {
      var txs := block.transactions;
      var t := 0;
      while t < |txs|
        invariant 0 <= t <= |txs|
        invariant ApplyTransactions(utxoPool, txs[t..]) == ApplyTransactions(old(utxoPool), txs)
      {
        var tx := txs[t];
        assert txs[t..] == [tx] + txs[t + 1..];
        ghost var start := utxoPool;
        var i := 0;
        while i < |tx.inputUtxos|
          invariant 0 <= i <= |tx.inputUtxos|
          invariant SpendInputs(utxoPool, tx.inputUtxos[i..]) == SpendInputs(start, tx.inputUtxos)
        {
          var id := tx.inputUtxos[i];
          if id in utxoPool {
            utxoPool := utxoPool[id := utxoPool[id].(isSpent := true)];
          }
          assert tx.inputUtxos[i..][1..] == tx.inputUtxos[i + 1..];
          i := i + 1;
        }
        var amounts := [tx.amount];
        ghost var spent := utxoPool;
        var j := 0;
        while j < |tx.outputUtxos| && j < |amounts|
          invariant 0 <= j <= |amounts|
          invariant j <= |tx.outputUtxos|
          invariant RecordOutputs(utxoPool, tx.id, tx.outputUtxos[j..], amounts[j..]) ==
            RecordOutputs(spent, tx.id, tx.outputUtxos, amounts)
        {
          utxoPool := utxoPool[tx.outputUtxos[j] := Utxo(tx.id, amounts[j], false)];
          assert tx.outputUtxos[j..][1..] == tx.outputUtxos[j + 1..];
          j := j + 1;
        }
        t := t + 1;
      }
    }

    /** `mine_block`: with nothing pending, fail and change nothing; otherwise
        search a nonce for a candidate holding a copy of the pending queue, append
        the sealed block, clear the queue and apply the block to the pool. */
    method MineBlock(now: real, fuel: nat) returns (r: Result<Block, LedgerError>)
      requires Valid()
      modifies this`chain, this`pendingTransactions, this`utxoPool
      ensures Valid()
      ensures old(pendingTransactions) == [] ==> r == Err(EmptyPendingQueue)
      ensures old(pendingTransactions) != [] ==>
        var found := Search(hasher, Candidate(old(Last()), old(pendingTransactions), now), difficulty, fuel);
        (found.None? ==> r == Err(NonceSearchExhausted)) && (found.Some? ==> r == Ok(found.value))
      ensures r.Err? ==>
        chain == old(chain) && pendingTransactions == old(pendingTransactions) && utxoPool == old(utxoPool)
      ensures r.Ok? ==>
        var b := r.value;
        && chain == old(chain) + [b]
        && pendingTransactions == []
        && utxoPool == ApplyTransactions(old(utxoPool), old(pendingTransactions))
        && b.index == old(Last()).index + 1
        && b.previousHash == old(Last()).hash
        && b.timestamp == now
        && b.transactions == old(pendingTransactions)
        && b.nonce >= 1
        && ValidateBlock(hasher, difficulty, b)
    {
      if pendingTransactions == [] {
        return Err(EmptyPendingQueue);
      }
      var lastBlock := chain[|chain| - 1];
      var candidate := Candidate(lastBlock, pendingTransactions, now);
      var found := SearchNonce(hasher, candidate, difficulty, fuel);
      if found.None? {
        return Err(NonceSearchExhausted);
      }
      var newBlock := found.value;
      SearchFound(hasher, candidate, difficulty, fuel);
      ShortHashFails(candidate.hash, difficulty);
      LinkedAppend(chain, newBlock);
      ReplayAppend(utxoPool, chain, newBlock);
      chain := chain + [newBlock];
      pendingTransactions := [];
      UpdateUtxoPool(newBlock);
      return Ok(newBlock);
    }
  }

  /** The `new_transaction` handler: queue the transaction unchecked and echo it. */
  method NewTransaction(bc: Blockchain, tx: Transaction) returns (echo: Transaction)
    requires bc.Valid()
    modifies bc`pendingTransactions
    ensures bc.Valid()
    ensures bc.pendingTransactions == old(bc.pendingTransactions) + [tx]
    ensures echo == tx
  {
    bc.pendingTransactions := bc.pendingTransactions + [tx];
    return tx;
  }

  /** The `add_block` handler: reject a block that does not name the tip's hash or
      fails `validate_block`, changing nothing; otherwise append it and apply it
      to the pool. The block's index is not checked. */
  method AddBlock(bc: Blockchain, block: Block) returns (r: Result<Block, LedgerError>)
    requires bc.Valid()
    modifies bc`chain, bc`utxoPool
    ensures bc.Valid()
    ensures r.Ok? <==>
      block.previousHash == old(bc.Last()).hash && ValidateBlock(bc.hasher, bc.difficulty, block)
    ensures block.previousHash != old(bc.Last()).hash ==> r == Err(PreviousHashMismatch)
    ensures block.previousHash == old(bc.Last()).hash && !ValidateBlock(bc.hasher, bc.difficulty, block) ==>
      r == Err(InvalidBlockHash)
    ensures r.Err? ==> bc.chain == old(bc.chain) && bc.utxoPool == old(bc.utxoPool)
    ensures r.Ok? ==>
      && r.value == block
      && bc.chain == old(bc.chain) + [block]
      && bc.utxoPool == ApplyTransactions(old(bc.utxoPool), block.transactions)
  {
    var lastBlock := bc.chain[|bc.chain| - 1];
    if block.previousHash != lastBlock.hash {
      return Err(PreviousHashMismatch);
    }
    if !ValidateBlock(bc.hasher, bc.difficulty, block) {
      return Err(InvalidBlockHash);
    }
    LinkedAppend(bc.chain, block);
    ReplayAppend(bc.utxoPool, bc.chain, block);
    bc.chain := bc.chain + [block];
    bc.UpdateUtxoPool(block);
    return Ok(block);
  }

  /** The `verify_transaction` handler: the first input id that is missing or spent
      is reported; then the signature verdict, which comes from outside the model,
      decides. Nothing is changed. */
  method VerifyTransaction(bc: Blockchain, tx: Transaction, signatureValid: bool) returns (r: Result<(), LedgerError>)
    ensures r.Ok? <==> AllSpendable(bc.utxoPool, tx.inputUtxos) && signatureValid
    ensures !AllSpendable(bc.utxoPool, tx.inputUtxos) ==>
      r.Err? && r.error.UnspentInputMissing? &&
      exists k :: 0 <= k < |tx.inputUtxos| && tx.inputUtxos[k] == r.error.utxoId &&
        !Spendable(bc.utxoPool, tx.inputUtxos[k]) && AllSpendable(bc.utxoPool, tx.inputUtxos[..k])
    ensures AllSpendable(bc.utxoPool, tx.inputUtxos) && !signatureValid ==> r == Err(InvalidSignature)
  {
    var bad := FirstUnspendable(bc.utxoPool, tx.inputUtxos);
    if bad.Some? {
      return Err(UnspentInputMissing(bad.value));
    }
    if !signatureValid {
      return Err(InvalidSignature);
    }
    return Ok(());
  }
}
