/** The UTXO pool and what applying a block does to it (`update_utxo_pool`), plus
    the read-only spendability check of `verify_transaction`. */
module UtxoLedger {
  import opened LedgerTypes

  type Pool = map<string, Utxo>

  /** `utxo_pool[id].is_spent = True`, guarded by `id in utxo_pool`. */
  function MarkSpent(pool: Pool, id: string): Pool
  {
    if id in pool then pool[id := pool[id].(isSpent := true)] else pool
  }

  /** The input loop of `update_utxo_pool`: every input id already in the pool is
      marked spent; ids not in the pool are skipped and get no entry. */
  function SpendInputs(pool: Pool, ids: seq<string>): (r: Pool)
    decreases |ids|
    ensures r.Keys == pool.Keys
    ensures forall k :: k in r ==> r[k] == if k in ids then pool[k].(isSpent := true) else pool[k]
  {
    if ids == [] then pool else SpendInputs(MarkSpent(pool, ids[0]), ids[1..])
  }

  /** The output loop of `update_utxo_pool`: `zip(outputs, amounts)`, recording an
      unspent entry for each pair and overwriting whatever the id held before. */
  function RecordOutputs(pool: Pool, txId: string, outputs: seq<string>, amounts: seq<real>): Pool
    decreases |outputs|
  {
    if outputs == [] || amounts == [] then pool
    else RecordOutputs(pool[outputs[0] := Utxo(txId, amounts[0], false)], txId, outputs[1..], amounts[1..])
  }

  /** Zipping with the one-element list `[amount]` records the first output only. */
  lemma RecordOutputsSingleAmount(pool: Pool, txId: string, outputs: seq<string>, amount: real)
    ensures RecordOutputs(pool, txId, outputs, [amount]) ==
      if outputs == [] then pool else pool[outputs[0] := Utxo(txId, amount, false)]
  {
  }

  /** The ids a transaction creates an entry for: its first output, if any. */
  function FirstOutput(tx: Transaction): set<string>
  {
    if tx.outputUtxos == [] then {} else {tx.outputUtxos[0]}
  }

  /** The effect of one transaction on the pool. */
  function ApplyTransaction(pool: Pool, tx: Transaction): Pool
  {
    RecordOutputs(SpendInputs(pool, tx.inputUtxos), tx.id, tx.outputUtxos, [tx.amount])
  }

  /** One transaction: the first output gets a fresh unspent entry, replacing any
      prior one; every other key of the pool survives, spent if it is an input and
      otherwise as it was; no other key appears. */
  lemma ApplyTransactionEffect(pool: Pool, tx: Transaction)
    ensures ApplyTransaction(pool, tx).Keys == pool.Keys + FirstOutput(tx)
    ensures tx.outputUtxos != [] ==>
      ApplyTransaction(pool, tx)[tx.outputUtxos[0]] == Utxo(tx.id, tx.amount, false)
    ensures forall k :: k in pool && k !in FirstOutput(tx) ==>
      ApplyTransaction(pool, tx)[k] == pool[k].(isSpent := pool[k].isSpent || k in tx.inputUtxos)
  {
    RecordOutputsSingleAmount(SpendInputs(pool, tx.inputUtxos), tx.id, tx.outputUtxos, tx.amount);
  }

  /** `update_utxo_pool`: the transactions of a block, applied in order. */
  function ApplyTransactions(pool: Pool, txs: seq<Transaction>): Pool
    decreases |txs|
  {
    if txs == [] then pool else ApplyTransactions(ApplyTransaction(pool, txs[0]), txs[1..])
  }

  /** Applying two lists one after the other is applying their concatenation: the
      pool after several blocks is the replay of all their transactions in order. */
  lemma {:induction false} ApplyTransactionsAppend(pool: Pool, a: seq<Transaction>, b: seq<Transaction>)
    decreases |a|
    ensures ApplyTransactions(pool, a + b) == ApplyTransactions(ApplyTransactions(pool, a), b)
  {
    if a == [] {
      assert a + b == b;
    } else {
      assert (a + b)[1..] == a[1..] + b;
      ApplyTransactionsAppend(ApplyTransaction(pool, a[0]), a[1..], b);
    }
  }

  /** Every id a transaction of the list creates an entry for. */
  function FirstOutputs(txs: seq<Transaction>): set<string>
    decreases |txs|
  {
    if txs == [] then {} else FirstOutput(txs[0]) + FirstOutputs(txs[1..])
  }

  /** Every input id of every transaction of the list. */
  function InputIds(txs: seq<Transaction>): set<string>
    decreases |txs|
  {
    if txs == [] then {} else (set id | id in txs[0].inputUtxos) + InputIds(txs[1..])
  }

  /** A whole block: keys are only added, and exactly the first outputs are added;
      a key that no transaction re-creates keeps its owner and amount and ends up
      spent iff it was spent before or some transaction names it as an input. */
  lemma {:induction false} ApplyTransactionsEffect(pool: Pool, txs: seq<Transaction>)
    decreases |txs|
    ensures ApplyTransactions(pool, txs).Keys == pool.Keys + FirstOutputs(txs)
    ensures forall k :: k in pool && k !in FirstOutputs(txs) ==>
      ApplyTransactions(pool, txs)[k] == pool[k].(isSpent := pool[k].isSpent || k in InputIds(txs))
  {
    if txs != [] {
      var p := ApplyTransaction(pool, txs[0]);
      ApplyTransactionEffect(pool, txs[0]);
      ApplyTransactionsEffect(p, txs[1..]);
    }
  }

  /** Marking the same inputs spent twice is the same as once: the pool silently
      accepts a re-spend of an already spent entry. */
  lemma SpendInputsIdempotent(pool: Pool, ids: seq<string>)
    ensures SpendInputs(SpendInputs(pool, ids), ids) == SpendInputs(pool, ids)
  {
  }

  /** Outputs overwrite: an output id that names a spent entry turns it back into
      an unspent one, owned by the new transaction, even when the same transaction
      also spends it. */
  lemma OutputOverwritesSpentEntry(pool: Pool, tx: Transaction)
    requires tx.outputUtxos != [] && tx.outputUtxos[0] in pool
    requires pool[tx.outputUtxos[0]].isSpent
    ensures tx.outputUtxos[0] in ApplyTransaction(pool, tx)
    ensures !ApplyTransaction(pool, tx)[tx.outputUtxos[0]].isSpent
    ensures ApplyTransaction(pool, tx)[tx.outputUtxos[0]].transactionId == tx.id
  {
    ApplyTransactionEffect(pool, tx);
  }

  /** Only the first output gets an entry: a second, distinct output id that the
      pool does not hold stays absent. */
  lemma OnlyFirstOutputRecorded(pool: Pool, tx: Transaction, j: nat)
    requires 1 <= j < |tx.outputUtxos|
    requires tx.outputUtxos[j] != tx.outputUtxos[0] && tx.outputUtxos[j] !in pool
    ensures tx.outputUtxos[j] !in ApplyTransaction(pool, tx)
  {
    ApplyTransactionEffect(pool, tx);
  }

  /** A block with one transaction that has no inputs and the single output `u1`
      leaves `u1` in the pool, unspent, with the transaction's id and amount. */
  lemma SingleOutputBlockCreatesEntry(pool: Pool, tx: Transaction)
    requires tx.inputUtxos == [] && tx.outputUtxos == ["u1"]
    ensures "u1" in ApplyTransactions(pool, [tx])
    ensures ApplyTransactions(pool, [tx])["u1"] == Utxo(tx.id, tx.amount, false)
  {
    ApplyTransactionEffect(pool, tx);
    assert ApplyTransactions(pool, [tx]) == ApplyTransaction(pool, tx);
  }

  /** `is_spendable`: the id is in the pool and not marked spent. */
  predicate Spendable(pool: Pool, id: string)
  {
    id in pool && !pool[id].isSpent
  }

  /** Every input of the list is spendable. */
  predicate AllSpendable(pool: Pool, ids: seq<string>)
  {
    forall i :: 0 <= i < |ids| ==> Spendable(pool, ids[i])
  }

  /** Replaying an applied transaction fails the spendability check: its first input
      has been marked spent, unless its first output re-created that very id. */
  lemma ReplayFailsCheck(pool: Pool, tx: Transaction)
    requires tx.inputUtxos != [] && tx.inputUtxos[0] in pool
    requires tx.inputUtxos[0] !in FirstOutput(tx)
    ensures !AllSpendable(ApplyTransaction(pool, tx), tx.inputUtxos)
  {
    ApplyTransactionEffect(pool, tx);
    assert !Spendable(ApplyTransaction(pool, tx), tx.inputUtxos[0]);
  }

  /** The input loop of `verify_transaction`: returns the first input id that is
      missing from the pool or spent, or `None` when every input is spendable. */
  method FirstUnspendable(pool: Pool, ids: seq<string>) returns (bad: Option<string>)
    ensures bad.None? <==> AllSpendable(pool, ids)
    ensures bad.Some? ==>
      exists k :: 0 <= k < |ids| && ids[k] == bad.value && !Spendable(pool, ids[k]) && AllSpendable(pool, ids[..k])
  {
    var i := 0;
    while i < |ids|
      invariant 0 <= i <= |ids|
      invariant AllSpendable(pool, ids[..i])
    {
      if ids[i] !in pool || pool[ids[i]].isSpent {
        return Some(ids[i]);
      }
      i := i + 1;
    }
    assert ids[..i] == ids;
    return None;
  }
}
