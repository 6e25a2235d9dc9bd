/** Values of the ledger: transactions, blocks, UTXO entries, and the error kinds
    the chain manager reports. Amounts and timestamps are carried as `real` and are
    only ever copied, never computed on. */
module LedgerTypes {

  /** A signed value transfer. `inputUtxos` names the entries it spends,
      `outputUtxos` the entries it creates. */
  datatype Transaction = Transaction(
    id: string,
    sender: string,
    receiver: string,
    amount: real,
    inputUtxos: seq<string>,
    outputUtxos: seq<string>,
    signature: string)

  /** A block as stored on the chain. `hash` is the block's own digest; every other
      field is covered by it. */
  datatype Block = Block(
    index: int,
    timestamp: real,
    transactions: seq<Transaction>,
    previousHash: string,
    nonce: int,
    hash: string)

  /** An entry of the UTXO pool. */
  datatype Utxo = Utxo(transactionId: string, amount: real, isSpent: bool)

  /** The fields of a block that its hash covers: all of them except `hash`. */
  datatype Header = Header(
    index: int,
    timestamp: real,
    transactions: seq<Transaction>,
    previousHash: string,
    nonce: int)

  /** The canonical encoding followed by the digest (key-sorted JSON, then SHA-256
      as a hex string). It is foreign code, so the model takes it as a value: any
      total function of the header, hence deterministic. */
  type Hasher = Header -> string

  datatype Option<T> = None | Some(value: T)

  datatype Result<T, E> = Ok(value: T) | Err(error: E)

  /** The failures the ledger reports to its callers. `NonceSearchExhausted` exists
      only in the model: it is what a mining search with bounded fuel returns where
      the source would keep searching. */
  datatype LedgerError =
    | EmptyPendingQueue
    | NonceSearchExhausted
    | PreviousHashMismatch
    | InvalidBlockHash
    | UnspentInputMissing(utxoId: string)
    | InvalidSignature
}
