/** Block hashing and the proof-of-work acceptance test. */
module Hashing {
  import opened LedgerTypes

  /** The part of a block that `compute_hash` encodes. */
  function HeaderOf(b: Block): Header
  {
    Header(b.index, b.timestamp, b.transactions, b.previousHash, b.nonce)
  }

  /** `compute_hash`: digest of every field of the block except its own hash. */
  function ComputeHash(hasher: Hasher, b: Block): string
  {
    hasher(HeaderOf(b))
  }

  /** The stored hash plays no part in its own recomputation. */
  lemma ComputeHashIgnoresOwnHash(hasher: Hasher, b: Block, h: string)
    ensures ComputeHash(hasher, b.(hash := h)) == ComputeHash(hasher, b)
  {
  }

  /** Two blocks that agree on the five hashed fields hash alike. */
  lemma ComputeHashDeterministic(hasher: Hasher, b: Block, c: Block)
    requires b.index == c.index && b.timestamp == c.timestamp
    requires b.transactions == c.transactions && b.previousHash == c.previousHash
    requires b.nonce == c.nonce
    ensures ComputeHash(hasher, b) == ComputeHash(hasher, c)
  {
  }

  /** The string `"0" * d`. */
  function Zeros(d: nat): (z: string)
    ensures |z| == d
    ensures forall i :: 0 <= i < d ==> z[i] == '0'
  {
    seq(d, _ => '0')
  }

  /** `h.startswith("0" * d)`. */
  predicate HasZeroPrefix(h: string, d: nat)
  {
    Zeros(d) <= h
  }

  /** The prefix test read character by character: the first `d` characters exist
      and are all `'0'`. */
  lemma HasZeroPrefixChars(h: string, d: nat)
    ensures HasZeroPrefix(h, d) <==> d <= |h| && forall i :: 0 <= i < d ==> h[i] == '0'
  {
  }

  /** A hash that is shorter than the difficulty never passes; in particular the
      empty hash of an unmined candidate fails at any positive difficulty. */
  lemma ShortHashFails(h: string, d: nat)
    requires |h| < d
    ensures !HasZeroPrefix(h, d)
  {
  }

  /** `validate_block`: the stored hash is the recomputed one and carries the
      required number of leading zero hex digits. */
  function ValidateBlock(hasher: Hasher, difficulty: nat, b: Block): (ok: bool)
    ensures ok <==>
      && b.hash == hasher(HeaderOf(b))
      && difficulty <= |b.hash|
      && forall i :: 0 <= i < difficulty ==> b.hash[i] == '0'
  {
    HasZeroPrefixChars(b.hash, difficulty);
    if b.hash != ComputeHash(hasher, b) then false
    else if !HasZeroPrefix(b.hash, difficulty) then false
    else true
  }

  /** Tampering with the transactions of a sealed block is caught, as long as the
      digest tells the two transaction lists apart. */
  lemma TamperedBlockRejected(hasher: Hasher, difficulty: nat, b: Block, txs: seq<Transaction>)
    requires ValidateBlock(hasher, difficulty, b)
    requires hasher(HeaderOf(b.(transactions := txs))) != hasher(HeaderOf(b))
    ensures !ValidateBlock(hasher, difficulty, b.(transactions := txs))
  {
  }
}
