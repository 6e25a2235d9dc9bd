/** The proof-of-work search of `mine_block`: starting from a candidate block,
    bump the nonce and recompute the hash until the hash carries the required zero
    prefix. The source loops without bound; here the search gets `fuel` attempts
    and reports `None` when they are used up. */
module Mining {
  import opened LedgerTypes
  import opened Hashing

  /** The hash the block would get with nonce `n`. */
  function HashAtNonce(hasher: Hasher, b: Block, n: int): string
  {
    ComputeHash(hasher, b.(nonce := n))
  }

  /** Two blocks agree on everything but nonce and hash. */
  predicate SameContent(b: Block, c: Block)
  {
    b.index == c.index && b.timestamp == c.timestamp &&
    b.transactions == c.transactions && b.previousHash == c.previousHash
  }

  /** One turn of the loop body: increment the nonce, then store the recomputed hash. */
  function NextAttempt(hasher: Hasher, b: Block): (c: Block)
    ensures SameContent(b, c)
    ensures c.nonce == b.nonce + 1
    ensures c.hash == ComputeHash(hasher, c)
  {
    var c := b.(nonce := b.nonce + 1);
    c.(hash := ComputeHash(hasher, c))
  }

  /** The loop as a function: test the stored hash first, exactly as the `while`
      condition does, and try the next nonce while fuel remains. */
  function Search(hasher: Hasher, b: Block, difficulty: nat, fuel: nat): Option<Block>
    decreases fuel
  {
    if HasZeroPrefix(b.hash, difficulty) then Some(b)
    else if fuel == 0 then None
    else Search(hasher, NextAttempt(hasher, b), difficulty, fuel - 1)
  }

  /** What a successful search returns: the candidate with the first nonce past the
      start whose hash passes, the hash stored being that nonce's recomputation.
      Only when the candidate's own stored hash already passes is it returned as is. */
  lemma {:induction false} SearchFound(hasher: Hasher, b: Block, difficulty: nat, fuel: nat)
    requires Search(hasher, b, difficulty, fuel).Some?
    decreases fuel
    ensures var r := Search(hasher, b, difficulty, fuel).value;
      && SameContent(b, r)
      && b.nonce <= r.nonce <= b.nonce + fuel
      && HasZeroPrefix(r.hash, difficulty)
      && (r.nonce == b.nonce ==> r == b)
      && (r.nonce > b.nonce ==> r.hash == ComputeHash(hasher, r) && !HasZeroPrefix(b.hash, difficulty))
      && forall n :: b.nonce < n < r.nonce ==> !HasZeroPrefix(HashAtNonce(hasher, b, n), difficulty)
  {
    if !HasZeroPrefix(b.hash, difficulty) {
      var c := NextAttempt(hasher, b);
      SearchFound(hasher, c, difficulty, fuel - 1);
      var r := Search(hasher, b, difficulty, fuel).value;
      forall n | b.nonce < n < r.nonce
        ensures !HasZeroPrefix(HashAtNonce(hasher, b, n), difficulty)
      {
        if n > c.nonce {
          assert HashAtNonce(hasher, c, n) == HashAtNonce(hasher, b, n) by {
            assert HeaderOf(c.(nonce := n)) == HeaderOf(b.(nonce := n));
          }
        } else {
          assert c.hash == HashAtNonce(hasher, b, n);
        }
      }
    }
  }

  /** A failed search means the stored hash and every nonce tried failed. */
  lemma {:induction false} SearchExhausted(hasher: Hasher, b: Block, difficulty: nat, fuel: nat)
    requires Search(hasher, b, difficulty, fuel).None?
    decreases fuel
    ensures !HasZeroPrefix(b.hash, difficulty)
    ensures forall n :: b.nonce < n <= b.nonce + fuel ==> !HasZeroPrefix(HashAtNonce(hasher, b, n), difficulty)
  {
    if fuel > 0 {
      var c := NextAttempt(hasher, b);
      SearchExhausted(hasher, c, difficulty, fuel - 1);
      forall n | b.nonce < n <= b.nonce + fuel
        ensures !HasZeroPrefix(HashAtNonce(hasher, b, n), difficulty)
      {
        if n > c.nonce {
          assert HashAtNonce(hasher, c, n) == HashAtNonce(hasher, b, n) by {
            assert HeaderOf(c.(nonce := n)) == HeaderOf(b.(nonce := n));
          }
        } else {
          assert c.hash == HashAtNonce(hasher, b, n);
        }
      }
    }
  }

  /** The search finds a block exactly when the candidate already passes or some
      nonce within reach of the fuel does. */
  lemma SearchSucceedsIff(hasher: Hasher, b: Block, difficulty: nat, fuel: nat)
    ensures Search(hasher, b, difficulty, fuel).Some? <==>
      HasZeroPrefix(b.hash, difficulty) ||
      exists n :: b.nonce < n <= b.nonce + fuel && HasZeroPrefix(HashAtNonce(hasher, b, n), difficulty)
  {
    if Search(hasher, b, difficulty, fuel).None? {
      SearchExhausted(hasher, b, difficulty, fuel);
    } else {
      SearchFound(hasher, b, difficulty, fuel);
      var r := Search(hasher, b, difficulty, fuel).value;
      if r.nonce > b.nonce {
        assert r.hash == HashAtNonce(hasher, b, r.nonce) by {
          assert HeaderOf(r) == HeaderOf(b.(nonce := r.nonce));
        }
      }
    }
  }

  /** The `while` loop of `mine_block`, run on a local copy of the candidate. */
  method SearchNonce(hasher: Hasher, candidate: Block, difficulty: nat, fuel: nat) returns (r: Option<Block>)
    ensures r == Search(hasher, candidate, difficulty, fuel)
  {
    var b := candidate;
    var left := fuel;
    while !HasZeroPrefix(b.hash, difficulty)
      invariant Search(hasher, b, difficulty, left) == Search(hasher, candidate, difficulty, fuel)
      decreases left
    {
      if left == 0 {
        return None;
      }
      b := b.(nonce := b.nonce + 1);
      b := b.(hash := ComputeHash(hasher, b));
      left := left - 1;
    }
    return Some(b);
  }
}
