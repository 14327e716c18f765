/**
 * When a batch of windowed instances is scored, and how many instances are
 * still waiting after each occurrence of a term.
 *
 * The rule as written scores the final partial batch only when it holds more
 * than one instance; `ScoreLoneTail` is the corrected rule that scores any
 * non-empty final batch.
 */
module Batching {

  datatype FlushRule = AsWritten | ScoreLoneTail

  /**
   * Whether the batch is scored right after occurrence `i` (0-based) of
   * `nPairs` has been added, leaving `pending` instances in it.
   */
  predicate ShouldFlush(rule: FlushRule, pending: nat, i: nat, nPairs: nat, batchSize: nat)
  {
    pending == batchSize
    || (i == nPairs - 1 && (if rule.AsWritten? then pending > 1 else pending > 0))
  }

  /** Instances added but not yet scored once the first `k` occurrences have been processed. */
  function Pending(rule: FlushRule, k: nat, nPairs: nat, batchSize: nat): nat
  {
    if k == 0 then 0
    else
      var p := Pending(rule, k - 1, nPairs, batchSize) + 1;
      if ShouldFlush(rule, p, k - 1, nPairs, batchSize) then 0 else p
  }

  /** A batch never holds `batchSize` instances once a step is over. */
  lemma {:induction false} PendingBelowBatch(rule: FlushRule, k: nat, nPairs: nat, batchSize: nat)
    requires batchSize >= 1
    ensures Pending(rule, k, nPairs, batchSize) < batchSize
  {
    if k > 0 {
      PendingBelowBatch(rule, k - 1, nPairs, batchSize);
    }
  }

  lemma MulAtLeast(d: int, b: int)
    requires d >= 1 && b >= 1
    ensures d * b >= b
  {
  }

  lemma MulGap(q: int, q': int, b: int)
    requires q > q' && b >= 1
    ensures q * b - q' * b >= b
  {
    MulAtLeast(q - q', b);
    calc {
      q * b - q' * b;
      (q - q') * b;
    }
  }

  /** Euclidean remainder is unique. */
  lemma ModUnique(x: int, b: int, q: int, r: int)
    requires b >= 1 && 0 <= r < b && x == q * b + r
    ensures x % b == r
  {
    var q' := x / b;
    assert x == q' * b + x % b;
    if q > q' {
      MulGap(q, q', b);
      assert false;
    } else if q < q' {
      MulGap(q', q, b);
      assert false;
    }
  }

  lemma ModStep(x: nat, b: nat)
    requires b >= 1
    ensures (x + 1) % b == if x % b + 1 == b then 0 else x % b + 1
  {
    var q := x / b;
    var r := x % b;
    assert x == q * b + r;
    if r + 1 == b {
      assert x + 1 == (q + 1) * b + 0;
      ModUnique(x + 1, b, q + 1, 0);
    } else {
      ModUnique(x + 1, b, q, r + 1);
    }
  }

  /** Before the last occurrence, batches fill up to `batchSize` and are scored at exactly that size. */
  lemma {:induction false} PendingBeforeLast(rule: FlushRule, k: nat, nPairs: nat, batchSize: nat)
    requires batchSize >= 1 && k < nPairs
    ensures Pending(rule, k, nPairs, batchSize) == k % batchSize
  {
    if k > 0 {
      PendingBeforeLast(rule, k - 1, nPairs, batchSize);
      ModStep(k - 1, batchSize);
    }
  }

  /**
   * With the rule as written, after the last occurrence one instance is left
   * unscored exactly when the batch size is at least 2 and the number of
   * occurrences leaves remainder 1; otherwise nothing is left.
   */
  lemma FinalPendingAsWritten(nPairs: nat, batchSize: nat)
    requires batchSize >= 1 && nPairs >= 1
    ensures Pending(AsWritten, nPairs, nPairs, batchSize) == if batchSize >= 2 && nPairs % batchSize == 1 then 1 else 0
  {
    PendingBeforeLast(AsWritten, nPairs - 1, nPairs, batchSize);
    ModStep(nPairs - 1, batchSize);
  }

  /** Concrete instance: two per batch and three occurrences leave the third one unscored. */
  lemma LoneTailLeftUnscored()
    ensures Pending(AsWritten, 3, 3, 2) == 1
  {
    FinalPendingAsWritten(3, 2);
  }

  /** With the corrected rule, every occurrence of a term is scored. */
  lemma FinalPendingScoreLoneTail(nPairs: nat, batchSize: nat)
    requires batchSize >= 1 && nPairs >= 1
    ensures Pending(ScoreLoneTail, nPairs, nPairs, batchSize) == 0
  {
    PendingBeforeLast(ScoreLoneTail, nPairs - 1, nPairs, batchSize);
    ModStep(nPairs - 1, batchSize);
  }
}
