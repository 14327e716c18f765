/**
 * The occurrence sampler and skip rule applied to each target term before
 * any windowing or scoring.
 */
module Sampler {
  import opened Outcomes

  /** One occurrence of a target term: a document id and a token position in it. */
  datatype Occurrence = Occurrence(lineId: int, tokenIndex: nat)

  /**
   * What a draw of `size` positions out of `0..n-1` without replacement
   * returns: `size` distinct positions, each below `n`.
   */
  predicate IsChoice(choice: seq<nat>, n: nat, size: nat)
  {
    && |choice| == size
    && (forall j :: 0 <= j < |choice| ==> choice[j] < n)
    && (forall i, j :: 0 <= i < j < |choice| ==> choice[i] != choice[j])
  }

  /** The elements of `xs` at the positions `idx`, in the order of `idx`. */
  function Pick<T>(xs: seq<T>, idx: seq<nat>): (r: seq<T>)
    requires forall j :: 0 <= j < |idx| ==> idx[j] < |xs|
  {
    seq(|idx|, j requires 0 <= j < |idx| => xs[idx[j]])
  }

  /**
   * The occurrences kept for one term: all of them when there are at most
   * `maxSamples`, otherwise the ones at the drawn positions `choice`.
   */
  function Sample<T>(pairs: seq<T>, maxSamples: nat, choice: seq<nat>): (kept: seq<T>)
    requires |pairs| > maxSamples ==> IsChoice(choice, |pairs|, maxSamples)
    ensures |pairs| <= maxSamples ==> kept == pairs
    ensures |kept| == Min(|pairs|, maxSamples)
  {
    if |pairs| > maxSamples then Pick(pairs, choice) else pairs
  }

  /** A term whose kept occurrences number at most one is skipped. */
  predicate IsSkipped<T>(kept: seq<T>)
  {
    |kept| <= 1
  }

  lemma PickAppend<T>(xs: seq<T>, a: seq<nat>, b: seq<nat>)
    requires forall j :: 0 <= j < |a| ==> a[j] < |xs|
    requires forall j :: 0 <= j < |b| ==> b[j] < |xs|
    ensures multiset(Pick(xs, a + b)) == multiset(Pick(xs, a)) + multiset(Pick(xs, b))
  {
    assert Pick(xs, a + b) == Pick(xs, a) + Pick(xs, b);
  }

  lemma PickPrefix<T>(xs: seq<T>, idx: seq<nat>, n: nat)
    requires n <= |xs|
    requires forall j :: 0 <= j < |idx| ==> idx[j] < n
    ensures Pick(xs, idx) == Pick(xs[..n], idx)
  {
  }

  /** Removing position `t` from distinct positions below `|xs|` that include `|xs| - 1` there leaves distinct positions below `|xs| - 1`. */
  lemma RemoveLastPosition(idx: seq<nat>, t: nat, n: nat)
    requires t < |idx| && idx[t] == n
    requires forall j :: 0 <= j < |idx| ==> idx[j] <= n
    requires forall i, j :: 0 <= i < j < |idx| ==> idx[i] != idx[j]
    ensures var rest := idx[..t] + idx[t + 1..];
            && (forall j :: 0 <= j < |rest| ==> rest[j] < n)
            && (forall i, j :: 0 <= i < j < |rest| ==> rest[i] != rest[j])
  {
    var rest := idx[..t] + idx[t + 1..];
    forall j | 0 <= j < |rest|
      ensures rest[j] < n
    {
      if j < t {
        assert rest[j] == idx[j];
      } else {
        assert rest[j] == idx[j + 1];
      }
    }
    forall i, j | 0 <= i < j < |rest|
      ensures rest[i] != rest[j]
    {
      var i' := if i < t then i else i + 1;
      var j' := if j < t then j else j + 1;
      assert rest[i] == idx[i'] && rest[j] == idx[j'];
    }
  }

  /** Elements taken at distinct positions form a sub-multiset of the original. */
  lemma {:induction false} PickDistinct<T>(xs: seq<T>, idx: seq<nat>)
    requires forall j :: 0 <= j < |idx| ==> idx[j] < |xs|
    requires forall i, j :: 0 <= i < j < |idx| ==> idx[i] != idx[j]
    ensures multiset(Pick(xs, idx)) <= multiset(xs)
    decreases |xs|
  {
    if idx != [] {
      assert idx[0] < |xs|;
      var last := |xs| - 1;
      var init := xs[..last];
      assert xs == init + [xs[last]];
      assert multiset(xs) == multiset(init) + multiset{xs[last]};
      if t :| 0 <= t < |idx| && idx[t] == last {
        var rest := idx[..t] + idx[t + 1..];
        RemoveLastPosition(idx, t, last);
        PickDistinct(init, rest);
        PickPrefix(xs, rest, last);
        assert idx == idx[..t] + ([idx[t]] + idx[t + 1..]);
        PickAppend(xs, idx[..t], [idx[t]] + idx[t + 1..]);
        PickAppend(xs, [idx[t]], idx[t + 1..]);
        PickAppend(xs, idx[..t], idx[t + 1..]);
        assert Pick(xs, [idx[t]]) == [xs[last]];
      } else {
        PickDistinct(init, idx);
        PickPrefix(xs, idx, last);
      }
    }
  }

  /**
   * Sampling is a choice without replacement: the kept occurrences are a
   * sub-multiset of the original ones, and exactly `maxSamples` of them are
   * kept when the cap is exceeded.
   */
  lemma SampleWithoutReplacement<T>(pairs: seq<T>, maxSamples: nat, choice: seq<nat>)
    requires |pairs| > maxSamples ==> IsChoice(choice, |pairs|, maxSamples)
    ensures multiset(Sample(pairs, maxSamples, choice)) <= multiset(pairs)
    ensures |pairs| > maxSamples ==> |Sample(pairs, maxSamples, choice)| == maxSamples
  {
    if |pairs| > maxSamples {
      PickDistinct(pairs, choice);
    }
  }
}
