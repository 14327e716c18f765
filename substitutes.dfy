/**
 * Ranking of one row's vocabulary scores and selection of the top-K valid
 * substitute terms with their paired scores.
 *
 * Scores are an abstract ordered type (`int`); the probabilities the model
 * produces are only compared, never computed on, here.
 */
module Substitutes {
  import opened Outcomes

  // ---------------------------------------------------------------------------
  // The filter predicate.

  /** Python's `sub in s` on strings. */
  function Contains(s: string, sub: string): bool
    decreases |s|
  {
    if |s| < |sub| then false
    else if s[..|sub|] == sub then true
    else Contains(s[1..], sub)
  }

  /** A vocabulary term that may be kept as a substitute. */
  predicate IsValidSubstitute(term: string, stopwords: set<string>)
  {
    && |term| > 1
    && term !in stopwords
    && !Contains(term, "##")
    && !Contains(term, "...")
    && !Contains(term, "[")
  }

  // ---------------------------------------------------------------------------
  // Rankings.

  /** `order` lists indices of `scores` from the highest score to the lowest. */
  predicate Descending(order: seq<nat>, scores: seq<int>)
  {
    && (forall k :: 0 <= k < |order| ==> order[k] < |scores|)
    && (forall i, j :: 0 <= i < j < |order| ==> scores[order[i]] >= scores[order[j]])
  }

  /** `0, 1, ..., n - 1` */
  function Indices(n: nat): (r: seq<nat>)
    ensures |r| == n && forall k :: 0 <= k < n ==> r[k] == k
  {
    if n == 0 then [] else Indices(n - 1) + [n - 1]
  }

  /** A ranking of `scores`: a permutation of its indices in non-increasing score order. */
  predicate IsRanking(order: seq<nat>, scores: seq<int>)
  {
    && |order| == |scores|
    && multiset(order) == multiset(Indices(|scores|))
    && Descending(order, scores)
  }

  /** Inserts index `k` into a list, ahead of the first index whose score is not higher. */
  function Insert(order: seq<nat>, k: nat, scores: seq<int>): (r: seq<nat>)
    requires k < |scores| && forall j :: 0 <= j < |order| ==> order[j] < |scores|
    ensures |r| == |order| + 1
  {
    if order == [] then [k]
    else if scores[k] >= scores[order[0]] then [k] + order
    else [order[0]] + Insert(order[1..], k, scores)
  }

  /** Insertion adds `k` and keeps every other index. */
  lemma {:induction false} InsertPermutes(order: seq<nat>, k: nat, scores: seq<int>)
    requires k < |scores| && forall j :: 0 <= j < |order| ==> order[j] < |scores|
    ensures multiset(Insert(order, k, scores)) == multiset(order) + multiset{k}
    decreases |order|
  {
    if order != [] && scores[k] < scores[order[0]] {
      InsertPermutes(order[1..], k, scores);
      assert order == [order[0]] + order[1..];
    }
  }

  /** Every index of the inserted list is `k` or an index of the original list. */
  lemma {:induction false} InsertMembers(order: seq<nat>, k: nat, scores: seq<int>)
    requires k < |scores| && forall j :: 0 <= j < |order| ==> order[j] < |scores|
    ensures forall x :: x in Insert(order, k, scores) ==> x == k || x in order
    decreases |order|
  {
    if order != [] && scores[k] < scores[order[0]] {
      InsertMembers(order[1..], k, scores);
    }
  }

  /** Inserting into a descending list keeps it descending. */
  lemma {:induction false} InsertDescending(order: seq<nat>, k: nat, scores: seq<int>)
    requires k < |scores| && Descending(order, scores)
    ensures Descending(Insert(order, k, scores), scores)
    decreases |order|
  {
    if order != [] && scores[k] < scores[order[0]] {
      var head := order[0];
      var tail := Insert(order[1..], k, scores);
      var r := [head] + tail;
      assert Insert(order, k, scores) == r;
      InsertDescending(order[1..], k, scores);
      InsertMembers(order[1..], k, scores);
      forall j | 0 <= j < |tail|
        ensures scores[head] >= scores[tail[j]]
      {
        assert tail[j] in tail;
        if tail[j] != k {
          var m :| 0 <= m < |order[1..]| && order[1..][m] == tail[j];
          assert order[m + 1] == tail[j];
        }
      }
      forall i, j | 0 <= i < j < |r|
        ensures scores[r[i]] >= scores[r[j]]
      {
        assert r[j] == tail[j - 1];
        if i > 0 {
          assert r[i] == tail[i - 1];
        }
      }
      forall q | 0 <= q < |r|
        ensures r[q] < |scores|
      {
        if q > 0 {
          assert r[q] == tail[q - 1];
        }
      }
    }
  }

  function RankPrefix(scores: seq<int>, n: nat): (r: seq<nat>)
    requires n <= |scores|
    ensures |r| == n && multiset(r) == multiset(Indices(n)) && Descending(r, scores)
  {
    if n == 0 then []
    else
      var prev := RankPrefix(scores, n - 1);
      InsertPermutes(prev, n - 1, scores);
      InsertDescending(prev, n - 1, scores);
      Insert(prev, n - 1, scores)
  }

  /**
   * One ranking of `scores` (`argsort(scores)[::-1]` up to the order of
   * equal scores).
   */
  function Rank(scores: seq<int>): (order: seq<nat>)
    ensures IsRanking(order, scores)
  {
    RankPrefix(scores, |scores|)
  }

  // ---------------------------------------------------------------------------
  // Selection.

  /** The positions of `words` holding valid substitutes, in increasing order. */
  function ValidPositions(words: seq<string>, stopwords: set<string>): (ps: seq<nat>)
    ensures forall i :: 0 <= i < |ps| ==> ps[i] < |words|
    ensures forall i, j :: 0 <= i < j < |ps| ==> ps[i] < ps[j]
    ensures forall p :: 0 <= p < |words| ==> (p in ps <==> IsValidSubstitute(words[p], stopwords))
  {
    if words == [] then []
    else
      var init := words[..|words| - 1];
      var ps := ValidPositions(init, stopwords);
      assert forall p :: 0 <= p < |init| ==> init[p] == words[p];
      if IsValidSubstitute(words[|words| - 1], stopwords) then ps + [|words| - 1] else ps
  }

  /** `[xs[k] for k in idx]` */
  function Lookup<T>(xs: seq<T>, idx: seq<nat>): (r: seq<T>)
    requires forall j :: 0 <= j < |idx| ==> idx[j] < |xs|
    ensures |r| == |idx|
  {
    seq(|idx|, j requires 0 <= j < |idx| => xs[idx[j]])
  }

  /** The K kept terms of one row and their paired scores. */
  datatype Substitutes = Substitutes(terms: seq<string>, probs: seq<int>)

  datatype FilterError =
    | VocabIndexOutOfRange   // a ranked index has no vocabulary term
    | CeilingBeyondScores    // fewer than `topK * 500` scores to rank
    | TooFewValid            // fewer than `topK` valid candidates within the ceiling

  predicate InVocab(ranked: seq<nat>, vocab: seq<string>)
  {
    forall k :: 0 <= k < |ranked| ==> ranked[k] < |vocab|
  }

  /** How many ranked candidates are examined. */
  function Ceiling(topK: nat): nat
  {
    topK * 500
  }

  /** The surface terms of the first `Ceiling(topK)` ranked indices. */
  function CandidateTerms(order: seq<nat>, vocab: seq<string>, topK: nat): seq<string>
    requires Ceiling(topK) <= |order| && InVocab(order[..Ceiling(topK)], vocab)
  {
    Lookup(vocab, order[..Ceiling(topK)])
  }

  /** The candidate positions that are kept: the first `topK` valid ones. */
  function KeptPositions(order: seq<nat>, vocab: seq<string>, stopwords: set<string>, topK: nat): seq<nat>
    requires Ceiling(topK) <= |order| && InVocab(order[..Ceiling(topK)], vocab)
  {
    var valid := ValidPositions(CandidateTerms(order, vocab, topK), stopwords);
    valid[..Min(topK, |valid|)]
  }

  /**
   * Ranks and filters one row: keeps the first `topK` candidates among the
   * `topK * 500` best ranked whose term passes the filter, each with its
   * score. Running off the vocabulary, off the score vector, or out of valid
   * candidates is an error.
   */
  function SelectTopK(order: seq<nat>, scores: seq<int>, vocab: seq<string>, stopwords: set<string>, topK: nat)
    : (r: Result<Substitutes, FilterError>)
    requires IsRanking(order, scores)
    ensures r.Ok? ==> |r.value.terms| == topK && |r.value.probs| == topK
    ensures r.Ok? ==> forall i :: 0 <= i < topK ==> IsValidSubstitute(r.value.terms[i], stopwords)
  {
    var ceiling := Ceiling(topK);
    var ranked := order[..Min(ceiling, |order|)];
    if !InVocab(ranked, vocab) then Err(VocabIndexOutOfRange)
    else if |order| < ceiling then Err(CeilingBeyondScores)
    else
      var words := CandidateTerms(order, vocab, topK);
      var probs := Lookup(scores, ranked);
      var kept := KeptPositions(order, vocab, stopwords, topK);
      if |kept| != topK then Err(TooFewValid)
      else Ok(Substitutes(Lookup(words, kept), Lookup(probs, kept)))
  }

  // ---------------------------------------------------------------------------
  // Lemmas.

  /**
   * The i-th kept term and score are those of candidate `kept[i]`, which
   * lies below the ceiling, and the kept positions increase.
   */
  lemma SelectedPositions(order: seq<nat>, scores: seq<int>, vocab: seq<string>, stopwords: set<string>, topK: nat)
    requires IsRanking(order, scores)
    requires SelectTopK(order, scores, vocab, stopwords, topK).Ok?
    ensures Ceiling(topK) <= |order| && InVocab(order[..Ceiling(topK)], vocab)
    ensures var s := SelectTopK(order, scores, vocab, stopwords, topK).value;
            var kept := KeptPositions(order, vocab, stopwords, topK);
            && |kept| == topK
            && (forall i :: 0 <= i < topK ==>
                  && kept[i] < Ceiling(topK)
                  && s.terms[i] == vocab[order[kept[i]]]
                  && s.probs[i] == scores[order[kept[i]]])
            && (forall i, j :: 0 <= i < j < topK ==> kept[i] < kept[j])
  {
  }

  /**
   * The kept terms are the earliest valid candidates: no valid candidate
   * ranked above a kept one is skipped.
   */
  lemma NoValidCandidateSkipped(order: seq<nat>, scores: seq<int>, vocab: seq<string>, stopwords: set<string>, topK: nat)
    requires IsRanking(order, scores)
    requires SelectTopK(order, scores, vocab, stopwords, topK).Ok?
    ensures Ceiling(topK) <= |order| && InVocab(order[..Ceiling(topK)], vocab)
    ensures var kept := KeptPositions(order, vocab, stopwords, topK);
            && |kept| == topK
            && forall i, p :: 0 <= i < topK && 0 <= p < kept[i] && IsValidSubstitute(vocab[order[p]], stopwords) ==>
                 p in kept[..i]
  {
    var words := CandidateTerms(order, vocab, topK);
    var valid := ValidPositions(words, stopwords);
    var kept := KeptPositions(order, vocab, stopwords, topK);
    forall i, p | 0 <= i < topK && 0 <= p < kept[i] && IsValidSubstitute(vocab[order[p]], stopwords)
      ensures p in kept[..i]
    {
      assert words[p] == vocab[order[p]];
      var m :| 0 <= m < |valid| && valid[m] == p;
      assert kept[i] == valid[i];
      assert kept[..i][m] == p;
    }
  }

  /** The kept scores are in non-increasing order. */
  lemma SelectedDescending(order: seq<nat>, scores: seq<int>, vocab: seq<string>, stopwords: set<string>, topK: nat)
    requires IsRanking(order, scores)
    requires SelectTopK(order, scores, vocab, stopwords, topK).Ok?
    ensures var s := SelectTopK(order, scores, vocab, stopwords, topK).value;
            forall i, j :: 0 <= i < j < |s.probs| ==> s.probs[i] >= s.probs[j]
  {
    SelectedPositions(order, scores, vocab, stopwords, topK);
  }

  /**
   * When the vocabulary has one term per score, selection succeeds exactly
   * when the ceiling fits in the score vector and at least `topK` of the
   * candidates within it are valid.
   */
  lemma SelectSucceedsIff(order: seq<nat>, scores: seq<int>, vocab: seq<string>, stopwords: set<string>, topK: nat)
    requires IsRanking(order, scores) && |vocab| == |scores|
    ensures SelectTopK(order, scores, vocab, stopwords, topK).Ok? <==>
            Ceiling(topK) <= |scores|
            && |ValidPositions(Lookup(vocab, order[..Ceiling(topK)]), stopwords)| >= topK
  {
    var ceiling := Ceiling(topK);
    var ranked := order[..Min(ceiling, |order|)];
    forall k | 0 <= k < |ranked|
      ensures ranked[k] < |vocab|
    {
      assert ranked[k] == order[k];
    }
  }
}
