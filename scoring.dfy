/**
 * Scoring one batch: each row is read from the padded buffers, the model
 * gives the vocabulary scores at the mask's column, and the scores are
 * ranked and filtered to the row's top-K substitutes.
 */
module Scoring {
  import opened Outcomes
  import opened Sampler
  import opened Windower
  import opened Substitutes
  import opened Batching
  import opened Buffers

  /**
   * The collaborators the loop calls, as values: the documents' tokens by id,
   * the tokenizer's token-to-id map, the vocabulary term of each index, the
   * stopword set, the mask token, and the model (encoder, masked-language
   * head and softmax) as the scores it gives one row at one position.
   */
  datatype Resources = Resources(
    corpus: map<int, seq<string>>,
    tokenId: string -> int,
    vocab: seq<string>,
    stopwords: set<string>,
    mask: string,
    predict: (seq<int>, seq<int>, nat) -> seq<int>)

  /** The run parameters the loop uses. */
  datatype Config = Config(maxSamples: nat, maxWindow: int, batchSize: nat, topK: nat, rule: FlushRule)

  /** The occurrence names an existing document and a token inside it. */
  predicate Locatable(res: Resources, occ: Occurrence)
  {
    occ.lineId in res.corpus && occ.tokenIndex < |res.corpus[occ.lineId]|
  }

  function WindowOf(res: Resources, cfg: Config, occ: Occurrence): (w: Window)
    requires Locatable(res, occ)
    ensures w.maskIndex < |w.pieces| && w.pieces[w.maskIndex] == res.mask
  {
    MakeWindow(res.corpus[occ.lineId], occ.tokenIndex, cfg.maxWindow, res.mask)
  }

  /** A persisted prediction: K valid terms and K scores, highest first. */
  predicate IsPrediction(terms: seq<string>, probs: seq<int>, res: Resources, cfg: Config)
  {
    && |terms| == cfg.topK
    && |probs| == cfg.topK
    && (forall i :: 0 <= i < |terms| ==> IsValidSubstitute(terms[i], res.stopwords))
    && (forall i, j :: 0 <= i < j < |probs| ==> probs[i] >= probs[j])
  }

  /** Ranks one row of vocabulary scores and filters it to the top-K substitutes. */
  function FilterScores(res: Resources, cfg: Config, scores: seq<int>): Result<Substitutes, FilterError>
  {
    SelectTopK(Rank(scores), scores, res.vocab, res.stopwords, cfg.topK)
  }

  /** Scores row `r` of a batch: the model reads the row at the mask's column, then the row is ranked and filtered. */
  function ScoreRow(res: Resources, cfg: Config, segments: seq<seq<string>>, maskIndices: seq<nat>, r: nat)
    : Result<Substitutes, FilterError>
    requires r < |segments| && |maskIndices| == |segments|
  {
    FilterScores(res, cfg, res.predict(IdRow(segments, res.tokenId, r), MaskRow(segments, r), maskIndices[r] + 1))
  }

  /**
   * `terms` and `probs` are the substitutes predicted for occurrence `occ`
   * itself: the model reads its own window, padded to the width of some batch
   * that has room for it, at the mask's column, and the scores are ranked and
   * filtered.
   */
  ghost predicate PredictedFor(terms: seq<string>, probs: seq<int>, res: Resources, cfg: Config, occ: Occurrence)
  {
    && Locatable(res, occ)
    && var w := WindowOf(res, cfg, occ);
       exists width: nat :: |w.pieces| + 2 <= width
         && FilterScores(res, cfg, res.predict(PaddedIds(w.pieces, res.tokenId, width), PaddedMask(w.pieces, width), w.maskIndex + 1))
            == Ok(Substitutes(terms, probs))
  }

  /** Row `r` of a batch is scored as its own window padded to the batch's width. */
  lemma ScoreRowOfWindow(res: Resources, cfg: Config, segments: seq<seq<string>>, maskIndices: seq<nat>, r: nat)
    requires r < |segments| && |maskIndices| == |segments|
    ensures |segments[r]| + 2 <= Width(segments)
    ensures ScoreRow(res, cfg, segments, maskIndices, r)
         == FilterScores(res, cfg, res.predict(PaddedIds(segments[r], res.tokenId, Width(segments)),
                                               PaddedMask(segments[r], Width(segments)), maskIndices[r] + 1))
  {
    RowsArePadded(segments, res.tokenId, r);
  }

  /**
   * The filter fails for occurrence `occ`: its own window, padded to some
   * width with room for it, gets an error from the ranking and the filter.
   */
  ghost predicate FilterFailsFor(res: Resources, cfg: Config, occ: Occurrence)
  {
    && Locatable(res, occ)
    && var w := WindowOf(res, cfg, occ);
       exists width: nat :: |w.pieces| + 2 <= width
         && FilterScores(res, cfg, res.predict(PaddedIds(w.pieces, res.tokenId, width), PaddedMask(w.pieces, width), w.maskIndex + 1)).Err?
  }

  /** The terms and the scores of scored rows, one entry per row. */
  datatype Scored = Scored(terms: seq<seq<string>>, probs: seq<seq<int>>)

  /**
   * Collects per-row results in order: every row's terms and scores when all
   * rows succeeded, otherwise the error of the first row that failed.
   */
  function Collect(results: seq<Result<Substitutes, FilterError>>): (r: Result<Scored, FilterError>)
    ensures r.Ok? ==> |r.value.terms| == |results| && |r.value.probs| == |results|
  {
    if results == [] then Ok(Scored([], []))
    else
      match Collect(results[..|results| - 1])
      case Err(e) => Err(e)
      case Ok(done) =>
        match results[|results| - 1]
        case Err(e) => Err(e)
        case Ok(x) => Ok(Scored(done.terms + [x.terms], done.probs + [x.probs]))
  }

  /** The result of every row of a batch. */
  function RowResults(res: Resources, cfg: Config, segments: seq<seq<string>>, maskIndices: seq<nat>)
    : (rs: seq<Result<Substitutes, FilterError>>)
    requires |maskIndices| == |segments|
    ensures |rs| == |segments|
  {
    seq(|segments|, r requires 0 <= r < |segments| => ScoreRow(res, cfg, segments, maskIndices, r))
  }

  /** Scores the rows of a batch in order; the first failing row ends the run. */
  function ScoreRows(res: Resources, cfg: Config, segments: seq<seq<string>>, maskIndices: seq<nat>)
    : Result<Scored, FilterError>
    requires |maskIndices| == |segments|
  {
    Collect(RowResults(res, cfg, segments, maskIndices))
  }

  /**
   * Collecting succeeds exactly when every row succeeded, and then entry `k`
   * holds row `k`'s terms and scores.
   */
  lemma {:induction false} CollectOk(results: seq<Result<Substitutes, FilterError>>)
    ensures Collect(results).Ok? <==> forall k :: 0 <= k < |results| ==> results[k].Ok?
    ensures Collect(results).Ok? ==>
              forall k :: 0 <= k < |results| ==>
                && Collect(results).value.terms[k] == results[k].value.terms
                && Collect(results).value.probs[k] == results[k].value.probs
    decreases |results|
  {
    if results != [] {
      var init := results[..|results| - 1];
      CollectOk(init);
      assert forall k :: 0 <= k < |init| ==> init[k] == results[k];
    }
  }

  /** One more successful row appends its terms and scores. */
  lemma CollectStep(results: seq<Result<Substitutes, FilterError>>, r: nat, terms: seq<seq<string>>, probs: seq<seq<int>>)
    requires r < |results| && Collect(results[..r]) == Ok(Scored(terms, probs)) && results[r].Ok?
    ensures Collect(results[..r + 1]) == Ok(Scored(terms + [results[r].value.terms], probs + [results[r].value.probs]))
  {
    assert results[..r + 1][..r] == results[..r];
  }

  /** After a prefix that succeeded, a failing row decides the result of every longer prefix. */
  lemma {:induction false} CollectFirstError(results: seq<Result<Substitutes, FilterError>>, r: nat)
    requires r < |results| && Collect(results[..r]).Ok? && results[r].Err?
    ensures Collect(results) == Err(results[r].error)
    decreases |results|
  {
    var init := results[..|results| - 1];
    if r < |init| {
      assert init[..r] == results[..r];
      CollectFirstError(init, r);
    } else {
      assert init == results[..r];
    }
  }

  /** A successful row is a persisted prediction. */
  lemma ScoreRowIsPrediction(res: Resources, cfg: Config, segments: seq<seq<string>>, maskIndices: seq<nat>, r: nat)
    requires r < |segments| && |maskIndices| == |segments|
    requires ScoreRow(res, cfg, segments, maskIndices, r).Ok?
    ensures var s := ScoreRow(res, cfg, segments, maskIndices, r).value;
            IsPrediction(s.terms, s.probs, res, cfg)
  {
    var scores := res.predict(IdRow(segments, res.tokenId, r), MaskRow(segments, r), maskIndices[r] + 1);
    SelectedDescending(Rank(scores), scores, res.vocab, res.stopwords, cfg.topK);
  }

  /** Paired term and score lists, each pair a persisted prediction. */
  ghost predicate AllPredictions(terms: seq<seq<string>>, probs: seq<seq<int>>, res: Resources, cfg: Config)
  {
    |terms| == |probs| && forall j :: 0 <= j < |terms| ==> IsPrediction(terms[j], probs[j], res, cfg)
  }

  /** The term and score lists of a successfully scored batch are persisted predictions, one per row. */
  lemma ScoreRowsArePredictions(res: Resources, cfg: Config, segments: seq<seq<string>>, maskIndices: seq<nat>)
    requires |maskIndices| == |segments|
    requires ScoreRows(res, cfg, segments, maskIndices).Ok?
    ensures var v := ScoreRows(res, cfg, segments, maskIndices).value;
            |v.terms| == |segments| && AllPredictions(v.terms, v.probs, res, cfg)
  {
    var results := RowResults(res, cfg, segments, maskIndices);
    var v := ScoreRows(res, cfg, segments, maskIndices).value;
    CollectOk(results);
    forall j | 0 <= j < |segments|
      ensures IsPrediction(v.terms[j], v.probs[j], res, cfg)
    {
      assert results[j] == ScoreRow(res, cfg, segments, maskIndices, j);
      ScoreRowIsPrediction(res, cfg, segments, maskIndices, j);
    }
  }

  /**
   * In a successfully scored batch, entry `k` of the terms and scores is what
   * row `k`'s own window gets at the batch's width.
   */
  lemma ScoreRowsForWindows(res: Resources, cfg: Config, segments: seq<seq<string>>, maskIndices: seq<nat>)
    requires |maskIndices| == |segments|
    requires ScoreRows(res, cfg, segments, maskIndices).Ok?
    ensures var v := ScoreRows(res, cfg, segments, maskIndices).value;
            && |v.terms| == |segments| && |v.probs| == |segments|
            && forall k :: 0 <= k < |segments| ==>
                 && |segments[k]| + 2 <= Width(segments)
                 && FilterScores(res, cfg, res.predict(PaddedIds(segments[k], res.tokenId, Width(segments)),
                                                       PaddedMask(segments[k], Width(segments)), maskIndices[k] + 1))
                    == Ok(Substitutes(v.terms[k], v.probs[k]))
  {
    var results := RowResults(res, cfg, segments, maskIndices);
    var v := ScoreRows(res, cfg, segments, maskIndices).value;
    CollectOk(results);
    forall k | 0 <= k < |segments|
      ensures |segments[k]| + 2 <= Width(segments)
      ensures FilterScores(res, cfg, res.predict(PaddedIds(segments[k], res.tokenId, Width(segments)),
                                                 PaddedMask(segments[k], Width(segments)), maskIndices[k] + 1))
              == Ok(Substitutes(v.terms[k], v.probs[k]))
    {
      assert results[k] == ScoreRow(res, cfg, segments, maskIndices, k);
      ScoreRowOfWindow(res, cfg, segments, maskIndices, k);
    }
  }

  /** A batch fails to score only because one of its rows fails. */
  lemma ScoreRowsFailing(res: Resources, cfg: Config, segments: seq<seq<string>>, maskIndices: seq<nat>)
    requires |maskIndices| == |segments|
    requires ScoreRows(res, cfg, segments, maskIndices).Err?
    ensures exists k :: 0 <= k < |segments| && ScoreRow(res, cfg, segments, maskIndices, k).Err?
  {
    var results := RowResults(res, cfg, segments, maskIndices);
    CollectOk(results);
    var k :| 0 <= k < |results| && results[k].Err?;
    assert results[k] == ScoreRow(res, cfg, segments, maskIndices, k);
  }

  /** Scores row `r` of the filled buffers: reads the row and its mask, runs the model at the mask's column, ranks and filters. */
  method ScoreBufferRow(res: Resources, cfg: Config, segments: seq<seq<string>>, maskIndices: seq<nat>,
                        inputIds: array2<int>, attentionMask: array2<int>, r: nat)
    returns (sel: Result<Substitutes, FilterError>)
    requires r < |segments| && |maskIndices| == |segments|
    requires r < inputIds.Length0 && inputIds.Length1 == Width(segments)
    requires r < attentionMask.Length0 && attentionMask.Length1 == Width(segments)
    requires forall c :: 0 <= c < Width(segments) ==>
               inputIds[r, c] == IdCell(segments, res.tokenId, r, c) && attentionMask[r, c] == MaskCell(segments, r, c)
    ensures sel == ScoreRow(res, cfg, segments, maskIndices, r)
  {
    var ids := ReadRow(inputIds, r);
    var mask := ReadRow(attentionMask, r);
    assert ids == IdRow(segments, res.tokenId, r);
    assert mask == MaskRow(segments, r);
    var scores := res.predict(ids, mask, maskIndices[r] + 1);
    sel := FilterScores(res, cfg, scores);
  }

  /**
   * Scores the filled rows in order, appending each row's terms and scores;
   * the first row whose filter fails ends the batch.
   */
  method ScoreBufferRows(res: Resources, cfg: Config, segments: seq<seq<string>>, marks: seq<nat>,
                         inputIds: array2<int>, attentionMask: array2<int>)
    returns (out: Result<Scored, FilterError>)
    requires |marks| == |segments| && |segments| <= inputIds.Length0 && attentionMask.Length0 == inputIds.Length0
    requires inputIds.Length1 == Width(segments) && attentionMask.Length1 == Width(segments)
    requires forall r, c :: 0 <= r < inputIds.Length0 && 0 <= c < Width(segments) ==>
               inputIds[r, c] == IdCell(segments, res.tokenId, r, c) && attentionMask[r, c] == MaskCell(segments, r, c)
    ensures out == ScoreRows(res, cfg, segments, marks)
  {
    ghost var results := RowResults(res, cfg, segments, marks);
    var topWords: seq<seq<string>> := [];
    var topWordProbs: seq<seq<int>> := [];
    for row := 0 to |segments|
      invariant Collect(results[..row]) == Ok(Scored(topWords, topWordProbs))
    {
      var sel := ScoreBufferRow(res, cfg, segments, marks, inputIds, attentionMask, row);
      if sel.Err? {
        CollectFirstError(results, row);
        return Err(sel.error);
      }
      CollectStep(results, row, topWords, topWordProbs);
      topWords := topWords + [sel.value.terms];
      topWordProbs := topWordProbs + [sel.value.probs];
    }
    assert results[..|segments|] == results;
    return Ok(Scored(topWords, topWordProbs));
  }

  /** Encodes a batch into padded buffers and scores its rows. */
  method ScoreBatch(res: Resources, cfg: Config, segments: seq<seq<string>>, marks: seq<nat>)
    returns (out: Result<Scored, FilterError>)
    requires |marks| == |segments| <= cfg.batchSize
    ensures out == ScoreRows(res, cfg, segments, marks)
  {
    var inputIds, attentionMask := FillBuffers(segments, cfg.batchSize, res.tokenId);
    out := ScoreBufferRows(res, cfg, segments, marks, inputIds, attentionMask);
  }
}
