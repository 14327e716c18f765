/**
 * The per-term loop: every kept occurrence is windowed and appended to the
 * current batch, a full (or final) batch is encoded into padded buffers,
 * scored by the model and filtered to its top-K substitutes, and at the end
 * one record per saved occurrence is written.
 */
module Pipeline {
  import opened Outcomes
  import opened Sampler
  import opened Windower
  import opened Substitutes
  import opened Batching
  import opened Buffers
  import opened Scoring
  import opened RunStates

  /** One line of a term's substitutes file. */
  datatype Record = Record(lineId: int, tokenIndex: nat, topTerms: seq<string>, topTermProbs: seq<int>)

  lemma SavedAppend(pairs: seq<Occurrence>, next: nat, lineIds: seq<int>, tokenIndices: seq<nat>)
    requires SavedPrefix(pairs, next, lineIds, tokenIndices) && next < |pairs|
    ensures SavedPrefix(pairs, next + 1, lineIds + [pairs[next].lineId], tokenIndices + [pairs[next].tokenIndex])
  {
    var lineIds' := lineIds + [pairs[next].lineId];
    var tokenIndices' := tokenIndices + [pairs[next].tokenIndex];
    forall j | 0 <= j < next + 1
      ensures lineIds'[j] == pairs[j].lineId && tokenIndices'[j] == pairs[j].tokenIndex
    {
      if j < next {
        assert lineIds'[j] == lineIds[j] && tokenIndices'[j] == tokenIndices[j];
      }
    }
  }

  /** Entry `k` of a batch is the index, target token and window of occurrence `start + k`. */
  lemma BatchEntry(pairs: seq<Occurrence>, res: Resources, cfg: Config, start: nat,
                   instances: seq<nat>, targets: seq<string>, segments: seq<seq<string>>, maskIndices: seq<nat>, k: nat)
    requires BatchHolds(pairs, res, cfg, start, instances, targets, segments, maskIndices) && k < |segments|
    ensures |instances| == |targets| == |maskIndices| == |segments|
    ensures instances[k] == start + k && start + k < |pairs| && Locatable(res, pairs[start + k])
    ensures targets[k] == res.corpus[pairs[start + k].lineId][pairs[start + k].tokenIndex]
    ensures WindowOf(res, cfg, pairs[start + k]) == Window(segments[k], maskIndices[k])
  {
    assert instances[k] == start + k;
  }

  lemma BatchAppend(pairs: seq<Occurrence>, res: Resources, cfg: Config, start: nat,
                    instances: seq<nat>, targets: seq<string>, segments: seq<seq<string>>, maskIndices: seq<nat>)
    requires BatchHolds(pairs, res, cfg, start, instances, targets, segments, maskIndices)
    requires start + |segments| < |pairs| && Locatable(res, pairs[start + |segments|])
    ensures var occ := pairs[start + |segments|];
            var w := WindowOf(res, cfg, occ);
            BatchHolds(pairs, res, cfg, start, instances + [start + |segments|],
                       targets + [res.corpus[occ.lineId][occ.tokenIndex]], segments + [w.pieces], maskIndices + [w.maskIndex])
  {
    var occ := pairs[start + |segments|];
    var w := WindowOf(res, cfg, occ);
    var instances' := instances + [start + |segments|];
    var targets' := targets + [res.corpus[occ.lineId][occ.tokenIndex]];
    var segments' := segments + [w.pieces];
    var maskIndices' := maskIndices + [w.maskIndex];
    forall k | 0 <= k < |segments'|
      ensures instances'[k] == start + k && start + k < |pairs| && Locatable(res, pairs[start + k])
      ensures targets'[k] == res.corpus[pairs[start + k].lineId][pairs[start + k].tokenIndex]
      ensures WindowOf(res, cfg, pairs[start + k]) == Window(segments'[k], maskIndices'[k])
    {
      if k < |segments| {
        BatchEntry(pairs, res, cfg, start, instances, targets, segments, maskIndices, k);
        assert instances'[k] == instances[k] && targets'[k] == targets[k];
        assert segments'[k] == segments[k] && maskIndices'[k] == maskIndices[k];
      } else {
        assert segments'[k] == w.pieces && maskIndices'[k] == w.maskIndex;
      }
    }
    assert BatchHolds(pairs, res, cfg, start, instances', targets', segments', maskIndices');
  }

  lemma PredictionsAppend(terms: seq<seq<string>>, probs: seq<seq<int>>, moreTerms: seq<seq<string>>, moreProbs: seq<seq<int>>,
                          res: Resources, cfg: Config)
    requires AllPredictions(terms, probs, res, cfg) && AllPredictions(moreTerms, moreProbs, res, cfg)
    ensures AllPredictions(terms + moreTerms, probs + moreProbs, res, cfg)
  {
    forall j | 0 <= j < |terms| + |moreTerms|
      ensures IsPrediction((terms + moreTerms)[j], (probs + moreProbs)[j], res, cfg)
    {
      if j < |terms| {
        assert (terms + moreTerms)[j] == terms[j] && (probs + moreProbs)[j] == probs[j];
      } else {
        assert (terms + moreTerms)[j] == moreTerms[j - |terms|] && (probs + moreProbs)[j] == moreProbs[j - |terms|];
      }
    }
  }

  /** A row scored from an occurrence's own window, at a width with room for it, is that occurrence's prediction. */
  lemma PredictedForRow(res: Resources, cfg: Config, occ: Occurrence, segment: seq<string>, maskIndex: nat, width: nat,
                        terms: seq<string>, probs: seq<int>)
    requires Locatable(res, occ) && WindowOf(res, cfg, occ) == Window(segment, maskIndex)
    requires |segment| + 2 <= width
    requires FilterScores(res, cfg, res.predict(PaddedIds(segment, res.tokenId, width), PaddedMask(segment, width), maskIndex + 1))
             == Ok(Substitutes(terms, probs))
    ensures PredictedFor(terms, probs, res, cfg, occ)
  {
    var w := WindowOf(res, cfg, occ);
    assert w.pieces == segment && w.maskIndex == maskIndex;
  }

  lemma PredictedForLeft(res: Resources, cfg: Config, terms: seq<seq<string>>, probs: seq<seq<int>>,
                         moreTerms: seq<seq<string>>, moreProbs: seq<seq<int>>, j: nat, occ: Occurrence)
    requires j < |terms| == |probs| && PredictedFor(terms[j], probs[j], res, cfg, occ)
    ensures PredictedFor((terms + moreTerms)[j], (probs + moreProbs)[j], res, cfg, occ)
  {
    assert (terms + moreTerms)[j] == terms[j] && (probs + moreProbs)[j] == probs[j];
  }

  lemma PredictedForRight(res: Resources, cfg: Config, terms: seq<seq<string>>, probs: seq<seq<int>>,
                          moreTerms: seq<seq<string>>, moreProbs: seq<seq<int>>, k: nat, occ: Occurrence)
    requires |terms| == |probs| && k < |moreTerms| == |moreProbs| && PredictedFor(moreTerms[k], moreProbs[k], res, cfg, occ)
    ensures PredictedFor((terms + moreTerms)[|terms| + k], (probs + moreProbs)[|terms| + k], res, cfg, occ)
  {
    assert (terms + moreTerms)[|terms| + k] == moreTerms[k] && (probs + moreProbs)[|terms| + k] == moreProbs[k];
  }

  lemma ScoredConcat(pairs: seq<Occurrence>, res: Resources, cfg: Config, terms: seq<seq<string>>, probs: seq<seq<int>>,
                     moreTerms: seq<seq<string>>, moreProbs: seq<seq<int>>)
    requires ScoredPrefix(pairs, res, cfg, terms, probs)
    requires |moreTerms| == |moreProbs| && |terms| + |moreTerms| <= |pairs|
    requires forall k :: 0 <= k < |moreTerms| ==> PredictedFor(moreTerms[k], moreProbs[k], res, cfg, pairs[|terms| + k])
    ensures ScoredPrefix(pairs, res, cfg, terms + moreTerms, probs + moreProbs)
  {
    forall j | 0 <= j < |terms| + |moreTerms|
      ensures PredictedFor((terms + moreTerms)[j], (probs + moreProbs)[j], res, cfg, pairs[j])
    {
      if j < |terms| {
        PredictedForLeft(res, cfg, terms, probs, moreTerms, moreProbs, j, pairs[j]);
      } else {
        PredictedForRight(res, cfg, terms, probs, moreTerms, moreProbs, j - |terms|, pairs[j]);
      }
    }
  }

  /**
   * Scoring the batch that follows the scored records appends, for each of
   * its occurrences, the substitutes predicted for that occurrence.
   */
  lemma ScoredAppend(pairs: seq<Occurrence>, res: Resources, cfg: Config, terms: seq<seq<string>>, probs: seq<seq<int>>,
                     instances: seq<nat>, targets: seq<string>, segments: seq<seq<string>>, maskIndices: seq<nat>)
    requires ScoredPrefix(pairs, res, cfg, terms, probs)
    requires BatchHolds(pairs, res, cfg, |terms|, instances, targets, segments, maskIndices)
    requires ScoreRows(res, cfg, segments, maskIndices).Ok?
    ensures var v := ScoreRows(res, cfg, segments, maskIndices).value;
            ScoredPrefix(pairs, res, cfg, terms + v.terms, probs + v.probs)
  {
    var v := ScoreRows(res, cfg, segments, maskIndices).value;
    ScoreRowsForWindows(res, cfg, segments, maskIndices);
    if |segments| > 0 {
      assert |terms| + (|segments| - 1) < |pairs|;
    }
    forall k | 0 <= k < |segments|
      ensures PredictedFor(v.terms[k], v.probs[k], res, cfg, pairs[|terms| + k])
    {
      PredictedForRow(res, cfg, pairs[|terms| + k], segments[k], maskIndices[k], Width(segments), v.terms[k], v.probs[k]);
    }
    ScoredConcat(pairs, res, cfg, terms, probs, v.terms, v.probs);
  }

  /** The loop starts in a state that satisfies its invariant. */
  lemma InitialInv(pairs: seq<Occurrence>, res: Resources, cfg: Config)
    requires cfg.batchSize >= 1
    ensures Inv(Initial, pairs, res, cfg)
  {
  }

  /**
   * Scoring a consistent batch empties it and keeps the state consistent, so
   * the invariant holds whenever the flush rule leaves nothing pending.
   */
  lemma FlushedKeepsInv(s: RunState, pairs: seq<Occurrence>, res: Resources, cfg: Config)
    requires Consistent(s, pairs, res, cfg) && Pending(cfg.rule, s.next, |pairs|, cfg.batchSize) == 0
    requires Flushed(s, res, cfg).Ok?
    ensures Inv(Flushed(s, res, cfg).value, pairs, res, cfg)
    ensures Flushed(s, res, cfg).value.next == s.next
  {
    var rows := ScoreRows(res, cfg, s.toEncode, s.targetWordPieceIndices).value;
    ScoreRowsArePredictions(res, cfg, s.toEncode, s.targetWordPieceIndices);
    PredictionsAppend(s.topWords, s.topWordProbs, rows.terms, rows.probs, res, cfg);
    ScoredAppend(pairs, res, cfg, s.topWords, s.topWordProbs,
                 s.instancesInBatch, s.targetTokens, s.toEncode, s.targetWordPieceIndices);
  }

  /** A row scored from an occurrence's own window, at a width with room for it, that fails the filter shows the filter fails for that occurrence. */
  lemma FilterFailsForRow(res: Resources, cfg: Config, occ: Occurrence, segment: seq<string>, maskIndex: nat, width: nat)
    requires Locatable(res, occ) && WindowOf(res, cfg, occ) == Window(segment, maskIndex)
    requires |segment| + 2 <= width
    requires FilterScores(res, cfg, res.predict(PaddedIds(segment, res.tokenId, width), PaddedMask(segment, width), maskIndex + 1)).Err?
    ensures FilterFailsFor(res, cfg, occ)
  {
    var w := WindowOf(res, cfg, occ);
    assert w.pieces == segment && w.maskIndex == maskIndex;
  }

  /** A batch tied to its occurrences fails to score only because the filter fails for one of them. */
  lemma BatchFails(pairs: seq<Occurrence>, res: Resources, cfg: Config, start: nat,
                   instances: seq<nat>, targets: seq<string>, segments: seq<seq<string>>, maskIndices: seq<nat>)
    requires BatchHolds(pairs, res, cfg, start, instances, targets, segments, maskIndices)
    requires ScoreRows(res, cfg, segments, maskIndices).Err?
    ensures exists j :: start <= j < start + |segments| && j < |pairs| && FilterFailsFor(res, cfg, pairs[j])
  {
    ScoreRowsFailing(res, cfg, segments, maskIndices);
    var k :| 0 <= k < |segments| && ScoreRow(res, cfg, segments, maskIndices, k).Err?;
    ScoreRowOfWindow(res, cfg, segments, maskIndices, k);
    BatchEntry(pairs, res, cfg, start, instances, targets, segments, maskIndices, k);
    FilterFailsForRow(res, cfg, pairs[start + k], segments[k], maskIndices[k], Width(segments));
  }

  /** Scoring a consistent batch fails only because the filter fails for one of the batch's occurrences. */
  lemma FlushedFails(s: RunState, pairs: seq<Occurrence>, res: Resources, cfg: Config)
    requires Consistent(s, pairs, res, cfg) && Flushed(s, res, cfg).Err?
    ensures Flushed(s, res, cfg).error.FilterFailed?
    ensures exists j :: s.runningTotal <= j < s.next && j < |pairs| && FilterFailsFor(res, cfg, pairs[j])
  {
    BatchFails(pairs, res, cfg, s.runningTotal, s.instancesInBatch, s.targetTokens, s.toEncode, s.targetWordPieceIndices);
  }

  /** An iteration on a locatable occurrence fails only because the filter fails for some occurrence. */
  lemma AdvanceFilterFails(s: RunState, pairs: seq<Occurrence>, res: Resources, cfg: Config)
    requires Inv(s, pairs, res, cfg) && s.next < |pairs| && Locatable(res, pairs[s.next])
    requires Advance(s, pairs, res, cfg).Err?
    ensures Advance(s, pairs, res, cfg).error.FilterFailed?
    ensures exists j :: 0 <= j < |pairs| && FilterFailsFor(res, cfg, pairs[j])
  {
    PendingBelowBatch(cfg.rule, s.next, |pairs|, cfg.batchSize);
    AddedKeepsConsistent(s, pairs, res, cfg);
    var added := Added(s, pairs, res, cfg).value;
    assert ShouldFlush(cfg.rule, |added.toEncode|, s.next, |pairs|, cfg.batchSize);
    assert Advance(s, pairs, res, cfg) == Flushed(added, res, cfg);
    FlushedFails(added, pairs, res, cfg);
  }

  /**
   * An iteration fails on a missing document or token exactly as the lookups
   * do, and otherwise only when scoring fails.
   */
  lemma AdvanceErrors(s: RunState, pairs: seq<Occurrence>, res: Resources, cfg: Config)
    requires s.next < |pairs| && |s.targetWordPieceIndices| == |s.toEncode|
    ensures var occ := pairs[s.next];
            var r := Advance(s, pairs, res, cfg);
            && (occ.lineId !in res.corpus ==> r == Err(MissingDocument(occ.lineId)))
            && (occ.lineId in res.corpus && occ.tokenIndex >= |res.corpus[occ.lineId]| ==>
                  r == Err(TokenIndexOutOfRange(occ.lineId, occ.tokenIndex)))
            && (Locatable(res, occ) && r.Err? ==> r.error.FilterFailed?)
  {
  }

  /**
   * The flush rule decides what an iteration does to the batch: when it
   * fires, every per-batch list is emptied and each instance of the batch
   * (the new one included) appends exactly one entry to the terms and to the
   * scores; otherwise the batch grows by one and nothing is scored.
   */
  lemma AdvanceFlushRule(s: RunState, pairs: seq<Occurrence>, res: Resources, cfg: Config)
    requires s.next < |pairs| && |s.targetWordPieceIndices| == |s.toEncode|
    requires Advance(s, pairs, res, cfg).Ok?
    ensures var t := Advance(s, pairs, res, cfg).value;
            var n := |s.toEncode| + 1;
            ShouldFlush(cfg.rule, n, s.next, |pairs|, cfg.batchSize) ==>
              && t.instancesInBatch == [] && t.targetTokens == [] && t.toEncode == [] && t.targetWordPieceIndices == []
              && |t.topWords| == |s.topWords| + n && |t.topWordProbs| == |s.topWordProbs| + n
              && t.topWords[..|s.topWords|] == s.topWords && t.topWordProbs[..|s.topWordProbs|] == s.topWordProbs
              && t.runningTotal == s.runningTotal + n && t.batch == s.batch + 1
    ensures var t := Advance(s, pairs, res, cfg).value;
            var n := |s.toEncode| + 1;
            !ShouldFlush(cfg.rule, n, s.next, |pairs|, cfg.batchSize) ==>
              && |t.toEncode| == n && t.toEncode[..n - 1] == s.toEncode
              && t.topWords == s.topWords && t.topWordProbs == s.topWordProbs
              && t.runningTotal == s.runningTotal && t.batch == s.batch
  {
    var added := Added(s, pairs, res, cfg).value;
    assert |added.toEncode| == |s.toEncode| + 1;
    assert added.toEncode[..|s.toEncode|] == s.toEncode;
    if ShouldFlush(cfg.rule, |added.toEncode|, s.next, |pairs|, cfg.batchSize) {
      assert Advance(s, pairs, res, cfg) == Flushed(added, res, cfg);
      var rows := ScoreRows(res, cfg, added.toEncode, added.targetWordPieceIndices).value;
      assert |rows.terms| == |added.toEncode| && |rows.probs| == |added.toEncode|;
      assert (s.topWords + rows.terms)[..|s.topWords|] == s.topWords;
      assert (s.topWordProbs + rows.probs)[..|s.topWordProbs|] == s.topWordProbs;
    } else {
      assert Advance(s, pairs, res, cfg) == Ok(added);
    }
  }

  /** Adding a locatable occurrence to a batch with room keeps the state consistent. */
  lemma AddedKeepsConsistent(s: RunState, pairs: seq<Occurrence>, res: Resources, cfg: Config)
    requires Consistent(s, pairs, res, cfg) && s.next < |pairs| && |s.toEncode| < cfg.batchSize
    requires Locatable(res, pairs[s.next])
    ensures Added(s, pairs, res, cfg).Ok?
    ensures var a := Added(s, pairs, res, cfg).value;
            && Consistent(a, pairs, res, cfg)
            && a.next == s.next + 1
            && |a.toEncode| == |s.toEncode| + 1
  {
    BatchAppend(pairs, res, cfg, s.runningTotal, s.instancesInBatch, s.targetTokens, s.toEncode, s.targetWordPieceIndices);
    SavedAppend(pairs, s.next, s.lineIdsToSave, s.tokenIndicesToSave);
  }

  /**
   * Each iteration keeps the invariant: the occurrence is saved, and the
   * batch again holds exactly what the flush rule leaves pending.
   */
  lemma AdvanceKeepsInv(s: RunState, pairs: seq<Occurrence>, res: Resources, cfg: Config)
    requires Inv(s, pairs, res, cfg) && s.next < |pairs|
    ensures Advance(s, pairs, res, cfg).Ok? ==>
              && Inv(Advance(s, pairs, res, cfg).value, pairs, res, cfg) == true
              && Advance(s, pairs, res, cfg).value.next == s.next + 1
  {
    if Locatable(res, pairs[s.next]) {
      PendingBelowBatch(cfg.rule, s.next, |pairs|, cfg.batchSize);
      AddedKeepsConsistent(s, pairs, res, cfg);
      var added := Added(s, pairs, res, cfg).value;
      if ShouldFlush(cfg.rule, |added.toEncode|, s.next, |pairs|, cfg.batchSize) {
        assert Advance(s, pairs, res, cfg) == Flushed(added, res, cfg);
        if Flushed(added, res, cfg).Ok? {
          FlushedKeepsInv(added, pairs, res, cfg);
        }
      } else {
        assert Advance(s, pairs, res, cfg) == Ok(added);
      }
    }
  }

  // ---------------------------------------------------------------------------
  // The loop itself.

  /**
   * Scores the current batch, appends each row's terms and scores, and
   * empties the batch.
   */
  method Flush(s: RunState, res: Resources, cfg: Config) returns (out: Result<RunState, RunError>)
    requires |s.targetWordPieceIndices| == |s.toEncode| && |s.toEncode| <= cfg.batchSize
    ensures out == Flushed(s, res, cfg)
  {
    var runningTotal := s.runningTotal + |s.toEncode|;
    var scored := ScoreBatch(res, cfg, s.toEncode, s.targetWordPieceIndices);
    if scored.Err? {
      return Err(FilterFailed(scored.error));
    }
    out := Ok(s.(topWords := s.topWords + scored.value.terms,
                 topWordProbs := s.topWordProbs + scored.value.probs,
                 runningTotal := runningTotal,
                 batch := s.batch + 1,
                 instancesInBatch := [],
                 targetTokens := [],
                 toEncode := [],
                 targetWordPieceIndices := []));
  }

  /**
   * Adds occurrence `next` to the batch: looks up its document and token,
   * windows it, and saves its provenance.
   */
  method Add(s: RunState, pairs: seq<Occurrence>, res: Resources, cfg: Config) returns (out: Result<RunState, RunError>)
    requires s.next < |pairs|
    ensures out == Added(s, pairs, res, cfg)
  {
    var i := s.next;
    var occ := pairs[i];
    var instancesInBatch := s.instancesInBatch + [i];
    if occ.lineId !in res.corpus {
      return Err(MissingDocument(occ.lineId));
    }
    var tokens := res.corpus[occ.lineId];
    if occ.tokenIndex >= |tokens| {
      return Err(TokenIndexOutOfRange(occ.lineId, occ.tokenIndex));
    }
    var token := tokens[occ.tokenIndex];
    var w := MakeWindow(tokens, occ.tokenIndex, cfg.maxWindow, res.mask);
    out := Ok(s.(next := i + 1,
                 lineIdsToSave := s.lineIdsToSave + [occ.lineId],
                 tokenIndicesToSave := s.tokenIndicesToSave + [occ.tokenIndex],
                 instancesInBatch := instancesInBatch,
                 targetTokens := s.targetTokens + [token],
                 toEncode := s.toEncode + [w.pieces],
                 targetWordPieceIndices := s.targetWordPieceIndices + [w.maskIndex]));
  }

  /** Processes occurrence `next`: adds it to the batch, then scores the batch when the flush rule says so. */
  method Step(s: RunState, pairs: seq<Occurrence>, res: Resources, cfg: Config) returns (out: Result<RunState, RunError>)
    requires s.next < |pairs| && |s.targetWordPieceIndices| == |s.toEncode| && |s.toEncode| < cfg.batchSize
    ensures out == Advance(s, pairs, res, cfg)
  {
    var added := Add(s, pairs, res, cfg);
    if added.Err? {
      return added;
    }
    if ShouldFlush(cfg.rule, |added.value.toEncode|, s.next, |pairs|, cfg.batchSize) {
      out := Flush(added.value, res, cfg);
    } else {
      out := added;
    }
  }

  /**
   * Writes one record per saved occurrence, pairing the j-th saved id with
   * the j-th prediction; an unscored trailing instance makes the pairing run
   * off the end of the predictions.
   */
  method WriteRecords(s: RunState) returns (out: Result<seq<Record>, RunError>)
    requires |s.tokenIndicesToSave| == |s.lineIdsToSave| && |s.topWordProbs| == |s.topWords|
    ensures out.Ok? <==> |s.lineIdsToSave| <= |s.topWords|
    ensures out.Err? ==> out.error == WriterIndexOutOfRange(|s.topWords|)
    ensures out.Ok? ==>
              && |out.value| == |s.lineIdsToSave|
              && forall j :: 0 <= j < |out.value| ==>
                   out.value[j] == Record(s.lineIdsToSave[j], s.tokenIndicesToSave[j], s.topWords[j], s.topWordProbs[j])
  {
    var records: seq<Record> := [];
    for jj := 0 to |s.lineIdsToSave|
      invariant jj <= |s.topWords|
      invariant |records| == jj
      invariant forall j :: 0 <= j < jj ==>
                  records[j] == Record(s.lineIdsToSave[j], s.tokenIndicesToSave[j], s.topWords[j], s.topWordProbs[j])
    {
      if jj >= |s.topWords| {
        return Err(WriterIndexOutOfRange(jj));
      }
      records := records + [Record(s.lineIdsToSave[jj], s.tokenIndicesToSave[jj], s.topWords[jj], s.topWordProbs[jj])];
    }
    return Ok(records);
  }

  /**
   * Processes one target term: samples its occurrences, skips it when at
   * most one is kept, otherwise runs the batch loop over them and returns the
   * records of its substitutes file.
   */
  method ProcessTerm(pairs: seq<Occurrence>, choice: seq<nat>, res: Resources, cfg: Config)
    returns (out: Result<Option<seq<Record>>, RunError>)
    requires cfg.batchSize >= 1
    requires |pairs| > cfg.maxSamples ==> IsChoice(choice, |pairs|, cfg.maxSamples)
    ensures var kept := Sample(pairs, cfg.maxSamples, choice);
            (out.Ok? && out.value.None?) <==> IsSkipped(kept)
    ensures var kept := Sample(pairs, cfg.maxSamples, choice);
            out.Ok? && out.value.Some? ==>
              && |out.value.value| == |kept|
              && forall j :: 0 <= j < |kept| ==>
                   && out.value.value[j].lineId == kept[j].lineId
                   && out.value.value[j].tokenIndex == kept[j].tokenIndex
                   && IsPrediction(out.value.value[j].topTerms, out.value.value[j].topTermProbs, res, cfg)
                   && PredictedFor(out.value.value[j].topTerms, out.value.value[j].topTermProbs, res, cfg, kept[j])
    ensures cfg.rule == ScoreLoneTail ==> !(out.Err? && out.error.WriterIndexOutOfRange?)
    ensures var kept := Sample(pairs, cfg.maxSamples, choice);
            out.Err? && out.error.WriterIndexOutOfRange? ==>
              && cfg.rule == AsWritten && cfg.batchSize >= 2 && |kept| % cfg.batchSize == 1
              && out.error.line == |kept| - 1
    ensures var kept := Sample(pairs, cfg.maxSamples, choice);
            cfg.rule == AsWritten && !IsSkipped(kept) && cfg.batchSize >= 2 && |kept| % cfg.batchSize == 1 ==> out.Err?
    ensures var kept := Sample(pairs, cfg.maxSamples, choice);
            out.Err? && out.error.MissingDocument? ==>
              exists j :: 0 <= j < |kept| && kept[j].lineId == out.error.lineId && kept[j].lineId !in res.corpus
    ensures var kept := Sample(pairs, cfg.maxSamples, choice);
            out.Err? && out.error.TokenIndexOutOfRange? ==>
              exists j :: 0 <= j < |kept| && kept[j] == Occurrence(out.error.lineId, out.error.tokenIndex)
                && kept[j].lineId in res.corpus && kept[j].tokenIndex >= |res.corpus[kept[j].lineId]|
    ensures var kept := Sample(pairs, cfg.maxSamples, choice);
            out.Err? && out.error.FilterFailed? ==> exists j :: 0 <= j < |kept| && FilterFailsFor(res, cfg, kept[j])
    ensures var kept := Sample(pairs, cfg.maxSamples, choice);
            && !IsSkipped(kept)
            && (forall j :: 0 <= j < |kept| ==> Locatable(res, kept[j]) && !FilterFailsFor(res, cfg, kept[j]))
            && !(cfg.rule == AsWritten && cfg.batchSize >= 2 && |kept| % cfg.batchSize == 1)
            ==> out.Ok? && out.value.Some?
  {
    var kept := Sample(pairs, cfg.maxSamples, choice);
    if |kept| <= 1 {
      return Ok(None);
    }
    var s := Initial;
    InitialInv(kept, res, cfg);
    while s.next < |kept|
      invariant Inv(s, kept, res, cfg)
      decreases |kept| - s.next
    {
      PendingBelowBatch(cfg.rule, s.next, |kept|, cfg.batchSize);
      var r := Step(s, kept, res, cfg);
      if r.Err? {
        AdvanceErrors(s, kept, res, cfg);
        if Locatable(res, kept[s.next]) {
          AdvanceFilterFails(s, kept, res, cfg);
        }
        return Err(r.error);
      }
      AdvanceKeepsInv(s, kept, res, cfg);
      s := r.value;
    }
    if cfg.rule == ScoreLoneTail {
      FinalPendingScoreLoneTail(|kept|, cfg.batchSize);
    } else {
      FinalPendingAsWritten(|kept|, cfg.batchSize);
    }
    var written := WriteRecords(s);
    if written.Err? {
      return Err(written.error);
    }
    return Ok(Some(written.value));
  }
}
