/**
 * The variables of the per-term loop, and one iteration of the loop as a
 * function of them.
 */
module RunStates {
  import opened Outcomes
  import opened Sampler
  import opened Windower
  import opened Substitutes
  import opened Batching
  import opened Scoring

  /** The exceptions that end a run. */
  datatype RunError =
    | MissingDocument(lineId: int)
    | TokenIndexOutOfRange(lineId: int, tokenIndex: nat)
    | FilterFailed(reason: FilterError)
    | WriterIndexOutOfRange(line: nat)

  /** The variables of the per-term loop between two occurrences. */
  datatype RunState = RunState(
    next: nat,
    lineIdsToSave: seq<int>,
    tokenIndicesToSave: seq<nat>,
    topWords: seq<seq<string>>,
    topWordProbs: seq<seq<int>>,
    runningTotal: nat,
    batch: nat,
    instancesInBatch: seq<nat>,
    targetTokens: seq<string>,
    toEncode: seq<seq<string>>,
    targetWordPieceIndices: seq<nat>)

  /** Every list empty and every counter zero. */
  const Initial: RunState := RunState(0, [], [], [], [], 0, 0, [], [], [], [])

  /** The saved ids and token positions are those of the first `next` occurrences. */
  ghost predicate SavedPrefix(pairs: seq<Occurrence>, next: nat, lineIds: seq<int>, tokenIndices: seq<nat>)
  {
    && next <= |pairs|
    && |lineIds| == next
    && |tokenIndices| == next
    && (forall j :: 0 <= j < next ==> lineIds[j] == pairs[j].lineId && tokenIndices[j] == pairs[j].tokenIndex)
  }

  /**
   * The batch lists describe occurrences `start, start + 1, ...`: entry `k`
   * is the index, target token and window of occurrence `start + k`.
   */
  ghost predicate BatchHolds(pairs: seq<Occurrence>, res: Resources, cfg: Config, start: nat,
                             instances: seq<nat>, targets: seq<string>, segments: seq<seq<string>>, maskIndices: seq<nat>)
  {
    && |instances| == |segments|
    && |targets| == |segments|
    && |maskIndices| == |segments|
    && forall k :: 0 <= k < |segments| ==>
         && instances[k] == start + k
         && start + k < |pairs|
         && Locatable(res, pairs[start + k])
         && targets[k] == res.corpus[pairs[start + k].lineId][pairs[start + k].tokenIndex]
         && WindowOf(res, cfg, pairs[start + k]) == Window(segments[k], maskIndices[k])
  }

  /** Record `j` of the scored lists holds the substitutes predicted for occurrence `j`. */
  ghost predicate ScoredPrefix(pairs: seq<Occurrence>, res: Resources, cfg: Config, terms: seq<seq<string>>, probs: seq<seq<int>>)
  {
    && |terms| == |probs| <= |pairs|
    && forall j :: 0 <= j < |terms| ==> PredictedFor(terms[j], probs[j], res, cfg, pairs[j])
  }

  /**
   * Everything but the flush rule: the first `next` occurrences are saved,
   * the first `runningTotal` of them are scored, and the rest sit in the
   * current batch.
   */
  ghost predicate Consistent(s: RunState, pairs: seq<Occurrence>, res: Resources, cfg: Config)
  {
    && cfg.batchSize >= 1
    && SavedPrefix(pairs, s.next, s.lineIdsToSave, s.tokenIndicesToSave)
    && |s.topWords| == s.runningTotal
    && AllPredictions(s.topWords, s.topWordProbs, res, cfg)
    && ScoredPrefix(pairs, res, cfg, s.topWords, s.topWordProbs)
    && s.runningTotal + |s.toEncode| == s.next
    && |s.toEncode| <= cfg.batchSize
    && BatchHolds(pairs, res, cfg, s.runningTotal, s.instancesInBatch, s.targetTokens, s.toEncode, s.targetWordPieceIndices)
  }

  /**
   * The loop invariant: the batch holds exactly what the flush rule leaves
   * pending. (The lemma that hands `Inv` from one iteration to the next
   * compares it with `true`, so that the verifier takes it as one fact rather
   * than checking each of its conjuncts on its own.)
   */
  ghost predicate Inv(s: RunState, pairs: seq<Occurrence>, res: Resources, cfg: Config)
  {
    Consistent(s, pairs, res, cfg) && |s.toEncode| == Pending(cfg.rule, s.next, |pairs|, cfg.batchSize)
  }

  /**
   * Adds occurrence `next` to the batch: looks up its document and token,
   * windows it, and saves its provenance.
   */
  function Added(s: RunState, pairs: seq<Occurrence>, res: Resources, cfg: Config): Result<RunState, RunError>
    requires s.next < |pairs|
  {
    var occ := pairs[s.next];
    if occ.lineId !in res.corpus then Err(MissingDocument(occ.lineId))
    else if occ.tokenIndex >= |res.corpus[occ.lineId]| then Err(TokenIndexOutOfRange(occ.lineId, occ.tokenIndex))
    else
      var w := WindowOf(res, cfg, occ);
      Ok(s.(next := s.next + 1,
            lineIdsToSave := s.lineIdsToSave + [occ.lineId],
            tokenIndicesToSave := s.tokenIndicesToSave + [occ.tokenIndex],
            instancesInBatch := s.instancesInBatch + [s.next],
            targetTokens := s.targetTokens + [res.corpus[occ.lineId][occ.tokenIndex]],
            toEncode := s.toEncode + [w.pieces],
            targetWordPieceIndices := s.targetWordPieceIndices + [w.maskIndex]))
  }

  /** Scores the current batch, appends each row's terms and scores, and empties the batch. */
  function Flushed(s: RunState, res: Resources, cfg: Config): Result<RunState, RunError>
    requires |s.targetWordPieceIndices| == |s.toEncode|
  {
    match ScoreRows(res, cfg, s.toEncode, s.targetWordPieceIndices)
    case Err(e) => Err(FilterFailed(e))
    case Ok(rows) =>
      Ok(s.(topWords := s.topWords + rows.terms,
            topWordProbs := s.topWordProbs + rows.probs,
            runningTotal := s.runningTotal + |s.toEncode|,
            batch := s.batch + 1,
            instancesInBatch := [],
            targetTokens := [],
            toEncode := [],
            targetWordPieceIndices := []))
  }

  /** One iteration of the loop: add occurrence `next`, then score the batch when the flush rule says so. */
  function Advance(s: RunState, pairs: seq<Occurrence>, res: Resources, cfg: Config): Result<RunState, RunError>
    requires s.next < |pairs| && |s.targetWordPieceIndices| == |s.toEncode|
  {
    match Added(s, pairs, res, cfg)
    case Err(e) => Err(e)
    case Ok(added) =>
      if ShouldFlush(cfg.rule, |added.toEncode|, s.next, |pairs|, cfg.batchSize) then Flushed(added, res, cfg)
      else Ok(added)
  }
}
