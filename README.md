# Masked-language-model substitutes for one target term

This project models the per-term core of `semeval/get_substitutes.py`, the script that predicts
lexical substitutes for every occurrence of a target word in a tokenised corpus. The script lists
each term's occurrences (document id, token position). For one term:

1. **Sampling and skip** (`Sampler`). At most `max_samples` occurrences are kept, drawn without
   replacement. A term left with at most one occurrence is skipped and gets no output.
2. **Windowing** (`Windower`). The tokens left and right of the target are each joined with spaces.
   A space is put before every `##`, the text is split on whitespace, and each side is cut to the
   window radius with Python's slice rules. The result is `left + [mask] + right`, with the mask at
   `len(left)`.
3. **Batching** (`Batching`, `RunStates`, `Pipeline`). Windowed instances accumulate in a batch.
   The batch is scored when it reaches `batch_size`, or after the last occurrence when it holds
   more than one instance.
4. **Padded buffers** (`Buffers`). A scored batch is encoded into two zero-filled
   `batch_size × (longest + 2)` arrays. Each row is `[101] + ids + [102]`, and the attention mask
   is 1 over that span.
5. **Scoring and top-K filter** (`Scoring`, `Substitutes`). The model gives one score per
   vocabulary term at the mask's column (`mask index + 1`). The scores are ranked. The first
   `top_k` terms among the `top_k * 500` best that pass the filter are kept, with their scores.
   The filter requires length > 1, not a stopword, and no `##`, `...` or `[`.
6. **Writer** (`Pipeline.WriteRecords`). One record is written per saved occurrence, pairing the
   j-th saved id with the j-th prediction.

The per-occurrence loop is imperative in the source, so it is modelled that way. `Pipeline.Step`,
`Add` and `Flush` are methods that update the loop's variables (`RunStates.RunState`). The buffers
are `array2<int>` filled by `Buffers.FillBuffers`. Each method is proved equal to a function on
the state: `RunStates.Advance`, `Added`, `Flushed`, `Scoring.ScoreRows`. The loop in
`Pipeline.ProcessTerm` keeps the invariant `RunStates.Inv`, which says:

- the saved ids are the processed occurrences;
- every scored instance has exactly one persisted prediction, and it is the one the model and the
  filter give that occurrence's own window, padded to some width with room for it
  (`RunStates.ScoredPrefix`);
- the batch holds exactly the occurrences the flush rule leaves pending.

Windowing and the filter are list expressions in the source. They are modelled as functions with
lemmas, including a reference definition of the word pieces (`Windower.PiecesOf`). For
whitespace-free tokens, `Windower.ContextPieces` proves that the windower equals that reference.

The flush rule is a parameter, `Batching.FlushRule`:

- `AsWritten` is the rule in the code.
- `ScoreLoneTail` also scores a final batch of one instance (see Findings).

Two behaviours of the code are easy to misread:

- A lone final instance is not scored (line 230), but its id is still saved (lines 227-228). The
  writer then runs past the end of the predictions and raises `IndexError` (lines 303-306).
  `Pipeline.ProcessTerm` proves that, as written, a term with `n ≥ 2` kept occurrences fails
  whenever `batch_size ≥ 2` and `n mod batch_size = 1`. It also proves that a writer `IndexError`
  happens only then, at index `n - 1`. Every other failure is traced to a kept occurrence: a
  missing document, a token position past the end of a document that exists, or a window the
  filter rejects. When none of these applies and the writer condition does not hold, the run
  succeeds.
- `left[-max_window_size:]` at line 216 keeps the whole left side when the radius is 0, because
  `-0` is `0` (`Windower.WindowZeroRadius`). A side can then be longer than the radius.

## Model

| member | source | states |
|---|---|---|
| Sampler.Sample | semeval/get_substitutes.py:160-164 | At or below the cap the occurrence list is unchanged. Otherwise it is the occurrences at the drawn positions. Its length is `min(n, max_samples)`. |
| Sampler.PickDistinct | semeval/get_substitutes.py:162-163 | Occurrences taken at distinct in-range positions form a sub-multiset of the original list. |
| Sampler.SampleWithoutReplacement | semeval/get_substitutes.py:160-164 | Sampling draws without replacement: the kept occurrences are a sub-multiset of the original ones, and exactly `max_samples` are kept when the cap is exceeded. |
| Windower.SliceFrom | semeval/get_substitutes.py:216 | `s[a:]` with Python's rules is always a suffix of `s`. A negative start keeps the last `min(-a, n)` elements. A non-negative start drops the first `min(a, n)`. |
| Windower.SliceTo | semeval/get_substitutes.py:217 | `s[:b]` with Python's rules is always a prefix of `s`. A negative stop keeps `max(n + b, 0)` elements. A non-negative stop keeps the first `min(b, n)`. |
| Windower.MakeWindow | semeval/get_substitutes.py:200-220 | The mask sits at `maskIndex`. Every other piece is non-empty and whitespace-free. |
| Windower.WindowBounds | semeval/get_substitutes.py:216-220 | For a radius W ≥ 1, the left side is the last `min(W, n)` left pieces and the right side is the first `min(W, n)` right pieces. The mask index is the left count and the window has at most 2W+1 pieces. |
| Windower.WindowZeroRadius | semeval/get_substitutes.py:216-220 | With radius 0, `left[-0:]` keeps every left piece and `right[:0]` keeps none. |
| Windower.WindowNegativeRadius | semeval/get_substitutes.py:216-220 | With a negative radius `-d`, `left[d:]` drops the first `d` left pieces and `right[:-d]` drops the last `d` right pieces. The mask index is the number of left pieces kept. |
| Windower.SplitWords | semeval/get_substitutes.py:212-213 | `str.split()` yields only non-empty, whitespace-free words. |
| Windower.PiecesShape | semeval/get_substitutes.py:210-213 | Every reference piece is non-empty. Every piece after a token's first starts with `##`. That each matched `##` begins a new piece is the definition of `PiecesFrom`, which `SplitIntoPieces` ties to the windower. |
| Windower.SplitMarked | semeval/get_substitutes.py:210-213 | Splitting the marked text of one whitespace-free token (after a partial piece and before a separator) gives exactly the reference pieces. |
| Windower.MarkAcross | semeval/get_substitutes.py:201-211 | The `##` substitution never matches across a character other than `#`, so the joining spaces split its work token by token. |
| Windower.SplitIntoPieces | semeval/get_substitutes.py:200-213 | For whitespace-free tokens, join + substitution + split equals the concatenated reference pieces of the tokens. |
| Windower.PiecesFromConcat | semeval/get_substitutes.py:210-213 | A token's pieces concatenate back to the token: splitting loses and adds no character. |
| Windower.PiecesConcat | semeval/get_substitutes.py:200-213 | The pieces of a token list concatenate back to the concatenation of the tokens. |
| Windower.ContextPieces | semeval/get_substitutes.py:200-213 | For whitespace-free tokens, the left side is the reference pieces of the tokens before the target, and the right side those of the tokens after it. |
| Windower.LeftContextPieces | semeval/get_substitutes.py:200-212 | The left half of `ContextPieces`, including the empty left context at position 0. |
| Windower.RightContextPieces | semeval/get_substitutes.py:204-213 | The right half of `ContextPieces`, including the empty right context at the last position. |
| Substitutes.InsertPermutes | semeval/get_substitutes.py:277 | Inserting an index into a ranking adds exactly that index. |
| Substitutes.InsertDescending | semeval/get_substitutes.py:277 | Inserting into a score-descending list keeps it descending. |
| Substitutes.RankPrefix | semeval/get_substitutes.py:277 | The first n indices, ranked: a permutation of `0..n-1` in non-increasing score order. |
| Substitutes.Rank | semeval/get_substitutes.py:277 | `argsort(scores)[::-1]`: a permutation of the indices in non-increasing score order. |
| Substitutes.ValidPositions | semeval/get_substitutes.py:282 | The positions of the valid terms, increasing: a position is listed if and only if its term passes the filter. |
| Substitutes.SelectTopK | semeval/get_substitutes.py:277-286 | On success, exactly `top_k` terms and `top_k` scores, every term passing the filter. A ranked index with no vocabulary term (line 279), a ceiling beyond the scores (line 280) and too few valid candidates (lines 285-286) are errors. |
| Substitutes.SelectedPositions | semeval/get_substitutes.py:279-284 | Every kept term comes from the first `top_k * 500` candidates. The i-th score is the score of the i-th term, and kept positions keep their rank order. |
| Substitutes.NoValidCandidateSkipped | semeval/get_substitutes.py:282-283 | The kept terms are the earliest valid candidates: every valid candidate ranked above a kept one is itself kept. |
| Substitutes.SelectedDescending | semeval/get_substitutes.py:277-284 | The kept scores are in non-increasing order. |
| Substitutes.SelectSucceedsIff | semeval/get_substitutes.py:279-286 | With one vocabulary term per score, selection succeeds if and only if `top_k * 500` fits in the scores and at least `top_k` candidates within that ceiling are valid. |
| Batching.PendingBelowBatch | semeval/get_substitutes.py:230 | After every step the batch holds fewer than `batch_size` instances. |
| Batching.PendingBeforeLast | semeval/get_substitutes.py:190-230 | Before the last occurrence, `k` occurrences leave `k mod batch_size` pending: batches are scored at exactly `batch_size`. |
| Batching.FinalPendingAsWritten | semeval/get_substitutes.py:230 | As written, one instance is left unscored at the end if and only if `batch_size ≥ 2` and `n mod batch_size = 1`. Otherwise none is left. |
| Batching.LoneTailLeftUnscored | semeval/get_substitutes.py:230 | Counterexample: batch size 2 and three occurrences leave the third unscored. |
| Batching.FinalPendingScoreLoneTail | semeval/get_substitutes.py:230 | With the corrected rule, no instance is left unscored. |
| Buffers.Encode | semeval/get_substitutes.py:245 | A row is 101, then the segment's ids, then 102: length `len + 2`. |
| Buffers.MaxLength | semeval/get_substitutes.py:236 | The longest segment's length: no segment is longer, and some segment has it. |
| Buffers.FillBuffers | semeval/get_substitutes.py:240-245 | Both arrays are `batch_size × (longest + 2)`. Every cell holds the encoded row and mask span for the segment rows, and 0 everywhere else. |
| Buffers.ReadRow | semeval/get_substitutes.py:258-263 | The model's view of one row: the row copied cell by cell. |
| Buffers.RowLayout | semeval/get_substitutes.py:240-245 | Column 0 holds 101, columns 1..len hold the ids and column len+1 holds 102; the rest is 0. The mask is 1 exactly on `[0, len+2)` of segment rows, and rows past the segments are all 0. |
| Buffers.RowsArePadded | semeval/get_substitutes.py:240-245 | Row r of the filled buffers depends only on segment r: its encoded row and mask span, padded with zeros to the batch width. That width has room for `len + 2`. |
| Buffers.MaskOffset | semeval/get_substitutes.py:262 | The cell read at `word_pieces_index + 1` holds the mask token's id. |
| Scoring.WindowOf | semeval/get_substitutes.py:193-220 | The window of an occurrence in its document has the mask at its mask index. |
| Scoring.ScoreRowOfWindow | semeval/get_substitutes.py:258-284 | Scoring row r of a batch is scoring that row's own window, padded to the batch width, at `mask index + 1`. The other rows do not affect it. |
| Scoring.ScoreRowsForWindows | semeval/get_substitutes.py:258-289 | In a successfully scored batch, entry k of the terms and scores is what row k's own window gets at the batch width. |
| Scoring.Collect | semeval/get_substitutes.py:275-289 | Collected rows give one terms entry and one scores entry per row. |
| Scoring.CollectOk | semeval/get_substitutes.py:275-289 | A batch's rows collect successfully if and only if every row's filter succeeds. Entry k is then row k's terms and scores. |
| Scoring.CollectStep | semeval/get_substitutes.py:288-289 | One more successful row appends its terms and scores. |
| Scoring.CollectFirstError | semeval/get_substitutes.py:285-286 | The first failing row's error is the batch's error. |
| Scoring.ScoreRowsFailing | semeval/get_substitutes.py:275-289 | A batch fails to score only when one of its rows fails. |
| Scoring.ScoreRowIsPrediction | semeval/get_substitutes.py:277-289 | A successfully filtered row is a prediction: `top_k` valid terms and `top_k` non-increasing scores. |
| Scoring.ScoreRowsArePredictions | semeval/get_substitutes.py:275-289 | A successfully scored batch appends one prediction per instance. |
| Scoring.ScoreBufferRow | semeval/get_substitutes.py:258-286 | Reading row r of the filled buffers and scoring it at column `mask index + 1` gives the row's reference result. |
| Scoring.ScoreBufferRows | semeval/get_substitutes.py:261-289 | The loop over the filled rows returns exactly the collected row results, or the first row's error. |
| Scoring.ScoreBatch | semeval/get_substitutes.py:233-289 | Filling the buffers and scoring their rows gives the reference batch result. |
| Pipeline.SavedAppend | semeval/get_substitutes.py:227-228 | Saving the next occurrence's id and token position extends the saved prefix by one. |
| Pipeline.BatchEntry | semeval/get_substitutes.py:190-225 | Entry k of the batch lists is the index, target token and window of occurrence `start + k`, which is locatable. |
| Pipeline.BatchAppend | semeval/get_substitutes.py:190-225 | Appending the next occurrence's index, token and window keeps every batch entry tied to its occurrence. |
| Pipeline.PredictionsAppend | semeval/get_substitutes.py:288-289 | Appending predictions to predictions gives predictions. |
| Pipeline.PredictedForRow | semeval/get_substitutes.py:258-289 | A row scored from an occurrence's own window, at a width with room for it, is that occurrence's prediction. |
| Pipeline.ScoredConcat | semeval/get_substitutes.py:288-289 | Appending the predictions of the next occurrences keeps every record tied to its own occurrence. |
| Pipeline.ScoredAppend | semeval/get_substitutes.py:240-289 | Scoring the batch that follows the scored records appends, for each of its occurrences, that occurrence's own prediction. |
| Pipeline.InitialInv | semeval/get_substitutes.py:171-183 | The empty lists and zero counters satisfy the loop invariant. |
| Pipeline.FlushedKeepsInv | semeval/get_substitutes.py:230-298 | Scoring a consistent batch empties it and keeps the invariant. It adds one prediction per instance, the one predicted for that instance's own occurrence. |
| Pipeline.FilterFailsForRow | semeval/get_substitutes.py:258-286 | A row scored from an occurrence's own window, at a width with room for it, that the filter rejects shows the filter fails for that occurrence. |
| Pipeline.BatchFails | semeval/get_substitutes.py:233-289 | A batch tied to its occurrences fails to score only because the filter rejects the window of one of them. |
| Pipeline.FlushedFails | semeval/get_substitutes.py:230-298 | A failed flush is a filter failure, and it comes from one of the occurrences in the batch. |
| Pipeline.AdvanceFilterFails | semeval/get_substitutes.py:185-298 | An iteration on a locatable occurrence fails only with a filter failure that comes from some occurrence. |
| Pipeline.AdvanceErrors | semeval/get_substitutes.py:193-196 | An iteration raises on a missing document (`KeyError`) or a token index out of range (`IndexError`), exactly when the lookups fail. Otherwise only the filter can fail. |
| Pipeline.AdvanceFlushRule | semeval/get_substitutes.py:230-298 | When the flush rule fires, every per-batch list is emptied. Each batch instance then appends exactly one entry to the terms and one to the scores, and earlier entries are kept. Otherwise the batch grows by one and nothing is scored. |
| Pipeline.AddedKeepsConsistent | semeval/get_substitutes.py:185-228 | Adding a locatable occurrence to a batch with room saves it and appends it to the batch consistently. |
| Pipeline.AdvanceKeepsInv | semeval/get_substitutes.py:185-298 | Every iteration keeps the loop invariant and advances by one occurrence. |
| Pipeline.Flush | semeval/get_substitutes.py:230-298 | The flush method computes exactly `Flushed`. |
| Pipeline.Add | semeval/get_substitutes.py:185-228 | The add method computes exactly `Added`, including its two lookup errors. |
| Pipeline.Step | semeval/get_substitutes.py:185-298 | One loop iteration computes exactly `Advance`. |
| Pipeline.WriteRecords | semeval/get_substitutes.py:300-308 | The writer succeeds if and only if there are no more saved ids than predictions. Record j pairs saved id j with prediction j. Otherwise it raises `IndexError` at index `len(top_words)`. |
| Pipeline.ProcessTerm | semeval/get_substitutes.py:160-308 | No output exactly when at most one occurrence is kept. On success there is one record per kept occurrence, in order. Each record is a prediction, and it is the one the model and the filter give that occurrence's own window, padded to some width with room for it. A `KeyError` names a kept occurrence whose document is missing. A token `IndexError` names a kept occurrence whose document exists and whose position is past that document's end. A filter failure comes from some kept occurrence whose window the filter rejects. With the corrected rule the writer never fails. As written, `n ≥ 2`, `batch_size ≥ 2` and `n mod batch_size = 1` make the run fail, and a writer `IndexError` happens only then, at index `n - 1`. A term with `n ≥ 2` whose occurrences are all locatable and whose windows the filter accepts at every width succeeds unless that writer condition holds. |

## Left out

- The model itself is a parameter, `Resources.predict`: the encoder forward pass, the masked-language head and the softmax. It gives the scores of one row at one column. The model sees the whole batch, but its per-row outputs are taken as independent of the other rows. Its exceptions (re-raised at line 267) are not modelled.
- The source scores every row of a batch before filtering any. The model scores and filters row by row. Prediction is a pure function of the row here, so the results and the first error are the same.
- Scores are `int` rather than 32-bit floats. They are only compared, and softmax normalisation is not modelled.
- The tokenizer's `convert_tokens_to_ids` is a total function, `Resources.tokenId`. The vocabulary is a sequence of terms, `Resources.vocab`. Stopwords are a given set.
- `np.random.seed` and `np.random.choice` are replaced by a `choice` parameter: any distinct in-range draw of the right size.
- `np.argsort` tie-breaking is not fixed. The filter lemmas hold for any ranking, and `Substitutes.Rank` is one ranking, not necessarily the one numpy returns.
- Option parsing, paths, model loading, device placement and all JSON reading and writing are not modelled. The output file is the list of records `ProcessTerm` returns. Records written before the writer's `IndexError` are not modelled.
- The `Counter` diagnostics (lines 158-159, 197, 290, 311-312), `print`, `tqdm` and `min_len` (line 235), which is only printed (line 238), are not modelled.
- Pipeline.ProcessTerm: `max_samples` is a `nat` and `batch_size` must be at least 1. A negative cap (an error in numpy) and a zero batch size are not modelled.
- Pipeline.AdvanceErrors: token positions are `nat`, because the index file holds non-negative positions. A negative position is not modelled. Python reads it from the end of the document (lines 196, 200 and 205).
- Substitutes.SelectTopK: `top_k` is a `nat`. A negative `--top-k` is not modelled; it always fails the assertion at line 285.
- Scoring.ScoreRow: the id and mask rows are read as they were filled. The conversion to tensors and the device copy (lines 247-251) are taken to preserve them.

## Findings

| source | as written | input that shows it | evidently intended | confidence | as-written member | corrected member |
|---|---|---|---|---|---|---|
| semeval/get_substitutes.py:230 | The final batch is scored only when it holds more than one instance. The lone last instance's id is still saved (lines 227-228), so `line_ids_to_save` is one longer than `top_words`. The writer loop (lines 303-306) then raises `IndexError`. | `batch_size = 2`, three kept occurrences | Score any non-empty final batch, so that every saved occurrence has a prediction | high, not executed | Batching.LoneTailLeftUnscored | Batching.FinalPendingScoreLoneTail |

`Batching.FinalPendingAsWritten` proves the exact condition: `batch_size ≥ 2` and
`n mod batch_size = 1`. `Pipeline.ProcessTerm` proves both halves. With `AsWritten`, at least two
kept occurrences and that condition, the run fails. Its writer `IndexError` can happen only under that condition, at index
`n - 1`. With `ScoreLoneTail`, the writer never fails.
