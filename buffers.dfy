/**
 * The padded input buffers of one batch: a `batchSize` by `(longest segment
 * + 2)` grid of token ids and a grid of the same shape for the attention
 * mask, both zero-filled and then written row by row.
 */
module Buffers {

  /** Id of the sequence-start marker. */
  const ClsId: int := 101
  /** Id of the sequence-end marker. */
  const SepId: int := 102

  /** `[101] + ids(segment) + [102]` */
  function Encode(segment: seq<string>, tokenId: string -> int): (r: seq<int>)
    ensures |r| == |segment| + 2
    ensures r[0] == ClsId && r[|segment| + 1] == SepId
    ensures forall i :: 0 <= i < |segment| ==> r[i + 1] == tokenId(segment[i])
  {
    [ClsId] + seq(|segment|, i requires 0 <= i < |segment| => tokenId(segment[i])) + [SepId]
  }

  /** Length of the longest segment. */
  function MaxLength(segments: seq<seq<string>>): (m: nat)
    ensures forall r :: 0 <= r < |segments| ==> |segments[r]| <= m
    ensures segments != [] ==> exists r :: 0 <= r < |segments| && |segments[r]| == m
  {
    if segments == [] then 0
    else
      var rest := MaxLength(segments[1..]);
      assert forall r :: 1 <= r < |segments| ==> segments[r] == segments[1..][r - 1];
      if |segments[0]| >= rest then |segments[0]| else rest
  }

  /** The width of both buffers. */
  function Width(segments: seq<seq<string>>): nat
  {
    MaxLength(segments) + 2
  }

  /** What the id buffer holds at row `r`, column `c`. */
  function IdCell(segments: seq<seq<string>>, tokenId: string -> int, r: nat, c: nat): int
  {
    if r < |segments| && c < |segments[r]| + 2 then Encode(segments[r], tokenId)[c] else 0
  }

  /** What the attention-mask buffer holds at row `r`, column `c`. */
  function MaskCell(segments: seq<seq<string>>, r: nat, c: nat): int
  {
    if r < |segments| && c < |segments[r]| + 2 then 1 else 0
  }

  /** Row `r` of the id buffer as a sequence. */
  function IdRow(segments: seq<seq<string>>, tokenId: string -> int, r: nat): (row: seq<int>)
    ensures |row| == Width(segments)
  {
    seq(Width(segments), c requires 0 <= c => IdCell(segments, tokenId, r, c))
  }

  /** Row `r` of the attention-mask buffer as a sequence. */
  function MaskRow(segments: seq<seq<string>>, r: nat): (row: seq<int>)
    ensures |row| == Width(segments)
  {
    seq(Width(segments), c requires 0 <= c => MaskCell(segments, r, c))
  }

  /** One segment's encoded row, zero-padded to `width` columns. */
  function PaddedIds(segment: seq<string>, tokenId: string -> int, width: nat): (row: seq<int>)
    ensures |row| == width
  {
    seq(width, c requires 0 <= c => if c < |segment| + 2 then Encode(segment, tokenId)[c] else 0)
  }

  /** One segment's attention-mask row: 1 on its encoded span, 0 on the padding. */
  function PaddedMask(segment: seq<string>, width: nat): (row: seq<int>)
    ensures |row| == width
  {
    seq(width, c requires 0 <= c => if c < |segment| + 2 then 1 else 0)
  }

  /**
   * A row of either buffer depends only on its own segment and the buffer
   * width, which leaves room for the segment's encoding.
   */
  lemma RowsArePadded(segments: seq<seq<string>>, tokenId: string -> int, r: nat)
    requires r < |segments|
    ensures |segments[r]| + 2 <= Width(segments)
    ensures IdRow(segments, tokenId, r) == PaddedIds(segments[r], tokenId, Width(segments))
    ensures MaskRow(segments, r) == PaddedMask(segments[r], Width(segments))
  {
    var ids := IdRow(segments, tokenId, r);
    var padded := PaddedIds(segments[r], tokenId, Width(segments));
    forall c | 0 <= c < Width(segments)
      ensures ids[c] == padded[c]
    {
      assert ids[c] == IdCell(segments, tokenId, r, c);
    }
  }

  /**
   * Allocates both buffers zero-filled and writes, for each segment, the
   * encoded row and an attention span of the same length.
   */
  method FillBuffers(segments: seq<seq<string>>, batchSize: nat, tokenId: string -> int)
    returns (inputIds: array2<int>, attentionMask: array2<int>)
    requires |segments| <= batchSize
    ensures inputIds.Length0 == batchSize && inputIds.Length1 == Width(segments)
    ensures attentionMask.Length0 == batchSize && attentionMask.Length1 == Width(segments)
    ensures forall r, c :: 0 <= r < batchSize && 0 <= c < Width(segments) ==>
              inputIds[r, c] == IdCell(segments, tokenId, r, c)
              && attentionMask[r, c] == MaskCell(segments, r, c)
  {
    var width := Width(segments);
    inputIds := new int[batchSize, width]((r, c) => 0);
    attentionMask := new int[batchSize, width]((r, c) => 0);
    for row := 0 to |segments|
      invariant forall r, c :: 0 <= r < batchSize && 0 <= c < width ==>
                  inputIds[r, c] == (if r < row then IdCell(segments, tokenId, r, c) else 0)
                  && attentionMask[r, c] == (if r < row then MaskCell(segments, r, c) else 0)
    {
      var encoded := Encode(segments[row], tokenId);
      for c := 0 to |encoded|
        invariant forall r, c' :: 0 <= r < batchSize && 0 <= c' < width ==>
                    inputIds[r, c'] == (if r < row || (r == row && c' < c) then IdCell(segments, tokenId, r, c') else 0)
                    && attentionMask[r, c'] == (if r < row || (r == row && c' < c) then MaskCell(segments, r, c') else 0)
      {
        attentionMask[row, c] := 1;
        inputIds[row, c] := encoded[c];
      }
    }
  }

  /** Copies row `r` of a buffer into a sequence. */
  method ReadRow(buffer: array2<int>, r: nat) returns (row: seq<int>)
    requires r < buffer.Length0
    ensures |row| == buffer.Length1
    ensures forall c :: 0 <= c < |row| ==> row[c] == buffer[r, c]
  {
    row := [];
    for c := 0 to buffer.Length1
      invariant |row| == c
      invariant forall c' :: 0 <= c' < c ==> row[c'] == buffer[r, c']
    {
      row := row + [buffer[r, c]];
    }
  }

  /**
   * The start marker shifts every piece one column right, so the cell read at
   * the mask's index plus one holds the mask's id.
   */
  lemma MaskOffset(segments: seq<seq<string>>, tokenId: string -> int, r: nat, maskIndex: nat, mask: string)
    requires r < |segments| && maskIndex < |segments[r]| && segments[r][maskIndex] == mask
    ensures maskIndex + 1 < Width(segments)
    ensures IdRow(segments, tokenId, r)[maskIndex + 1] == tokenId(mask)
  {
  }

  /**
   * Row layout: a filled row is the start marker, the segment's ids, the end
   * marker, then zeros, and its attention mask is 1 exactly on the first
   * `len + 2` columns; rows past the segments are all zero.
   */
  lemma RowLayout(segments: seq<seq<string>>, tokenId: string -> int, r: nat, c: nat)
    requires c < Width(segments)
    ensures r < |segments| ==>
              && (c == 0 ==> IdCell(segments, tokenId, r, c) == ClsId)
              && (1 <= c <= |segments[r]| ==> IdCell(segments, tokenId, r, c) == tokenId(segments[r][c - 1]))
              && (c == |segments[r]| + 1 ==> IdCell(segments, tokenId, r, c) == SepId)
              && (c > |segments[r]| + 1 ==> IdCell(segments, tokenId, r, c) == 0)
    ensures (MaskCell(segments, r, c) == 1) <==> (r < |segments| && c < |segments[r]| + 2)
    ensures MaskCell(segments, r, c) == 0 || MaskCell(segments, r, c) == 1
    ensures r >= |segments| ==> IdCell(segments, tokenId, r, c) == 0
  {
    if r < |segments| && 1 <= c <= |segments[r]| {
      assert Encode(segments[r], tokenId)[(c - 1) + 1] == tokenId(segments[r][c - 1]);
    }
  }
}
