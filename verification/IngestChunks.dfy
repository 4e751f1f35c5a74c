/** The chunker of the Paperless ingest and the integer point ids made from it. */
module IngestChunks {
  import opened Basics

  const CHUNK_CHARS := 1500
  const CHUNK_OVERLAP := 200
  const QD_MAX_DOC_CHARS := 200_000
  const POINTS_PER_DOC := 1024

  /** The chunk list: a full-size chunk, then the chunks of the text that starts `overlap` before its end. */
  function Chunks(text: string, size: nat, overlap: nat): seq<string>
    requires overlap < size
    decreases |text|
  {
    if |text| <= size then [text] else [text[..size]] + Chunks(text[size - overlap..], size, overlap)
  }

  /** The chunks pushed so far are followed by those of the text from pos on. */
  ghost predicate ChunkedTo(text: string, size: nat, overlap: nat, pos: nat, out: seq<string>)
    requires overlap < size
  {
    pos < |text| && Chunks(text, size, overlap) == out + Chunks(text[pos..], size, overlap)
  }

  lemma ChunkStep(text: string, size: nat, overlap: nat, pos: nat, out: seq<string>)
    requires overlap < size && ChunkedTo(text, size, overlap, pos, out)
    ensures pos + size >= |text| ==> Chunks(text, size, overlap) == out + [text[pos..]]
    ensures pos + size < |text| ==>
              ChunkedTo(text, size, overlap, pos + size - overlap, out + [text[pos..pos + size]])
  {
    var rest := text[pos..];
    if pos + size < |text| {
      assert rest[..size] == text[pos..pos + size] && rest[size - overlap..] == text[pos + size - overlap..];
      ConcatAssoc(out, [rest[..size]], Chunks(rest[size - overlap..], size, overlap));
    }
  }

  /** chunk(): pushes slices in a loop, stepping back by the overlap after each. */
  method Chunk(text: string, size: nat, overlap: nat) returns (out: seq<string>)
    requires overlap < size
    ensures out == Chunks(text, size, overlap)
  {
    if |text| <= size {
      return [text];
    }
    out := [];
    var pos := 0;
    assert text[0..] == text;
    while pos < |text|
      invariant ChunkedTo(text, size, overlap, pos, out)
      decreases |text| - pos
    {
      var end := if pos + size <= |text| then pos + size else |text|;
      ChunkStep(text, size, overlap, pos, out);
      out := out + [text[pos..end]];
      if end == |text| {
        assert text[..end] == text;
        return;
      }
      pos := end - overlap;
    }
  }

  /** The text put back together: the first chunk, then each later chunk without its overlap. */
  function Joined(chunks: seq<string>, overlap: nat): string {
    if chunks == [] then ""
    else if |chunks| == 1 || |chunks[0]| < overlap then chunks[0]
    else chunks[0][..|chunks[0]| - overlap] + Joined(chunks[1..], overlap)
  }

  /** Every chunk fits, all but the last are full, and neighbours share exactly the overlap. */
  ghost predicate WellChunked(chunks: seq<string>, size: nat, overlap: nat)
    requires overlap < size
  {
    && chunks != []
    && (forall i :: 0 <= i < |chunks| ==> |chunks[i]| <= size)
    && (forall i :: 0 <= i < |chunks| - 1 ==> |chunks[i]| == size)
    && (forall i :: 0 < i < |chunks| ==> overlap < |chunks[i]|)
    && (forall i :: 0 <= i < |chunks| - 1 ==> chunks[i][size - overlap..] == chunks[i + 1][..overlap])
  }

  lemma {:induction false} ChunksAreWellChunked(text: string, size: nat, overlap: nat)
    requires overlap < size
    ensures WellChunked(Chunks(text, size, overlap), size, overlap)
    ensures |text| > overlap ==> forall i :: 0 <= i < |Chunks(text, size, overlap)| ==>
            overlap < |Chunks(text, size, overlap)[i]|
    ensures Chunks(text, size, overlap)[0] == if |text| <= size then text else text[..size]
    decreases |text|
  {
    if |text| > size {
      var rest := text[size - overlap..];
      ChunksAreWellChunked(rest, size, overlap);
      var tail := Chunks(rest, size, overlap);
      var all := Chunks(text, size, overlap);
      assert all == [text[..size]] + tail;
      assert tail[0][..overlap] == rest[..overlap] == text[size - overlap..size] == text[..size][size - overlap..];
      forall i | 0 <= i < |all| - 1 ensures all[i][size - overlap..] == all[i + 1][..overlap] {
        if i > 0 { assert all[i] == tail[i - 1] && all[i + 1] == tail[i]; }
      }
    }
  }

  /** Joining the chunks without their overlaps gives back the text. */
  lemma {:induction false} JoinedIsTheText(text: string, size: nat, overlap: nat)
    requires overlap < size
    ensures Joined(Chunks(text, size, overlap), overlap) == text
    decreases |text|
  {
    if |text| > size {
      var rest := text[size - overlap..];
      JoinedIsTheText(rest, size, overlap);
      var tail := Chunks(rest, size, overlap);
      var all := Chunks(text, size, overlap);
      assert all[1..] == tail;
      assert text[..size][..size - overlap] + rest == text;
    }
  }

  /** How many chunks a text yields. */
  lemma {:induction false} ChunkCount(text: string, size: nat, overlap: nat)
    requires overlap < size
    ensures |Chunks(text, size, overlap)| == if |text| <= size then 1 else 1 + CeilDiv(|text| - size, size - overlap)
    decreases |text|
  {
    if |text| > size {
      var rest := text[size - overlap..];
      ChunkCount(rest, size, overlap);
      var step := size - overlap;
      assert |text| - size == (|rest| - size) + step;
    }
  }

  /** Any document text the ingest keeps yields at most 154 chunks. */
  lemma AtMost154Chunks(text: string)
    requires |text| <= QD_MAX_DOC_CHARS
    ensures 1 <= |Chunks(text, CHUNK_CHARS, CHUNK_OVERLAP)| <= 154
  {
    ChunkCount(text, CHUNK_CHARS, CHUNK_OVERLAP);
    if |text| > CHUNK_CHARS {
      CeilDivLeast(|text| - CHUNK_CHARS, CHUNK_CHARS - CHUNK_OVERLAP);
    }
  }

  function PointId(docId: nat, chunkIndex: nat): nat { docId * POINTS_PER_DOC + chunkIndex }

  /** Point ids of stored chunks never collide, within a document or across documents. */
  lemma PointIdsDistinct(d: nat, i: nat, e: nat, j: nat)
    requires i < POINTS_PER_DOC && j < POINTS_PER_DOC
    ensures PointId(d, i) == PointId(e, j) <==> d == e && i == j
  {}
}
