/** What the points of a document hold, without the functions that make them: the kept text, cut into full chunks
    that overlap, and nothing else. */
module IngestStored {
  import opened Text
  import opened IngestChunks
  import opened IngestProtocol

  // ---------------------------------------------------------------------------
  // trimming
  // ---------------------------------------------------------------------------

  /** t is s as JavaScript trims it. */
  ghost predicate IsTrim(s: string, t: string) { IsStripped(s, JsSpace, t) }

  /** The text of a document that is indexed: its first 200,000 characters, trimmed. */
  ghost predicate KeptText(d: Doc, t: string) {
    IsTrim(if |d.content| <= 200_000 then d.content else d.content[..200_000], t)
  }

  lemma KeptTextIs(d: Doc, t: string)
    ensures KeptText(d, t) <==> t == IndexedText(d)
  {
    var head := if |d.content| <= 200_000 then d.content else d.content[..200_000];
    StripIs(head, JsSpace);
    if KeptText(d, t) { StripIsUnique(head, JsSpace, t); }
  }

  /** A document is indexed exactly when both its text and the part that is kept have at least fifty characters
      between the blanks at their ends. */
  lemma EligibleIff(d: Doc)
    ensures Eligible(d) <==> exists s, t :: IsTrim(d.content, s) && |s| >= 50 && KeptText(d, t) && |t| >= 50
  {
    StripIs(d.content, JsSpace);
    KeptTextIs(d, IndexedText(d));
    if s, t :| IsTrim(d.content, s) && |s| >= 50 && KeptText(d, t) && |t| >= 50 {
      StripIsUnique(d.content, JsSpace, s);
      KeptTextIs(d, t);
    }
  }

  // ---------------------------------------------------------------------------
  // only one way to cut
  // ---------------------------------------------------------------------------

  lemma JoinedStart(chunks: seq<string>, size: nat, overlap: nat)
    requires overlap < size && WellChunked(chunks, size, overlap)
    ensures |chunks| == 1 ==> Joined(chunks, overlap) == chunks[0]
    ensures |chunks| > 1 ==> WellChunked(chunks[1..], size, overlap)
    ensures |chunks| > 1 ==> Joined(chunks, overlap) == chunks[0][..size - overlap] + Joined(chunks[1..], overlap)
  {
    if |chunks| > 1 {
      var tail := chunks[1..];
      assert |chunks[0]| == size;
      forall i | 0 <= i < |tail| - 1 ensures tail[i][size - overlap..] == tail[i + 1][..overlap] {
        assert tail[i] == chunks[i + 1] && tail[i + 1] == chunks[i + 2];
      }
    }
  }

  /** The joined text begins with the first chunk, and is longer exactly when there are more. */
  lemma {:induction false} FirstChunkIsFront(chunks: seq<string>, size: nat, overlap: nat)
    requires overlap < size && WellChunked(chunks, size, overlap)
    ensures chunks[0] <= Joined(chunks, overlap)
    ensures |Joined(chunks, overlap)| > |chunks[0]| <==> |chunks| > 1
  {
    JoinedStart(chunks, size, overlap);
    if |chunks| > 1 {
      var tail := chunks[1..];
      FirstChunkIsFront(tail, size, overlap);
      assert tail[0] == chunks[1] && overlap < |chunks[1]|;
      assert chunks[0][size - overlap..] == tail[0][..overlap] == Joined(tail, overlap)[..overlap];
      assert chunks[0] == chunks[0][..size - overlap] + Joined(tail, overlap)[..overlap];
    }
  }

  /** A text has one list of full overlapping chunks only. */
  lemma {:induction false} CutIsUnique(chunks: seq<string>, text: string, size: nat, overlap: nat)
    requires overlap < size && WellChunked(chunks, size, overlap) && Joined(chunks, overlap) == text
    ensures chunks == Chunks(text, size, overlap)
  {
    FirstChunkIsFront(chunks, size, overlap);
    JoinedStart(chunks, size, overlap);
    if |chunks| == 1 {
      assert chunks == [chunks[0]];
    } else {
      var tail := chunks[1..];
      CutIsUnique(tail, Joined(tail, overlap), size, overlap);
      assert |chunks[0]| == size;
      assert text[..size] == chunks[0] && text[size - overlap..] == Joined(tail, overlap);
      assert chunks == [chunks[0]] + tail;
    }
  }

  // ---------------------------------------------------------------------------
  // what is stored
  // ---------------------------------------------------------------------------

  /** The document's points are these chunks, numbered from 0, under their ids, each with the document's data. */
  ghost predicate PointsHold(x: Index, id: nat, d: Doc, chunks: seq<string>) {
    && (forall i: nat :: i < |chunks| ==>
          && PointId(id, i) in x
          && x[PointId(id, i)] == Point(id, i, |chunks|, chunks[i], d.meta, d.modified))
    && (forall k :: k in x && x[k].docId == id ==> x[k].chunk < |chunks| && k == PointId(id, x[k].chunk))
  }

  /** The index stores the document: its points hold the kept text in chunks of 1500 characters, all but the last
      full, each sharing 200 with the next; without the overlaps they are the text. */
  ghost predicate Stored(x: Index, id: nat, d: Doc) {
    exists chunks :: IsCut(d, chunks) && PointsHold(x, id, d, chunks)
  }

  ghost predicate IsCut(d: Doc, chunks: seq<string>) {
    WellChunked(chunks, 1500, 200) && KeptText(d, Joined(chunks, 200))
  }

  lemma CutIs(d: Doc, chunks: seq<string>)
    ensures IsCut(d, chunks) <==> chunks == ChunksOf(d)
  {
    var text := IndexedText(d);
    ChunksAreWellChunked(text, 1500, 200);
    JoinedIsTheText(text, 1500, 200);
    KeptTextIs(d, Joined(chunks, 200));
    if IsCut(d, chunks) { CutIsUnique(chunks, text, 1500, 200); }
  }

  lemma PointAt(id: nat, d: Doc, chunks: seq<string>, i: nat, all: Index)
    requires chunks == ChunksOf(d) && i < |chunks| && all == PointsOf(id, d)
    ensures PointId(id, i) in all && all[PointId(id, i)] == Point(id, i, |chunks|, chunks[i], d.meta, d.modified)
  {}

  lemma PointsAre(id: nat, d: Doc, chunks: seq<string>, p: Index)
    requires chunks == ChunksOf(d) && p == PointsOf(id, d)
    ensures PointsHold(p, id, d, chunks)
    ensures forall k :: k in p ==> p[k].docId == id && exists i: nat :: i < |chunks| && k == PointId(id, i)
  {
    forall i: nat | i < |chunks|
      ensures PointId(id, i) in p && p[PointId(id, i)] == Point(id, i, |chunks|, chunks[i], d.meta, d.modified)
    {
      PointAt(id, d, chunks, i, p);
    }
    forall k | k in p ensures p[k].chunk < |chunks| && k == PointId(id, p[k].chunk) {
      var i: nat :| i < |chunks| && k == PointId(id, i);
      PointAt(id, d, chunks, i, p);
    }
  }

  /** Two indexes hold the same points of a document when both hold these chunks of it. */
  lemma HoldIffSame(x: Index, id: nat, d: Doc, chunks: seq<string>, p: Index)
    requires PointsHold(p, id, d, chunks)
    requires forall k :: k in p ==> p[k].docId == id && exists i: nat :: i < |chunks| && k == PointId(id, i)
    ensures PointsHold(x, id, d, chunks) <==>
            && (forall k :: k in p ==> k in x && x[k] == p[k])
            && (forall k :: k in x && x[k].docId == id ==> k in p)
  {
    if PointsHold(x, id, d, chunks) {
      forall k | k in p ensures k in x && x[k] == p[k] {
        var i: nat :| i < |chunks| && k == PointId(id, i);
      }
    }
  }

  lemma HoldIffExact(x: Index, id: nat, d: Doc, chunks: seq<string>, p: Index)
    requires chunks == ChunksOf(d) && p == PointsOf(id, d)
    ensures PointsHold(x, id, d, chunks) <==> Exact(x, id, d)
  {
    PointsAre(id, d, chunks, p);
    HoldIffSame(x, id, d, chunks, p);
  }

  /** A document is exactly indexed just when it is stored. */
  lemma ExactIffStored(x: Index, id: nat, d: Doc)
    ensures Exact(x, id, d) <==> Stored(x, id, d)
  {
    var chunks := ChunksOf(d);
    HoldIffExact(x, id, d, chunks, PointsOf(id, d));
    CutIs(d, chunks);
    if c :| IsCut(d, c) && PointsHold(x, id, d, c) { CutIs(d, c); }
  }
}
