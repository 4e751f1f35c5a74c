/** The stateless-watermark protocol between Paperless and the vector index: ingest runs that may stop
    after any remote call, tombstone sweeps, and edits in between. */
module IngestProtocol {
  import opened Basics
  import opened Text
  import opened IngestChunks

  const MIN_TEXT_LEN := 50
  const MAX_DOCS_PER_RUN := 20
  const EPOCH := 0

  /** A Paperless document; `meta` stands for title, correspondent and tags. */
  datatype Doc = Doc(content: string, meta: string, modified: int)
  type Docs = map<nat, Doc>

  datatype Point = Point(docId: nat, chunk: nat, total: nat, content: string, meta: string, modified: int)
  type Index = map<nat, Point>

  /** The characters JavaScript's trim removes. */
  predicate JsSpace(c: char) {
    var n := c as int;
    || 0x09 <= n <= 0x0D || n == 0x20 || n == 0xA0 || n == 0x1680 || 0x2000 <= n <= 0x200A
    || n == 0x2028 || n == 0x2029 || n == 0x202F || n == 0x205F || n == 0x3000 || n == 0xFEFF
  }

  function Trim(s: string): string { StripBy(s, JsSpace) }

  /** content.slice(0, QD_MAX_DOC_CHARS).trim() */
  function IndexedText(d: Doc): (t: string)
    ensures |t| <= QD_MAX_DOC_CHARS
  {
    var head := if |d.content| <= QD_MAX_DOC_CHARS then d.content else d.content[..QD_MAX_DOC_CHARS];
    StripShrinks(head, JsSpace);
    Trim(head)
  }

  /** main() takes the document up: its trimmed text is long enough. */
  predicate Considered(d: Doc) { |Trim(d.content)| >= MIN_TEXT_LEN }

  /** ... and ingestQdrant finds enough text in the part it keeps. */
  predicate Eligible(d: Doc) { Considered(d) && |IndexedText(d)| >= MIN_TEXT_LEN }

  function ChunksOf(d: Doc): (c: seq<string>)
    ensures 1 <= |c| <= 154
  {
    AtMost154Chunks(IndexedText(d));
    Chunks(IndexedText(d), CHUNK_CHARS, CHUNK_OVERLAP)
  }

  /** The points ingestQdrant upserts for a document. */
  ghost function PointsOf(id: nat, d: Doc): (m: Index)
    ensures forall k :: k in m <==> exists i: nat :: i < |ChunksOf(d)| && k == PointId(id, i)
    ensures forall k :: k in m ==> m[k].docId == id && m[k].modified == d.modified
    ensures forall k :: k in m ==> m[k].chunk < POINTS_PER_DOC && k == PointId(id, m[k].chunk)
  {
    var chunks := ChunksOf(d);
    var keys := set i: nat | i < |chunks| :: PointId(id, i);
    map k | k in keys :: var i := k - id * POINTS_PER_DOC; Point(id, i, |chunks|, chunks[i], d.meta, d.modified)
  }

  // ---------------------------------------------------------------------------
  // index calls
  // ---------------------------------------------------------------------------

  datatype IndexCall = DeleteDoc(id: nat) | Upsert(id: nat, doc: Doc)

  ghost function Perform(x: Index, c: IndexCall): Index {
    match c
    case DeleteDoc(id) => map k | k in x && x[k].docId != id :: x[k]
    case Upsert(id, doc) => x + PointsOf(id, doc)
  }

  ghost function PerformAll(x: Index, calls: seq<IndexCall>): Index
    decreases |calls|
  {
    if calls == [] then x else PerformAll(Perform(x, calls[0]), calls[1..])
  }

  // ---------------------------------------------------------------------------
  // watermark and pending documents
  // ---------------------------------------------------------------------------

  predicate Leq(a: int, b: int) { a <= b }

  lemma LeqIsTotalOrder()
    ensures TotalOrder(Leq)
  {}

  /** max(last_modified) over the collection, EPOCH when there is none. */
  ghost predicate IsWatermark(x: Index, w: int) {
    && w >= EPOCH
    && (w == EPOCH || exists k :: k in x && x[k].modified == w)
    && (forall k :: k in x ==> x[k].modified <= w)
  }

  ghost function Watermark(x: Index): (w: int)
    ensures IsWatermark(x, w)
    decreases |x|
  {
    if x == map[] then EPOCH else
      var k :| k in x;
      var rest := x - {k};
      var w := Watermark(rest);
      assert forall j :: j in x && j != k ==> j in rest && rest[j] == x[j];
      assert forall j :: j in rest ==> j in x && rest[j] == x[j];
      Max(x[k].modified, w)
  }

  lemma WatermarkUnique(x: Index, a: int, b: int)
    requires IsWatermark(x, a) && IsWatermark(x, b)
    ensures a == b
  {}

  predicate SameTime(docs: Docs, a: nat, b: nat) { a in docs && b in docs && docs[a].modified == docs[b].modified }

  ghost predicate DistinctTimes(docs: Docs) {
    forall a, b {:trigger SameTime(docs, a, b)} :: SameTime(docs, a, b) ==> a == b
  }

  predicate HasTime(docs: Docs, t: int) { exists id :: id in docs && docs[id].modified == t }

  /** modified__gt=w, ordering=modified: the modification times of the listed documents. */
  function Pending(docs: Docs, w: int): (times: seq<int>)
    ensures Ascending(times, Leq)
    ensures forall t :: t in times <==> t > w && HasTime(docs, t)
  {
    LeqIsTotalOrder();
    Listing(set id | id in docs && docs[id].modified > w :: docs[id].modified, Leq)
  }

  function IdAt(docs: Docs, t: int): (id: nat)
    requires DistinctTimes(docs) && HasTime(docs, t)
    ensures id in docs && docs[id].modified == t
  {
    assert forall a, b :: a in docs && b in docs && docs[a].modified == t && docs[b].modified == t ==>
           SameTime(docs, a, b);
    var id :| id in docs && docs[id].modified == t;
    id
  }

  lemma IdAtUnique(docs: Docs, id: nat)
    requires DistinctTimes(docs) && id in docs
    ensures HasTime(docs, docs[id].modified) && IdAt(docs, docs[id].modified) == id
  {
    assert HasTime(docs, docs[id].modified);
    assert SameTime(docs, id, IdAt(docs, docs[id].modified));
  }

  ghost predicate Listed(docs: Docs, times: seq<int>) {
    DistinctTimes(docs) && forall t {:trigger HasTime(docs, t)} :: t in times ==> HasTime(docs, t)
  }

  /** The index calls of an ingest run over the listed documents, with room for `room` more. */
  ghost function IngestCalls(docs: Docs, times: seq<int>, room: nat): seq<IndexCall>
    requires Listed(docs, times)
    decreases |times|
  {
    if times == [] || room == 0 then [] else
      assert times[0] in times && HasTime(docs, times[0]);
      assert forall t :: t in times[1..] ==> t in times;
      var id := IdAt(docs, times[0]);
      if !Considered(docs[id]) then IngestCalls(docs, times[1..], room)
      else if !Eligible(docs[id]) then IngestCalls(docs, times[1..], room - 1)
      else [DeleteDoc(id), Upsert(id, docs[id])] + IngestCalls(docs, times[1..], room - 1)
  }

  /** Paperless ids present in the index but not in Paperless. */
  function Orphans(docs: Docs, x: Index): set<nat> {
    set k | k in x && x[k].docId !in docs :: x[k].docId
  }

  // ---------------------------------------------------------------------------
  // the invariant
  // ---------------------------------------------------------------------------

  /** Exactly the document's current chunks are indexed. */
  ghost predicate Exact(x: Index, id: nat, d: Doc) {
    && (forall k :: k in PointsOf(id, d) ==> k in x && x[k] == PointsOf(id, d)[k])
    && (forall k :: k in x && x[k].docId == id ==> k in PointsOf(id, d))
  }

  ghost predicate CoveredUpTo(docs: Docs, x: Index, bound: int) {
    forall id {:trigger Exact(x, id, docs[id])} ::
      id in docs && Eligible(docs[id]) && docs[id].modified <= bound ==> Exact(x, id, docs[id])
  }

  /** Every point sits under the id its document and chunk give it. */
  ghost predicate KeysMatch(x: Index) {
    forall k :: k in x ==> x[k].chunk < POINTS_PER_DOC && k == PointId(x[k].docId, x[k].chunk)
  }

  ghost predicate UpTo(x: Index, bound: int) { forall k :: k in x ==> x[k].modified <= bound }

  lemma OtherDocUntouched(x: Index, c: IndexCall, id: nat, d: Doc)
    requires KeysMatch(x) && c.id != id
    ensures Exact(Perform(x, c), id, d) <==> Exact(x, id, d)
  {
    if c.Upsert? {
      OtherPointsKept(x, PointsOf(c.id, c.doc), c.id, id);
    }
    SameExactness(x, Perform(x, c), PointsOf(id, d), id);
  }

  lemma OtherPointsKept(x: Index, p: Index, a: nat, b: nat)
    requires KeysMatch(x) && KeysMatch(p) && a != b && forall k :: k in p ==> p[k].docId == a
    ensures forall k :: k in x && x[k].docId == b ==> k !in p
  {
    forall k | k in x && x[k].docId == b ensures k !in p {
      if k in p { PointIdsDistinct(b, x[k].chunk, a, p[k].chunk); }
    }
  }

  lemma SameExactness(x: Index, y: Index, p: Index, id: nat)
    requires forall k :: k in p ==> p[k].docId == id
    requires forall k :: k in x && x[k].docId == id ==> k in y && y[k] == x[k]
    requires forall k :: k in y && y[k].docId == id ==> k in x && x[k] == y[k]
    ensures (forall k :: k in p ==> k in x && x[k] == p[k]) <==> (forall k :: k in p ==> k in y && y[k] == p[k])
    ensures (forall k :: k in x && x[k].docId == id ==> k in p) <==> (forall k :: k in y && y[k].docId == id ==> k in p)
  {}

  lemma CallKeepsKeys(x: Index, c: IndexCall)
    requires KeysMatch(x)
    ensures KeysMatch(Perform(x, c))
  {}

  lemma DeleteThenUpsertIsExact(x: Index, id: nat, d: Doc)
    requires KeysMatch(x)
    ensures Exact(Perform(Perform(x, DeleteDoc(id)), Upsert(id, d)), id, d)
  {}
}
