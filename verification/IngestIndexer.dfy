/** The two workflows as loops over the remote collection: paging, the per-run cap, delete-then-upsert,
    and the sweep. `calls` is the number of index calls that succeed before the run dies. */
module IngestIndexer {
  import opened Basics
  import opened IngestChunks
  import opened IngestProtocol
  import opened IngestStored
  import opened IngestRuns

  const PAGE_SIZE := 50

  /** One page of the listing, `from` documents into it, and whether Paperless reports a next one. */
  function PageFrom(times: seq<int>, from: nat): seq<int> {
    if from >= |times| then [] else times[from..Min(from + PAGE_SIZE, |times|)]
  }

  predicate HasNext(times: seq<int>, from: nat) { from + PAGE_SIZE < |times| }

  lemma {:induction false} PerformAllAppend(x: Index, a: seq<IndexCall>, c: IndexCall)
    ensures PerformAll(x, a + [c]) == Perform(PerformAll(x, a), c)
    decreases |a|
  {
    if a == [] {
      assert a + [c] == [c] && [c][1..] == [];
    } else {
      assert (a + [c])[1..] == a[1..] + [c];
      PerformAllAppend(Perform(x, a[0]), a[1..], c);
    }
  }

  /** What is left of a run: the calls for the listed documents, as many as still succeed. */
  ghost function Continued(docs: Docs, x: Index, rest: seq<int>, room: nat, left: nat): Index
    requires Listed(docs, rest)
  {
    PerformAll(x, Take(IngestCalls(docs, rest, room), left))
  }

  /** What the run would make of the collection from here on is the goal. */
  ghost predicate Towards(docs: Docs, x: Index, rest: seq<int>, room: nat, left: nat, goal: Index) {
    Listed(docs, rest) && goal == Continued(docs, x, rest, room, left)
  }

  lemma NothingToDo(docs: Docs, x: Index, rest: seq<int>, room: nat, left: nat, goal: Index)
    requires Towards(docs, x, rest, room, left, goal) && (rest == [] || room == 0)
    ensures x == goal
  {
    assert IngestCalls(docs, rest, room) == [];
  }

  lemma TailListed(docs: Docs, rest: seq<int>)
    requires Listed(docs, rest) && rest != []
    ensures HasTime(docs, rest[0]) && Listed(docs, rest[1..])
  {
    assert rest[0] in rest;
    assert forall t :: t in rest[1..] ==> t in rest;
  }

  /** One document of a run: the calls it makes, and what is left after them. */
  lemma OneDoc(docs: Docs, x: Index, rest: seq<int>, room: nat, left: nat)
    requires Listed(docs, rest) && rest != [] && room > 0
    ensures HasTime(docs, rest[0]) && Listed(docs, rest[1..])
    ensures var d := docs[IdAt(docs, rest[0])];
            var both := [DeleteDoc(IdAt(docs, rest[0])), Upsert(IdAt(docs, rest[0]), d)];
            && (!Considered(d) ==> Continued(docs, x, rest, room, left) == Continued(docs, x, rest[1..], room, left))
            && (Considered(d) && !Eligible(d) ==>
                  Continued(docs, x, rest, room, left) == Continued(docs, x, rest[1..], room - 1, left))
            && (Eligible(d) && left < 2 ==> Continued(docs, x, rest, room, left) == PerformAll(x, Take(both, left)))
            && (Eligible(d) && left >= 2 ==>
                  Continued(docs, x, rest, room, left) ==
                  Continued(docs, PerformAll(x, both), rest[1..], room - 1, left - 2))
  {
    TailListed(docs, rest);
    var id := IdAt(docs, rest[0]);
    if Eligible(docs[id]) {
      var del, up := DeleteDoc(id), Upsert(id, docs[id]);
      var calls, tail := IngestCalls(docs, rest, room), IngestCalls(docs, rest[1..], room - 1);
      PerformAllAppend(x, [], del);
      PerformAllAppend(x, [del], up);
      assert [] + [del] == [del] && [del] + [up] == [del, up];
      if left == 0 {
        assert Take(calls, 0) == [] == Take([del, up], 0);
      } else {
        TakeCons(x, calls, del, up, tail, left);
        TakeCons(x, [del, up], del, up, [], left);
      }
    }
  }

  lemma PageIsPrefix(times: seq<int>, from: nat)
    requires from < |times|
    ensures var rest := times[from..];
            && PageFrom(times, from) <= rest
            && (!HasNext(times, from) ==> rest[|PageFrom(times, from)|..] == [])
            && (HasNext(times, from) ==> rest[|PageFrom(times, from)|..] == times[from + PAGE_SIZE..])
  {}

  lemma HeadOf(docs: Docs, rest: seq<int>, list: seq<int>, i: nat, here: seq<int>)
    requires Listed(docs, here) && list <= rest && i < |list| && here == rest[i..]
    ensures here != [] && here[0] == list[i] && here[1..] == rest[i + 1..]
    ensures HasTime(docs, list[i])
  {
    assert here[0] in here;
  }

  lemma {:induction false} DeletesAppend(order: seq<nat>, id: nat)
    ensures Deletes(order + [id]) == Deletes(order) + [DeleteDoc(id)]
    decreases |order|
  {
    if order == [] {
      assert order + [id] == [id] && [id][1..] == [];
    } else {
      assert (order + [id])[1..] == order[1..] + [id];
      DeletesAppend(order[1..], id);
    }
  }

  lemma {:induction false} DeletesTake(order: seq<nat>, n: nat)
    ensures |Deletes(order)| == |order|
    ensures n <= |order| ==> Take(Deletes(order), n) == Deletes(order[..n])
    decreases |order|
  {
    if order != [] {
      DeletesTake(order[1..], if n == 0 then 0 else n - 1);
      if 0 < n <= |order| {
        assert order[..n][0] == order[0] && order[..n][1..] == order[1..][..n - 1];
      }
    }
  }

  /** Exactly the points of the listed documents are gone. */
  ghost predicate Swept(x: Index, y: Index, ids: seq<nat>) {
    && (forall k :: k in y <==> k in x && x[k].docId !in ids)
    && (forall k :: k in y ==> y[k] == x[k])
  }

  /** The filtered deletes of the listed documents took x to y. */
  ghost predicate SweptBy(x: Index, y: Index, ids: seq<nat>) { y == PerformAll(x, Deletes(ids)) && Swept(x, y, ids) }

  lemma SweepNext(x: Index, y: Index, z: Index, ids: seq<nat>, id: nat)
    requires SweptBy(x, y, ids) && z == Perform(y, DeleteDoc(id))
    ensures SweptBy(x, z, ids + [id])
  {
    DeletesAppend(ids, id);
    PerformAllAppend(x, Deletes(ids), DeleteDoc(id));
    assert forall i :: i in ids + [id] <==> i in ids || i == id;
  }

  /** Part of the orphans are listed so far, and the first `calls` of those listed are deleted. */
  ghost predicate Sweeping(x: Index, y: Index, all: set<nat>, left: set<nat>, order: seq<nat>, performed: seq<nat>,
                           calls: nat)
  {
    && left <= all && (forall id :: id in order <==> id in all && id !in left)
    && performed <= order && |performed| == Min(calls, |order|) && SweptBy(x, y, performed)
  }

  lemma SweepStep(x: Index, y: Index, z: Index, all: set<nat>, left: set<nat>, order: seq<nat>, performed: seq<nat>,
                  calls: nat, id: nat) returns (performed': seq<nat>)
    requires Sweeping(x, y, all, left, order, performed, calls) && id in left
    requires z == if |performed| < calls then Perform(y, DeleteDoc(id)) else y
    ensures |performed'| == Min(|performed| + 1, calls)
    ensures Sweeping(x, z, all, left - {id}, order + [id], performed', calls)
  {
    performed' := performed;
    if |performed| < calls {
      SweepNext(x, y, z, performed, id);
      performed' := performed + [id];
    }
    assert forall i :: i in order + [id] <==> i in order || i == id;
  }

  lemma SweepOutcome(docs: Docs, x: Index, y: Index, order: seq<nat>, performed: seq<nat>)
    requires forall id :: id in order <==> id in Orphans(docs, x)
    requires Swept(x, y, performed) && performed <= order
    ensures forall k :: k in x && x[k].docId in docs ==> k in y && y[k] == x[k]
    ensures performed == order ==> forall k :: k in y ==> y[k].docId in docs
  {
    assert forall id :: id in performed ==> id in order;
    assert forall k :: k in x && x[k].docId !in docs ==> x[k].docId in Orphans(docs, x);
  }

  lemma PerformedAreFirst(x: Index, y: Index, order: seq<nat>, performed: seq<nat>, calls: nat)
    requires SweptBy(x, y, performed) && performed <= order && |performed| == Min(calls, |order|)
    ensures y == PerformAll(x, Take(Deletes(order), calls))
  {
    DeletesTake(order, |performed|);
    assert order[..|performed|] == performed;
    assert Take(Deletes(order), calls) == Take(Deletes(order), |performed|);
  }

  /** One document taken from index x to y: its delete and upsert, as far as the successful calls last. */
  ghost predicate Ingested(x: Index, y: Index, id: nat, d: Doc, left: nat, left': nat, crashed: bool) {
    if !Eligible(d) then y == x && left' == left && !crashed
    else if left < 2 then y == PerformAll(x, Take([DeleteDoc(id), Upsert(id, d)], left)) && left' == 0 && crashed
    else y == PerformAll(x, [DeleteDoc(id), Upsert(id, d)]) && left' == left - 2 && !crashed
  }

  lemma ReplacedIsStored(x: Index, y: Index, id: nat, d: Doc)
    requires y == Perform(Perform(x, DeleteDoc(id)), Upsert(id, d))
    ensures Stored(y, id, d)
  {
    assert Exact(y, id, d);
    ExactIffStored(y, id, d);
  }

  lemma AfterDoc(docs: Docs, x: Index, y: Index, here: seq<int>, room: nat, left: nat, left': nat, crashed: bool)
    requires Listed(docs, here) && here != [] && room > 0 && HasTime(docs, here[0]) &&
             Considered(docs[IdAt(docs, here[0])])
    requires Ingested(x, y, IdAt(docs, here[0]), docs[IdAt(docs, here[0])], left, left', crashed)
    ensures Listed(docs, here[1..])
    ensures Continued(docs, x, here, room, left) ==
            if crashed then y else Continued(docs, y, here[1..], room - 1, left')
  {
    OneDoc(docs, x, here, room, left);
  }

  // ---------------------------------------------------------------------------
  // the scroll
  // ---------------------------------------------------------------------------

  const SCROLL_LIMIT := 10_000
  const SCROLL_REACH := 1_010_000

  predicate NatLeq(a: nat, b: nat) { a <= b }

  /** Qdrant scrolls by point id. */
  function ScrollOrder(x: Index): (order: seq<nat>)
    ensures |order| == |x| && forall k :: k in order <==> k in x
  {
    assert TotalOrder(NatLeq);
    assert |x.Keys| == |x|;
    Listing(x.Keys, NatLeq)
  }

  /** The points the scroll reaches before it gives up. */
  ghost function Scrolled(x: Index): Index {
    map k | k in x && k in Take(ScrollOrder(x), SCROLL_REACH) :: x[k]
  }

  /** max is the newest modification among the first c points of the scroll, or EPOCH. */
  ghost predicate Newest(x: Index, order: seq<nat>, c: nat, max: int) {
    && c <= |order| && max >= EPOCH && (forall k :: k in order ==> k in x)
    && (max == EPOCH || exists i :: 0 <= i < c && x[order[i]].modified == max)
    && (forall i :: 0 <= i < c ==> x[order[i]].modified <= max)
  }

  lemma NewestIsWatermark(x: Index, order: seq<nat>, c: nat, max: int, y: Index)
    requires Newest(x, order, c, max) && forall k :: k in y ==> k in x && y[k] == x[k]
    requires forall k :: k in y <==> k in order[..c]
    ensures max == Watermark(y)
  {
    forall k | k in y ensures y[k].modified <= max {
      var i :| 0 <= i < |order[..c]| && order[..c][i] == k;
      assert order[i] == k;
    }
    if max != EPOCH {
      var i :| 0 <= i < c && x[order[i]].modified == max;
      assert order[..c][i] == order[i];
      assert order[i] in y && y[order[i]].modified == max;
    }
    WatermarkUnique(y, max, Watermark(y));
  }

  lemma ScrolledIs(x: Index, order: seq<nat>, c: nat)
    requires order == ScrollOrder(x) && c == Min(SCROLL_REACH, |order|)
    ensures forall k :: k in Scrolled(x) <==> k in order[..c]
    ensures forall k :: k in Scrolled(x) ==> k in x && Scrolled(x)[k] == x[k]
  {
    assert Take(order, SCROLL_REACH) == order[..c];
    assert forall k :: k in order[..c] ==> k in order;
  }

  lemma ScrolledAll(x: Index)
    ensures |x| <= SCROLL_REACH ==> Scrolled(x) == x
  {
    if |x| <= SCROLL_REACH { assert Take(ScrollOrder(x), SCROLL_REACH) == ScrollOrder(x); }
  }

  // ---------------------------------------------------------------------------
  // the point list
  // ---------------------------------------------------------------------------

  /** The points of the first i chunks are built, as `all` has them. */
  ghost predicate BuiltTo(id: nat, all: Index, i: nat, built: Index) {
    && (forall k :: k in built <==> exists j: nat :: j < i && k == PointId(id, j))
    && (forall k :: k in built ==> k in all && built[k] == all[k])
  }

  lemma BuildNext(id: nat, all: Index, i: nat, built: Index, p: Point)
    requires BuiltTo(id, all, i, built) && PointId(id, i) in all && all[PointId(id, i)] == p
    ensures BuiltTo(id, all, i + 1, built[PointId(id, i) := p])
  {}

  lemma BuiltAll(id: nat, all: Index, chunks: seq<string>, built: Index)
    requires BuiltTo(id, all, |chunks|, built)
    requires forall k :: k in all <==> exists i: nat :: i < |chunks| && k == PointId(id, i)
    ensures built == all
  {}

  /** A run that reads the watermark of the whole index keeps the index exact below it, wherever it is cut. */
  lemma RunStores(docs: Docs, x: Index, y: Index, calls: nat)
    requires DistinctTimes(docs)
    requires y == PerformAll(x, Take(IngestCalls(docs, Pending(docs, Watermark(Scrolled(x))), MAX_DOCS_PER_RUN), calls))
    ensures forall clock :: Invariant(State(docs, x, clock)) && |x| <= SCROLL_REACH ==>
              Invariant(State(docs, y, clock)) && StoredBelowWatermark(docs, y)
  {
    forall clock | Invariant(State(docs, x, clock)) && |x| <= SCROLL_REACH
      ensures Invariant(State(docs, y, clock)) && StoredBelowWatermark(docs, y)
    {
      ScrolledAll(x);
      assert Next(State(docs, x, clock), Ingest(calls)) == State(docs, y, clock);
      IngestKeeps(State(docs, x, clock), calls);
      InvariantStores(State(docs, y, clock));
    }
  }

  class Collection {
    var points: Index

    constructor (points: Index)
      ensures this.points == points
    {
      this.points := points;
    }

    /** readWatermark: the newest last_modified of the points the scroll reaches; of all points as long as there
        are at most 1,010,000. */
    method ReadWatermark() returns (max: int)
      ensures max == Watermark(Scrolled(points))
      ensures |points| <= 1_010_000 ==> max == Watermark(points)
    {
      var order := ScrollOrder(points);
      ghost var reached;
      max, reached := ScrollPages(order);
      ScrolledIs(points, order, reached);
      NewestIsWatermark(points, order, reached, max, Scrolled(points));
      ScrolledAll(points);
    }

    /** The paging loop: at most 101 pages of SCROLL_LIMIT points. */
    method ScrollPages(order: seq<nat>) returns (max: int, ghost reached: nat)
      requires forall k :: k in order ==> k in points
      ensures reached == Min(SCROLL_REACH, |order|) && Newest(points, order, reached, max)
    {
      var offset, pages := 0, 0;
      max := EPOCH;
      while true
        invariant pages <= 100 && offset == 10_000 * pages && offset <= |order|
        invariant Newest(points, order, offset, max)
        decreases 101 - pages
      {
        var end := Min(offset + SCROLL_LIMIT, |order|);
        max := ScrollPage(order, offset, end, max);
        pages := pages + 1;
        offset := end;
        if offset == |order| || pages > 100 {
          break;
        }
      }
      reached := offset;
    }

    method ScrollPage(order: seq<nat>, from: nat, end: nat, before: int) returns (max: int)
      requires from <= end <= |order| && Newest(points, order, from, before)
      ensures Newest(points, order, end, max)
    {
      max := before;
      for i := from to end
        invariant Newest(points, order, i, max)
      {
        if points[order[i]].modified > max {
          max := points[order[i]].modified;
        }
      }
    }

    /** deleteDocPoints: a filtered delete. */
    method DeleteDocPoints(id: nat)
      modifies this
      ensures points == Perform(old(points), DeleteDoc(id))
    {
      points := map k | k in points && points[k].docId != id :: points[k];
    }

    /** The point list ingestQdrant builds, chunk by chunk. */
    static method BuildPoints(id: nat, d: Doc) returns (built: Index)
      ensures built == PointsOf(id, d) && Stored(built, id, d)
    {
      ExactIffStored(PointsOf(id, d), id, d);
      var chunks := Chunk(IndexedText(d), CHUNK_CHARS, CHUNK_OVERLAP);
      ghost var all := PointsOf(id, d);
      built := map[];
      for i := 0 to |chunks|
        invariant BuiltTo(id, all, i, built)
      {
        var p := Point(id, i, |chunks|, chunks[i], d.meta, d.modified);
        PointAt(id, d, chunks, i, all);
        BuildNext(id, all, i, built, p);
        built := built[PointId(id, i) := p];
      }
      BuiltAll(id, all, chunks, built);
    }

    /** ingestQdrant with `left` successful calls to go: delete, then upsert. */
    method IngestDoc(id: nat, d: Doc, left: nat) returns (left': nat, crashed: bool)
      modifies this
      ensures Considered(d) ==> Ingested(old(points), points, id, d, left, left', crashed)
      ensures Considered(d) && Eligible(d) && !crashed ==> Stored(points, id, d)
    {
      ghost var x := points;
      left', crashed := left, false;
      if |IndexedText(d)| < MIN_TEXT_LEN {
        return;
      }
      ghost var del, up := DeleteDoc(id), Upsert(id, d);
      assert Take([del, up], 0) == [] && Take([del, up], 1) == [del];
      PerformAllAppend(x, [], del);
      PerformAllAppend(x, [del], up);
      assert [] + [del] == [del] && [del] + [up] == [del, up];
      if left == 0 {
        return 0, true;
      }
      DeleteDocPoints(id);
      if left == 1 {
        return 0, true;
      }
      var built := BuildPoints(id, d);
      points := points + built;
      ReplacedIsStored(x, points, id, d);
      left' := left - 2;
    }

    /** The next listed document, `t` at the head of `here`: skipped when too short, else ingested. */
    method IngestNext(docs: Docs, ghost here: seq<int>, t: int, ghost room: nat, budget: nat, ghost goal: Index)
        returns (used: bool, left: nat, crashed: bool)
      requires Towards(docs, points, here, room, budget, goal)
      requires here != [] && here[0] == t && HasTime(docs, t) && room > 0
      modifies this
      ensures crashed ==> points == goal
      ensures !crashed ==> Towards(docs, points, here[1..], if used then room - 1 else room, left, goal)
    {
      left, crashed := budget, false;
      ghost var x := points;
      var id := IdAt(docs, t);
      used := |Trim(docs[id].content)| >= MIN_TEXT_LEN;
      if used {
        left, crashed := IngestDoc(id, docs[id], left);
        AfterDoc(docs, x, points, here, room, budget, left, crashed);
      } else {
        OneDoc(docs, points, here, room, left);
      }
    }

    /** The documents of one page. `rest` lists this page and all later ones; what the whole run would
        make of the collection, `goal`, stays what remains to be done from here. */
    method IngestPage(docs: Docs, ghost rest: seq<int>, list: seq<int>, done: nat, budget: nat, ghost goal: Index)
        returns (processed: nat, left: nat, capped: bool, crashed: bool)
      requires list <= rest && done <= MAX_DOCS_PER_RUN
      requires Towards(docs, points, rest, MAX_DOCS_PER_RUN - done, budget, goal)
      modifies this
      ensures processed <= MAX_DOCS_PER_RUN
      ensures capped || crashed ==> points == goal
      ensures !capped && !crashed ==>
                Towards(docs, points, rest[|list|..], MAX_DOCS_PER_RUN - processed, left, goal)
    {
      processed, left, capped, crashed := done, budget, false, false;
      ghost var here := rest;
      for i := 0 to |list|
        invariant processed <= MAX_DOCS_PER_RUN && !capped && !crashed && here == rest[i..]
        invariant Towards(docs, points, here, MAX_DOCS_PER_RUN - processed, left, goal)
      {
        HeadOf(docs, rest, list, i, here);
        if processed >= MAX_DOCS_PER_RUN {
          NothingToDo(docs, points, here, 0, left, goal);
          capped := true;
          return;
        }
        var used;
        used, left, crashed := IngestNext(docs, here, list[i], MAX_DOCS_PER_RUN - processed, left, goal);
        if crashed {
          return;
        }
        if used {
          processed := processed + 1;
        }
        here := here[1..];
      }
    }

    /** A scheduled run of the fan-out that dies after `calls` successful index calls, if it needs more. */
    method IngestRun(docs: Docs, calls: nat) returns (processed: nat, capped: bool, crashed: bool)
      requires DistinctTimes(docs)
      modifies this
      ensures points == PerformAll(old(points), Take(IngestCalls(docs, Pending(docs, Watermark(Scrolled(old(points)))),
                                                                  MAX_DOCS_PER_RUN), calls))
      ensures |old(points)| <= 1_010_000 ==> Scrolled(old(points)) == old(points)
      ensures processed <= MAX_DOCS_PER_RUN
      ensures forall clock :: Invariant(State(docs, old(points), clock)) && |old(points)| <= SCROLL_REACH ==>
                Invariant(State(docs, points, clock)) && StoredBelowWatermark(docs, points)
    {
      ghost var before := points;
      var watermark := ReadWatermark();
      ScrolledAll(points);
      var times := Pending(docs, watermark);
      assert Listed(docs, times);
      ghost var goal := Continued(docs, points, times, MAX_DOCS_PER_RUN, calls);
      processed, capped, crashed := IngestPages(docs, times, calls, goal);
      RunStores(docs, before, points, calls);
    }

    /** The paging loop of a run. */
    method IngestPages(docs: Docs, times: seq<int>, calls: nat, ghost goal: Index)
        returns (processed: nat, capped: bool, crashed: bool)
      requires Towards(docs, points, times, MAX_DOCS_PER_RUN, calls, goal)
      modifies this
      ensures processed <= MAX_DOCS_PER_RUN && points == goal
    {
      processed, capped, crashed := 0, false, false;
      var from, left := 0, calls;
      var list := PageFrom(times, from);
      if list == [] {
        NothingToDo(docs, points, times, MAX_DOCS_PER_RUN, calls, goal);
        return;
      }
      ghost var rest := times;
      while true
        invariant from < |times| && list == PageFrom(times, from) && rest == times[from..]
        invariant processed <= MAX_DOCS_PER_RUN
        invariant Towards(docs, points, rest, MAX_DOCS_PER_RUN - processed, left, goal)
        decreases |times| - from
      {
        PageIsPrefix(times, from);
        processed, left, capped, crashed := IngestPage(docs, rest, list, processed, left, goal);
        if capped || crashed {
          return;
        }
        rest := rest[|list|..];
        if !HasNext(times, from) {
          NothingToDo(docs, points, rest, MAX_DOCS_PER_RUN - processed, left, goal);
          return;
        }
        from := from + PAGE_SIZE;
        list := PageFrom(times, from);
        if list == [] {
          return;
        }
      }
    }

    /** The tombstone sweep: the live ids, the indexed ids, and one filtered delete per orphan. */
    method Sweep(docs: Docs, calls: nat) returns (order: seq<nat>)
      modifies this
      ensures forall id :: id in order <==> id !in docs && exists k :: k in old(points) && old(points)[k].docId == id
      ensures points == PerformAll(old(points), Take(Deletes(order), calls))
      ensures calls >= |order| ==> forall k :: k in points ==> points[k].docId in docs
      ensures forall k :: k in points ==> k in old(points) && points[k] == old(points)[k]
      ensures forall k :: k in old(points) && old(points)[k].docId in docs ==>
              k in points && points[k] == old(points)[k]
    {
      ghost var x0 := points;
      var left := Orphans(docs, points);
      ghost var all := left;
      order := [];
      var budget := calls;
      ghost var performed: seq<nat> := [];
      while left != {}
        invariant Sweeping(x0, points, all, left, order, performed, calls) && budget == calls - |performed|
        decreases left
      {
        ghost var x, done := points, performed;
        var id :| id in left;
        if budget > 0 {
          DeleteDocPoints(id);
          budget := budget - 1;
        }
        performed := SweepStep(x0, x, points, all, left, order, done, calls, id);
        left := left - {id};
        order := order + [id];
      }
      PerformedAreFirst(x0, points, order, performed, calls);
      SweepOutcome(docs, x0, points, order, performed);
    }
  }
}
