/** What one ingest run without failures takes, and the watermark it leaves. */
module IngestProgress {
  import opened Basics
  import opened IngestChunks
  import opened IngestProtocol
  import opened IngestRuns

  predicate HasDoc(docs: Docs, t: int, test: Doc -> bool) {
    exists id :: id in docs && docs[id].modified == t && test(docs[id])
  }

  /** The modification times of the documents newer than w that satisfy the test, oldest first. */
  ghost function Above(docs: Docs, w: int, test: Doc -> bool): (times: seq<int>)
    ensures IsAbove(docs, w, test, times)
  {
    AboveExists(docs, w, test);
    var times :| IsAbove(docs, w, test, times);
    times
  }

  ghost predicate IsAbove(docs: Docs, w: int, test: Doc -> bool, times: seq<int>) {
    Ascending(times, Leq) && forall t :: t in times <==> t > w && HasDoc(docs, t, test)
  }

  lemma AboveExists(docs: Docs, w: int, test: Doc -> bool)
    ensures exists times :: IsAbove(docs, w, test, times)
  {
    LeqIsTotalOrder();
    var times := Listing(set id | id in docs && docs[id].modified > w && test(docs[id]) :: docs[id].modified, Leq);
    assert IsAbove(docs, w, test, times);
  }

  lemma AboveUnique(docs: Docs, w: int, test: Doc -> bool, times: seq<int>)
    requires IsAbove(docs, w, test, times)
    ensures times == Above(docs, w, test)
  {
    LeqIsTotalOrder();
    var other := Above(docs, w, test);
    forall t ensures t in times <==> t in other {
      assert t in times <==> t > w && HasDoc(docs, t, test);
    }
    ListingUnique(times, other, Leq);
  }

  /** The documents ingestQdrant will index, and those main hands to it. */
  ghost function Wanted(docs: Docs, w: int): seq<int> { Above(docs, w, Eligible) }
  ghost function Queue(docs: Docs, w: int): seq<int> { Above(docs, w, Considered) }

  lemma ListedTail(docs: Docs, times: seq<int>)
    requires Listed(docs, times) && times != []
    ensures HasTime(docs, times[0]) && Listed(docs, times[1..])
  {
    assert times[0] in times;
    assert forall t :: t in times[1..] ==> t in times;
  }

  /** The elements of `times` whose document satisfies the test, in order. */
  ghost function Filter(docs: Docs, times: seq<int>, test: Doc -> bool): (r: seq<int>)
    requires Listed(docs, times)
    ensures forall t :: t in r ==> t in times
    decreases |times|
  {
    if times == [] then [] else
      ListedTail(docs, times);
      var rest := Filter(docs, times[1..], test);
      if test(docs[IdAt(docs, times[0])]) then [times[0]] + rest else rest
  }

  lemma {:induction false} FilterFacts(docs: Docs, times: seq<int>, test: Doc -> bool)
    requires Listed(docs, times) && Ascending(times, Leq)
    ensures Ascending(Filter(docs, times, test), Leq)
    ensures forall t :: t in times && HasTime(docs, t) ==>
              (t in Filter(docs, times, test) <==> test(docs[IdAt(docs, t)]))
    decreases |times|
  {
    if times != [] {
      ListedTail(docs, times);
      AscendingTail(times);
      FilterFacts(docs, times[1..], test);
      var rest := Filter(docs, times[1..], test);
      if test(docs[IdAt(docs, times[0])]) {
        AscendingCons(times[0], rest);
      }
    }
  }

  lemma AscendingTail(times: seq<int>)
    requires Ascending(times, Leq) && times != []
    ensures Ascending(times[1..], Leq)
    ensures forall t :: t in times[1..] ==> t > times[0]
    ensures forall t :: t in times <==> t == times[0] || t in times[1..]
  {
    assert times == [times[0]] + times[1..];
    forall t | t in times[1..] ensures t > times[0] {
      var i :| 0 <= i < |times[1..]| && times[1..][i] == t;
      assert times[i + 1] == t;
    }
  }

  lemma AscendingCons(x: int, rest: seq<int>)
    requires Ascending(rest, Leq) && forall t :: t in rest ==> t > x
    ensures Ascending([x] + rest, Leq)
  {
    var r := [x] + rest;
    forall i, j | 0 <= i < j < |r| ensures Leq(r[i], r[j]) && r[i] != r[j] {
      assert r[j] == rest[j - 1] && r[j] in rest;
    }
  }

  lemma DocAt(docs: Docs, t: int, test: Doc -> bool)
    requires DistinctTimes(docs)
    ensures HasDoc(docs, t, test) <==> HasTime(docs, t) && test(docs[IdAt(docs, t)])
  {
    if HasDoc(docs, t, test) {
      var id :| id in docs && docs[id].modified == t && test(docs[id]);
      IdAtUnique(docs, id);
    }
  }

  lemma FilterHead(docs: Docs, times: seq<int>, test: Doc -> bool)
    requires Listed(docs, times) && times != []
    ensures Listed(docs, times[1..])
    ensures Filter(docs, times, test) ==
            (if HasDoc(docs, times[0], test) then [times[0]] else []) + Filter(docs, times[1..], test)
  {
    ListedTail(docs, times);
    DocAt(docs, times[0], test);
  }

  lemma AboveIsFiltered(docs: Docs, w: int, test: Doc -> bool)
    requires DistinctTimes(docs)
    ensures Filter(docs, Pending(docs, w), test) == Above(docs, w, test)
  {
    var times := Pending(docs, w);
    var a := Filter(docs, times, test);
    FilterFacts(docs, times, test);
    forall t ensures t in a <==> t > w && HasDoc(docs, t, test) {
      DocAt(docs, t, test);
    }
    AboveUnique(docs, w, test, a);
  }

  lemma AboveListed(docs: Docs, w: int, test: Doc -> bool, times: seq<int>)
    requires DistinctTimes(docs) && forall t :: t in times ==> t in Above(docs, w, test)
    ensures Listed(docs, times)
  {
    forall t | t in times ensures HasTime(docs, t) { DocAt(docs, t, test); }
  }

  // ---------------------------------------------------------------------------
  // one run
  // ---------------------------------------------------------------------------

  /** Delete and upsert each listed document in turn. */
  ghost function ReplaceCalls(docs: Docs, times: seq<int>): seq<IndexCall>
    requires Listed(docs, times)
    decreases |times|
  {
    if times == [] then [] else
      ListedTail(docs, times);
      var id := IdAt(docs, times[0]);
      [DeleteDoc(id), Upsert(id, docs[id])] + ReplaceCalls(docs, times[1..])
  }

  lemma FilterListed(docs: Docs, times: seq<int>, test: Doc -> bool, n: nat)
    requires Listed(docs, times)
    ensures Listed(docs, Take(Filter(docs, times, test), n))
  {}

  lemma TakeAfterHead(t: int, rest: seq<int>, room: nat)
    requires room > 0
    ensures Take([t] + rest, room) == [t] + Take(rest, room - 1)
  {}

  lemma ReplaceHead(docs: Docs, t: int, rest: seq<int>)
    requires Listed(docs, rest) && HasTime(docs, t)
    ensures Listed(docs, [t] + rest)
    ensures ReplaceCalls(docs, [t] + rest) ==
            [DeleteDoc(IdAt(docs, t)), Upsert(IdAt(docs, t), docs[IdAt(docs, t)])] + ReplaceCalls(docs, rest)
  {
    assert ([t] + rest)[1..] == rest;
  }

  /** The calls replace the documents that pass the second test among the first `room` that pass the first one. */
  ghost predicate Replaces(docs: Docs, times: seq<int>, room: nat, look: Doc -> bool, take: Doc -> bool,
                           calls: seq<IndexCall>)
  {
    Listed(docs, times) &&
    var first := Take(Filter(docs, times, look), room);
    Listed(docs, first) && Listed(docs, Filter(docs, first, take)) &&
    calls == ReplaceCalls(docs, Filter(docs, first, take))
  }

  /** The calls made for one document. */
  ghost function CallsAt(docs: Docs, t: int, look: Doc -> bool, take: Doc -> bool): seq<IndexCall>
    requires DistinctTimes(docs) && HasTime(docs, t)
  {
    var id := IdAt(docs, t);
    if HasDoc(docs, t, look) && HasDoc(docs, t, take) then [DeleteDoc(id), Upsert(id, docs[id])] else []
  }

  lemma ReplacesHead(docs: Docs, times: seq<int>, room: nat, look: Doc -> bool, take: Doc -> bool,
                     calls: seq<IndexCall>)
    requires Listed(docs, times) && times != [] && HasTime(docs, times[0]) && room > 0
    requires Replaces(docs, times[1..], if HasDoc(docs, times[0], look) then room - 1 else room, look, take, calls)
    ensures Replaces(docs, times, room, look, take, CallsAt(docs, times[0], look, take) + calls)
  {
    FilterHead(docs, times, look);
    FilterListed(docs, times, look, room);
    var first := Take(Filter(docs, times, look), room);
    if HasDoc(docs, times[0], look) {
      TakeAfterHead(times[0], Filter(docs, times[1..], look), room);
      FilterHead(docs, first, take);
      ReplaceHead(docs, times[0], Filter(docs, first[1..], take));
    }
  }

  lemma CallsHead(docs: Docs, times: seq<int>, room: nat)
    requires Listed(docs, times) && times != [] && room > 0
    ensures HasTime(docs, times[0]) && Listed(docs, times[1..])
    ensures IngestCalls(docs, times, room) == CallsAt(docs, times[0], Considered, Eligible)
              + IngestCalls(docs, times[1..], if HasDoc(docs, times[0], Considered) then room - 1 else room)
  {
    ListedTail(docs, times);
    DocAt(docs, times[0], Considered);
    DocAt(docs, times[0], Eligible);
  }

  /** A run replaces the eligible ones among the first `room` documents it considers. */
  lemma {:induction false} RunReplaces(docs: Docs, times: seq<int>, room: nat)
    requires Listed(docs, times)
    ensures Replaces(docs, times, room, Considered, Eligible, IngestCalls(docs, times, room))
    decreases |times|
  {
    if times != [] && room > 0 {
      CallsHead(docs, times, room);
      var room' := if HasDoc(docs, times[0], Considered) then room - 1 else room;
      RunReplaces(docs, times[1..], room');
      ReplacesHead(docs, times, room, Considered, Eligible, IngestCalls(docs, times[1..], room'));
    }
  }

  /** After replacing documents in order of modification the newest point is the last one's. */
  lemma {:induction false} ReplaceWatermark(docs: Docs, x: Index, times: seq<int>, bound: int)
    requires Listed(docs, times) && Ascending(times, Leq) && UpTo(x, bound) && forall t :: t in times ==> t > bound
    ensures var y := PerformAll(x, ReplaceCalls(docs, times));
            && UpTo(y, if times == [] then bound else times[|times| - 1])
            && (times != [] ==> exists k :: k in y && y[k].modified == times[|times| - 1])
    decreases |times|
  {
    if times != [] {
      ListedTail(docs, times);
      AscendingTail(times);
      assert times[0] in times && times[0] > bound;
      var id := IdAt(docs, times[0]);
      var del, up := DeleteDoc(id), Upsert(id, docs[id]);
      var x1 := Perform(Perform(x, del), up);
      var calls := ReplaceCalls(docs, times);
      assert calls[0] == del && calls[1..][0] == up && calls[1..][1..] == ReplaceCalls(docs, times[1..]);
      ReplaceWatermark(docs, x1, times[1..], times[0]);
      if |times| == 1 {
        assert PointId(id, 0) in PointsOf(id, docs[id]);
        assert PointId(id, 0) in x1;
      }
    }
  }

  /** A run in which no index call fails. */
  ghost function FullRun(s: State): State {
    if DistinctTimes(s.docs) then Next(s, Ingest(|RunCalls(s)|)) else s
  }

  /** A suffix of an ascending list is what lies above the element before it. */
  lemma DropAbove(all: seq<int>, b: seq<int>, k: nat)
    requires Ascending(all, Leq) && Ascending(b, Leq) && 0 < k <= |all|
    requires forall t :: t in b <==> t in all && t > all[k - 1]
    ensures b == all[k..]
  {
    LeqIsTotalOrder();
    var a := all[k..];
    forall t ensures t in a <==> t in b {
      if t in b {
        var i :| 0 <= i < |all| && all[i] == t;
        assert i >= k && a[i - k] == t;
      }
      if t in a {
        var i :| 0 <= i < |a| && a[i] == t;
        assert all[i + k] == t;
      }
    }
    ListingUnique(a, b, Leq);
  }

  lemma AboveAfter(docs: Docs, w: int, test: Doc -> bool, k: nat, all: seq<int>)
    requires all == Above(docs, w, test) && 0 < k <= |all|
    ensures Above(docs, all[k - 1], test) == all[k..]
  {
    assert all[k - 1] in all;
    DropAbove(all, Above(docs, all[k - 1], test), k);
  }

  /** The eligible ones among the first twenty documents that main considers. */
  ghost function Taken(s: State): (done: seq<int>)
    requires DistinctTimes(s.docs)
    ensures Listed(s.docs, done)
  {
    var first := Take(Queue(s.docs, Watermark(s.index)), MAX_DOCS_PER_RUN);
    AboveListed(s.docs, Watermark(s.index), Considered, first);
    Filter(s.docs, first, Eligible)
  }

  lemma TakenFacts(s: State)
    requires DistinctTimes(s.docs)
    ensures Ascending(Taken(s), Leq) && forall t :: t in Taken(s) ==> t > Watermark(s.index)
    ensures RunCalls(s) == ReplaceCalls(s.docs, Taken(s))
  {
    var w := Watermark(s.index);
    var first := Take(Queue(s.docs, w), MAX_DOCS_PER_RUN);
    AboveIsFiltered(s.docs, w, Considered);
    RunReplaces(s.docs, Pending(s.docs, w), MAX_DOCS_PER_RUN);
    AboveListed(s.docs, w, Considered, first);
    FilterFacts(s.docs, first, Eligible);
  }

  /** A run that does not fail leaves the newest document it took as the watermark. */
  lemma FullRunWatermark(s: State)
    requires DistinctTimes(s.docs)
    ensures var done := Taken(s);
            && (done == [] ==> FullRun(s) == s)
            && (done != [] ==> Watermark(FullRun(s).index) == done[|done| - 1])
  {
    var done := Taken(s);
    TakenFacts(s);
    var y := PerformAll(s.index, ReplaceCalls(s.docs, done));
    assert Take(RunCalls(s), |RunCalls(s)|) == RunCalls(s);
    assert FullRun(s).index == y;
    ReplaceWatermark(s.docs, s.index, done, Watermark(s.index));
    if done != [] {
      assert done[|done| - 1] in done;
      WatermarkUnique(y, Watermark(y), done[|done| - 1]);
    }
  }
}
