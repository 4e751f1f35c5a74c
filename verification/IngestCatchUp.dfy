/** Which pending documents unfailing ingest runs index, and when: exactly those that no twenty hollow
    documents in a row precede. */
module IngestCatchUp {
  import opened Basics
  import opened IngestChunks
  import opened IngestProtocol
  import opened IngestRuns
  import opened IngestProgress
  import opened CappedCursor

  ghost function FullRuns(s: State, n: nat): State { Iterate(FullRun, s, n) }

  lemma FullRunKeeps(s: State)
    requires Invariant(s)
    ensures Invariant(FullRun(s)) && FullRun(s).docs == s.docs
  {
    IngestKeeps(s, |RunCalls(s)|);
  }

  lemma {:induction false} RunsKeepInvariant(s: State, n: nat)
    requires Invariant(s)
    ensures Invariant(FullRuns(s, n)) && FullRuns(s, n).docs == s.docs
    decreases n
  {
    if n > 0 {
      RunsKeepInvariant(s, n - 1);
      FullRunKeeps(FullRuns(s, n - 1));
    }
  }

  // ---------------------------------------------------------------------------
  // the watermark as a cursor
  // ---------------------------------------------------------------------------

  /** A document that passes main's length test and fails ingestQdrant's: its first 200,000 characters
      are blank, or nearly so. It uses up a place in the run and is not indexed. */
  predicate Hollow(d: Doc) { Considered(d) && !Eligible(d) }

  /** Which of the queued documents are hollow. */
  ghost function Hollows(docs: Docs, q: seq<int>): (h: seq<bool>)
    ensures |h| == |q| && forall i :: 0 <= i < |q| ==> h[i] == !HasDoc(docs, q[i], Eligible)
  {
    seq(|q|, i requires 0 <= i < |q| => !HasDoc(docs, q[i], Eligible))
  }

  /** The watermark that belongs to a cursor in the queue above w. */
  function MarkAt(q: seq<int>, w: int, c: nat): int
    requires c <= |q|
  {
    if c == 0 then w else q[c - 1]
  }

  /** m is one past the last live place of h. */
  predicate LiveUpTo(h: seq<bool>, m: nat) {
    m <= |h| && (m > 0 ==> !h[m - 1]) && forall j :: m <= j < |h| ==> h[j]
  }

  lemma {:induction false} FilterLast(docs: Docs, times: seq<int>, test: Doc -> bool, h: seq<bool>, m: nat)
    requires Listed(docs, times) && LiveUpTo(h, m)
    requires |h| == |times| && forall i :: 0 <= i < |times| ==> h[i] == !HasDoc(docs, times[i], test)
    ensures EndsAt(Filter(docs, times, test), times, 0, m)
    decreases |times|
  {
    if times != [] {
      FilterHead(docs, times, test);
      var m' := LiveTail(h, m);
      FilterLast(docs, times[1..], test, h[1..], m');
      EndsCons(times, m, m', Filter(docs, times[1..], test), HasDoc(docs, times[0], test));
    }
  }

  lemma LiveTail(h: seq<bool>, m: nat) returns (m': nat)
    requires h != [] && LiveUpTo(h, m)
    ensures LiveUpTo(h[1..], m') && m' == Max(0, m - 1) && (m == 0 ==> h[0]) && (m == 1 ==> !h[0])
  {
    m' := Max(0, m - 1);
  }

  lemma EndsCons(times: seq<int>, m: nat, m': nat, rest: seq<int>, live: bool)
    requires times != [] && m' == Max(0, m - 1) && m <= |times| && EndsAt(rest, times[1..], 0, m')
    requires (m == 0 ==> !live) && (m == 1 ==> live)
    ensures EndsAt((if live then [times[0]] else []) + rest, times, 0, m)
  {}

  /** The queue above w and its hollow places. */
  ghost predicate Queued(docs: Docs, w: int, q: seq<int>, h: seq<bool>) {
    DistinctTimes(docs) && q == Queue(docs, w) && h == Hollows(docs, q)
  }

  /** The run starting in t finds the queue from c on. */
  ghost predicate StandsAt(t: State, docs: Docs, w: int, q: seq<int>, c: nat) {
    t.docs == docs && c <= |q| && Watermark(t.index) == MarkAt(q, w, c)
  }

  lemma QueueFrom(docs: Docs, w: int, q: seq<int>, c: nat)
    requires q == Queue(docs, w) && c <= |q|
    ensures Queue(docs, MarkAt(q, w, c)) == q[c..]
  {
    if c > 0 { AboveAfter(docs, w, Considered, c, q); } else { assert q[0..] == q; }
  }

  lemma FirstIsQueued(docs: Docs, w: int, q: seq<int>, h: seq<bool>, c: nat, first: seq<int>)
    requires Queued(docs, w, q, h) && c <= |q| && first == Take(q[c..], MAX_DOCS_PER_RUN)
    ensures Listed(docs, first)
  {
    assert forall x :: x in first ==> x in q;
    AboveListed(docs, w, Considered, first);
  }

  lemma WindowShape(q: seq<int>, h: seq<bool>, c: nat, d: nat, first: seq<int>) returns (m: nat, window: seq<bool>)
    requires |h| == |q| && c <= |q| && d == Advance(h, c, MAX_DOCS_PER_RUN) && first == Take(q[c..], MAX_DOCS_PER_RUN)
    ensures d == c + m && d <= |q| && m <= |first| && (m > 0 ==> first[m - 1] == q[d - 1])
    ensures window == Take(h[c..], MAX_DOCS_PER_RUN) && LiveUpTo(window, m)
  {
    m, window := d - c, Take(h[c..], MAX_DOCS_PER_RUN);
  }

  lemma WindowHollows(docs: Docs, q: seq<int>, h: seq<bool>, c: nat)
    requires h == Hollows(docs, q) && c <= |q|
    ensures Hollows(docs, Take(q[c..], MAX_DOCS_PER_RUN)) == Take(h[c..], MAX_DOCS_PER_RUN)
  {}

  /** The last live one among the next twenty is the last one taken. */
  lemma LastTaken(docs: Docs, q: seq<int>, h: seq<bool>, c: nat, d: nat, first: seq<int>)
    requires h == Hollows(docs, q) && c <= |q| && d == Advance(h, c, MAX_DOCS_PER_RUN)
    requires first == Take(q[c..], MAX_DOCS_PER_RUN) && Listed(docs, first)
    ensures EndsAt(Filter(docs, first, Eligible), q, c, d)
  {
    var m, window := WindowShape(q, h, c, d, first);
    WindowHollows(docs, q, h, c);
    FilterLast(docs, first, Eligible, window, m);
    SameEnd(Filter(docs, first, Eligible), first, m, q, c, d);
  }

  lemma SameEnd(done: seq<int>, first: seq<int>, m: nat, q: seq<int>, c: nat, d: nat)
    requires d == c + m && d <= |q| && m <= |first| && (m > 0 ==> first[m - 1] == q[d - 1])
    requires EndsAt(done, first, 0, m)
    ensures EndsAt(done, q, c, d)
  {}

  /** Nothing was taken and the cursor stays, or the last one taken is the one before the new cursor. */
  predicate EndsAt(done: seq<int>, q: seq<int>, c: nat, d: nat) {
    if d == c then done == [] else 0 < d <= |q| && done != [] && done[|done| - 1] == q[d - 1]
  }

  lemma TakenEnds(t: State, docs: Docs, w: int, q: seq<int>, h: seq<bool>, c: nat, d: nat) returns (done: seq<int>)
    requires Queued(docs, w, q, h) && StandsAt(t, docs, w, q, c) && d == Advance(h, c, MAX_DOCS_PER_RUN)
    ensures done == Taken(t) && EndsAt(done, q, c, d)
  {
    var first := Take(q[c..], MAX_DOCS_PER_RUN);
    QueueFrom(docs, w, q, c);
    FirstIsQueued(docs, w, q, h, c, first);
    LastTaken(docs, q, h, c, d, first);
    done := Taken(t);
  }

  lemma RunLeaves(t: State, done: seq<int>) returns (after: int)
    requires DistinctTimes(t.docs) && done == Taken(t)
    ensures FullRun(t).docs == t.docs && after == Watermark(FullRun(t).index)
    ensures after == if done == [] then Watermark(t.index) else done[|done| - 1]
  {
    FullRunWatermark(t);
    after := Watermark(FullRun(t).index);
  }

  lemma MarkMoves(q: seq<int>, w: int, c: nat, d: nat, done: seq<int>, before: int, after: int)
    requires c <= d <= |q| && before == MarkAt(q, w, c) && EndsAt(done, q, c, d)
    requires after == if done == [] then before else done[|done| - 1]
    ensures after == MarkAt(q, w, d)
  {}

  /** One run moves the cursor as the capped queue says. */
  lemma RunMovesCursor(t: State, docs: Docs, w: int, q: seq<int>, h: seq<bool>, c: nat, d: nat)
    requires Queued(docs, w, q, h) && StandsAt(t, docs, w, q, c) && d == Advance(h, c, MAX_DOCS_PER_RUN)
    ensures StandsAt(FullRun(t), docs, w, q, d)
  {
    var done := TakenEnds(t, docs, w, q, h, c, d);
    var after := RunLeaves(t, done);
    MarkMoves(q, w, c, d, done, Watermark(t.index), after);
  }

  /** After n runs the watermark stands where the cursor does. */
  lemma MarkAfter(s: State, docs: Docs, w: int, q: seq<int>, h: seq<bool>, n: nat) returns (t: State, c: nat)
    requires Queued(docs, w, q, h) && StandsAt(s, docs, w, q, 0)
    ensures t == FullRuns(s, n) && c == Cursor(h, MAX_DOCS_PER_RUN, n) && StandsAt(t, docs, w, q, c)
  {
    t, c := FullRuns(s, n), Cursor(h, MAX_DOCS_PER_RUN, n);
    var at := (x: State, d: nat) => StandsAt(x, docs, w, q, d);
    forall x, d: nat | at(x, d) && d <= |h| ensures at(FullRun(x), Advance(h, d, MAX_DOCS_PER_RUN)) {
      RunMovesCursor(x, docs, w, q, h, d, Advance(h, d, MAX_DOCS_PER_RUN));
    }
    FollowsCursor(FullRun, at, s, h, MAX_DOCS_PER_RUN, n);
  }

  // ---------------------------------------------------------------------------
  // what is indexed when
  // ---------------------------------------------------------------------------

  /** In a state that keeps the invariant an eligible document is indexed exactly up to the watermark. */
  lemma ExactIff(s: State, id: nat)
    requires Invariant(s) && id in s.docs && Eligible(s.docs[id])
    ensures Exact(s.index, id, s.docs[id]) <==> s.docs[id].modified <= Watermark(s.index)
  {
    assert PointId(id, 0) in PointsOf(id, s.docs[id]);
  }

  /** After n unfailing runs the k-th queued document is indexed exactly when the cursor has passed it. */
  lemma IndexedAfterIff(s: State, n: nat, id: nat, k: nat)
    requires Invariant(s) && id in s.docs && Eligible(s.docs[id])
    requires var q := Queue(s.docs, Watermark(s.index)); k < |q| && q[k] == s.docs[id].modified
    ensures Exact(FullRuns(s, n).index, id, s.docs[id]) <==>
            k < Cursor(Hollows(s.docs, Queue(s.docs, Watermark(s.index))), MAX_DOCS_PER_RUN, n)
  {
    var q := Queue(s.docs, Watermark(s.index));
    var h := Hollows(s.docs, q);
    var t, c := MarkAfter(s, s.docs, Watermark(s.index), q, h, n);
    RunsKeepInvariant(s, n);
    IndexedAt(t, Watermark(s.index), q, c, id, k);
  }

  lemma IndexedAt(u: State, w: int, q: seq<int>, c: nat, id: nat, k: nat)
    requires Invariant(u) && id in u.docs && Eligible(u.docs[id])
    requires q == Queue(u.docs, w) && c <= |q| && Watermark(u.index) == MarkAt(q, w, c)
    requires k < |q| && q[k] == u.docs[id].modified
    ensures Exact(u.index, id, u.docs[id]) <==> k < c
  {
    ExactIff(u, id);
    assert q[k] in q;
    MarkPasses(q, w, c, k);
  }

  lemma MarkPasses(q: seq<int>, w: int, c: nat, k: nat)
    requires Ascending(q, Leq) && c <= |q| && k < |q| && q[k] > w
    ensures q[k] <= MarkAt(q, w, c) <==> k < c
  {}

  ghost predicate EverIndexed(s: State, id: nat)
    requires id in s.docs
  {
    exists n: nat :: Exact(FullRuns(s, n).index, id, s.docs[id])
  }

  /** An eligible document newer than the watermark is ever indexed exactly when, among the considered
      documents between the watermark and it, no twenty in a row are hollow. */
  lemma EverIndexedIff(s: State, id: nat, k: nat)
    requires Invariant(s) && id in s.docs && Eligible(s.docs[id])
    requires var q := Queue(s.docs, Watermark(s.index)); k < |q| && q[k] == s.docs[id].modified
    ensures EverIndexed(s, id) <==> !Blocked(Hollows(s.docs, Queue(s.docs, Watermark(s.index))), MAX_DOCS_PER_RUN, k)
    ensures EverIndexed(s, id) <==> Exact(FullRuns(s, k + 1).index, id, s.docs[id])
  {
    var h := Hollows(s.docs, Queue(s.docs, Watermark(s.index)));
    assert HasDoc(s.docs, s.docs[id].modified, Eligible);
    PassedIff(h, MAX_DOCS_PER_RUN, k);
    forall n: nat ensures Exact(FullRuns(s, n).index, id, s.docs[id]) <==> k < Cursor(h, MAX_DOCS_PER_RUN, n) {
      IndexedAfterIff(s, n, id, k);
    }
  }

  /** Every eligible document above the watermark has its place in the queue. */
  lemma QueuedAt(s: State, id: nat) returns (k: nat)
    requires id in s.docs && Considered(s.docs[id]) && s.docs[id].modified > Watermark(s.index)
    ensures k < |Queue(s.docs, Watermark(s.index))| && Queue(s.docs, Watermark(s.index))[k] == s.docs[id].modified
  {
    var q := Queue(s.docs, Watermark(s.index));
    assert HasDoc(s.docs, s.docs[id].modified, Considered);
    k :| 0 <= k < |q| && q[k] == s.docs[id].modified;
  }

  // ---------------------------------------------------------------------------
  // without hollow documents
  // ---------------------------------------------------------------------------

  ghost predicate NoHollowAbove(docs: Docs, w: int) {
    forall id {:trigger Hollow(docs[id])} :: id in docs && docs[id].modified > w ==> !Hollow(docs[id])
  }

  lemma QueueIsWanted(docs: Docs, w: int)
    requires NoHollowAbove(docs, w)
    ensures Queue(docs, w) == Wanted(docs, w)
  {
    var wanted := Wanted(docs, w);
    forall t ensures t in wanted <==> t > w && HasDoc(docs, t, Considered) {
      if t > w && HasDoc(docs, t, Considered) {
        var id :| id in docs && docs[id].modified == t && Considered(docs[id]);
        assert !Hollow(docs[id]);
        assert HasDoc(docs, t, Eligible);
      }
    }
    AboveUnique(docs, w, Considered, wanted);
  }

  lemma {:induction false} FilterAll(docs: Docs, times: seq<int>, test: Doc -> bool)
    requires Listed(docs, times) && forall i :: 0 <= i < |times| ==> HasDoc(docs, times[i], test)
    ensures Filter(docs, times, test) == times
    decreases |times|
  {
    if times != [] {
      FilterHead(docs, times, test);
      FilterAll(docs, times[1..], test);
    }
  }

  /** With no hollow document pending, a run takes the twenty oldest eligible ones. */
  lemma TakesTheOldest(s: State)
    requires DistinctTimes(s.docs) && NoHollowAbove(s.docs, Watermark(s.index))
    ensures Taken(s) == Take(Wanted(s.docs, Watermark(s.index)), MAX_DOCS_PER_RUN)
  {
    var w := Watermark(s.index);
    var wanted := Wanted(s.docs, w);
    QueueIsWanted(s.docs, w);
    var first := Take(wanted, MAX_DOCS_PER_RUN);
    AboveListed(s.docs, w, Eligible, first);
    forall i | 0 <= i < |first| ensures HasDoc(s.docs, first[i], Eligible) { assert first[i] in wanted; }
    FilterAll(s.docs, first, Eligible);
  }

  lemma {:induction false} AllLiveCursor(h: seq<bool>, n: nat)
    requires forall j :: 0 <= j < |h| ==> !h[j]
    ensures Cursor(h, MAX_DOCS_PER_RUN, n) == Min(20 * n, |h|)
  {
    if n > 0 {
      AllLiveCursor(h, n - 1);
      AllLiveAdvance(h, Cursor(h, MAX_DOCS_PER_RUN, n - 1), MAX_DOCS_PER_RUN);
    }
  }

  lemma WantedIsLive(docs: Docs, w: int, h: seq<bool>)
    requires h == Hollows(docs, Wanted(docs, w))
    ensures forall j :: 0 <= j < |h| ==> !h[j]
  {
    var wanted := Wanted(docs, w);
    forall j | 0 <= j < |h| ensures !h[j] { assert wanted[j] in wanted; }
  }

  /** With k eligible documents pending and no hollow one among the pending, CeilDiv(k, 20) unfailing runs index
      all of them, and after n runs the 20n oldest are indexed, however many too-short documents are mixed in. */
  lemma CatchesUp(s: State, n: nat, id: nat)
    requires Invariant(s) && NoHollowAbove(s.docs, Watermark(s.index)) && id in s.docs && Eligible(s.docs[id])
    requires var wanted := Wanted(s.docs, Watermark(s.index));
             || n >= CeilDiv(|wanted|, MAX_DOCS_PER_RUN)
             || s.docs[id].modified !in Drop(wanted, 20 * n)
    ensures Exact(FullRuns(s, n).index, id, s.docs[id])
  {
    var w := Watermark(s.index);
    var wanted := Wanted(s.docs, w);
    var h := Hollows(s.docs, wanted);
    QueueIsWanted(s.docs, w);
    if s.docs[id].modified > w {
      var k := QueuedAt(s, id);
      WantedIsLive(s.docs, w, h);
      AllLiveCursor(h, n);
      RoomFor(wanted, n, k);
      IndexedAfterIff(s, n, id, k);
    } else {
      OldStaysIndexed(s, n, id);
    }
  }

  lemma RoomFor(wanted: seq<int>, n: nat, k: nat)
    requires k < |wanted| && (n >= CeilDiv(|wanted|, MAX_DOCS_PER_RUN) || wanted[k] !in Drop(wanted, 20 * n))
    ensures k < Min(20 * n, |wanted|)
  {
    CeilDivLeast(|wanted|, MAX_DOCS_PER_RUN);
    LaterIsDropped(wanted, 20 * n, k);
  }

  lemma LaterIsDropped(all: seq<int>, c: nat, k: nat)
    requires k < |all|
    ensures c <= k ==> all[k] in Drop(all, c)
  {
    if c <= k { assert Drop(all, c)[k - c] == all[k]; }
  }

  lemma OldStaysIndexed(s: State, n: nat, id: nat)
    requires Invariant(s) && id in s.docs && Eligible(s.docs[id]) && s.docs[id].modified <= Watermark(s.index)
    ensures Exact(FullRuns(s, n).index, id, s.docs[id])
  {
    var w := Watermark(s.index);
    var q := Queue(s.docs, w);
    var t, c := MarkAfter(s, s.docs, w, q, Hollows(s.docs, q), n);
    RunsKeepInvariant(s, n);
    assert c > 0 ==> q[c - 1] in q;
    ExactIff(t, id);
  }

  // ---------------------------------------------------------------------------
  // stalling
  // ---------------------------------------------------------------------------

  /** Runs make progress exactly while one of the first twenty considered documents is eligible: when
      none is, no later run ever changes the index, and when one is, the next run moves the watermark. */
  lemma StallsExactlyOnHollowDocs(s: State)
    requires DistinctTimes(s.docs)
    ensures (forall n: nat :: FullRuns(s, n).index == s.index) <==> Taken(s) == []
    ensures Taken(s) != [] ==> Watermark(FullRun(s).index) > Watermark(s.index)
  {
    FullRunWatermark(s);
    if Taken(s) == [] {
      forall n: nat ensures FullRuns(s, n).index == s.index { IterateFixed(FullRun, s, n); }
    } else {
      TakenFacts(s);
      assert Taken(s)[|Taken(s)| - 1] in Taken(s);
      var t := LastRun(s, 1);
      assert FullRuns(s, 1).index != s.index;
    }
  }

  lemma LastRun(s: State, n: nat) returns (t: State)
    requires n > 0
    ensures t == FullRuns(s, n - 1) && FullRuns(s, n) == FullRun(t)
  {
    t := FullRuns(s, n - 1);
  }
}
