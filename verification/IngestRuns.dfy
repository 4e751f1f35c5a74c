/** Every reachable state of the ingest protocol keeps the index exact below its own watermark. */
module IngestRuns {
  import opened Basics
  import opened IngestProtocol
  import opened IngestStored

  datatype State = State(docs: Docs, index: Index, clock: int)

  datatype Step =
    | Edit(id: nat, content: string, meta: string)   // add or modify a document
    | Remove(id: nat)                                // delete it in Paperless
    | Ingest(calls: nat)                             // a scheduled run that dies after so many index calls
    | Sweep(order: seq<nat>, calls: nat)             // a tombstone sweep, likewise

  function Deletes(order: seq<nat>): seq<IndexCall> {
    if order == [] then [] else [DeleteDoc(order[0])] + Deletes(order[1..])
  }

  ghost predicate Invariant(s: State) {
    && s.clock >= EPOCH
    && DistinctTimes(s.docs)
    && KeysMatch(s.index)
    && UpTo(s.index, s.clock)
    && (forall id :: id in s.docs ==> EPOCH < s.docs[id].modified <= s.clock)
    && CoveredUpTo(s.docs, s.index, Watermark(s.index))
  }

  ghost function RunCalls(s: State): seq<IndexCall>
    requires DistinctTimes(s.docs)
  {
    IngestCalls(s.docs, Pending(s.docs, Watermark(s.index)), MAX_DOCS_PER_RUN)
  }

  /** A sweep deletes ids it found indexed and did not find in Paperless. */
  ghost predicate Enabled(s: State, step: Step) {
    step.Sweep? ==> forall id :: id in step.order ==> id !in s.docs
  }

  ghost function Next(s: State, step: Step): State
    requires DistinctTimes(s.docs)
  {
    match step
    case Edit(id, content, meta) => s.(docs := s.docs[id := Doc(content, meta, s.clock + 1)], clock := s.clock + 1)
    case Remove(id) => s.(docs := s.docs - {id})
    case Ingest(calls) => s.(index := PerformAll(s.index, Take(RunCalls(s), calls)))
    case Sweep(order, calls) => s.(index := PerformAll(s.index, Take(Deletes(order), calls)))
  }

  // ---------------------------------------------------------------------------
  // ingest runs
  // ---------------------------------------------------------------------------

  ghost predicate Settled(docs: Docs, x: Index, bound: int) {
    KeysMatch(x) && UpTo(x, bound) && CoveredUpTo(docs, x, bound)
  }

  /** The documents above `bound` are exactly those still listed. */
  ghost predicate Remaining(docs: Docs, times: seq<int>, bound: int) {
    && Listed(docs, times) && Ascending(times, Leq)
    && (forall t :: t in times ==> t > bound)
    && (forall id {:trigger docs[id].modified in times} :: id in docs && docs[id].modified > bound ==>
        docs[id].modified in times)
  }

  lemma RemainingTail(docs: Docs, times: seq<int>, bound: int)
    requires Remaining(docs, times, bound) && times != []
    ensures bound < times[0] && HasTime(docs, times[0]) && Remaining(docs, times[1..], times[0])
    ensures forall id :: id in docs && bound < docs[id].modified <= times[0] ==> docs[id].modified == times[0]
  {
    assert times == [times[0]] + times[1..];
    assert times[0] in times && HasTime(docs, times[0]);
    forall t | t in times[1..] ensures t > times[0] && t in times {
      var i :| 0 <= i < |times[1..]| && times[1..][i] == t;
      assert times[i + 1] == t;
    }
    forall id | id in docs && docs[id].modified > bound
      ensures docs[id].modified == times[0] || docs[id].modified in times[1..]
    {
      assert docs[id].modified in times;
    }
  }

  lemma SettledDelete(docs: Docs, x: Index, bound: int, id: nat)
    requires Settled(docs, x, bound) && id in docs && docs[id].modified > bound
    ensures Settled(docs, Perform(x, DeleteDoc(id)), bound)
  {
    forall i | i in docs && Eligible(docs[i]) && docs[i].modified <= bound
      ensures Exact(Perform(x, DeleteDoc(id)), i, docs[i])
    {
      OtherDocUntouched(x, DeleteDoc(id), i, docs[i]);
    }
  }

  lemma SettledReplace(docs: Docs, x: Index, bound: int, id: nat)
    requires Settled(docs, x, bound) && DistinctTimes(docs) && id in docs && docs[id].modified > bound
    requires forall i :: i in docs && bound < docs[i].modified <= docs[id].modified ==>
             docs[i].modified == docs[id].modified
    ensures Settled(docs, Perform(Perform(x, DeleteDoc(id)), Upsert(id, docs[id])), docs[id].modified)
  {
    var y := Perform(x, DeleteDoc(id));
    var up := Upsert(id, docs[id]);
    var z := Perform(y, up);
    SettledDelete(docs, x, bound, id);
    CallKeepsKeys(y, up);
    forall i | i in docs && Eligible(docs[i]) && docs[i].modified <= docs[id].modified ensures Exact(z, i, docs[i]) {
      if i == id {
        DeleteThenUpsertIsExact(x, id, docs[id]);
      } else {
        assert docs[i].modified > bound ==> SameTime(docs, i, id);
        OtherDocUntouched(y, up, i, docs[i]);
      }
    }
  }

  lemma TakeCons(x: Index, calls: seq<IndexCall>, del: IndexCall, up: IndexCall, rest: seq<IndexCall>, n: nat)
    requires calls == [del, up] + rest && n > 0
    ensures PerformAll(x, Take(calls, n)) ==
              if n == 1 then Perform(x, del) else PerformAll(Perform(Perform(x, del), up), Take(rest, n - 2))
  {
    var t := Take(calls, n);
    assert t[0] == del;
    if n == 1 {
      assert t[1..] == [];
    } else {
      assert t[1..][0] == up && t[1..][1..] == Take(rest, n - 2);
    }
  }

  /** The first listed document: either the run stops within it, or the rest of the run starts from an
      index settled up to it. */
  lemma OneDocSettles(docs: Docs, x: Index, times: seq<int>, room: nat, n: nat, bound: int)
      returns (stops: bool, y: Index, room': nat, n': nat)
    requires Settled(docs, x, bound) && Remaining(docs, times, bound) && times != [] && room > 0 && n > 0
    ensures Remaining(docs, times[1..], times[0]) && bound < times[0] && HasTime(docs, times[0])
    ensures var end := PerformAll(x, Take(IngestCalls(docs, times, room), n));
            if stops then Settled(docs, end, bound)
            else Settled(docs, y, times[0]) && end == PerformAll(y, Take(IngestCalls(docs, times[1..], room'), n'))
  {
    RemainingTail(docs, times, bound);
    var id := IdAt(docs, times[0]);
    var calls := IngestCalls(docs, times, room);
    if !Eligible(docs[id]) {
      stops, y, room', n' := false, x, if Considered(docs[id]) then room - 1 else room, n;
      SkippedSettles(docs, x, bound, id);
    } else {
      var del, up := DeleteDoc(id), Upsert(id, docs[id]);
      stops, y, room', n' := n == 1, Perform(Perform(x, del), up), room - 1, if n == 1 then 0 else n - 2;
      TakeCons(x, calls, del, up, IngestCalls(docs, times[1..], room'), n);
      if stops {
        SettledDelete(docs, x, bound, id);
      } else {
        SettledReplace(docs, x, bound, id);
      }
    }
  }

  /** A run stopped after any index call leaves the index settled up to some bound. */
  lemma {:induction false} RunSettles(docs: Docs, x: Index, times: seq<int>, room: nat, n: nat, bound: int)
      returns (b: int)
    requires Settled(docs, x, bound) && Remaining(docs, times, bound)
    ensures b == bound || HasTime(docs, b)
    ensures bound <= b && Settled(docs, PerformAll(x, Take(IngestCalls(docs, times, room), n)), b)
    decreases |times|
  {
    if times == [] || room == 0 || n == 0 {
      assert Take(IngestCalls(docs, times, room), n) == [];
      return bound;
    }
    var stops, y, room', n' := OneDocSettles(docs, x, times, room, n, bound);
    if stops {
      return bound;
    }
    b := RunSettles(docs, y, times[1..], room', n', times[0]);
  }

  lemma SkippedSettles(docs: Docs, x: Index, bound: int, id: nat)
    requires Settled(docs, x, bound) && DistinctTimes(docs) && id in docs && docs[id].modified > bound &&
             !Eligible(docs[id])
    requires forall i :: i in docs && bound < docs[i].modified <= docs[id].modified ==>
             docs[i].modified == docs[id].modified
    ensures Settled(docs, x, docs[id].modified)
  {
    forall i | i in docs && Eligible(docs[i]) && docs[i].modified <= docs[id].modified ensures Exact(x, i, docs[i]) {
      assert docs[i].modified > bound ==> SameTime(docs, i, id);
    }
  }

  lemma PendingRemains(s: State)
    requires Invariant(s)
    ensures Remaining(s.docs, Pending(s.docs, Watermark(s.index)), Watermark(s.index))
  {
    var times := Pending(s.docs, Watermark(s.index));
    forall id | id in s.docs && s.docs[id].modified > Watermark(s.index) ensures s.docs[id].modified in times {
      assert HasTime(s.docs, s.docs[id].modified);
    }
  }

  lemma IngestKeeps(s: State, calls: nat)
    requires Invariant(s)
    ensures Invariant(Next(s, Ingest(calls)))
  {
    var w := Watermark(s.index);
    PendingRemains(s);
    var b := RunSettles(s.docs, s.index, Pending(s.docs, w), MAX_DOCS_PER_RUN, calls, w);
    var t := Next(s, Ingest(calls));
    assert w <= s.clock;
    assert b <= s.clock;
    assert Watermark(t.index) <= b;
  }

  // ---------------------------------------------------------------------------
  // sweeps and edits
  // ---------------------------------------------------------------------------

  lemma {:induction false} SweepSettles(docs: Docs, x: Index, order: seq<nat>, n: nat, bound: int)
    requires Settled(docs, x, bound) && forall id :: id in order ==> id !in docs
    ensures Settled(docs, PerformAll(x, Take(Deletes(order), n)), bound)
    decreases |order|
  {
    var t := Take(Deletes(order), n);
    if order != [] && n > 0 {
      assert t[0] == DeleteDoc(order[0]) && t[1..] == Take(Deletes(order[1..]), n - 1);
      var y := Perform(x, DeleteDoc(order[0]));
      forall i | i in docs && Eligible(docs[i]) && docs[i].modified <= bound ensures Exact(y, i, docs[i]) {
        assert order[0] in order;
        OtherDocUntouched(x, DeleteDoc(order[0]), i, docs[i]);
      }
      SweepSettles(docs, y, order[1..], n - 1, bound);
    }
  }

  /** A new or changed document is newer than every point, so nothing is promised about it yet. */
  lemma EditKeeps(s: State, id: nat, content: string, meta: string)
    requires Invariant(s)
    ensures Invariant(Next(s, Edit(id, content, meta)))
  {
    assert Watermark(s.index) <= s.clock;
    var docs := Next(s, Edit(id, content, meta)).docs;
    forall a, b | SameTime(docs, a, b) ensures a == b {
      assert a != id && b != id ==> SameTime(s.docs, a, b);
    }
  }

  lemma RemoveKeeps(s: State, id: nat)
    requires Invariant(s)
    ensures Invariant(Next(s, Remove(id)))
  {
    var docs := Next(s, Remove(id)).docs;
    forall a, b | SameTime(docs, a, b) ensures a == b {
      assert SameTime(s.docs, a, b);
    }
  }

  lemma StepKeeps(s: State, step: Step)
    requires Invariant(s) && Enabled(s, step)
    ensures Invariant(Next(s, step))
  {
    match step
    case Edit(id, content, meta) => EditKeeps(s, id, content, meta);
    case Remove(id) => RemoveKeeps(s, id);
    case Ingest(calls) => IngestKeeps(s, calls);
    case Sweep(order, calls) =>
      SweepSettles(s.docs, s.index, order, calls, Watermark(s.index));
      assert Watermark(Next(s, step).index) <= Watermark(s.index) <= s.clock;
  }

  ghost predicate AllEnabled(s: State, steps: seq<Step>)
    requires Invariant(s)
    decreases |steps|
  {
    steps == [] || (Enabled(s, steps[0]) && (StepKeeps(s, steps[0]); AllEnabled(Next(s, steps[0]), steps[1..])))
  }

  ghost function RunAll(s: State, steps: seq<Step>): (t: State)
    requires Invariant(s) && AllEnabled(s, steps)
    decreases |steps|
  {
    if steps == [] then s else
      StepKeeps(s, steps[0]);
      RunAll(Next(s, steps[0]), steps[1..])
  }

  lemma {:induction false} RunKeepsInvariant(s: State, steps: seq<Step>)
    requires Invariant(s) && AllEnabled(s, steps)
    ensures Invariant(RunAll(s, steps))
    decreases |steps|
  {
    if steps != [] {
      StepKeeps(s, steps[0]);
      RunKeepsInvariant(Next(s, steps[0]), steps[1..]);
    }
  }

  /** Every eligible document no newer than some point is stored: all of its kept text, and nothing else. */
  ghost predicate StoredBelowWatermark(docs: Docs, x: Index) {
    forall id, k {:trigger docs[id], x[k]} ::
      id in docs && Eligible(docs[id]) && k in x && docs[id].modified <= x[k].modified ==> Stored(x, id, docs[id])
  }

  lemma InvariantStores(s: State)
    requires Invariant(s)
    ensures StoredBelowWatermark(s.docs, s.index)
  {
    forall id, k | id in s.docs && Eligible(s.docs[id]) && k in s.index && s.docs[id].modified <= s.index[k].modified
      ensures Stored(s.index, id, s.docs[id])
    {
      assert Exact(s.index, id, s.docs[id]);
      ExactIffStored(s.index, id, s.docs[id]);
    }
  }

  /** From an empty index, after any edits, removals, ingest runs and sweeps, each run or sweep stopped after any
      index call: a live eligible document no newer than the newest indexed point is stored, with all of its kept
      text in its current chunks and no other point. */
  lemma IndexIsExactBelowWatermark(docs: Docs, clock: int, steps: seq<Step>)
    requires Invariant(State(docs, map[], clock)) && AllEnabled(State(docs, map[], clock), steps)
    ensures var t := RunAll(State(docs, map[], clock), steps); StoredBelowWatermark(t.docs, t.index)
  {
    RunKeepsInvariant(State(docs, map[], clock), steps);
    InvariantStores(RunAll(State(docs, map[], clock), steps));
  }
}
