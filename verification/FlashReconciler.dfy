/** The ESPHome reconciler: which devices are out of date, and what a run does about them. */
module FlashReconciler {
  import opened Basics
  import opened FlashQueue

  datatype Device = Device(deployed: string, current: string)

  /** How flash_one ends for a reachable device. */
  datatype Outcome = CompileFails | UploadFails | StaysDown | Verified

  /** What stays fixed over the runs; hash has no entry for a file that cannot be hashed. */
  datatype Setup = Setup(max: nat, forced: set<string>, excluded: set<string>, hash: map<string, string>,
                         up: set<string>)

  /** What the dashboard reports, and the recorded hash of each tracked device. */
  datatype Fleet = Fleet(devs: map<string, Device>, state: map<string, string>)

  predicate Drifted(d: Device) { d.deployed != "" && d.current != "" && d.deployed != d.current }

  predicate Watched(fn: string, setup: Setup, f: Fleet) {
    fn in f.devs && fn !in setup.excluded && fn in setup.hash
  }

  predicate IsForced(fn: string, setup: Setup) { "ALL" in setup.forced || fn in setup.forced }

  predicate Candidate(fn: string, setup: Setup, f: Fleet) {
    Watched(fn, setup, f) &&
    (IsForced(fn, setup) || (fn in f.state && f.state[fn] != setup.hash[fn]) || Drifted(f.devs[fn]))
  }

  /** Untracked and not drifted: its hash is recorded without a flash. */
  predicate Seeds(fn: string, setup: Setup, f: Fleet) {
    Watched(fn, setup, f) && !Candidate(fn, setup, f) && fn !in f.state
  }

  /** The candidates in the order classify lists them. */
  ghost function QueueOf(setup: Setup, f: Fleet): (q: Queue)
    ensures IsQueue(setup, f, q)
  {
    QueueExists(setup, f);
    var q :| IsQueue(setup, f, q);
    q
  }

  ghost predicate IsQueue(setup: Setup, f: Fleet, q: Queue) {
    Ascending(q, LexLeq) && forall fn :: fn in q <==> Candidate(fn, setup, f)
  }

  lemma QueueExists(setup: Setup, f: Fleet)
    ensures exists q :: IsQueue(setup, f, q)
  {
    assert IsQueue(setup, f, SortedNames(set fn | fn in f.devs && Candidate(fn, setup, f)));
  }

  function Seeded(setup: Setup, f: Fleet): Fleet {
    f.(state := f.state + map fn | fn in f.devs && Seeds(fn, setup, f) :: setup.hash[fn])
  }

  /** A verified flash: the device runs the current version and its hash is recorded. */
  function Flash(fn: string, setup: Setup, f: Fleet): Fleet
    requires Watched(fn, setup, f)
  {
    Fleet(f.devs[fn := f.devs[fn].(deployed := f.devs[fn].current)], f.state[fn := setup.hash[fn]])
  }

  /** The batch loop: offline devices are passed over, the first failure stops the run. */
  function RunBatch(setup: Setup, f: Fleet, batch: Queue, outcome: string -> Outcome): (r: Fleet)
    requires forall fn :: fn in batch ==> Watched(fn, setup, f)
    ensures r.devs.Keys == f.devs.Keys
    decreases |batch|
  {
    if batch == [] then f
    else
      assert batch[0] in batch && forall x :: x in batch[1..] ==> x in batch;
      if batch[0] !in setup.up then RunBatch(setup, f, batch[1..], outcome)
      else if outcome(batch[0]) == Verified then
        var g := Flash(batch[0], setup, f);
        assert forall x :: Watched(x, setup, f) ==> Watched(x, setup, g);
        RunBatch(setup, g, batch[1..], outcome)
      else f
  }

  ghost function LiveRun(setup: Setup, f: Fleet, outcome: string -> Outcome): Fleet {
    BatchIsWatched(setup, f);
    RunBatch(setup, Seeded(setup, f), Take(QueueOf(setup, f), setup.max), outcome)
  }

  const ALL_VERIFIED: string -> Outcome := (fn: string) => Verified

  ghost function AfterRuns(setup: Setup, f: Fleet, n: nat): Fleet
    decreases n
  {
    if n == 0 then f else AfterRuns(setup, LiveRun(setup, f, ALL_VERIFIED), n - 1)
  }

  // ---------------------------------------------------------------------------
  // one run
  // ---------------------------------------------------------------------------

  /** Same report and same record for this device. */
  ghost predicate Untouched(fn: string, f: Fleet, g: Fleet) {
    && (fn in f.devs <==> fn in g.devs) && (fn in f.devs ==> f.devs[fn] == g.devs[fn])
    && (fn in f.state <==> fn in g.state) && (fn in f.state ==> f.state[fn] == g.state[fn])
  }

  /** The device runs what its configuration says. */
  predicate UpToDate(fn: string, setup: Setup, f: Fleet)
    requires fn in f.devs && fn in setup.hash
  {
    fn in f.state && f.state[fn] == setup.hash[fn] && !Drifted(f.devs[fn])
  }

  /** Whatever fails, only reachable members of the batch whose flash was verified change, and they end up to date. */
  lemma {:induction false} BatchTouches(setup: Setup, f: Fleet, batch: Queue, outcome: string -> Outcome, fn: string)
    requires forall x :: x in batch ==> Watched(x, setup, f)
    ensures || Untouched(fn, f, RunBatch(setup, f, batch, outcome))
            || (fn in batch && fn in setup.up && outcome(fn) == Verified &&
                UpToDate(fn, setup, RunBatch(setup, f, batch, outcome)))
    ensures Watched(fn, setup, f) && UpToDate(fn, setup, f) ==> UpToDate(fn, setup, RunBatch(setup, f, batch, outcome))
    decreases |batch|
  {
    if batch != [] {
      assert batch[0] in batch;
      assert forall x :: x in batch[1..] ==> x in batch;
      if batch[0] !in setup.up {
        BatchTouches(setup, f, batch[1..], outcome, fn);
      } else if outcome(batch[0]) == Verified {
        BatchTouches(setup, Flash(batch[0], setup, f), batch[1..], outcome, fn);
      }
    }
  }

  /** When no flash fails, every reachable member of the batch ends up to date. */
  lemma {:induction false} BatchFlashes(setup: Setup, f: Fleet, batch: Queue, fn: string)
    requires forall x :: x in batch ==> Watched(x, setup, f)
    requires fn in batch && fn in setup.up
    ensures UpToDate(fn, setup, RunBatch(setup, f, batch, ALL_VERIFIED))
    decreases |batch|
  {
    assert batch[0] in batch;
    assert forall x :: x in batch[1..] ==> x in batch;
    var g := if batch[0] in setup.up then Flash(batch[0], setup, f) else f;
    if fn == batch[0] {
      BatchTouches(setup, g, batch[1..], ALL_VERIFIED, fn);
    } else {
      assert batch == [batch[0]] + batch[1..];
      BatchFlashes(setup, g, batch[1..], fn);
    }
  }

  lemma BatchIsWatched(setup: Setup, f: Fleet)
    ensures forall fn :: fn in Take(QueueOf(setup, f), setup.max) ==> Watched(fn, setup, Seeded(setup, f))
  {
    assert forall fn :: fn in Take(QueueOf(setup, f), setup.max) ==> fn in QueueOf(setup, f);
  }

  /** A live run never changes anything but verified, reachable, not excluded candidates; it seeds the rest. */
  lemma RunTouchesOnly(setup: Setup, f: Fleet, outcome: string -> Outcome, fn: string)
    ensures Untouched(fn, Seeded(setup, f), LiveRun(setup, f, outcome)) ||
            (Candidate(fn, setup, f) && fn in setup.up && outcome(fn) == Verified)
    ensures fn in setup.excluded || (fn !in setup.up && fn in f.state) ==> Untouched(fn, f, LiveRun(setup, f, outcome))
  {
    BatchIsWatched(setup, f);
    var batch := Take(QueueOf(setup, f), setup.max);
    assert fn in batch ==> fn in QueueOf(setup, f);
    BatchTouches(setup, Seeded(setup, f), batch, outcome, fn);
  }

  /** After a run without failures, exactly the flashed devices have left the candidate set. */
  lemma CandidateAfter(setup: Setup, f: Fleet, fn: string)
    requires setup.forced == {}
    ensures Candidate(fn, setup, LiveRun(setup, f, ALL_VERIFIED)) <==>
            fn in QueueOf(setup, f) && fn !in Online(Take(QueueOf(setup, f), setup.max), setup.up)
    ensures Watched(fn, setup, f) && !Candidate(fn, setup, LiveRun(setup, f, ALL_VERIFIED)) ==>
              UpToDate(fn, setup, LiveRun(setup, f, ALL_VERIFIED))
  {
    BatchIsWatched(setup, f);
    var g := Seeded(setup, f);
    var batch := Take(QueueOf(setup, f), setup.max);
    Members(batch, setup.up, fn);
    assert fn in batch ==> fn in QueueOf(setup, f);
    BatchTouches(setup, g, batch, ALL_VERIFIED, fn);
    if fn in batch && fn in setup.up {
      BatchFlashes(setup, g, batch, fn);
    } else {
      assert Untouched(fn, g, LiveRun(setup, f, ALL_VERIFIED));
    }
  }

  /** A run without failures advances the queue. */
  lemma RunAdvances(setup: Setup, f: Fleet)
    requires setup.forced == {}
    ensures QueueOf(setup, LiveRun(setup, f, ALL_VERIFIED)) == Next(QueueOf(setup, f), setup.up, setup.max)
  {
    var q, g := QueueOf(setup, f), LiveRun(setup, f, ALL_VERIFIED);
    NextQueue(q, setup.up, setup.max);
    forall fn ensures fn in QueueOf(setup, g) <==> fn in Next(q, setup.up, setup.max) { CandidateAfter(setup, f, fn); }
    LexIsTotalOrder();
    ListingUnique(QueueOf(setup, g), Next(q, setup.up, setup.max), LexLeq);
  }

  // ---------------------------------------------------------------------------
  // many runs
  // ---------------------------------------------------------------------------

  lemma {:induction false} RunsAdvance(setup: Setup, f: Fleet, n: nat)
    requires setup.forced == {}
    ensures QueueOf(setup, AfterRuns(setup, f, n)) == After(QueueOf(setup, f), setup.up, setup.max, n)
    decreases n
  {
    if n > 0 {
      RunAdvances(setup, f);
      RunsAdvance(setup, LiveRun(setup, f, ALL_VERIFIED), n - 1);
    }
  }

  /** After at least one run, a watched device outside the queue is up to date. */
  lemma {:induction false} RestIsUpToDate(setup: Setup, f: Fleet, n: nat, fn: string)
    requires setup.forced == {} && n > 0 && Watched(fn, setup, f)
    ensures Watched(fn, setup, AfterRuns(setup, f, n))
    ensures fn !in QueueOf(setup, AfterRuns(setup, f, n)) ==> UpToDate(fn, setup, AfterRuns(setup, f, n))
    decreases n
  {
    BatchIsWatched(setup, f);
    var g := LiveRun(setup, f, ALL_VERIFIED);
    if n == 1 {
      CandidateAfter(setup, f, fn);
      assert AfterRuns(setup, f, 1) == AfterRuns(setup, g, 0);
    } else {
      RestIsUpToDate(setup, g, n - 1, fn);
    }
  }

  /**
   * With fewer offline candidates than the cap, enough runs leave only the offline ones queued,
   * every reachable candidate up to date, and nothing for any later run to flash.
   */
  lemma FleetDrains(setup: Setup, f: Fleet, n: nat)
    requires setup.forced == {}
    requires |Offline(QueueOf(setup, f), setup.up)| < setup.max
    requires n >= CeilDiv(|Online(QueueOf(setup, f), setup.up)|, setup.max - |Offline(QueueOf(setup, f), setup.up)|)
    ensures QueueOf(setup, AfterRuns(setup, f, n)) == Offline(QueueOf(setup, f), setup.up)
    ensures Online(Take(QueueOf(setup, AfterRuns(setup, f, n)), setup.max), setup.up) == []
    ensures forall fn :: fn in QueueOf(setup, f) && fn in setup.up ==>
              Watched(fn, setup, AfterRuns(setup, f, n)) && UpToDate(fn, setup, AfterRuns(setup, f, n))
  {
    var q := QueueOf(setup, f);
    RunsAdvance(setup, f, n);
    Drains(q, setup.up, setup.max, n);
    OfflineOnly(q, setup.up);
    NextParts(Offline(q, setup.up), setup.up, setup.max);
    forall fn | fn in q && fn in setup.up
      ensures Watched(fn, setup, AfterRuns(setup, f, n)) && UpToDate(fn, setup, AfterRuns(setup, f, n))
    {
      Members(q, setup.up, fn);
      RestIsUpToDate(setup, f, n, fn);
    }
  }

  /** Some number of runs takes the device off the queue. */
  ghost predicate EverFlashed(fn: string, setup: Setup, f: Fleet) {
    exists n: nat :: fn !in QueueOf(setup, AfterRuns(setup, f, n))
  }

  lemma EverFlashedIsServed(fn: string, setup: Setup, f: Fleet)
    requires setup.forced == {}
    ensures EverFlashed(fn, setup, f) <==> Served(QueueOf(setup, f), fn, setup.up, setup.max)
  {
    if n: nat :| fn !in QueueOf(setup, AfterRuns(setup, f, n)) {
      RunsAdvance(setup, f, n);
      assert Served(QueueOf(setup, f), fn, setup.up, setup.max);
    }
    if n: nat :| fn !in After(QueueOf(setup, f), setup.up, setup.max, n) {
      RunsAdvance(setup, f, n);
      assert EverFlashed(fn, setup, f);
    }
  }

  /** A reachable candidate is ever flashed exactly when fewer offline candidates than the cap sort before it. */
  lemma FlashedIff(setup: Setup, f: Fleet, k: nat)
    requires setup.forced == {} && k < |QueueOf(setup, f)| && QueueOf(setup, f)[k] in setup.up
    ensures EverFlashed(QueueOf(setup, f)[k], setup, f) <==> |Offline(QueueOf(setup, f)[..k], setup.up)| < setup.max
  {
    EverFlashedIsServed(QueueOf(setup, f)[k], setup, f);
    ServedIff(QueueOf(setup, f), k, setup.up, setup.max);
  }

  // ---------------------------------------------------------------------------
  // the reconciler as it runs
  // ---------------------------------------------------------------------------

  /** The candidates among the first i names, in sorted order. */
  ghost predicate Collected(names: seq<string>, i: nat, setup: Setup, f: Fleet, candidates: Queue) {
    && i <= |names|
    && Ascending(candidates, LexLeq)
    && (forall fn :: fn in candidates <==> fn in names[..i] && Candidate(fn, setup, f))
  }

  /** The record after the first i names: those not tracked and not drifted have been added. */
  ghost predicate Recorded(names: seq<string>, i: nat, setup: Setup, f: Fleet, state: map<string, string>) {
    && i <= |names|
    && (forall fn :: fn in state <==> fn in f.state || (fn in names[..i] && Seeds(fn, setup, f)))
    && (forall fn :: fn in f.state ==> state[fn] == f.state[fn])
    && (forall fn :: fn in names[..i] && Seeds(fn, setup, f) ==> state[fn] == setup.hash[fn])
  }

  lemma CollectStep(names: seq<string>, i: nat, setup: Setup, f: Fleet, candidates: Queue)
    requires Collected(names, i, setup, f, candidates) && i < |names| && Ascending(names, LexLeq)
    ensures Collected(names, i + 1, setup, f,
                      if Candidate(names[i], setup, f) then candidates + [names[i]] else candidates)
  {
    assert names[..i + 1] == names[..i] + [names[i]];
    forall j | 0 <= j < |candidates| ensures LexLeq(candidates[j], names[i]) && candidates[j] != names[i] {
      assert candidates[j] in candidates;
      var k :| 0 <= k < |names[..i]| && names[..i][k] == candidates[j];
      assert names[k] == candidates[j];
    }
  }

  lemma RecordStep(names: seq<string>, i: nat, setup: Setup, f: Fleet, state: map<string, string>)
    requires Recorded(names, i, setup, f, state) && i < |names| && Ascending(names, LexLeq)
    ensures Recorded(names, i + 1, setup, f,
                     if Seeds(names[i], setup, f) then state[names[i] := setup.hash[names[i]]] else state)
    ensures names[i] in state <==> names[i] in f.state
    ensures names[i] in state ==> state[names[i]] == f.state[names[i]]
  {
    assert forall fn :: fn in names[..i + 1] <==> fn in names[..i] || fn == names[i] by {
      assert names[..i + 1] == names[..i] + [names[i]];
    }
    assert names[i] !in names[..i];
  }

  lemma CollectEnd(names: seq<string>, setup: Setup, f: Fleet, candidates: Queue)
    requires Collected(names, |names|, setup, f, candidates)
    requires forall fn :: fn in names <==> fn in f.devs
    ensures candidates == QueueOf(setup, f)
  {
    assert names[..|names|] == names;
    LexIsTotalOrder();
    ListingUnique(candidates, QueueOf(setup, f), LexLeq);
  }

  lemma RecordEnd(names: seq<string>, setup: Setup, f: Fleet, state: map<string, string>)
    requires Recorded(names, |names|, setup, f, state)
    requires forall fn :: fn in names <==> fn in f.devs
    ensures state == Seeded(setup, f).state
  {
    assert names[..|names|] == names;
    var want := Seeded(setup, f).state;
    assert forall fn :: fn in state <==> fn in want;
    assert forall fn :: fn in state ==> state[fn] == want[fn];
  }

  /** In name order, the devices that are reported, not excluded and hashable and are forced, changed in their
      configuration, or run another version than the current one; of the rest the untracked ones are recorded. */
  ghost predicate Classified(setup: Setup, f: Fleet, candidates: Queue, state: map<string, string>) {
    && Ascending(candidates, LexLeq)
    && (forall fn :: fn in candidates <==>
          && fn in f.devs && fn !in setup.excluded && fn in setup.hash
          && (|| "ALL" in setup.forced || fn in setup.forced
              || (fn in f.state && f.state[fn] != setup.hash[fn])
              || (f.devs[fn].deployed != "" && f.devs[fn].current != "" && f.devs[fn].deployed != f.devs[fn].current)))
    && (forall fn :: fn in state <==>
          fn in f.state || (fn in f.devs && fn !in setup.excluded && fn in setup.hash && fn !in candidates))
    && (forall fn :: fn in state ==>
          if fn in f.state then state[fn] == f.state[fn] else fn in setup.hash && state[fn] == setup.hash[fn])
  }

  lemma ClassifiedIs(setup: Setup, f: Fleet, candidates: Queue, state: map<string, string>)
    requires candidates == QueueOf(setup, f) && state == Seeded(setup, f).state
    ensures Classified(setup, f, candidates, state)
  {}

  /** classify: walks the devices by name, collects the candidates and records the untracked. */
  method Classify(setup: Setup, f: Fleet) returns (candidates: Queue, state: map<string, string>)
    ensures candidates == QueueOf(setup, f) && state == Seeded(setup, f).state
    ensures Classified(setup, f, candidates, state)
  {
    candidates, state := WalkDevices(setup, f);
    ClassifiedIs(setup, f, candidates, state);
  }

  method WalkDevices(setup: Setup, f: Fleet) returns (candidates: Queue, state: map<string, string>)
    ensures candidates == QueueOf(setup, f) && state == Seeded(setup, f).state
  {
    var names := SortedNames(f.devs.Keys);
    candidates, state := [], f.state;
    assert names[..0] == [];
    for i := 0 to |names|
      invariant Collected(names, i, setup, f, candidates)
      invariant Recorded(names, i, setup, f, state)
    {
      var fn := names[i];
      CollectStep(names, i, setup, f, candidates);
      RecordStep(names, i, setup, f, state);
      assert fn in names;
      if fn !in setup.excluded && fn in setup.hash {
        var cur, drift := setup.hash[fn], Drifted(f.devs[fn]);
        if IsForced(fn, setup) {
          candidates := candidates + [fn];
        } else if fn !in state {
          if drift {
            candidates := candidates + [fn];
          } else {
            state := state[fn := cur];
          }
        } else if state[fn] != cur {
          candidates := candidates + [fn];
        } else if drift {
          candidates := candidates + [fn];
        }
      }
    }
    CollectEnd(names, setup, f, candidates);
    RecordEnd(names, setup, f, state);
  }

  lemma RunFromClassified(setup: Setup, f: Fleet, candidates: Queue, state: map<string, string>,
                          outcome: string -> Outcome)
    requires candidates == QueueOf(setup, f) && state == Seeded(setup, f).state
    ensures forall fn :: fn in Take(candidates, setup.max) ==>
            Candidate(fn, setup, f) && Watched(fn, setup, Fleet(f.devs, state))
    ensures LiveRun(setup, f, outcome) == RunBatch(setup, Fleet(f.devs, state), Take(candidates, setup.max), outcome)
  {
    assert forall fn :: fn in Take(candidates, setup.max) ==> fn in candidates;
    assert Fleet(f.devs, state) == Seeded(setup, f);
  }

  /** How the three commands of a flash would end for each device. */
  datatype Pod = Pod(compiles: string -> bool, uploads: string -> bool, comesBack: string -> bool)

  function OutcomeOf(pod: Pod, fn: string): Outcome {
    if !pod.compiles(fn) then CompileFails
    else if !pod.uploads(fn) then UploadFails
    else if !pod.comesBack(fn) then StaysDown
    else Verified
  }

  function Outcomes(pod: Pod): string -> Outcome { fn => OutcomeOf(pod, fn) }

  /** A command sent to the pod, and whether it succeeded. */
  datatype Command = Compile(fn: string, ok: bool) | Upload(fn: string, ok: bool) | Verify(fn: string, ok: bool)

  /** The commands of one flash. */
  function FlashCommands(fn: string, pod: Pod, dryRun: bool): seq<Command> {
    if !pod.compiles(fn) || dryRun then [Compile(fn, pod.compiles(fn))]
    else if !pod.uploads(fn) then [Compile(fn, true), Upload(fn, false)]
    else [Compile(fn, true), Upload(fn, true), Verify(fn, pod.comesBack(fn))]
  }

  predicate Goes(fn: string, pod: Pod, dryRun: bool) {
    OutcomeOf(pod, fn) == Verified || (dryRun && OutcomeOf(pod, fn) != CompileFails)
  }

  function BatchCommands(batch: Queue, up: set<string>, pod: Pod, dryRun: bool): seq<Command> {
    if batch == [] then []
    else if batch[0] !in up then BatchCommands(batch[1..], up, pod, dryRun)
    else if Goes(batch[0], pod, dryRun)
    then FlashCommands(batch[0], pod, dryRun) + BatchCommands(batch[1..], up, pod, dryRun)
    else FlashCommands(batch[0], pod, dryRun)
  }

  /** Nothing is uploaded but what has just compiled, nothing at all in a dry run, and nothing follows a failure. */
  predicate Gated(cs: seq<Command>, dryRun: bool) {
    && (forall i :: 0 <= i < |cs| && cs[i].Upload? ==> !dryRun && i > 0 && cs[i - 1] == Compile(cs[i].fn, true))
    && (forall i :: 0 <= i < |cs| - 1 ==> cs[i].ok)
  }

  /** Every batch keeps the compile gate and stops at the first failure; it touches only reachable members. */
  lemma {:induction false} BatchIsGated(batch: Queue, up: set<string>, pod: Pod, dryRun: bool)
    ensures Gated(BatchCommands(batch, up, pod, dryRun), dryRun)
    ensures forall c :: c in BatchCommands(batch, up, pod, dryRun) ==> c.fn in batch && c.fn in up
    decreases |batch|
  {
    if batch != [] {
      BatchIsGated(batch[1..], up, pod, dryRun);
      assert forall x :: x in batch[1..] ==> x in batch;
      if batch[0] in up && Goes(batch[0], pod, dryRun) {
        GatedConcat(FlashCommands(batch[0], pod, dryRun), BatchCommands(batch[1..], up, pod, dryRun), dryRun);
      }
    }
  }

  lemma GatedConcat(a: seq<Command>, b: seq<Command>, dryRun: bool)
    requires Gated(a, dryRun) && Gated(b, dryRun) && a != [] && a[|a| - 1].ok
    ensures Gated(a + b, dryRun)
  {
    var cs := a + b;
    forall i | 0 <= i < |cs| && cs[i].Upload? ensures !dryRun && i > 0 && cs[i - 1] == Compile(cs[i].fn, true) {
      if i >= |a| { assert b[i - |a|] == cs[i]; }
    }
  }

  /** The device was compiled, uploaded and seen again, one right after the other. */
  ghost predicate Proven(cs: seq<Command>, fn: string) { exists i: nat :: ProvenAt(cs, fn, i) }

  predicate ProvenAt(cs: seq<Command>, fn: string, i: nat) {
    i + 2 < |cs| && cs[i..i + 3] == [Compile(fn, true), Upload(fn, true), Verify(fn, true)]
  }

  lemma ProvenStays(a: seq<Command>, b: seq<Command>, fn: string)
    ensures Proven(a, fn) || Proven(b, fn) ==> Proven(a + b, fn)
  {
    if i: nat :| ProvenAt(a, fn, i) {
      assert (a + b)[i..i + 3] == a[i..i + 3];
      assert ProvenAt(a + b, fn, i);
    }
    if i: nat :| ProvenAt(b, fn, i) {
      assert (a + b)[|a| + i..|a| + i + 3] == b[i..i + 3];
      assert ProvenAt(a + b, fn, |a| + i);
    }
  }

  lemma FlashProves(fn: string, pod: Pod)
    requires OutcomeOf(pod, fn) == Verified
    ensures Proven(FlashCommands(fn, pod, false), fn)
  {
    var cs := FlashCommands(fn, pod, false);
    assert cs == [Compile(fn, true), Upload(fn, true), Verify(fn, true)];
    assert cs[0..0 + 3] == cs;
    assert ProvenAt(cs, fn, 0);
  }

  /** Whatever changes about a device in a batch, its flash was compiled, uploaded and verified. */
  lemma {:induction false} ChangesAreProven(setup: Setup, f: Fleet, batch: Queue, pod: Pod, fn: string)
    requires forall x :: x in batch ==> Watched(x, setup, f)
    ensures Untouched(fn, f, RunBatch(setup, f, batch, Outcomes(pod))) ||
            Proven(BatchCommands(batch, setup.up, pod, false), fn)
    decreases |batch|
  {
    if batch != [] {
      assert batch[0] in batch;
      assert forall x :: x in batch[1..] ==> x in batch;
      if batch[0] !in setup.up {
        ChangesAreProven(setup, f, batch[1..], pod, fn);
      } else if OutcomeOf(pod, batch[0]) == Verified {
        ChangesAreProven(setup, Flash(batch[0], setup, f), batch[1..], pod, fn);
        FlashProves(batch[0], pod);
        ProvenStays(FlashCommands(batch[0], pod, false), BatchCommands(batch[1..], setup.up, pod, false), fn);
      }
    }
  }

  class Reconciler {
    const setup: Setup
    var devs: map<string, Device>
    /** The state file. */
    var state: map<string, string>
    /** What the pod was told to do so far. */
    var log: seq<Command>

    constructor (s: Setup, f: Fleet)
      ensures setup == s && devs == f.devs && state == f.state && log == []
    {
      setup, devs, state, log := s, f.devs, f.state, [];
    }

    /** flash_one: compile, then upload, then wait until the device is back; the hash is recorded only then. */
    method FlashOne(fn: string, pod: Pod, dryRun: bool) returns (ok: bool)
      requires Watched(fn, setup, Fleet(devs, state))
      modifies this
      ensures ok == Goes(fn, pod, dryRun) && log == old(log) + FlashCommands(fn, pod, dryRun)
      ensures ok <==> pod.compiles(fn) && (dryRun || (pod.uploads(fn) && pod.comesBack(fn)))
      ensures ok && !dryRun ==> log == old(log) + [Compile(fn, true), Upload(fn, true), Verify(fn, true)]
      ensures Fleet(devs, state) ==
              if ok && !dryRun then Flash(fn, setup, old(Fleet(devs, state))) else old(Fleet(devs, state))
    {
      log := log + [Compile(fn, pod.compiles(fn))];
      if !pod.compiles(fn) { return false; }
      if dryRun { return true; }
      log := log + [Upload(fn, pod.uploads(fn))];
      if !pod.uploads(fn) { return false; }
      log := log + [Verify(fn, pod.comesBack(fn))];
      if !pod.comesBack(fn) { return false; }
      devs := devs[fn := devs[fn].(deployed := devs[fn].current)];
      state := state[fn := setup.hash[fn]];
      ok := true;
    }

    /** The batch loop of main, one device at a time until a failure. */
    method FlashBatch(batch: Queue, pod: Pod, dryRun: bool) returns (flashed: Queue)
      requires forall fn :: fn in batch ==> Watched(fn, setup, Fleet(devs, state))
      modifies this
      ensures Fleet(devs, state) ==
              if dryRun then old(Fleet(devs, state)) else RunBatch(setup, old(Fleet(devs, state)), batch, Outcomes(pod))
      ensures log == old(log) + BatchCommands(batch, setup.up, pod, dryRun)
      ensures |flashed| <= |batch|
      ensures forall fn :: fn in flashed ==> fn in batch && fn in setup.up && OutcomeOf(pod, fn) == Verified
    {
      flashed := [];
      ghost var start, sent := Fleet(devs, state), log;
      assert batch[0..] == batch;
      for i := 0 to |batch|
        invariant |flashed| <= i
        invariant forall fn :: fn in flashed ==> fn in batch && fn in setup.up && OutcomeOf(pod, fn) == Verified
        invariant dryRun ==> Fleet(devs, state) == start
        invariant forall fn :: fn in batch ==> Watched(fn, setup, Fleet(devs, state))
        invariant !dryRun ==> RunBatch(setup, Fleet(devs, state), batch[i..], Outcomes(pod)) ==
                              RunBatch(setup, start, batch, Outcomes(pod))
        invariant log + BatchCommands(batch[i..], setup.up, pod, dryRun) ==
                  sent + BatchCommands(batch, setup.up, pod, dryRun)
      {
        var fn := batch[i];
        ghost var rest := batch[i + 1..];
        assert fn in batch;
        assert batch[i..][0] == fn && batch[i..][1..] == rest;
        if fn in setup.up {
          ConcatAssoc(log, FlashCommands(fn, pod, dryRun), BatchCommands(rest, setup.up, pod, dryRun));
          var ok := FlashOne(fn, pod, dryRun);
          if !ok { return; }
          if !dryRun { flashed := flashed + [fn]; }
        }
      }
      assert batch[|batch|..] == [];
    }

    /** main: at most max devices are probed, one at a time; a dry run compiles but changes nothing, and every
        run keeps the compile gate. */
    method Run(pod: Pod, dryRun: bool) returns (flashed: Queue)
      modifies this
      ensures Fleet(devs, state) ==
              if dryRun then old(Fleet(devs, state)) else LiveRun(setup, old(Fleet(devs, state)), Outcomes(pod))
      ensures |flashed| <= setup.max
      ensures forall fn :: fn in flashed ==>
                OutcomeOf(pod, fn) == Verified && Candidate(fn, setup, old(Fleet(devs, state))) && fn in setup.up
      ensures old(log) <= log && Gated(log[|old(log)|..], dryRun)
      ensures dryRun ==> Fleet(devs, state) == old(Fleet(devs, state))
      ensures !dryRun ==> forall fn ::
                || Untouched(fn, Seeded(setup, old(Fleet(devs, state))), Fleet(devs, state))
                || Proven(log[|old(log)|..], fn)
    {
      var candidates, seeded := Classify(setup, Fleet(devs, state));
      var batch := Take(candidates, setup.max);
      RunFromClassified(setup, Fleet(devs, state), candidates, seeded, Outcomes(pod));
      if !dryRun { state := seeded; }
      BatchIsGated(batch, setup.up, pod, dryRun);
      ghost var sent, start := log, Fleet(devs, seeded);
      if !dryRun {
        forall fn ensures || Untouched(fn, start, RunBatch(setup, start, batch, Outcomes(pod)))
                          || Proven(BatchCommands(batch, setup.up, pod, false), fn)
        {
          ChangesAreProven(setup, start, batch, pod, fn);
        }
      }
      flashed := FlashBatch(batch, pod, dryRun);
      assert log[|sent|..] == BatchCommands(batch, setup.up, pod, dryRun);
    }
  }
}
