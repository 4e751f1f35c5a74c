/** The sliding-window cap on calendar writes: a pruned list that answers like the full history. */
module WriteCap {

  const HOUR: real := 3600.0

  /** The list comprehension of _rate_ok: what lies less than an hour back. */
  function Prune(ts: seq<real>, now: real): seq<real> {
    if ts == [] then [] else (if now - ts[0] < HOUR then [ts[0]] else []) + Prune(ts[1..], now)
  }

  /** The pruned list after some calls, the times accepted so far, and the answer each call got. */
  datatype Trace = Trace(writes: seq<real>, accepted: seq<real>, answers: seq<bool>)

  function Ask(t: Trace, now: real, max: nat): Trace {
    var kept := Prune(t.writes, now);
    if |kept| >= max then Trace(kept, t.accepted, t.answers + [false])
    else Trace(kept + [now], t.accepted + [now], t.answers + [true])
  }

  function Run(asks: seq<real>, max: nat): Trace {
    if asks == [] then Trace([], [], []) else Ask(Run(asks[..|asks| - 1], max), asks[|asks| - 1], max)
  }

  predicate NonDecreasing(ts: seq<real>) { forall i, j :: 0 <= i < j < |ts| ==> ts[i] <= ts[j] }

  /** The places of the times less than an hour back. */
  function Recent(ts: seq<real>, now: real): set<nat> { set i: nat | i < |ts| && now - ts[i] < 3600.0 }

  /** The places of the times in the half-open hour from start. */
  function HourFrom(ts: seq<real>, start: real): set<nat> { set i: nat | i < |ts| && start <= ts[i] < start + 3600.0 }

  /** How many of the times lie in the half-open hour from start. */
  function InHourFrom(ts: seq<real>, start: real): nat {
    if ts == [] then 0 else (if start <= ts[0] < start + HOUR then 1 else 0) + InHourFrom(ts[1..], start)
  }

  // ---------------------------------------------------------------------------
  // pruning
  // ---------------------------------------------------------------------------

  lemma {:induction false} PruneSplits(a: seq<real>, b: seq<real>, now: real)
    ensures Prune(a + b, now) == Prune(a, now) + Prune(b, now)
  {
    if a == [] {
      assert a + b == b;
    } else {
      assert (a + b)[1..] == a[1..] + b;
      PruneSplits(a[1..], b, now);
    }
  }

  /** What an earlier pruning dropped, a later one would drop too. */
  lemma {:induction false} PruneTwice(ts: seq<real>, earlier: real, now: real)
    requires earlier <= now
    ensures Prune(Prune(ts, earlier), now) == Prune(ts, now)
  {
    if ts != [] {
      PruneTwice(ts[1..], earlier, now);
      PruneSplits(if earlier - ts[0] < HOUR then [ts[0]] else [], Prune(ts[1..], earlier), now);
    }
  }

  lemma {:induction false} PruneKeepsRecent(ts: seq<real>, now: real)
    requires forall i :: 0 <= i < |ts| ==> now - ts[i] < HOUR
    ensures Prune(ts, now) == ts
  {
    if ts != [] { PruneKeepsRecent(ts[1..], now); }
  }

  // ---------------------------------------------------------------------------
  // the forgetful list answers like the full history
  // ---------------------------------------------------------------------------

  /** Pruned at any later time, the kept list and the full history are the same. */
  ghost predicate SameFrom(t: Trace, clock: real) {
    forall now :: now >= clock ==> Prune(t.writes, now) == Prune(t.accepted, now)
  }

  lemma AskKeepsSame(t: Trace, clock: real, now: real, max: nat)
    requires SameFrom(t, clock) && clock <= now
    ensures SameFrom(Ask(t, now, max), now)
  {
    var kept := Prune(t.writes, now);
    forall later | later >= now
      ensures Prune(Ask(t, now, max).writes, later) == Prune(Ask(t, now, max).accepted, later)
    {
      PruneTwice(t.writes, now, later);
      PruneSplits(kept, [now], later);
      PruneSplits(t.accepted, [now], later);
    }
  }

  lemma {:induction false} RunIsSame(asks: seq<real>, max: nat, clock: real)
    requires NonDecreasing(asks) && (asks != [] ==> asks[|asks| - 1] <= clock)
    ensures SameFrom(Run(asks, max), clock)
  {
    if asks != [] {
      var rest, now := asks[..|asks| - 1], asks[|asks| - 1];
      RunIsSame(rest, max, now);
      AskKeepsSame(Run(rest, max), now, now, max);
    }
  }

  /** Pruning keeps as many times as lie less than an hour back. */
  lemma {:induction false} PruneCounts(ts: seq<real>, now: real)
    ensures |Prune(ts, now)| == |Recent(ts, now)|
    decreases |ts|
  {
    if ts != [] {
      var front, last := ts[..|ts| - 1], |ts| - 1;
      PruneCounts(front, now);
      PruneSplits(front, [ts[last]], now);
      assert ts == front + [ts[last]];
      assert Recent(ts, now) == Recent(front, now) + if now - ts[last] < 3600.0 then {last} else {};
    }
  }

  /** A call is accepted exactly when fewer than max of ALL accepted calls lie less than 3600 seconds back. */
  lemma AcceptedIff(asks: seq<real>, now: real, max: nat)
    requires NonDecreasing(asks + [now])
    ensures Run(asks + [now], max).answers == Run(asks, max).answers + [|Recent(Run(asks, max).accepted, now)| < max]
    ensures Run(asks + [now], max).accepted ==
            Run(asks, max).accepted + if |Recent(Run(asks, max).accepted, now)| < max then [now] else []
  {
    PruneCounts(Run(asks, max).accepted, now);
    var all := asks + [now];
    assert all[..|all| - 1] == asks && all[|all| - 1] == now;
    assert forall i :: 0 <= i < |asks| ==> asks[i] == all[i];
    RunIsSame(asks, max, now);
  }

  // ---------------------------------------------------------------------------
  // no hour is overfull
  // ---------------------------------------------------------------------------

  /** Any max + 1 accepted calls in a row span at least an hour. */
  predicate Spaced(ts: seq<real>, max: nat) {
    forall i, j :: 0 <= i < |ts| && 0 <= j < |ts| && j == i + max ==> ts[j] - ts[i] >= HOUR
  }

  lemma EnoughIsOld(ts: seq<real>, now: real, max: nat)
    requires NonDecreasing(ts) && |Prune(ts, now)| < max <= |ts|
    ensures now - ts[|ts| - max] >= HOUR
  {
    var k := |ts| - max;
    var older, recent := ts[..k], ts[k..];
    assert ts == older + recent;
    PruneSplits(older, recent, now);
    if now - ts[k] < HOUR {
      SuffixIsLater(ts, k);
      PruneKeepsRecent(recent, now);
      assert false;
    }
  }

  lemma SuffixIsLater(ts: seq<real>, k: nat)
    requires NonDecreasing(ts) && k < |ts|
    ensures forall i :: 0 <= i < |ts[k..]| ==> ts[k] <= ts[k..][i]
  {
    forall i | 0 <= i < |ts[k..]| ensures ts[k] <= ts[k..][i] {
      assert ts[k..][i] == ts[k + i];
    }
  }

  lemma AppendKeepsOrder(ts: seq<real>, t: real)
    requires NonDecreasing(ts) && forall i :: 0 <= i < |ts| ==> ts[i] <= t
    ensures NonDecreasing(ts + [t])
  {}

  lemma AcceptKeepsSpaced(ts: seq<real>, now: real, max: nat)
    requires NonDecreasing(ts) && Spaced(ts, max) && |Prune(ts, now)| < max
    ensures Spaced(ts + [now], max)
  {
    if |ts| >= max { EnoughIsOld(ts, now, max); }
  }

  /** The accepted times are in order, spaced, and none is later than now. */
  ghost predicate Orderly(ts: seq<real>, max: nat, now: real) {
    Spaced(ts, max) && NonDecreasing(ts) && forall i :: 0 <= i < |ts| ==> ts[i] <= now
  }

  lemma {:induction false} RunIsOrderly(asks: seq<real>, max: nat, now: real)
    requires NonDecreasing(asks) && (asks != [] ==> asks[|asks| - 1] <= now)
    ensures Orderly(Run(asks, max).accepted, max, now)
  {
    if asks != [] {
      var rest, last := asks[..|asks| - 1], asks[|asks| - 1];
      RunIsOrderly(rest, max, last);
      assert asks == rest + [last];
      AcceptedIff(rest, last, max);
      PruneCounts(Run(rest, max).accepted, last);
      AcceptKeeps(Run(rest, max).accepted, Run(asks, max).accepted, last, max);
      assert Orderly(Run(asks, max).accepted, max, last);
    }
  }

  lemma AcceptKeeps(before: seq<real>, after: seq<real>, now: real, max: nat)
    requires Orderly(before, max, now) && after == before + if |Prune(before, now)| < max then [now] else []
    ensures Orderly(after, max, now)
  {
    if |Prune(before, now)| < max {
      AcceptKeepsSpaced(before, now, max);
      AppendKeepsOrder(before, now);
    } else {
      assert after == before;
    }
  }

  lemma {:induction false} CountDropsLast(ts: seq<real>, t: real, start: real)
    ensures InHourFrom(ts + [t], start) == InHourFrom(ts, start) + if start <= t < start + HOUR then 1 else 0
  {
    if ts == [] {
      assert ts + [t] == [t];
    } else {
      assert (ts + [t])[1..] == ts[1..] + [t];
      CountDropsLast(ts[1..], t, start);
    }
  }

  lemma {:induction false} CountAtMostAll(ts: seq<real>, start: real)
    ensures InHourFrom(ts, start) <= |ts|
  {
    if ts != [] { CountAtMostAll(ts[1..], start); }
  }

  lemma {:induction false} SpacedBoundsHour(ts: seq<real>, max: nat, start: real)
    requires NonDecreasing(ts) && Spaced(ts, max)
    ensures InHourFrom(ts, start) <= max
    decreases |ts|
  {
    if |ts| <= max {
      CountAtMostAll(ts, start);
    } else if ts[0] < start {
      var rest := ts[1..];
      assert forall i :: 0 <= i < |rest| ==> rest[i] == ts[i + 1];
      SpacedBoundsHour(rest, max, start);
    } else {
      var rest, last := ts[..|ts| - 1], ts[|ts| - 1];
      assert ts == rest + [last];
      assert ts[max] - ts[0] >= HOUR && last >= ts[max];
      CountDropsLast(rest, last, start);
      SpacedBoundsHour(rest, max, start);
    }
  }

  lemma {:induction false} HourCounts(ts: seq<real>, start: real)
    ensures InHourFrom(ts, start) == |HourFrom(ts, start)|
    decreases |ts|
  {
    if ts != [] {
      var front, last := ts[..|ts| - 1], |ts| - 1;
      HourCounts(front, start);
      CountDropsLast(front, ts[last], start);
      assert ts == front + [ts[last]];
      assert HourFrom(ts, start) == HourFrom(front, start) + if start <= ts[last] < start + 3600.0 then {last} else {};
    }
  }

  /** Over any serial run with a clock that does not go back, no half-open hour holds more than max accepted writes. */
  lemma NoHourIsOverfull(asks: seq<real>, max: nat, start: real)
    requires NonDecreasing(asks)
    ensures |HourFrom(Run(asks, max).accepted, start)| <= max
  {
    HourCounts(Run(asks, max).accepted, start);
    RunIsOrderly(asks, max, if asks == [] then 0.0 else asks[|asks| - 1]);
    SpacedBoundsHour(Run(asks, max).accepted, max, start);
  }

  class Limiter {
    const max: nat
    var writes: seq<real>
    /** Every call so far. */
    ghost var asks: seq<real>

    ghost predicate Valid() reads this { NonDecreasing(asks) && writes == Run(asks, max).writes }

    /** Every write ever accepted. */
    ghost function Accepted(): seq<real> reads this { Run(asks, max).accepted }

    constructor (cap: nat)
      ensures Valid() && max == cap && asks == [] && Accepted() == []
    {
      max, writes, asks := cap, [], [];
    }

    /** _rate_ok: true exactly when fewer than max of all the writes ever accepted lie less than an hour back. */
    method RateOk(now: real) returns (ok: bool)
      requires Valid() && NonDecreasing(asks + [now])
      modifies this
      ensures Valid() && asks == old(asks) + [now]
      ensures ok <==> |Recent(old(Accepted()), now)| < max
      ensures Accepted() == old(Accepted()) + if ok then [now] else []
    {
      AcceptedIff(asks, now, max);
      PruneCounts(Accepted(), now);
      RunIsSame(asks, max, now);
      assert (asks + [now])[..|asks|] == asks;
      var kept := Prune(writes, now);
      ok := |kept| < max;
      writes := if ok then kept + [now] else kept;
      asks := asks + [now];
    }
  }
}
