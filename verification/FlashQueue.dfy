/** The capped flash queue of the ESPHome reconciler, as a list of device names in the order they sort. */
module FlashQueue {
  import opened Basics

  type Queue = seq<string>

  function Online(q: Queue, up: set<string>): Queue {
    if q == [] then [] else (if q[0] in up then [q[0]] else []) + Online(q[1..], up)
  }

  function Offline(q: Queue, up: set<string>): Queue {
    if q == [] then [] else (if q[0] in up then [] else [q[0]]) + Offline(q[1..], up)
  }

  /** A run flashes the reachable part of its batch; offline devices and the deferred rest stay queued. */
  function Next(q: Queue, up: set<string>, max: nat): Queue {
    Offline(Take(q, max), up) + Drop(q, max)
  }

  function After(q: Queue, up: set<string>, max: nat, n: nat): Queue
    decreases n
  {
    if n == 0 then q else After(Next(q, up, max), up, max, n - 1)
  }

  lemma {:induction false} Members(q: Queue, up: set<string>, x: string)
    ensures x in Online(q, up) <==> x in q && x in up
    ensures x in Offline(q, up) <==> x in q && x !in up
  {
    if q != [] {
      Members(q[1..], up, x);
      assert q == [q[0]] + q[1..];
    }
  }

  lemma {:induction false} Counts(q: Queue, up: set<string>)
    ensures |Online(q, up)| + |Offline(q, up)| == |q|
  {
    if q != [] { Counts(q[1..], up); }
  }

  lemma {:induction false} Splits(a: Queue, b: Queue, up: set<string>)
    ensures Online(a + b, up) == Online(a, up) + Online(b, up)
    ensures Offline(a + b, up) == Offline(a, up) + Offline(b, up)
  {
    if a == [] {
      assert a + b == b;
    } else {
      var q := a + b;
      assert q[0] == a[0] && q[1..] == a[1..] + b;
      Splits(a[1..], b, up);
      ConcatAssoc(if a[0] in up then [a[0]] else [], Online(a[1..], up), Online(b, up));
      ConcatAssoc(if a[0] in up then [] else [a[0]], Offline(a[1..], up), Offline(b, up));
    }
  }

  lemma {:induction false} OfflineOnly(q: Queue, up: set<string>)
    ensures Online(Offline(q, up), up) == [] && Offline(Offline(q, up), up) == Offline(q, up)
    ensures Online(q, up) == [] ==> Offline(q, up) == q
  {
    if q != [] {
      OfflineOnly(q[1..], up);
      Splits(if q[0] in up then [] else [q[0]], Offline(q[1..], up), up);
    }
  }

  /** What one run does to the two parts of the queue. */
  lemma NextParts(q: Queue, up: set<string>, max: nat)
    ensures Offline(Next(q, up, max), up) == Offline(q, up)
    ensures Online(Next(q, up, max), up) == Online(Drop(q, max), up)
    ensures Online(q, up) == Online(Take(q, max), up) + Online(Drop(q, max), up)
    ensures Offline(q, up) == Offline(Take(q, max), up) + Offline(Drop(q, max), up)
  {
    var front, back := Take(q, max), Drop(q, max);
    assert q == front + back;
    Splits(front, back, up);
    Splits(Offline(front, up), back, up);
    OfflineOnly(front, up);
  }

  /** A run that does not empty the queue's reachable part flashes all of its batch but the offline devices. */
  lemma NextCounts(q: Queue, up: set<string>, max: nat)
    ensures Offline(Next(q, up, max), up) == Offline(q, up)
    ensures || |Online(Next(q, up, max), up)| == 0
            || |Online(Next(q, up, max), up)| <= |Online(q, up)| - (max - |Offline(q, up)|)
  {
    NextParts(q, up, max);
    Counts(Take(q, max), up);
  }

  /** n runs that each flash at least the cap less the offline devices are enough for the queue. */
  ghost predicate EnoughRuns(q: Queue, up: set<string>, max: nat, n: nat) {
    |Offline(q, up)| < max && n >= CeilDiv(|Online(q, up)|, max - |Offline(q, up)|)
  }

  lemma OneRunLess(q: Queue, q1: Queue, up: set<string>, max: nat, n: nat)
    requires EnoughRuns(q, up, max, n) && n > 0 && q1 == Next(q, up, max)
    ensures EnoughRuns(q1, up, max, n - 1) && Offline(q1, up) == Offline(q, up)
  {
    NextCounts(q, up, max);
    CeilDivDrops(|Online(q1, up)|, |Online(q, up)|, max - |Offline(q, up)|);
  }

  /** Fewer offline devices than the cap: the reachable ones drain in the expected number of runs. */
  lemma {:induction false} Drains(q: Queue, up: set<string>, max: nat, n: nat)
    requires EnoughRuns(q, up, max, n)
    ensures After(q, up, max, n) == Offline(q, up)
    decreases n
  {
    if n == 0 {
      OfflineOnly(q, up);
    } else {
      var q1 := Next(q, up, max);
      OneRunLess(q, q1, up, max, n);
      Drains(q1, up, max, n - 1);
    }
  }

  lemma CeilDivDrops(a: nat, b: nat, step: nat)
    requires step > 0 && (a == 0 || a <= b - step)
    ensures CeilDiv(a, step) <= Max(0, CeilDiv(b, step) - 1)
  {
    if a > 0 { CeilDivMonotone(a, b - step, step); }
  }

  lemma {:induction false} CeilDivMonotone(a: nat, b: nat, step: nat)
    requires step > 0 && a <= b
    ensures CeilDiv(a, step) <= CeilDiv(b, step)
    decreases b
  {
    if a > step { CeilDivMonotone(a - step, b - step, step); }
  }

  lemma NextFront(a: Queue, b: Queue, up: set<string>, max: nat) returns (rest: Queue)
    ensures Next(a + b, up, max) == Next(a, up, max) + rest
    ensures forall x :: x in rest ==> x in b
  {
    if |a| >= max {
      rest := b;
      NextBehind(a, b, up, max);
    } else {
      var front, back := Take(b, max - |a|), Drop(b, max - |a|);
      rest := Offline(front, up) + back;
      ConcatAssoc(Offline(a, up), Offline(front, up), back);
      assert Take(a + b, max) == a + front;
      assert Drop(a + b, max) == back;
      Splits(a, front, up);
      forall x | x in rest ensures x in b { Members(front, up, x); }
    }
  }

  /** What happens to the front of the queue does not depend on what is behind it. */
  lemma {:induction false} FrontIsIndependent(a: Queue, b: Queue, up: set<string>, max: nat, n: nat)
      returns (rest: Queue)
    ensures After(a + b, up, max, n) == After(a, up, max, n) + rest
    ensures forall x :: x in rest ==> x in b
    decreases n
  {
    rest := b;
    if n > 0 {
      rest := NextFront(a, b, up, max);
      rest := FrontIsIndependent(Next(a, up, max), rest, up, max, n - 1);
    }
  }

  /** A reachable device with fewer offline devices than the cap in front of it is flashed in time. */
  lemma ServedInTime(a: Queue, x: string, b: Queue, up: set<string>, max: nat, n: nat)
    requires x in up && x !in a && x !in b
    requires |Offline(a, up)| < max
    requires n >= CeilDiv(|Online(a, up)| + 1, max - |Offline(a, up)|)
    ensures x !in After(a + [x] + b, up, max, n)
  {
    Splits(a, [x], up);
    assert Online([x], up) == [x] && Offline([x], up) == [];
    Drains(a + [x], up, max, n);
    Members(a, up, x);
    var rest := FrontIsIndependent(a + [x], b, up, max, n);
  }

  lemma NextBehind(a: Queue, b: Queue, up: set<string>, max: nat)
    requires |a| >= max
    ensures Next(a + b, up, max) == Next(a, up, max) + b
  {
    assert Take(a + b, max) == Take(a, max);
    assert Drop(a + b, max) == Drop(a, max) + b;
    ConcatAssoc(Offline(Take(a, max), up), Drop(a, max), b);
  }

  /** The queue ends in b, with at least as many offline devices as the cap in front of it. */
  ghost predicate StuckBehind(q: Queue, b: Queue, up: set<string>, max: nat) {
    exists a :: EndsIn(q, a, b) && |Offline(a, up)| >= max
  }

  predicate EndsIn(q: Queue, a: Queue, b: Queue) { q == a + b }

  lemma StaysStuck(q: Queue, b: Queue, up: set<string>, max: nat)
    requires StuckBehind(q, b, up, max)
    ensures StuckBehind(Next(q, up, max), b, up, max)
  {
    var a :| EndsIn(q, a, b) && |Offline(a, up)| >= max;
    Counts(a, up);
    NextBehind(a, b, up, max);
    NextParts(a, up, max);
    assert EndsIn(Next(q, up, max), Next(a, up, max), b);
  }

  /** Behind as many offline devices as the cap, nothing is ever flashed. */
  lemma {:induction false} Starves(q: Queue, b: Queue, up: set<string>, max: nat, n: nat)
    requires StuckBehind(q, b, up, max)
    ensures StuckBehind(After(q, up, max, n), b, up, max)
    decreases n
  {
    if n > 0 {
      StaysStuck(q, b, up, max);
      Starves(Next(q, up, max), b, up, max, n - 1);
    }
  }

  ghost predicate Served(q: Queue, x: string, up: set<string>, max: nat) {
    exists n: nat :: x !in After(q, up, max, n)
  }

  /** A reachable device is ever flashed exactly when fewer offline devices than the cap sort before it. */
  lemma ServedIff(q: Queue, k: nat, up: set<string>, max: nat)
    requires k < |q| && q[k] in up && Ascending(q, LexLeq)
    ensures Served(q, q[k], up, max) <==> |Offline(q[..k], up)| < max
  {
    var a, x, b := q[..k], q[k], q[k + 1..];
    assert q == a + [x] + b;
    if |Offline(a, up)| < max {
      ServedInTime(a, x, b, up, max, CeilDiv(|Online(a, up)| + 1, max - |Offline(a, up)|));
    } else {
      assert EndsIn(q, a, q[k..]) && x in q[k..];
      forall n: nat ensures x in After(q, up, max, n) { Starves(q, q[k..], up, max, n); }
    }
  }

  lemma {:induction false} OfflineAscends(q: Queue, up: set<string>, leq: (string, string) -> bool)
    requires Ascending(q, leq)
    ensures Ascending(Offline(q, up), leq)
  {
    if q != [] {
      var first, rest := [q[0]], q[1..];
      assert q == first + rest;
      OfflineAscends(rest, up, leq);
      FrontBeforeBack(first, rest, leq);
      forall x | x in Offline(rest, up) ensures x in rest { Members(rest, up, x); }
      JoinAscends(if q[0] in up then [] else first, Offline(rest, up), leq);
    }
  }

  /** The next queue is sorted like the old one, and holds all of it but the flashed devices. */
  lemma NextQueue(q: Queue, up: set<string>, max: nat)
    requires Ascending(q, LexLeq)
    ensures Ascending(Next(q, up, max), LexLeq)
    ensures forall x :: x in Next(q, up, max) <==> x in q && x !in Online(Take(q, max), up)
  {
    var front, back := Take(q, max), Drop(q, max);
    assert q == front + back;
    OfflineAscends(front, up, LexLeq);
    FrontBeforeBack(front, back, LexLeq);
    forall x ensures x in Next(q, up, max) <==> x in q && x !in Online(front, up) {
      Members(front, up, x);
      assert x in q <==> x in front || x in back;
    }
    forall x | x in Offline(front, up) ensures x in front { Members(front, up, x); }
    JoinAscends(Offline(front, up), back, LexLeq);
  }

  lemma JoinAscends(a: Queue, b: Queue, leq: (string, string) -> bool)
    requires Ascending(a, leq) && Ascending(b, leq)
    requires forall x, y :: x in a && y in b ==> leq(x, y) && x != y
    ensures Ascending(a + b, leq)
  {
    var q := a + b;
    forall i, j | 0 <= i < j < |q| ensures leq(q[i], q[j]) && q[i] != q[j] {
      if i < |a| && j >= |a| { assert a[i] in a && b[j - |a|] in b; }
    }
  }

  lemma FrontBeforeBack(front: Queue, back: Queue, leq: (string, string) -> bool)
    requires Ascending(front + back, leq)
    ensures forall x, y :: x in front && y in back ==> leq(x, y) && x != y
  {
    var q := front + back;
    forall x, y | x in front && y in back ensures leq(x, y) && x != y {
      var i :| 0 <= i < |front| && front[i] == x;
      var j :| 0 <= j < |back| && back[j] == y;
      assert q[i] == x && q[|front| + j] == y;
    }
  }
}
