/** A queue worked off by capped runs that remember only the last live item they took: a run looks at the
    next `cap` items and the next run starts after the last live one among them. */
module CappedCursor {
  import opened Basics

  /** One past the last live item of c..hi, or c when all of them are hollow. */
  function AfterLastLive(hollow: seq<bool>, c: nat, hi: nat): (d: nat)
    requires c <= hi <= |hollow|
    ensures c <= d <= hi
    ensures d > c ==> !hollow[d - 1]
    ensures forall j :: d <= j < hi ==> hollow[j]
  {
    if hi == c then c else if !hollow[hi - 1] then hi else AfterLastLive(hollow, c, hi - 1)
  }

  /** Where the next run starts. */
  function Advance(hollow: seq<bool>, c: nat, cap: nat): (d: nat)
    requires c <= |hollow|
    ensures c <= d <= |hollow| && d <= c + cap
  {
    AfterLastLive(hollow, c, Min(c + cap, |hollow|))
  }

  /** Where run n + 1 starts. */
  function Cursor(hollow: seq<bool>, cap: nat, n: nat): (c: nat)
    ensures c <= |hollow|
    decreases n
  {
    if n == 0 then 0 else Advance(hollow, Cursor(hollow, cap, n - 1), cap)
  }

  /** What each step moves as the queue does stands, after n steps, where the cursor does. */
  lemma {:induction false} FollowsCursor<S>(step: S -> S, at: (S, nat) -> bool, s: S, hollow: seq<bool>, cap: nat,
                                            n: nat)
    requires at(s, 0)
    requires forall x, c: nat {:trigger at(step(x), Advance(hollow, c, cap))} ::
               at(x, c) && c <= |hollow| ==> at(step(x), Advance(hollow, c, cap))
    ensures at(Iterate(step, s, n), Cursor(hollow, cap, n))
    decreases n
  {
    if n > 0 {
      FollowsCursor(step, at, s, hollow, cap, n - 1);
      var x, c := Iterate(step, s, n - 1), Cursor(hollow, cap, n - 1);
      assert at(step(x), Advance(hollow, c, cap));
    }
  }

  /** The `cap` items from p on are all hollow. */
  ghost predicate HollowBlock(hollow: seq<bool>, p: nat, cap: nat) {
    p + cap <= |hollow| && forall j :: p <= j < p + cap ==> hollow[j]
  }

  /** Somewhere before item k, `cap` items in a row are hollow. */
  ghost predicate Blocked(hollow: seq<bool>, cap: nat, k: nat) {
    exists p: nat :: HollowBlock(hollow, p, cap) && p + cap <= k
  }

  lemma AdvanceStopsAtBlock(hollow: seq<bool>, cap: nat, p: nat, c: nat)
    requires c <= p && HollowBlock(hollow, p, cap)
    ensures Advance(hollow, c, cap) <= p
  {
    var d := Advance(hollow, c, cap);
    assert d > c ==> !hollow[d - 1];
  }

  /** No run gets past a block of `cap` hollow items. */
  lemma {:induction false} StopsAtBlock(hollow: seq<bool>, cap: nat, p: nat, n: nat)
    requires HollowBlock(hollow, p, cap)
    ensures Cursor(hollow, cap, n) <= p
    decreases n
  {
    if n > 0 {
      StopsAtBlock(hollow, cap, p, n - 1);
      AdvanceStopsAtBlock(hollow, cap, p, Cursor(hollow, cap, n - 1));
    }
  }

  /** A run that does not move although a live item is ahead faces such a block. */
  lemma StuckMeansBlocked(hollow: seq<bool>, cap: nat, c: nat, k: nat)
    requires c <= k < |hollow| && !hollow[k] && Advance(hollow, c, cap) == c
    ensures Blocked(hollow, cap, k)
  {
    assert HollowBlock(hollow, c, cap);
  }

  /** Without such a block every run moves on until it has passed item k. */
  lemma {:induction false} MovesOn(hollow: seq<bool>, cap: nat, k: nat, n: nat)
    requires k < |hollow| && !hollow[k] && !Blocked(hollow, cap, k)
    ensures Cursor(hollow, cap, n) >= Min(n, k + 1)
    decreases n
  {
    if n > 0 {
      MovesOn(hollow, cap, k, n - 1);
      var c := Cursor(hollow, cap, n - 1);
      if c <= k && Advance(hollow, c, cap) == c {
        StuckMeansBlocked(hollow, cap, c, k);
        assert false;
      }
    }
  }

  ghost predicate Passed(hollow: seq<bool>, cap: nat, k: nat) { exists n: nat :: Cursor(hollow, cap, n) > k }

  /** A live item is ever taken exactly when no `cap` hollow items in a row precede it, and then within as
      many runs as it has items before it, plus one. */
  lemma PassedIff(hollow: seq<bool>, cap: nat, k: nat)
    requires k < |hollow| && !hollow[k]
    ensures Passed(hollow, cap, k) <==> !Blocked(hollow, cap, k)
    ensures Passed(hollow, cap, k) <==> Cursor(hollow, cap, k + 1) > k
  {
    if Blocked(hollow, cap, k) {
      var p: nat :| HollowBlock(hollow, p, cap) && p + cap <= k;
      forall n: nat ensures Cursor(hollow, cap, n) <= k { StopsAtBlock(hollow, cap, p, n); }
    } else {
      MovesOn(hollow, cap, k, k + 1);
    }
  }

  /** With live items only, every run takes `cap` of them. */
  lemma AllLiveAdvance(hollow: seq<bool>, c: nat, cap: nat)
    requires c <= |hollow| && forall j :: 0 <= j < |hollow| ==> !hollow[j]
    ensures Advance(hollow, c, cap) == Min(c + cap, |hollow|)
  {}
}
