/** Small shared vocabulary: optional values, total orders, and the sorted listing of a finite set. */
module Basics {

  datatype Option<+T> = None | Some(value: T)

  function Min(a: int, b: int): int { if a <= b then a else b }
  function Max(a: int, b: int): int { if a <= b then b else a }

  /** Python's s[:n] and s[n:]: slices that may run past the end. */
  function Take<T>(s: seq<T>, n: nat): seq<T> { if n <= |s| then s[..n] else s }
  function Drop<T>(s: seq<T>, n: nat): seq<T> { if n <= |s| then s[n..] else [] }

  ghost predicate TotalOrder<T(!new)>(leq: (T, T) -> bool) {
    && (forall x :: leq(x, x))
    && (forall x, y :: leq(x, y) || leq(y, x))
    && (forall x, y :: leq(x, y) && leq(y, x) ==> x == y)
    && (forall x, y, z :: leq(x, y) && leq(y, z) ==> leq(x, z))
  }

  ghost predicate Least<T(!new)>(s: set<T>, leq: (T, T) -> bool, m: T) {
    m in s && forall x :: x in s ==> leq(m, x)
  }

  lemma {:induction false} LeastExists<T(!new)>(s: set<T>, leq: (T, T) -> bool)
    requires TotalOrder(leq)
    requires s != {}
    ensures exists m :: Least(s, leq, m)
  {
    var x :| x in s;
    var rest := s - {x};
    if rest == {} {
      assert s == {x};
      assert Least(s, leq, x);
    } else {
      LeastExists(rest, leq);
      var m :| Least(rest, leq, m);
      assert s == rest + {x};
      if leq(x, m) {
        assert Least(s, leq, x);
      } else {
        assert Least(s, leq, m);
      }
    }
  }

  ghost predicate Ascending<T(!new)>(r: seq<T>, leq: (T, T) -> bool) {
    forall i, j :: 0 <= i < j < |r| ==> leq(r[i], r[j]) && r[i] != r[j]
  }

  /** Python's `sorted(s)` of a set: every element once, in increasing order. */
  function Listing<T(!new, ==)>(s: set<T>, leq: (T, T) -> bool): (r: seq<T>)
    requires TotalOrder(leq)
    ensures Ascending(r, leq)
    ensures forall x :: x in r <==> x in s
    ensures |r| == |s|
  {
    if s == {} then [] else
      LeastExists(s, leq);
      var m :| m in s && forall x | x in s :: leq(m, x);
      [m] + Listing(s - {m}, leq)
  }

  lemma FirstIsIn<T>(s: seq<T>)
    ensures s != [] ==> s[0] in s
  {}

  // ---------------------------------------------------------------------------
  // what is picked from a list
  // ---------------------------------------------------------------------------

  function Picked<T, U>(xs: seq<T>, pick: T -> Option<U>): seq<U> {
    if xs == [] then []
    else (match pick(xs[0]) case Some(y) => [y] case None => []) + Picked(xs[1..], pick)
  }

  lemma {:induction false} InPicked<T, U>(xs: seq<T>, pick: T -> Option<U>, y: U)
    ensures y in Picked(xs, pick) <==> exists x :: x in xs && pick(x) == Some(y)
  {
    if xs != [] {
      InPicked(xs[1..], pick, y);
      assert xs == [xs[0]] + xs[1..];
    }
  }

  lemma {:induction false} PickedSnoc<T, U>(front: seq<T>, x: T, pick: T -> Option<U>)
    ensures Picked(front + [x], pick) == Picked(front, pick) + Picked([x], pick)
  {
    if front == [] {
      assert front + [x] == [x];
    } else {
      assert (front + [x])[1..] == front[1..] + [x];
      PickedSnoc(front[1..], x, pick);
    }
  }

  /** ys is what is picked from the first j elements. */
  ghost predicate PickedTo<T, U>(xs: seq<T>, pick: T -> Option<U>, j: nat, ys: seq<U>) {
    j <= |xs| && Picked(xs, pick) == ys + Picked(xs[j..], pick)
  }

  lemma PickStart<T, U>(xs: seq<T>, pick: T -> Option<U>)
    ensures PickedTo(xs, pick, 0, [])
  {
    assert xs[0..] == xs;
  }

  lemma PickStep<T, U>(xs: seq<T>, pick: T -> Option<U>, j: nat, ys: seq<U>)
    requires j < |xs| && PickedTo(xs, pick, j, ys)
    ensures PickedTo(xs, pick, j + 1, if pick(xs[j]).Some? then ys + [pick(xs[j]).value] else ys)
  {
    var rest := xs[j..];
    assert rest[0] == xs[j] && rest[1..] == xs[j + 1..];
    if pick(xs[j]).Some? { ConcatAssoc(ys, [pick(xs[j]).value], Picked(xs[j + 1..], pick)); }
  }

  lemma PickEnd<T, U>(xs: seq<T>, pick: T -> Option<U>, ys: seq<U>)
    requires PickedTo(xs, pick, |xs|, ys)
    ensures ys == Picked(xs, pick)
  {
    assert xs[|xs|..] == [];
  }

  /** The places of the elements that are picked, in order. */
  ghost predicate PickedPlaces<T, U>(xs: seq<T>, pick: T -> Option<U>, at: seq<nat>) {
    && (forall j, k :: 0 <= j < k < |at| ==> at[j] < at[k])
    && (forall j :: 0 <= j < |at| ==> at[j] < |xs| && pick(xs[at[j]]).Some?)
    && (forall i :: 0 <= i < |xs| && pick(xs[i]).Some? ==> i in at)
  }

  /** ys is what is picked, each from its place. */
  ghost predicate PickedFrom<T, U>(xs: seq<T>, pick: T -> Option<U>, at: seq<nat>, ys: seq<U>) {
    && PickedPlaces(xs, pick, at) && |ys| == |at|
    && forall j :: 0 <= j < |at| ==> pick(xs[at[j]]) == Some(ys[j])
  }

  /** Each element is picked once, in order. */
  lemma {:induction false} PickedInOrder<T, U>(xs: seq<T>, pick: T -> Option<U>) returns (at: seq<nat>)
    ensures PickedFrom(xs, pick, at, Picked(xs, pick))
    decreases |xs|
  {
    if xs == [] {
      return [];
    }
    var front, x := xs[..|xs| - 1], xs[|xs| - 1];
    assert xs == front + [x];
    var before := PickedInOrder(front, pick);
    PickedSnoc(front, x, pick);
    at := if pick(x).Some? then before + [|front|] else before;
    FromSnoc(front, x, pick, before, Picked(front, pick), xs, at, Picked(xs, pick));
  }

  lemma FromSnoc<T, U>(front: seq<T>, x: T, pick: T -> Option<U>, at: seq<nat>, ys: seq<U>, all: seq<T>,
                       more: seq<nat>, zs: seq<U>)
    requires PickedFrom(front, pick, at, ys) && all == front + [x]
    requires more == if pick(x).Some? then at + [|front|] else at
    requires zs == ys + Picked([x], pick)
    ensures PickedFrom(all, pick, more, zs)
  {
    PlacesSnoc(front, x, pick, at);
    assert Picked([x], pick) == if pick(x).Some? then [pick(x).value] else [];
    forall j | 0 <= j < |more| ensures pick(all[more[j]]) == Some(zs[j]) {
      if j < |at| { assert more[j] == at[j] && all[at[j]] == front[at[j]]; }
    }
  }

  lemma PlacesSnoc<T, U>(front: seq<T>, x: T, pick: T -> Option<U>, at: seq<nat>)
    requires PickedPlaces(front, pick, at)
    ensures PickedPlaces(front + [x], pick, if pick(x).Some? then at + [|front|] else at)
  {
    var all, more := front + [x], if pick(x).Some? then at + [|front|] else at;
    forall i | 0 <= i < |all| && pick(all[i]).Some? ensures i in more {
      if i < |front| { assert all[i] == front[i] && i in at; } else { assert more[|at|] == i; }
    }
    forall j | 0 <= j < |more| ensures more[j] < |all| && pick(all[more[j]]).Some? {
      if j < |at| { assert more[j] == at[j] && all[at[j]] == front[at[j]]; }
    }
  }

  lemma ConcatAssoc<T>(a: seq<T>, b: seq<T>, c: seq<T>)
    ensures (a + b) + c == a + (b + c)
  {}

  /** The ascending listing of a set is unique. */
  lemma {:induction false} ListingUnique<T(!new)>(a: seq<T>, b: seq<T>, leq: (T, T) -> bool)
    requires TotalOrder(leq)
    requires Ascending(a, leq) && Ascending(b, leq)
    requires forall x :: x in a <==> x in b
    ensures a == b
  {
    if a == [] {
      FirstIsIn(b);
    } else {
      assert a[0] in b;
      assert b != [];
      assert b[0] in a;
      var i :| 0 <= i < |b| && b[i] == a[0];
      var j :| 0 <= j < |a| && a[j] == b[0];
      assert a[0] == b[0];
      forall x ensures x in a[1..] <==> x in b[1..] {
        assert x in a <==> x in b;
        assert a == [a[0]] + a[1..] && b == [b[0]] + b[1..];
        if x in a[1..] { assert x != a[0]; }
        if x in b[1..] { assert x != b[0]; }
      }
      ListingUnique(a[1..], b[1..], leq);
    }
  }

  /** Python's ordering of strings (and of any character sequence): code point by code point. */
  predicate LexLeq(a: string, b: string) {
    a == [] || (b != [] && (a[0] < b[0] || (a[0] == b[0] && LexLeq(a[1..], b[1..]))))
  }

  lemma {:induction false} LexTotal(a: string, b: string)
    ensures LexLeq(a, a)
    ensures LexLeq(a, b) || LexLeq(b, a)
    ensures LexLeq(a, b) && LexLeq(b, a) ==> a == b
  {
    if a != [] {
      if b != [] {
        LexTotal(a[1..], b[1..]);
        assert a == [a[0]] + a[1..] && b == [b[0]] + b[1..];
      } else {
        LexTotal(a[1..], []);
      }
    }
  }

  lemma {:induction false} LexTransitive(a: string, b: string, c: string)
    ensures LexLeq(a, b) && LexLeq(b, c) ==> LexLeq(a, c)
  {
    if a != [] && b != [] && c != [] {
      LexTransitive(a[1..], b[1..], c[1..]);
    }
  }

  lemma LexIsTotalOrder()
    ensures TotalOrder(LexLeq)
  {
    forall x, y ensures LexLeq(x, x) && (LexLeq(x, y) || LexLeq(y, x)) && (LexLeq(x, y) && LexLeq(y, x) ==> x == y) {
      LexTotal(x, y);
    }
    forall x, y, z ensures LexLeq(x, y) && LexLeq(y, z) ==> LexLeq(x, z) {
      LexTransitive(x, y, z);
    }
  }

  /** The names in `s`, sorted as `sorted(os.listdir(...))` sorts them. */
  function SortedNames(s: set<string>): (r: seq<string>)
    ensures Ascending(r, LexLeq)
    ensures forall x :: x in r <==> x in s
    ensures |r| == |s|
  {
    LexIsTotalOrder();
    Listing(s, LexLeq)
  }

  /** Division rounded up: how many steps of b cover a. */
  function CeilDiv(a: nat, b: nat): nat
    requires b > 0
  {
    if a == 0 then 0 else if a <= b then 1 else 1 + CeilDiv(a - b, b)
  }

  lemma {:induction false} CeilDivLeast(a: nat, b: nat)
    requires b > 0
    ensures a <= CeilDiv(a, b) * b
    ensures a > 0 ==> (CeilDiv(a, b) - 1) * b < a
  {
    if a > b {
      CeilDivLeast(a - b, b);
      assert CeilDiv(a, b) * b == CeilDiv(a - b, b) * b + b;
      assert (CeilDiv(a, b) - 1) * b == (CeilDiv(a - b, b) - 1) * b + b;
    }
  }

  ghost function Iterate<S>(f: S -> S, s: S, n: nat): S
    decreases n
  {
    if n == 0 then s else f(Iterate(f, s, n - 1))
  }

  lemma {:induction false} IterateFixed<S>(f: S -> S, s: S, n: nat)
    requires f(s) == s
    ensures Iterate(f, s, n) == s
    decreases n
  {
    if n > 0 { IterateFixed(f, s, n - 1); }
  }
}
