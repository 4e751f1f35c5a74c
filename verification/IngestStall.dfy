/** Backlogs of hollow documents in front of ordinary ones: a genuine stall, and a late document. */
module IngestStall {
  import opened Basics
  import opened Text
  import opened IngestChunks
  import opened IngestProtocol
  import opened IngestRuns
  import opened IngestProgress
  import opened CappedCursor
  import opened IngestCatchUp

  function Run(c: char, n: nat): string { seq(n, _ => c) }

  lemma {:induction false} BlanksAreStripped(n: nat, rest: string)
    ensures LStripBy(Run(' ', n) + rest, JsSpace) == LStripBy(rest, JsSpace)
  {
    if n == 0 {
      assert Run(' ', 0) + rest == rest;
    } else {
      var s := Run(' ', n) + rest;
      assert s[0] == ' ' && s[1..] == Run(' ', n - 1) + rest;
      BlanksAreStripped(n - 1, rest);
    }
  }

  const WORD: string := Run('x', MIN_TEXT_LEN)

  function PlainDoc(t: int): Doc { Doc(WORD, "", t) }
  function HollowDoc(t: int): Doc { Doc(Run(' ', QD_MAX_DOC_CHARS) + WORD, "", t) }

  lemma PlainIsEligible(t: int)
    ensures Eligible(PlainDoc(t))
  {
    StripFixed(WORD, JsSpace);
  }

  /** Enough text for main, none of it in the part ingestQdrant keeps. */
  lemma HollowIsHollow(t: int)
    ensures Hollow(HollowDoc(t))
  {
    var blanks := Run(' ', QD_MAX_DOC_CHARS);
    BlanksAreStripped(QD_MAX_DOC_CHARS, WORD);
    StripFixed(WORD, JsSpace);
    BlanksAreStripped(QD_MAX_DOC_CHARS, []);
    assert blanks + [] == blanks;
    assert (blanks + WORD)[..QD_MAX_DOC_CHARS] == blanks;
  }

  function BacklogDoc(h: nat, i: nat): Doc { if i < h then HollowDoc(i + 1) else PlainDoc(i + 1) }

  lemma BacklogDocIs(h: nat, i: nat)
    ensures Considered(BacklogDoc(h, i)) && (Eligible(BacklogDoc(h, i)) <==> h <= i)
  {
    HollowIsHollow(i + 1);
    PlainIsEligible(i + 1);
  }

  /** h hollow documents, then e ordinary ones, none of them indexed yet. */
  function Backlog(h: nat, e: nat): Docs { map i: nat | i < h + e :: BacklogDoc(h, i) }

  function Start(h: nat, e: nat): State { State(Backlog(h, e), map[], h + e) }

  lemma StartKeepsInvariant(h: nat, e: nat)
    ensures Invariant(Start(h, e)) && Watermark(Start(h, e).index) == EPOCH
  {}

  ghost function Times(from: nat, n: nat): (times: seq<int>)
    ensures |times| == n && forall i :: 0 <= i < n ==> times[i] == from + i + 1
  {
    seq(n, i => from + i + 1)
  }

  lemma InTimes(from: nat, n: nat, t: int)
    ensures t in Times(from, n) <==> from < t <= from + n
  {
    if from < t <= from + n { assert Times(from, n)[t - from - 1] == t; }
  }

  lemma BacklogHas(h: nat, e: nat, t: int, test: Doc -> bool, from: nat)
    requires from <= h + e && forall i: nat :: test(BacklogDoc(h, i)) <==> from <= i
    ensures HasDoc(Backlog(h, e), t, test) <==> from < t <= h + e
  {
    if from < t <= h + e {
      var id: nat := t - 1;
      assert Backlog(h, e)[id] == BacklogDoc(h, id) && BacklogDoc(h, id).modified == t;
    }
  }

  lemma BacklogAbove(h: nat, e: nat, test: Doc -> bool, from: nat)
    requires from <= h + e && forall i: nat :: test(BacklogDoc(h, i)) <==> from <= i
    ensures Above(Backlog(h, e), EPOCH, test) == Times(from, h + e - from)
  {
    forall t ensures t in Times(from, h + e - from) <==> t > EPOCH && HasDoc(Backlog(h, e), t, test) {
      InTimes(from, h + e - from, t);
      BacklogHas(h, e, t, test, from);
    }
    AboveUnique(Backlog(h, e), EPOCH, test, Times(from, h + e - from));
  }

  lemma BacklogQueue(h: nat, e: nat)
    ensures Queue(Backlog(h, e), EPOCH) == Times(0, h + e)
    ensures Wanted(Backlog(h, e), EPOCH) == Times(h, e)
  {
    forall i: nat ensures Considered(BacklogDoc(h, i)) && (Eligible(BacklogDoc(h, i)) <==> h <= i) {
      BacklogDocIs(h, i);
    }
    BacklogAbove(h, e, Considered, 0);
    BacklogAbove(h, e, Eligible, h);
  }

  lemma BacklogHollows(h: nat, e: nat, flags: seq<bool>)
    requires flags == Hollows(Backlog(h, e), Times(0, h + e))
    ensures |flags| == h + e && forall i :: 0 <= i < h + e ==> flags[i] == (i < h)
  {
    forall i: nat ensures Eligible(BacklogDoc(h, i)) <==> h <= i { BacklogDocIs(h, i); }
    forall i | 0 <= i < h + e ensures flags[i] == (i < h) { BacklogHas(h, e, i + 1, Eligible, h); }
  }

  /** Twenty hollow documents in front of an ordinary one: nothing is ever taken, although one is wanted. */
  lemma GenuineStall()
    ensures var s := Start(20, 1);
            && Invariant(s) && Taken(s) == [] && Wanted(s.docs, Watermark(s.index)) == [21]
            && Eligible(s.docs[20]) && !EverIndexed(s, 20)
  {
    var s := Start(20, 1);
    StartKeepsInvariant(20, 1);
    BacklogQueue(20, 1);
    assert Times(20, 1) == [21];
    PlainIsEligible(21);
    var flags := Hollows(s.docs, Times(0, 21));
    BacklogHollows(20, 1, flags);
    assert HollowBlock(flags, 0, MAX_DOCS_PER_RUN);
    assert Times(0, 21)[20] == 21;
    EverIndexedIff(s, 20, 20);
    var done := TakenEnds(s, s.docs, EPOCH, Times(0, 21), flags, 0, Advance(flags, 0, MAX_DOCS_PER_RUN));
  }

  /** One hollow document in front of twenty ordinary ones: one run does not index all twenty. */
  lemma OneHollowDelays()
    ensures var s := Start(1, 20);
            && Invariant(s) && CeilDiv(|Wanted(s.docs, Watermark(s.index))|, MAX_DOCS_PER_RUN) == 1
            && Eligible(s.docs[20]) && !Exact(FullRuns(s, 1).index, 20, s.docs[20])
  {
    var s := Start(1, 20);
    StartKeepsInvariant(1, 20);
    BacklogQueue(1, 20);
    PlainIsEligible(21);
    var flags := Hollows(s.docs, Times(0, 21));
    BacklogHollows(1, 20, flags);
    assert Cursor(flags, MAX_DOCS_PER_RUN, 1) == Advance(flags, Cursor(flags, MAX_DOCS_PER_RUN, 0), MAX_DOCS_PER_RUN);
    assert Times(0, 21)[20] == 21;
    IndexedAfterIff(s, 1, 20, 20);
  }
}
