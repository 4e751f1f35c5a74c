/** Dose periods derived from dated dose rows, and their one-way sync into the record store. */
module Dose {
  import opened Basics

  type Date = int
  datatype Status = Active | Completed
  datatype Period = Period(start: Date, end: Option<Date>, amount: int, status: Status)

  /** The date falls in the period: from its start up to, not including, its end. */
  predicate Covers(p: Period, d: Date) { p.start <= d && (p.end.Some? ==> d < p.end.value) }

  predicate Increasing(ds: seq<Date>) { forall i, j :: 0 <= i < j < |ds| ==> ds[i] < ds[j] }

  /** Period i is closed where the next one starts, and the next one has another amount. */
  predicate Links(ps: seq<Period>, i: nat)
    requires i + 1 < |ps|
  {
    ps[i].end == Some(ps[i + 1].start) && ps[i].status == Completed && ps[i].amount != ps[i + 1].amount
  }

  /** Starts strictly increase, neighbours link up, and only the last period is open. */
  predicate Chained(ps: seq<Period>) {
    && (forall i, j :: 0 <= i < j < |ps| ==> ps[i].start < ps[j].start)
    && (forall i {:trigger Links(ps, i)} :: 0 <= i < |ps| - 1 ==> Links(ps, i))
    && (ps != [] ==> ps[|ps| - 1].end == None && ps[|ps| - 1].status == Active)
  }

  predicate IsRecorded(ds: seq<Date>, dose: map<Date, int>, p: Period) {
    p.start in ds && p.start in dose && p.amount == dose[p.start]
  }

  /** Every period starts on a recorded date with that date's dose. */
  predicate StartsRecorded(ds: seq<Date>, dose: map<Date, int>, ps: seq<Period>) {
    forall i {:trigger IsRecorded(ds, dose, ps[i])} :: 0 <= i < |ps| ==> IsRecorded(ds, dose, ps[i])
  }

  predicate Finds(dose: map<Date, int>, ps: seq<Period>, d: Date) {
    d in dose && exists i :: 0 <= i < |ps| && Covers(ps[i], d) && ps[i].amount == dose[d]
  }

  /** Every recorded date falls in a period with its dose. */
  predicate LookupWorks(ds: seq<Date>, dose: map<Date, int>, ps: seq<Period>) {
    forall k {:trigger Finds(dose, ps, ds[k])} :: 0 <= k < |ds| ==> Finds(dose, ps, ds[k])
  }

  /** ps is a run-length encoding of the doses on these dates. */
  ghost predicate Encodes(ds: seq<Date>, dose: map<Date, int>, ps: seq<Period>) {
    Chained(ps) && StartsRecorded(ds, dose, ps) && LookupWorks(ds, dose, ps)
  }

  // ---------------------------------------------------------------------------
  // derivation
  // ---------------------------------------------------------------------------

  datatype Row = Row(date: Date, amount: int)

  /** The row that counts for a date is the last one given for it. */
  predicate LastFor(rows: seq<Row>, d: Date, amount: int) {
    exists i :: 0 <= i < |rows| && rows[i] == Row(d, amount) && forall j :: i < j < |rows| ==> rows[j].date != d
  }

  ghost predicate IsDoseMap(rows: seq<Row>, dose: map<Date, int>) {
    && (forall d :: d in dose ==> LastFor(rows, d, dose[d]))
    && (forall i :: 0 <= i < |rows| ==> rows[i].date in dose)
  }

  /** One dose a date: a later row for the same date replaces an earlier one. */
  function DoseOf(rows: seq<Row>): (dose: map<Date, int>)
    ensures IsDoseMap(rows, dose)
  {
    if rows == [] then map[] else
      var front, last := rows[..|rows| - 1], rows[|rows| - 1];
      assert rows == front + [last];
      DoseMapStep(front, DoseOf(front), last);
      DoseOf(front)[last.date := last.amount]
  }

  lemma DoseMapStep(rows: seq<Row>, dose: map<Date, int>, r: Row)
    requires IsDoseMap(rows, dose)
    ensures IsDoseMap(rows + [r], dose[r.date := r.amount])
  {
    var all := rows + [r];
    var dose1 := dose[r.date := r.amount];
    forall d | d in dose1 ensures LastFor(all, d, dose1[d]) {
      if d == r.date {
        assert all[|rows|] == Row(d, r.amount);
      } else {
        var i :| 0 <= i < |rows| && rows[i] == Row(d, dose[d]) && forall j :: i < j < |rows| ==> rows[j].date != d;
        assert all[i] == Row(d, dose[d]);
      }
    }
  }

  function DateLeq(): (Date, Date) -> bool { (a: Date, b: Date) => a <= b }

  function SortedDates(s: set<Date>): (ds: seq<Date>)
    ensures Increasing(ds) && forall d :: d in ds <==> d in s
  {
    var ds := Listing(s, DateLeq());
    assert forall i, j :: 0 <= i < j < |ds| ==> DateLeq()(ds[i], ds[j]) && ds[i] != ds[j];
    ds
  }

  /** What the derivation does with the next date: extend, or close the open period and start one. */
  function Extend(ps: seq<Period>, d: Date, amount: int): seq<Period> {
    if ps != [] && ps[|ps| - 1].amount == amount then ps
    else Closed(ps, d) + [Period(d, None, amount, Active)]
  }

  function Closed(ps: seq<Period>, d: Date): seq<Period> {
    if ps == [] then [] else ps[|ps| - 1 := ps[|ps| - 1].(end := Some(d), status := Completed)]
  }

  lemma ExtendKeepsChain(ps: seq<Period>, d: Date, amount: int)
    requires Chained(ps) && forall i :: 0 <= i < |ps| ==> ps[i].start < d
    ensures Chained(Extend(ps, d, amount))
  {
    var qs := Extend(ps, d, amount);
    if qs != ps {
      forall i | 0 <= i < |qs| - 1 ensures Links(qs, i) {
        if i < |ps| - 1 { assert Links(ps, i); }
      }
    }
  }

  lemma ExtendKeepsRecorded(ds: seq<Date>, dose: map<Date, int>, ps: seq<Period>, d: Date)
    requires StartsRecorded(ds, dose, ps) && d in dose
    ensures StartsRecorded(ds + [d], dose, Extend(ps, d, dose[d]))
  {
    var qs := Extend(ps, d, dose[d]);
    forall i | 0 <= i < |qs| ensures IsRecorded(ds + [d], dose, qs[i]) {
      if i < |ps| { assert IsRecorded(ds, dose, ps[i]); }
    }
  }

  lemma ExtendKeepsLookup(ds: seq<Date>, dose: map<Date, int>, ps: seq<Period>, d: Date)
    requires Chained(ps) && LookupWorks(ds, dose, ps) && d in dose
    requires forall k :: 0 <= k < |ds| ==> ds[k] < d
    requires forall i :: 0 <= i < |ps| ==> ps[i].start < d
    ensures LookupWorks(ds + [d], dose, Extend(ps, d, dose[d]))
  {
    var qs := Extend(ps, d, dose[d]);
    forall k | 0 <= k < |ds + [d]| ensures Finds(dose, qs, (ds + [d])[k]) {
      if k < |ds| {
        assert Finds(dose, ps, ds[k]);
        var i :| 0 <= i < |ps| && Covers(ps[i], ds[k]) && ps[i].amount == dose[ds[k]];
        assert Covers(qs[i], ds[k]) && qs[i].amount == dose[ds[k]];
      } else {
        assert Covers(qs[|qs| - 1], d) && qs[|qs| - 1].amount == dose[d];
      }
    }
  }

  /** Handling one more date keeps the encoding. */
  lemma ExtendKeepsEncoding(ds: seq<Date>, dose: map<Date, int>, ps: seq<Period>, d: Date)
    requires Encodes(ds, dose, ps) && d in dose && forall k :: 0 <= k < |ds| ==> ds[k] < d
    ensures Encodes(ds + [d], dose, Extend(ps, d, dose[d]))
  {
    forall i | 0 <= i < |ps| ensures ps[i].start < d { assert IsRecorded(ds, dose, ps[i]); }
    ExtendKeepsChain(ps, d, dose[d]);
    ExtendKeepsRecorded(ds, dose, ps, d);
    ExtendKeepsLookup(ds, dose, ps, d);
  }

  /** The first loop of derive_dose_periods. */
  method DoseByDate(rows: seq<Row>) returns (dose: map<Date, int>)
    ensures dose == DoseOf(rows)
  {
    dose := map[];
    for k := 0 to |rows|
      invariant dose == DoseOf(rows[..k])
    {
      assert rows[..k + 1][..k] == rows[..k];
      dose := dose[rows[k].date := rows[k].amount];
    }
    assert rows[..|rows|] == rows;
  }

  /** The second loop: walks the dates in order and closes the open period in place when the dose changes. */
  method CollapseDates(ds: seq<Date>, dose: map<Date, int>) returns (ps: seq<Period>)
    requires Increasing(ds) && forall k :: 0 <= k < |ds| ==> ds[k] in dose
    ensures Encodes(ds, dose, ps)
  {
    ps := [];
    for k := 0 to |ds|
      invariant Encodes(ds[..k], dose, ps)
    {
      var d := ds[k];
      var amount := dose[d];
      assert ds[..k + 1] == ds[..k] + [d];
      ExtendKeepsEncoding(ds[..k], dose, ps, d);
      if ps != [] && ps[|ps| - 1].amount == amount && ps[|ps| - 1].end == None { continue; }
      if ps != [] && ps[|ps| - 1].end == None {
        ps := ps[|ps| - 1 := ps[|ps| - 1].(end := Some(d), status := Completed)];
      }
      ps := ps + [Period(d, None, amount, Active)];
    }
    assert ds[..|ds|] == ds;
  }

  /** derive_dose_periods: the periods encode the last dose given for each date. */
  method DeriveDosePeriods(rows: seq<Row>) returns (ps: seq<Period>)
    ensures Encodes(SortedDates(DoseOf(rows).Keys), DoseOf(rows), ps)
  {
    var byDate := DoseByDate(rows);
    var ds := SortedDates(byDate.Keys);
    assert forall k :: 0 <= k < |ds| ==> ds[k] in ds;
    ps := CollapseDates(ds, byDate);
  }

  // ---------------------------------------------------------------------------
  // the encoding is unique
  // ---------------------------------------------------------------------------

  /** A period that ends is over by any later start. */
  lemma EndsBefore(ps: seq<Period>, i: nat, j: nat)
    requires Chained(ps) && i < j < |ps|
    ensures ps[i].end.Some? && ps[i].end.value <= ps[j].start
  {
    assert Links(ps, i);
  }

  /** A date falls in at most one period. */
  lemma CoverUnique(ps: seq<Period>, i: nat, j: nat, d: Date)
    requires Chained(ps) && i < |ps| && j < |ps| && Covers(ps[i], d) && Covers(ps[j], d)
    ensures i == j
  {
    if i < j { EndsBefore(ps, i, j); }
    if j < i { EndsBefore(ps, j, i); }
  }

  /** A dose change in one encoding is at or after the next change in the other. */
  lemma NextChange(ds: seq<Date>, dose: map<Date, int>, ps: seq<Period>, qs: seq<Period>, k: nat)
    requires Encodes(ds, dose, ps) && Encodes(ds, dose, qs)
    requires k + 1 < |ps| && k < |qs| && ps[k].start == qs[k].start
    ensures k + 1 < |qs| && qs[k + 1].start <= ps[k + 1].start
  {
    var s := ps[k + 1].start;
    assert Links(ps, k) && IsRecorded(ds, dose, ps[k]) && IsRecorded(ds, dose, qs[k]) &&
           IsRecorded(ds, dose, ps[k + 1]);
    var n :| 0 <= n < |ds| && ds[n] == s;
    assert Finds(dose, qs, ds[n]);
    var j :| 0 <= j < |qs| && Covers(qs[j], s) && qs[j].amount == dose[s];
    if j < k { EndsBefore(qs, j, k); }
  }

  lemma FirstStart(ds: seq<Date>, dose: map<Date, int>, ps: seq<Period>)
    requires Encodes(ds, dose, ps) && Increasing(ds)
    ensures ps == [] <==> ds == []
    ensures ps != [] ==> ps[0].start == ds[0]
  {
    if ps != [] { assert IsRecorded(ds, dose, ps[0]); }
    if ds != [] {
      assert Finds(dose, ps, ds[0]);
      var i :| 0 <= i < |ps| && Covers(ps[i], ds[0]) && ps[i].amount == dose[ds[0]];
      assert ps[0].start <= ps[i].start;
    }
  }

  lemma {:induction false} StartsAgree(ds: seq<Date>, dose: map<Date, int>, ps: seq<Period>, qs: seq<Period>, k: nat)
    requires Encodes(ds, dose, ps) && Encodes(ds, dose, qs) && Increasing(ds)
    ensures k < |ps| <==> k < |qs|
    ensures k < |ps| ==> ps[k].start == qs[k].start
  {
    if k == 0 {
      FirstStart(ds, dose, ps);
      FirstStart(ds, dose, qs);
    } else {
      StartsAgree(ds, dose, ps, qs, k - 1);
      if k < |ps| { NextChange(ds, dose, ps, qs, k - 1); }
      if k < |qs| { NextChange(ds, dose, qs, ps, k - 1); }
    }
  }

  /** There is only one run-length encoding, so the derivation's contract fixes its result. */
  lemma EncodingIsUnique(ds: seq<Date>, dose: map<Date, int>, ps: seq<Period>, qs: seq<Period>)
    requires Encodes(ds, dose, ps) && Encodes(ds, dose, qs) && Increasing(ds)
    ensures ps == qs
  {
    StartsAgree(ds, dose, ps, qs, |ps|);
    StartsAgree(ds, dose, ps, qs, |qs|);
    forall k | 0 <= k < |ps| ensures ps[k].start == qs[k].start { StartsAgree(ds, dose, ps, qs, k); }
    forall k | 0 <= k < |ps| ensures ps[k] == qs[k] {
      assert IsRecorded(ds, dose, ps[k]) && IsRecorded(ds, dose, qs[k]);
      if k < |ps| - 1 { assert Links(ps, k) && Links(qs, k); }
    }
  }

  /** The last row for a date is one amount, so the dose map is fixed by the rows too. */
  lemma DoseMapIsUnique(rows: seq<Row>, a: map<Date, int>, b: map<Date, int>)
    requires IsDoseMap(rows, a) && IsDoseMap(rows, b)
    ensures a == b
  {
    forall d | d in a ensures d in b && a[d] == b[d] { SameDose(rows, a, b, d); }
    forall d | d in b ensures d in a { SameDose(rows, b, a, d); }
  }

  lemma SameDose(rows: seq<Row>, a: map<Date, int>, b: map<Date, int>, d: Date)
    requires IsDoseMap(rows, a) && IsDoseMap(rows, b) && d in a
    ensures d in b && a[d] == b[d]
  {
    var i :| 0 <= i < |rows| && rows[i] == Row(d, a[d]) && forall j :: i < j < |rows| ==> rows[j].date != d;
    assert rows[i].date in b;
    var k :| 0 <= k < |rows| && rows[k] == Row(d, b[d]) && forall j :: k < j < |rows| ==> rows[j].date != d;
    assert i == k;
  }
}
