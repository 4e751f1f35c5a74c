/** The one-way sync of the derived dose periods into the treatment records, keyed by start date. */
module DoseSync {
  import opened Basics
  import opened Dose

  /** A treatment record, found by its start date. */
  datatype Treatment = Treatment(end: Option<Date>, amount: int, status: Status)
  type Treatments = map<Date, Treatment>

  function Body(p: Period): Treatment { Treatment(p.end, p.amount, p.status) }

  ghost predicate IsStart(ps: seq<Period>, d: Date) { exists i :: 0 <= i < |ps| && ps[i].start == d }

  /** The period is on record with this end and status, so sync_dose leaves the record alone. */
  predicate LooksDone(existing: Treatments, p: Period) {
    p.start in existing && existing[p.start].end == p.end && existing[p.start].status == p.status
  }

  /** Every period is on record as derived. */
  ghost predicate Holds(store: Treatments, ps: seq<Period>) {
    forall i :: 0 <= i < |ps| ==> ps[i].start in store && store[ps[i].start] == Body(ps[i])
  }

  /** The records are the periods and nothing else. */
  ghost predicate Mirrors(store: Treatments, ps: seq<Period>) {
    Holds(store, ps) && forall d :: d in store ==> IsStart(ps, d)
  }

  /** What the records hold after a sync of ps into store. */
  ghost predicate Synced(store: Treatments, ps: seq<Period>, out: Treatments) {
    && (forall i :: 0 <= i < |ps| ==>
          && ps[i].start in out
          && out[ps[i].start] == if LooksDone(store, ps[i]) then store[ps[i].start] else Body(ps[i]))
    && (forall d :: d in out <==> d in store || IsStart(ps, d))
    && (forall d :: d in store && !IsStart(ps, d) ==> out[d] == store[d])
  }

  lemma SyncStep(store: Treatments, ps: seq<Period>, k: nat, out: Treatments)
    requires Chained(ps) && k < |ps| && Synced(store, ps[..k], out)
    ensures Synced(store, ps[..k + 1], if LooksDone(store, ps[k]) then out else out[ps[k].start := Body(ps[k])])
  {
    var p, before, after := ps[k], ps[..k], ps[..k + 1];
    var next := if LooksDone(store, p) then out else out[p.start := Body(p)];
    assert !IsStart(before, p.start);
    forall d ensures IsStart(after, d) <==> IsStart(before, d) || d == p.start {
      if i :| 0 <= i < |before| && before[i].start == d { assert after[i].start == d; }
      assert after[k].start == p.start;
    }
    forall i | 0 <= i < |after|
      ensures after[i].start in next
      ensures next[after[i].start] == if LooksDone(store, after[i]) then store[after[i].start] else Body(after[i])
    {
      if i < k { assert before[i] == after[i]; }
    }
  }

  /** sync_dose: new starts are posted, known ones are put only when their end or status changed. */
  method SyncDose(store: Treatments, ps: seq<Period>) returns (out: Treatments)
    requires Chained(ps)
    ensures Synced(store, ps, out)
  {
    out := store;
    for k := 0 to |ps|
      invariant Synced(store, ps[..k], out)
    {
      SyncStep(store, ps, k, out);
      var p := ps[k];
      if p.start !in store {
        out := out[p.start := Body(p)];
      } else if store[p.start].end == p.end && store[p.start].status == p.status {
        continue;
      } else {
        out := out[p.start := Body(p)];
      }
    }
    assert ps[..|ps|] == ps;
  }

  /** After a sync the records hold every period exactly when no untouched record has an outdated amount. */
  lemma SyncHoldsIff(store: Treatments, ps: seq<Period>, out: Treatments)
    requires Chained(ps) && Synced(store, ps, out)
    ensures Holds(out, ps) <==> forall i :: 0 <= i < |ps| && LooksDone(store, ps[i]) ==>
            store[ps[i].start].amount == ps[i].amount
  {
    forall i | 0 <= i < |ps|
      ensures out[ps[i].start] == Body(ps[i]) <==>
              (LooksDone(store, ps[i]) ==> store[ps[i].start].amount == ps[i].amount)
    {
      assert ps[i].start in out;
    }
  }

  // ---------------------------------------------------------------------------
  // a corrected amount
  // ---------------------------------------------------------------------------

  /** The records before and after each of a series of syncs. */
  ghost predicate SyncedInTurn(stores: seq<Treatments>, lists: seq<seq<Period>>) {
    |stores| == |lists| + 1 && forall i :: 0 <= i < |lists| ==> Synced(stores[i], lists[i], stores[i + 1])
  }

  /** No period of the list that starts on d has another end or status than this record. */
  ghost predicate SameSpan(ps: seq<Period>, d: Date, t: Treatment) {
    forall j :: 0 <= j < |ps| && ps[j].start == d ==> ps[j].end == t.end && ps[j].status == t.status
  }

  /** However many syncs follow and whatever amounts they bring, a record keeps its amount as long as the end
      and the status derived for it stay the same ... */
  lemma {:induction false} AmountStaysUntilSpanChanges(stores: seq<Treatments>, lists: seq<seq<Period>>, d: Date,
                                                       n: nat)
    requires SyncedInTurn(stores, lists) && n <= |lists| && d in stores[0]
    requires forall i :: 0 <= i < n ==> SameSpan(lists[i], d, stores[0][d])
    ensures d in stores[n] && stores[n][d] == stores[0][d]
  {
    if n > 0 {
      AmountStaysUntilSpanChanges(stores, lists, d, n - 1);
      assert Synced(stores[n - 1], lists[n - 1], stores[n - 1 + 1]) && SameSpan(lists[n - 1], d, stores[0][d]);
      if IsStart(lists[n - 1], d) {
        var j :| 0 <= j < |lists[n - 1]| && lists[n - 1][j].start == d;
        assert LooksDone(stores[n - 1], lists[n - 1][j]);
      }
    }
  }

  /** ... and takes on the derived amount at the first sync where one of them differs. */
  lemma AmountFollowsSpan(stores: seq<Treatments>, lists: seq<seq<Period>>, d: Date, n: nat, j: nat)
    requires SyncedInTurn(stores, lists) && n < |lists| && d in stores[0]
    requires forall i :: 0 <= i < n ==> SameSpan(lists[i], d, stores[0][d])
    requires j < |lists[n]| && lists[n][j].start == d
    requires lists[n][j].end != stores[0][d].end || lists[n][j].status != stores[0][d].status
    ensures d in stores[n + 1] && stores[n + 1][d] == Body(lists[n][j])
  {
    AmountStaysUntilSpanChanges(stores, lists, d, n);
  }

  function OnlyPeriod(d: Date, amount: int): seq<Period> { [Period(d, None, amount, Active)] }

  lemma OnlyPeriodEncodes(d: Date, amount: int)
    ensures DoseOf([Row(d, amount)]) == map[d := amount]
    ensures Encodes([d], DoseOf([Row(d, amount)]), OnlyPeriod(d, amount))
  {
    var rows := [Row(d, amount)];
    assert rows[..0] == [];
    var ps := OnlyPeriod(d, amount);
    assert Covers(ps[0], d);
  }

  /** A sheet of one row is synced, its amount is corrected, and it is synced again any number of times: the
      record still has the old amount, although the sheet's only period has the new one. */
  lemma CorrectionIsMissed(d: Date, was: int, now: int, stores: seq<Treatments>, lists: seq<seq<Period>>)
    requires was != now && |lists| >= 2 && SyncedInTurn(stores, lists) && stores[0] == map[]
    requires lists[0] == OnlyPeriod(d, was) && forall i :: 1 <= i < |lists| ==> lists[i] == OnlyPeriod(d, now)
    ensures Encodes([d], DoseOf([Row(d, was)]), OnlyPeriod(d, was)) &&
            Encodes([d], DoseOf([Row(d, now)]), OnlyPeriod(d, now))
    ensures Mirrors(stores[1], OnlyPeriod(d, was))
    ensures d in stores[|lists|] && stores[|lists|][d].amount == was && !Holds(stores[|lists|], OnlyPeriod(d, now))
  {
    OnlyPeriodEncodes(d, was);
    OnlyPeriodEncodes(d, now);
    var first := OnlyPeriod(d, was)[0];
    assert Synced(stores[0], lists[0], stores[0 + 1]) && lists[0][0] == first;
    assert stores[1][d] == Body(first);
    var later, after := lists[1..], stores[1..];
    forall i | 0 <= i < |later| ensures Synced(after[i], later[i], after[i + 1]) && SameSpan(later[i], d, after[0][d]) {
      assert Synced(stores[i + 1], lists[i + 1], stores[i + 1 + 1]);
    }
    AmountStaysUntilSpanChanges(after, later, d, |later|);
    assert OnlyPeriod(d, now)[0].start == d;
  }

  // ---------------------------------------------------------------------------
  // a sheet that grows at its end
  // ---------------------------------------------------------------------------

  /** A recorded date starts a period exactly when it is the first, or its dose differs from the date before. */
  lemma StartIff(ds: seq<Date>, dose: map<Date, int>, ps: seq<Period>, k: nat)
    requires Encodes(ds, dose, ps) && Increasing(ds) && k < |ds|
    ensures ds[k] in dose && (k > 0 ==> ds[k - 1] in dose)
    ensures IsStart(ps, ds[k]) <==> k == 0 || dose[ds[k - 1]] != dose[ds[k]]
  {
    assert Finds(dose, ps, ds[k]);
    var i :| 0 <= i < |ps| && Covers(ps[i], ds[k]) && ps[i].amount == dose[ds[k]];
    FirstStart(ds, dose, ps);
    if k == 0 {
      assert ps[0].start == ds[0];
    } else {
      assert Finds(dose, ps, ds[k - 1]);
      var j :| 0 <= j < |ps| && Covers(ps[j], ds[k - 1]) && ps[j].amount == dose[ds[k - 1]];
      PreviousCover(ds, dose, ps, k, i, j);
      if n :| 0 <= n < |ps| && ps[n].start == ds[k] {
        assert Covers(ps[n], ds[k]) by { if n + 1 < |ps| { assert Links(ps, n); } }
        CoverUnique(ps, n, i, ds[k]);
      }
    }
  }

  /** The date before falls in the same period, or in the one before if its successor is a start. */
  lemma PreviousCover(ds: seq<Date>, dose: map<Date, int>, ps: seq<Period>, k: nat, i: nat, j: nat)
    requires Encodes(ds, dose, ps) && Increasing(ds) && 0 < k < |ds|
    requires i < |ps| && j < |ps| && Covers(ps[i], ds[k]) && Covers(ps[j], ds[k - 1])
    ensures ps[i].start < ds[k] ==> j == i
    ensures ps[i].start == ds[k] ==> j == i - 1 && ps[j].amount != ps[i].amount
  {
    assert IsRecorded(ds, dose, ps[i]);
    var m :| 0 <= m < |ds| && ds[m] == ps[i].start;
    if ps[i].start < ds[k] {
      assert m <= k - 1;
      assert Covers(ps[i], ds[k - 1]);
      CoverUnique(ps, i, j, ds[k - 1]);
    } else {
      FirstStart(ds, dose, ps);
      assert i > 0;
      assert Links(ps, i - 1) && IsRecorded(ds, dose, ps[i - 1]);
      var n :| 0 <= n < |ds| && ds[n] == ps[i - 1].start;
      assert n < k;
      assert Covers(ps[i - 1], ds[k - 1]);
      CoverUnique(ps, i - 1, j, ds[k - 1]);
    }
  }

  /** Later rows only add starts. */
  lemma StartsRemain(ds: seq<Date>, more: seq<Date>, dose: map<Date, int>, wider: map<Date, int>, ps: seq<Period>,
                     qs: seq<Period>, d: Date)
    requires Increasing(ds + more) && Encodes(ds, dose, ps) && Encodes(ds + more, wider, qs)
    requires forall e :: e in ds ==> e in dose && e in wider && dose[e] == wider[e]
    requires IsStart(ps, d)
    ensures IsStart(qs, d) && d in ds
  {
    var i :| 0 <= i < |ps| && ps[i].start == d;
    assert IsRecorded(ds, dose, ps[i]);
    var k :| 0 <= k < |ds| && ds[k] == d;
    var all := ds + more;
    assert forall m :: 0 <= m < |ds| ==> all[m] == ds[m];
    assert Increasing(ds);
    StartIff(ds, dose, ps, k);
    StartIff(all, wider, qs, k);
    assert k > 0 ==> ds[k - 1] in ds;
  }

  /** Records that mirror the sheet still mirror it after later rows are added and synced. */
  lemma GrowingSheetStaysMirrored(ds: seq<Date>, more: seq<Date>, dose: map<Date, int>, wider: map<Date, int>,
                                  ps: seq<Period>, qs: seq<Period>, store: Treatments, out: Treatments)
    requires Increasing(ds + more) && Encodes(ds, dose, ps) && Encodes(ds + more, wider, qs)
    requires forall e :: e in ds ==> e in dose && e in wider && dose[e] == wider[e]
    requires Mirrors(store, ps) && Synced(store, qs, out)
    ensures Mirrors(out, qs)
  {
    forall i | 0 <= i < |qs| && LooksDone(store, qs[i]) ensures store[qs[i].start].amount == qs[i].amount {
      var d := qs[i].start;
      assert IsStart(ps, d);
      StartsRemain(ds, more, dose, wider, ps, qs, d);
      var n :| 0 <= n < |ps| && ps[n].start == d;
      assert IsRecorded(ds, dose, ps[n]) && IsRecorded(ds + more, wider, qs[i]);
    }
    SyncHoldsIff(store, qs, out);
    forall d | d in out ensures IsStart(qs, d) {
      if d in store { StartsRemain(ds, more, dose, wider, ps, qs, d); }
    }
  }
}
