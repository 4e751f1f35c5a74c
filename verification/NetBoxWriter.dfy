/** The auto-write job as it runs: collect, gate, sort, and write to NetBox record by record. */
module NetBoxWriter {
  import opened Basics
  import opened NetBoxSync
  import opened NetBoxFixpoint

  /** The sort key (category, key); "lb-ip-missing-in-netbox" sorts before "netbox-dns-name-stale". */
  predicate KeyLeq(a: Drift, b: Drift) {
    if a.category == b.category then LexLeq(a.key, b.key) else a.category == LbIpMissing
  }

  predicate Sorted(ds: seq<Drift>) {
    forall i, j :: 0 <= i < j < |ds| ==> KeyLeq(ds[i], ds[j])
  }

  lemma KeyOrder(a: Drift, b: Drift, c: Drift)
    ensures KeyLeq(a, b) || KeyLeq(b, a)
    ensures KeyLeq(a, b) && KeyLeq(b, c) ==> KeyLeq(a, c)
  {
    LexTotal(a.key, b.key);
    LexTransitive(a.key, b.key, c.key);
  }

  function InsertByKey(d: Drift, ds: seq<Drift>): (r: seq<Drift>)
    ensures multiset(r) == multiset([d]) + multiset(ds)
  {
    if ds == [] || KeyLeq(d, ds[0]) then [d] + ds else
      assert ds == [ds[0]] + ds[1..];
      [ds[0]] + InsertByKey(d, ds[1..])
  }

  lemma {:induction false} InsertKeepsSorted(d: Drift, ds: seq<Drift>)
    requires Sorted(ds)
    ensures Sorted(InsertByKey(d, ds))
  {
    if ds != [] {
      KeyOrder(d, ds[0], ds[0]);
      if KeyLeq(d, ds[0]) {
        forall k | 0 <= k < |ds| ensures KeyLeq(d, ds[k]) { KeyOrder(d, ds[0], ds[k]); }
      } else {
        InsertKeepsSorted(d, ds[1..]);
        var rest := InsertByKey(d, ds[1..]);
        forall k | 0 <= k < |rest| ensures KeyLeq(ds[0], rest[k]) {
          assert rest[k] in multiset(rest);
          assert rest[k] == d || rest[k] in ds[1..];
        }
      }
    }
  }

  /** Python's stable sort by key. */
  function SortByKey(ds: seq<Drift>): (r: seq<Drift>)
    ensures multiset(r) == multiset(ds)
  {
    if ds == [] then [] else
      assert ds == [ds[0]] + ds[1..];
      InsertByKey(ds[0], SortByKey(ds[1..]))
  }

  lemma {:induction false} SortByKeySorts(ds: seq<Drift>)
    ensures Sorted(SortByKey(ds))
  {
    if ds != [] {
      SortByKeySorts(ds[1..]);
      InsertKeepsSorted(ds[0], SortByKey(ds[1..]));
    }
  }

  lemma SortKeepsMembers(ds: seq<Drift>)
    ensures forall d :: d in SortByKey(ds) <==> d in ds
  {
    forall d ensures d in SortByKey(ds) <==> d in ds {
      assert d in SortByKey(ds) <==> d in multiset(SortByKey(ds));
      assert d in ds <==> d in multiset(ds);
    }
  }

  ghost predicate ZonesDone(zones: seq<seq<ZoneRecord>>, ips: Records, j: nat, drifts: seq<Drift>) {
    j <= |zones| && AllDnsDrifts(zones, ips) == drifts + AllDnsDrifts(zones[j..], ips)
  }

  lemma ZonesStart(zones: seq<seq<ZoneRecord>>, ips: Records)
    ensures ZonesDone(zones, ips, 0, [])
  {
    assert zones[0..] == zones;
  }

  lemma ZonesStep(zones: seq<seq<ZoneRecord>>, ips: Records, j: nat, drifts: seq<Drift>)
    requires j < |zones| && ZonesDone(zones, ips, j, drifts)
    ensures ZonesDone(zones, ips, j + 1, drifts + DnsDrifts(zones[j], ips))
  {
    var rest := zones[j..];
    assert rest[0] == zones[j] && rest[1..] == zones[j + 1..];
    ConcatAssoc(drifts, DnsDrifts(zones[j], ips), AllDnsDrifts(zones[j + 1..], ips));
  }

  lemma ZonesEnd(zones: seq<seq<ZoneRecord>>, ips: Records, drifts: seq<Drift>)
    requires ZonesDone(zones, ips, |zones|, drifts)
    ensures drifts == AllDnsDrifts(zones, ips)
  {
    assert zones[|zones|..] == [];
  }

  /** Every zone through compare_dns_names, then the LoadBalancer addresses through compare_lb_ips. */
  method ComputeSafeDrifts(reality: Reality, ips: Records) returns (drifts: seq<Drift>)
    ensures drifts == SafeDrifts(reality, ips)
  {
    drifts := [];
    var zones := reality.zones;
    ZonesStart(zones, ips);
    for j := 0 to |zones|
      invariant ZonesDone(zones, ips, j, drifts)
    {
      ZonesStep(zones, ips, j, drifts);
      var found, _ := CompareDnsNames(zones[j], ips);
      drifts := drifts + found;
    }
    ZonesEnd(zones, ips, drifts);
    var missing, _ := CompareLbIps(reality.lbs, ips);
    drifts := drifts + missing;
  }

  /** The selection in autowrite: not acknowledged, not in a protected range. */
  method Select(drifts: seq<Drift>, gate: Gate) returns (safe: seq<Drift>)
    ensures forall d :: multiset(safe)[d] == if Eligible(d, gate) then multiset(drifts)[d] else 0
  {
    safe := [];
    for j := 0 to |drifts|
      invariant forall d :: multiset(safe)[d] == if Eligible(d, gate) then multiset(drifts[..j])[d] else 0
    {
      assert drifts[..j + 1] == drifts[..j] + [drifts[j]];
      if Eligible(drifts[j], gate) { safe := safe + [drifts[j]]; }
    }
    assert drifts[..|drifts|] == drifts;
  }

  /** Record i is the first one NetBox's filter for the address matches: the very address when it has a mask, else any
      address of its host. */
  ghost predicate FirstMatch(ips: Records, address: string, i: nat) {
    i < |ips| && MatchesAt(ips, address, i) && forall k: nat :: k < i ==> !MatchesAt(ips, address, k)
  }

  ghost predicate MatchesAt(ips: Records, address: string, i: nat)
    requires i < |ips|
  {
    if '/' in address then ips[i].address == address
    else ips[i].address != "" && BareIp(ips[i].address) == BareIp(address)
  }

  /** What an upsert does: without a match a record with the name, or without a name the description, is appended; the
      first match gets the name, or without one the description, and the tag only if that changes it. */
  ghost predicate UpsertedBy(before: Records, after: Records, d: Drift, tag: bool) {
    && ((forall i: nat :: !FirstMatch(before, d.address, i)) ==>
         after == before + [IpRecord(Stored(d.address), d.dnsName, if d.dnsName == "" then d.description else "", tag)])
    && forall i: nat :: FirstMatch(before, d.address, i) ==>
         && |after| == |before| && (forall k :: 0 <= k < |before| && k != i ==> after[k] == before[k])
         && after[i].address == before[i].address
         && after[i].dnsName == (if d.dnsName != "" then d.dnsName else before[i].dnsName)
         && after[i].description == (if d.dnsName != "" then before[i].description else d.description)
         && (after[i].tagged <==> before[i].tagged || (tag && after[i] != before[i]))
  }

  lemma UpsertIs(ips: Records, d: Drift, tag: bool)
    ensures UpsertedBy(ips, Upsert(ips, d, tag), d, tag)
  {
    var at := Find(ips, d.address);
    assert forall i: nat :: i < |ips| ==> (Matches(ips[i], d.address) <==> MatchesAt(ips, d.address, i));
    assert forall i: nat :: FirstMatch(ips, d.address, i) <==> i == at && at < |ips|;
    assert at < |ips| ==> FirstMatch(ips, d.address, at);
  }

  /** The drift is not acknowledged and its host lies in none of the ranges of the recovery path. */
  predicate MayWrite(d: Drift, gate: Gate) {
    gate.fp(d.category, d.key) !in gate.acked &&
    forall p | p in ["192.168.", "10.42.", "10.43.", "10.45."] :: !(p <= BareIp(d.address))
  }

  lemma MayWriteIs(d: Drift, gate: Gate)
    ensures MayWrite(d, gate) <==> Eligible(d, gate)
  {}

  lemma SelectedOnce(safe: seq<Drift>, drifts: seq<Drift>, gate: Gate)
    requires forall d :: multiset(safe)[d] == if Eligible(d, gate) then multiset(drifts)[d] else 0
    ensures forall d :: d in safe <==> d in drifts && Eligible(d, gate)
    ensures forall d :: multiset(safe)[d] == if MayWrite(d, gate) then multiset(drifts)[d] else 0
  {
    forall d ensures d in safe <==> d in drifts && Eligible(d, gate) {
      assert d in safe <==> multiset(safe)[d] > 0;
      assert d in drifts <==> multiset(drifts)[d] > 0;
    }
    forall d { MayWriteIs(d, gate); }
  }

  class NetBox {
    var ips: Records
    /** False once ensure_tag found the owned tag unusable; writes then go untagged. */
    var tagOk: bool

    constructor (records: Records)
      ensures ips == records && tagOk
    {
      ips := records;
      tagOk := true;
    }

    /** upsert_ip with the fields apply_one gives it. */
    method UpsertIp(d: Drift, apply: bool)
      modifies this`ips
      ensures ips == if apply then Upsert(old(ips), d, tagOk) else old(ips)
      ensures apply ==> UpsertedBy(old(ips), ips, d, tagOk)
    {
      UpsertIs(ips, d, tagOk);
      var name := if d.dnsName != "" then Some(d.dnsName) else None;
      var description := if d.dnsName != "" then None else Some(d.description);
      var i := Find(ips, d.address);
      if i == |ips| {
        if apply {
          ips := ips + [IpRecord(Stored(d.address), if name.Some? then name.value else "",
                                 if description.Some? then description.value else "", tagOk)];
        }
        return;
      }
      var r := ips[i];
      var renamed := name.Some? && r.dnsName != name.value;
      var redescribed := description.Some? && r.description != description.value;
      if !renamed && !redescribed {
        assert ips[i := r] == ips;
        return;
      }
      if apply {
        if renamed { r := r.(dnsName := name.value); }
        if redescribed { r := r.(description := description.value); }
        if tagOk { r := r.(tagged := true); }
        ips := ips[i := r];
      }
    }

    /** apply_one */
    method WriteOne(d: Drift, doWrite: bool)
      modifies this`ips
      ensures ips == if doWrite then ApplyOne(old(ips), d, tagOk) else old(ips)
    {
      if d.address == "" { return; }
      if Protected(BareIp(d.address)) { return; }
      UpsertIp(d, doWrite);
    }

    /** The write loop of a run. */
    method WriteAll(order: seq<Drift>, doWrite: bool)
      modifies this`ips
      ensures ips == if doWrite then ApplyAll(old(ips), order, tagOk) else old(ips)
    {
      ghost var start := ips;
      assert order[0..] == order;
      for j := 0 to |order|
        invariant doWrite ==> ApplyAll(ips, order[j..], tagOk) == ApplyAll(start, order, tagOk)
        invariant !doWrite ==> ips == start
      {
        ghost var rest := order[j..];
        assert rest[0] == order[j] && rest[1..] == order[j + 1..];
        WriteOne(order[j], doWrite);
      }
      assert order[|order|..] == [];
    }

    /** One auto-write run; a dry run changes nothing, and no run touches a protected record. */
    method RunPass(reality: Reality, gate: Gate, doWrite: bool, tagUsable: bool) returns (order: seq<Drift>)
      modifies this
      ensures ListsEligible(order, reality, gate, old(ips)) && Sorted(order)
      ensures forall d :: multiset(order)[d] ==
                if MayWrite(d, gate) then multiset(SafeDrifts(reality, old(ips)))[d] else 0
      ensures ips == if doWrite then ApplyAll(old(ips), order, tagUsable) else old(ips)
      ensures ProtectedKept(old(ips), ips)
    {
      var drifts := ComputeSafeDrifts(reality, ips);
      var safe := Select(drifts, gate);
      order := SortByKey(safe);
      SortByKeySorts(safe);
      SortKeepsMembers(safe);
      SelectedOnce(safe, drifts, gate);
      tagOk := tagUsable;
      ProtectedNeverChange(ips, order, tagUsable);
      WriteAll(order, doWrite);
    }
  }
}
