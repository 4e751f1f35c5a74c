/** Auto-write passes over NetBox reach a fixpoint after two passes and never touch a protected range. */
module NetBoxFixpoint {
  import opened Basics
  import opened Text
  import opened NetBoxSync

  ghost predicate OneRecordPerHost(ips: Records) {
    forall i, j :: 0 <= i < j < |ips| && ips[i].address != "" && ips[j].address != "" ==>
                     BareIp(ips[i].address) != BareIp(ips[j].address)
  }

  ghost predicate InZones(r: ZoneRecord, zones: seq<seq<ZoneRecord>>) {
    exists z :: z in zones && r in z
  }

  /** What the fixpoint needs of the sources: one canonical name per host, plain LoadBalancer addresses. */
  ghost predicate Consistent(reality: Reality) {
    && (forall r, s :: InZones(r, reality.zones) && InZones(s, reality.zones) && BareIp(r.ip) == BareIp(s.ip) ==>
        r.fqdn == s.fqdn)
    && (forall r :: InZones(r, reality.zones) ==> r.fqdn != "" && Lower(Strip(r.fqdn)) == r.fqdn)
    && (forall lb :: lb in reality.lbs ==> lb.ip != "" && '/' !in lb.ip)
  }

  /** No unacknowledged safe drift is left outside the protected ranges. */
  ghost predicate Settled(reality: Reality, gate: Gate, ips: Records) {
    forall d :: d in SafeDrifts(reality, ips) ==> !Eligible(d, gate)
  }

  /** A LoadBalancer host NetBox does not have yet also has a name in a zone, and neither drift is acknowledged. */
  ghost predicate NewHostIsNamed(reality: Reality, gate: Gate, ips: Records) {
    exists r, lb :: NamesNewHost(r, lb, reality, gate, ips)
  }

  ghost predicate NamesNewHost(r: ZoneRecord, lb: LbIp, reality: Reality, gate: Gate, ips: Records) {
    && InZones(r, reality.zones) && lb in reality.lbs
    && BareIp(r.ip) == BareIp(lb.ip)
    && !Known(ips, BareIp(lb.ip))
    && Eligible(LbDrift(lb), gate)
    && gate.fp(DnsNameStale, "ip=" + r.ip) !in gate.acked
  }

  // ---------------------------------------------------------------------------
  // hosts and addresses
  // ---------------------------------------------------------------------------

  lemma {:induction false} BeforeSlashStops(a: string, rest: string)
    ensures '/' !in a ==> BeforeSlash(a + "/" + rest) == a && BeforeSlash(a) == a
  {
    if a == [] {
      assert (a + "/" + rest)[0] == '/';
    } else {
      assert (a + "/" + rest)[1..] == a[1..] + "/" + rest;
      BeforeSlashStops(a[1..], rest);
      assert a == [a[0]] + a[1..];
    }
  }

  /** Storing an address with a host mask does not change its host. */
  lemma StoredHost(a: string)
    ensures BareIp(Stored(a)) == BareIp(a)
    ensures a != "" ==> Stored(a) != ""
  {
    if '/' !in a {
      BeforeSlashStops(a, "128");
      BeforeSlashStops(a, "32");
      assert a + "/128" == a + "/" + "128" && a + "/32" == a + "/" + "32";
    }
  }

  ghost predicate SameAddresses(a: Records, b: Records) {
    |a| <= |b| && forall i :: 0 <= i < |a| ==> a[i].address == b[i].address
  }

  /** Hosts are found where they were as long as addresses only get appended. */
  lemma ByHostStable(a: Records, b: Records, h: string)
    requires SameAddresses(a, b)
    ensures Known(a, h) ==> ByHost(b, h) == ByHost(a, h)
    ensures |a| == |b| ==> ByHost(b, h) == ByHost(a, h)
  {
    var i, j := ByHost(a, h), ByHost(b, h);
    if j < |a| {
      assert a[j].address == b[j].address;
    }
    if i < |a| {
      assert a[i].address == b[i].address;
    }
  }

  ghost predicate HasAddress(ips: Records, a: string) { exists i :: 0 <= i < |ips| && ips[i].address == a }

  /** The drift's target is a bare host, or the address of a record as NetBox stores it. */
  ghost predicate Targeted(d: Drift, ips: Records) {
    d.address != "" && ('/' in d.address ==> HasAddress(ips, d.address))
  }

  ghost predicate AllTargeted(order: seq<Drift>, ips: Records) {
    forall d :: d in order ==> Targeted(d, ips)
  }

  /** NetBox's address filter and the comparators agree on which record is meant. */
  lemma FindIsByHost(ips: Records, d: Drift)
    requires OneRecordPerHost(ips) && Targeted(d, ips)
    ensures Find(ips, d.address) == ByHost(ips, BareIp(d.address))
  {
    var i, j := Find(ips, d.address), ByHost(ips, BareIp(d.address));
    if '/' in d.address {
      var k :| 0 <= k < |ips| && ips[k].address == d.address;
      assert Matches(ips[k], d.address);
      assert i == k;
      assert j == k;
    } else {
      assert j < |ips| ==> Matches(ips[j], d.address);
    }
  }

  // ---------------------------------------------------------------------------
  // one write
  // ---------------------------------------------------------------------------

  function NameOf(ips: Records, h: string): string
    requires Known(ips, h)
  {
    ips[ByHost(ips, h)].dnsName
  }

  lemma AppendKeepsHosts(ips: Records, p: IpRecord)
    requires OneRecordPerHost(ips) && !Known(ips, BareIp(p.address))
    ensures OneRecordPerHost(ips + [p]) && SameAddresses(ips, ips + [p])
  {}

  lemma SameAddressesKeepHosts(ips: Records, out: Records)
    requires OneRecordPerHost(ips) && SameAddresses(ips, out) && |ips| == |out|
    ensures OneRecordPerHost(out)
  {}

  /** A gated write changes no address, and creates no second record for a host. */
  lemma WriteAt(ips: Records, d: Drift, tag: bool, out: Records)
    requires OneRecordPerHost(ips) && Targeted(d, ips) && out == ApplyOne(ips, d, tag)
    ensures OneRecordPerHost(out) && SameAddresses(ips, out)
  {
    var b := BareIp(d.address);
    FindIsByHost(ips, d);
    if !Protected(b) && !Known(ips, b) {
      StoredHost(d.address);
      AppendKeepsHosts(ips, out[|ips|]);
    } else {
      SameAddressesKeepHosts(ips, out);
    }
  }

  /** What one gated write does, host by host. */
  lemma WriteAtHost(ips: Records, d: Drift, tag: bool, out: Records, h: string)
    requires OneRecordPerHost(ips) && Targeted(d, ips) && out == ApplyOne(ips, d, tag)
    requires SameAddresses(ips, out)
    ensures Known(out, h) <==> Known(ips, h) || (h == BareIp(d.address) && !Protected(h))
    ensures Known(ips, h) ==> ByHost(out, h) == ByHost(ips, h)
    ensures Known(out, h) && h == BareIp(d.address) && !Protected(h) && d.dnsName != "" ==> NameOf(out, h) == d.dnsName
    ensures Known(ips, h) && (h != BareIp(d.address) || Protected(h) || d.dnsName == "") ==>
            NameOf(out, h) == NameOf(ips, h)
    ensures Known(out, h) && !Known(ips, h) ==> NameOf(out, h) == d.dnsName
  {
    var b := BareIp(d.address);
    FindIsByHost(ips, d);
    ByHostStable(ips, out, h);
    if !Protected(b) && !Known(ips, b) {
      StoredHost(d.address);
      ByHostAppend(ips, out[|ips|], h);
    }
  }

  // ---------------------------------------------------------------------------
  // a whole pass
  // ---------------------------------------------------------------------------

  lemma StillTargeted(order: seq<Drift>, ips: Records, out: Records)
    requires AllTargeted(order, ips) && SameAddresses(ips, out)
    ensures AllTargeted(order, out)
  {
    forall d | d in order ensures Targeted(d, out) {
      if '/' in d.address {
        var i :| 0 <= i < |ips| && ips[i].address == d.address;
        assert out[i].address == d.address;
      }
    }
  }

  /** The first write of a pass, and what the rest of the pass may rely on. */
  lemma FirstWrite(ips: Records, order: seq<Drift>, tag: bool) returns (mid: Records)
    requires OneRecordPerHost(ips) && AllTargeted(order, ips) && order != []
    ensures mid == ApplyOne(ips, order[0], tag)
    ensures OneRecordPerHost(mid) && SameAddresses(ips, mid) && AllTargeted(order[1..], mid)
    ensures ApplyAll(ips, order, tag) == ApplyAll(mid, order[1..], tag)
    ensures Targeted(order[0], ips)
  {
    mid := ApplyOne(ips, order[0], tag);
    assert order[0] in order;
    WriteAt(ips, order[0], tag, mid);
    assert forall d :: d in order[1..] ==> d in order;
    StillTargeted(order[1..], ips, mid);
  }

  lemma {:induction false} PassKeepsRecords(ips: Records, order: seq<Drift>, tag: bool)
    requires OneRecordPerHost(ips) && AllTargeted(order, ips)
    ensures OneRecordPerHost(ApplyAll(ips, order, tag)) && SameAddresses(ips, ApplyAll(ips, order, tag))
    decreases |order|
  {
    if order != [] {
      var mid := FirstWrite(ips, order, tag);
      PassKeepsRecords(mid, order[1..], tag);
    }
  }

  ghost predicate Hits(order: seq<Drift>, h: string) {
    !Protected(h) && exists d :: d in order && BareIp(d.address) == h
  }

  lemma HitsSplit(order: seq<Drift>, h: string)
    requires order != []
    ensures Hits(order, h) <==> (!Protected(h) && BareIp(order[0].address) == h) || Hits(order[1..], h)
  {
    assert forall d :: d in order <==> d == order[0] || d in order[1..] by { assert order == [order[0]] + order[1..]; }
  }

  /** A pass makes known exactly the hosts it writes to. */
  lemma {:induction false} PassKnows(ips: Records, order: seq<Drift>, tag: bool, h: string)
    requires OneRecordPerHost(ips) && AllTargeted(order, ips)
    ensures Known(ApplyAll(ips, order, tag), h) <==> Known(ips, h) || Hits(order, h)
    decreases |order|
  {
    if order != [] {
      var mid := FirstWrite(ips, order, tag);
      WriteAtHost(ips, order[0], tag, mid, h);
      HitsSplit(order, h);
      PassKnows(mid, order[1..], tag, h);
    }
  }

  /** The comparator reads this name at this host. */
  predicate Reads(ips: Records, h: string, name: string) { Known(ips, h) && Lower(Strip(NameOf(ips, h))) == name }

  ghost predicate Agrees(order: seq<Drift>, h: string, name: string) {
    forall d :: d in order && BareIp(d.address) == h ==> d.dnsName == "" || d.dnsName == name
  }

  ghost predicate Writes(order: seq<Drift>, h: string, name: string) {
    exists d :: d in order && WritesOne(d, h, name)
  }

  predicate WritesOne(d: Drift, h: string, name: string) {
    !Protected(h) && BareIp(d.address) == h && d.dnsName == name
  }

  lemma WritesSplit(order: seq<Drift>, h: string, name: string)
    requires order != []
    ensures Writes(order, h, name) <==> WritesOne(order[0], h, name) || Writes(order[1..], h, name)
    ensures Agrees(order, h, name) ==> Agrees(order[1..], h, name)
    ensures Agrees(order, h, name) && BareIp(order[0].address) == h ==>
              order[0].dnsName == "" || order[0].dnsName == name
  {
    assert forall d :: d in order <==> d == order[0] || d in order[1..] by { assert order == [order[0]] + order[1..]; }
  }

  /** A pass whose drifts agree on a host's name leaves that name readable there once it has been written or read. */
  lemma {:induction false} PassNames(ips: Records, order: seq<Drift>, tag: bool, h: string, name: string)
    requires OneRecordPerHost(ips) && AllTargeted(order, ips) && Agrees(order, h, name)
    requires name != "" && Lower(Strip(name)) == name
    requires Known(ips, h)
    ensures Reads(ips, h, name) || Writes(order, h, name) ==> Reads(ApplyAll(ips, order, tag), h, name)
    decreases |order|
  {
    if order != [] {
      var mid := FirstWrite(ips, order, tag);
      WriteAtHost(ips, order[0], tag, mid, h);
      WritesSplit(order, h, name);
      assert Reads(ips, h, name) || WritesOne(order[0], h, name) ==> Reads(mid, h, name);
      PassNames(mid, order[1..], tag, h, name);
    }
  }

  /** A host that only receives descriptions stays without a name. */
  lemma {:induction false} PassLeavesUnnamed(ips: Records, order: seq<Drift>, tag: bool, h: string)
    requires OneRecordPerHost(ips) && AllTargeted(order, ips) && Agrees(order, h, "")
    requires Known(ips, h) ==> NameOf(ips, h) == ""
    ensures Known(ApplyAll(ips, order, tag), h) ==> NameOf(ApplyAll(ips, order, tag), h) == ""
    decreases |order|
  {
    if order != [] {
      var mid := FirstWrite(ips, order, tag);
      WriteAtHost(ips, order[0], tag, mid, h);
      assert order == [order[0]] + order[1..];
      PassLeavesUnnamed(mid, order[1..], tag, h);
    }
  }

  // ---------------------------------------------------------------------------
  // what the comparators report
  // ---------------------------------------------------------------------------

  lemma InDnsDrifts(recs: seq<ZoneRecord>, ips: Records, d: Drift)
    ensures d in DnsDrifts(recs, ips) <==> exists r :: r in recs && Stale(r, ips) && d == DnsDrift(r, ips)
  {
    InPicked(recs, NamePick(ips), d);
  }

  lemma InZonesSplit(zones: seq<seq<ZoneRecord>>)
    requires zones != []
    ensures forall r :: InZones(r, zones) <==> r in zones[0] || InZones(r, zones[1..])
  {
    assert forall z :: z in zones <==> z == zones[0] || z in zones[1..] by { assert zones == [zones[0]] + zones[1..]; }
  }

  lemma {:induction false} InAllDnsDrifts(zones: seq<seq<ZoneRecord>>, ips: Records, d: Drift)
    ensures d in AllDnsDrifts(zones, ips) <==> exists r :: InZones(r, zones) && Stale(r, ips) && d == DnsDrift(r, ips)
  {
    if zones != [] {
      InAllDnsDrifts(zones[1..], ips, d);
      InDnsDrifts(zones[0], ips, d);
      InZonesSplit(zones);
    }
  }

  lemma InLbDrifts(lbs: seq<LbIp>, ips: Records, d: Drift)
    ensures d in LbDrifts(lbs, ips) <==> exists lb :: lb in lbs && !Known(ips, BareIp(lb.ip)) && d == LbDrift(lb)
  {
    InPicked(lbs, HostPick(ips), d);
  }

  lemma InSafeDrifts(reality: Reality, ips: Records, d: Drift)
    ensures d in SafeDrifts(reality, ips) <==>
            || (exists r :: InZones(r, reality.zones) && Stale(r, ips) && d == DnsDrift(r, ips))
            || (exists lb :: lb in reality.lbs && !Known(ips, BareIp(lb.ip)) && d == LbDrift(lb))
  {
    InAllDnsDrifts(reality.zones, ips, d);
    InLbDrifts(reality.lbs, ips, d);
  }

  /** Exactly the stale names of known hosts and the unknown LoadBalancer hosts are reported. */
  lemma ReportedIff(reality: Reality, ips: Records, d: Drift)
    ensures d in SafeDrifts(reality, ips) <==>
            || (exists r :: InZones(r, reality.zones) && NameDrift(r, ips, d))
            || (exists lb :: lb in reality.lbs && HostDrift(lb, ips, d))
  {
    InSafeDrifts(reality, ips, d);
    forall r: ZoneRecord ensures NameDrift(r, ips, d) <==> Stale(r, ips) && d == DnsDrift(r, ips) {
      NameDriftIs(r, ips, d);
    }
    forall lb: LbIp ensures HostDrift(lb, ips, d) <==> !Known(ips, BareIp(lb.ip)) && d == LbDrift(lb) {
      HostDriftIs(lb, ips, d);
    }
  }

  lemma DriftHost(r: ZoneRecord, ips: Records)
    requires Known(ips, BareIp(r.ip))
    ensures BareIp(DnsDrift(r, ips).address) == BareIp(r.ip) && DnsDrift(r, ips).address != ""
    ensures HasAddress(ips, DnsDrift(r, ips).address)
  {
    assert ips[ByHost(ips, BareIp(r.ip))].address == DnsDrift(r, ips).address;
  }

  /** The drifts of a pass are targeted, and agree with the zones on every host's name. */
  lemma PassIsOrderly(reality: Reality, gate: Gate, ips: Records, order: seq<Drift>)
    requires Consistent(reality) && ListsEligible(order, reality, gate, ips)
    ensures AllTargeted(order, ips)
    ensures forall r :: InZones(r, reality.zones) ==> Agrees(order, BareIp(r.ip), r.fqdn)
    ensures forall h :: !Known(ips, h) ==> Agrees(order, h, "")
  {
    forall d | d in order
      ensures Targeted(d, ips)
      ensures forall r :: InZones(r, reality.zones) && BareIp(d.address) == BareIp(r.ip) ==>
              d.dnsName == "" || d.dnsName == r.fqdn
      ensures d.dnsName == "" || Known(ips, BareIp(d.address))
    {
      InSafeDrifts(reality, ips, d);
      if s :| InZones(s, reality.zones) && Stale(s, ips) && d == DnsDrift(s, ips) {
        DriftHost(s, ips);
      }
    }
  }

  // ---------------------------------------------------------------------------
  // the fixpoint
  // ---------------------------------------------------------------------------

  /** After a pass every eligible LoadBalancer host is on record. */
  lemma PassRecordsHosts(reality: Reality, gate: Gate, ips: Records, order: seq<Drift>, tag: bool, lb: LbIp)
    requires OneRecordPerHost(ips) && Consistent(reality) && ListsEligible(order, reality, gate, ips)
    requires lb in reality.lbs && Eligible(LbDrift(lb), gate)
    ensures Known(ApplyAll(ips, order, tag), BareIp(lb.ip))
  {
    PassIsOrderly(reality, gate, ips, order);
    PassKnows(ips, order, tag, BareIp(lb.ip));
    if !Known(ips, BareIp(lb.ip)) {
      InSafeDrifts(reality, ips, LbDrift(lb));
      assert LbDrift(lb) in order;
    }
  }

  /** A known host outside the protected ranges reads the zone's name after the pass, unless that drift is
      acknowledged. */
  lemma PassFreshens(reality: Reality, gate: Gate, ips: Records, order: seq<Drift>, tag: bool, r: ZoneRecord,
                     out: Records)
    requires OneRecordPerHost(ips) && Consistent(reality) && ListsEligible(order, reality, gate, ips)
    requires out == ApplyAll(ips, order, tag)
    requires InZones(r, reality.zones) && Known(ips, BareIp(r.ip)) && Eligible(DnsDrift(r, ips), gate)
    ensures Reads(out, BareIp(r.ip), r.fqdn)
  {
    var h := BareIp(r.ip);
    PassIsOrderly(reality, gate, ips, order);
    PassNames(ips, order, tag, h, r.fqdn);
    DriftHost(r, ips);
    InSafeDrifts(reality, ips, DnsDrift(r, ips));
    assert Stale(r, ips) ==> DnsDrift(r, ips) in order && Writes(order, h, r.fqdn);
    assert !Stale(r, ips) ==> Reads(ips, h, r.fqdn);
  }

  /** A stale eligible name after a pass belongs to a host the pass created. */
  lemma StaleMeansNew(reality: Reality, gate: Gate, ips: Records, order: seq<Drift>, tag: bool, r: ZoneRecord,
                      out: Records)
    requires OneRecordPerHost(ips) && Consistent(reality) && ListsEligible(order, reality, gate, ips)
    requires out == ApplyAll(ips, order, tag)
    requires InZones(r, reality.zones) && Stale(r, out) && Eligible(DnsDrift(r, out), gate)
    ensures !Known(ips, BareIp(r.ip)) && Hits(order, BareIp(r.ip))
  {
    PassIsOrderly(reality, gate, ips, order);
    PassKnows(ips, order, tag, BareIp(r.ip));
    PassKeepsRecords(ips, order, tag);
    ByHostStable(ips, out, BareIp(r.ip));
    if Known(ips, BareIp(r.ip)) {
      PassFreshens(reality, gate, ips, order, tag, r, out);
      assert false;
    }
  }

  /** A zone name for a host the pass created is still missing after the pass. */
  lemma NewHostNeedsName(reality: Reality, gate: Gate, ips: Records, order: seq<Drift>, tag: bool, r: ZoneRecord,
                         lb: LbIp, out: Records)
    requires OneRecordPerHost(ips) && Consistent(reality) && ListsEligible(order, reality, gate, ips)
    requires out == ApplyAll(ips, order, tag)
    requires NamesNewHost(r, lb, reality, gate, ips)
    ensures Stale(r, out) && Eligible(DnsDrift(r, out), gate)
  {
    var h := BareIp(r.ip);
    PassIsOrderly(reality, gate, ips, order);
    PassRecordsHosts(reality, gate, ips, order, tag, lb);
    PassLeavesUnnamed(ips, order, tag, h);
    assert NameOf(out, h) == "" && Lower(Strip("")) == "";
    DriftHost(r, out);
  }

  /** One pass settles everything exactly when no newly recorded LoadBalancer host also has a zone name. */
  lemma OnePassSettlesIff(reality: Reality, gate: Gate, ips: Records, order: seq<Drift>, tag: bool)
    requires OneRecordPerHost(ips) && Consistent(reality) && ListsEligible(order, reality, gate, ips)
    ensures Settled(reality, gate, ApplyAll(ips, order, tag)) <==> !NewHostIsNamed(reality, gate, ips)
  {
    var out := ApplyAll(ips, order, tag);
    if r, lb :| NamesNewHost(r, lb, reality, gate, ips) {
      NewHostNeedsName(reality, gate, ips, order, tag, r, lb, out);
      InSafeDrifts(reality, out, DnsDrift(r, out));
      assert !Settled(reality, gate, out);
    }
    if d :| d in SafeDrifts(reality, out) && Eligible(d, gate) {
      InSafeDrifts(reality, out, d);
      if lb :| lb in reality.lbs && !Known(out, BareIp(lb.ip)) && d == LbDrift(lb) {
        PassRecordsHosts(reality, gate, ips, order, tag, lb);
        assert false;
      } else {
        var r :| InZones(r, reality.zones) && Stale(r, out) && d == DnsDrift(r, out);
        StaleMeansNew(reality, gate, ips, order, tag, r, out);
        HitByNewLb(reality, gate, ips, order, r);
        assert NewHostIsNamed(reality, gate, ips);
      }
    }
  }

  lemma HitByNewLb(reality: Reality, gate: Gate, ips: Records, order: seq<Drift>, r: ZoneRecord)
    requires ListsEligible(order, reality, gate, ips)
    requires InZones(r, reality.zones) && !Known(ips, BareIp(r.ip)) && Hits(order, BareIp(r.ip))
    requires gate.fp(DnsNameStale, "ip=" + r.ip) !in gate.acked
    ensures exists lb :: NamesNewHost(r, lb, reality, gate, ips)
  {
    var d :| d in order && BareIp(d.address) == BareIp(r.ip);
    InSafeDrifts(reality, ips, d);
    if s :| InZones(s, reality.zones) && Stale(s, ips) && d == DnsDrift(s, ips) {
      DriftHost(s, ips);
      assert false;
    } else {
      var lb :| lb in reality.lbs && !Known(ips, BareIp(lb.ip)) && d == LbDrift(lb);
      assert NamesNewHost(r, lb, reality, gate, ips);
    }
  }

  /** Two passes leave no eligible safe drift, and a third one writes nothing. */
  lemma TwoPassesSettle(reality: Reality, gate: Gate, ips: Records, first: seq<Drift>, second: seq<Drift>,
                        third: seq<Drift>, tag: bool)
    requires OneRecordPerHost(ips) && Consistent(reality)
    requires ListsEligible(first, reality, gate, ips)
    requires ListsEligible(second, reality, gate, ApplyAll(ips, first, tag))
    requires ListsEligible(third, reality, gate, ApplyAll(ApplyAll(ips, first, tag), second, tag))
    ensures Settled(reality, gate, ApplyAll(ApplyAll(ips, first, tag), second, tag))
    ensures ApplyAll(ApplyAll(ApplyAll(ips, first, tag), second, tag), third, tag) ==
            ApplyAll(ApplyAll(ips, first, tag), second, tag)
  {
    var one := ApplyAll(ips, first, tag);
    PassIsOrderly(reality, gate, ips, first);
    PassKeepsRecords(ips, first, tag);
    forall r, lb ensures !NamesNewHost(r, lb, reality, gate, one) {
      if NamesNewHost(r, lb, reality, gate, one) {
        PassRecordsHosts(reality, gate, ips, first, tag, lb);
        assert false;
      }
    }
    OnePassSettlesIff(reality, gate, one, second, tag);
    assert forall d :: d !in third;
    FirstIsIn(third);
  }

  // ---------------------------------------------------------------------------
  // the protected ranges
  // ---------------------------------------------------------------------------

  /** Every record that meets the test stays as it is, where it is, and none that meets it appears. */
  ghost predicate KeptWhere(test: IpRecord -> bool, before: Records, after: Records) {
    && |before| <= |after|
    && (forall i :: 0 <= i < |before| && test(before[i]) ==> after[i] == before[i])
    && (forall i :: 0 <= i < |after| && test(after[i]) ==> i < |before| && after[i] == before[i])
  }

  predicate InProtectedRange(p: IpRecord) { Protected(BareIp(p.address)) }

  ghost predicate ProtectedKept(before: Records, after: Records) { KeptWhere(InProtectedRange, before, after) }

  lemma AppendKeeps(test: IpRecord -> bool, ips: Records, p: IpRecord)
    requires !test(p)
    ensures KeptWhere(test, ips, ips + [p])
  {}

  lemma PatchKeeps(test: IpRecord -> bool, ips: Records, i: nat, p: IpRecord)
    requires i < |ips| && !test(ips[i]) && !test(p)
    ensures KeptWhere(test, ips, ips[i := p])
  {}

  lemma KeptWhereChains(test: IpRecord -> bool, a: Records, b: Records, c: Records)
    requires KeptWhere(test, a, b) && KeptWhere(test, b, c)
    ensures KeptWhere(test, a, c)
  {}

  lemma WriteKeepsProtected(ips: Records, d: Drift, tag: bool)
    ensures ProtectedKept(ips, ApplyOne(ips, d, tag))
  {
    var i := Find(ips, d.address);
    if !Protected(BareIp(d.address)) && i == |ips| {
      StoredHost(d.address);
      AppendKeeps(InProtectedRange, ips, Created(d, tag));
    } else if !Protected(BareIp(d.address)) {
      PatchKeeps(InProtectedRange, ips, i, Patched(ips[i], d, tag));
    }
  }

  /** Whatever drifts a pass is handed, on whatever records, the protected ranges never change. */
  lemma {:induction false} ProtectedNeverChange(ips: Records, order: seq<Drift>, tag: bool)
    ensures ProtectedKept(ips, ApplyAll(ips, order, tag))
    decreases |order|
  {
    if order != [] {
      var mid := ApplyOne(ips, order[0], tag);
      WriteKeepsProtected(ips, order[0], tag);
      ProtectedNeverChange(mid, order[1..], tag);
      KeptWhereChains(InProtectedRange, ips, mid, ApplyAll(ips, order, tag));
    }
  }
}
