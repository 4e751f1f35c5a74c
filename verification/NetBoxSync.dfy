/** NetBox reconciliation: the DNS-name and LoadBalancer comparators and the gated upsert they feed. */
module NetBoxSync {
  import opened Basics
  import opened Text

  /** An ip-address record of NetBox. */
  datatype IpRecord = IpRecord(address: string, dnsName: string, description: string, tagged: bool)
  type Records = seq<IpRecord>

  datatype ZoneRecord = ZoneRecord(fqdn: string, ip: string)
  datatype LbIp = LbIp(ip: string, svc: string)

  /** What the live sources say: the A records of each zone, and the LoadBalancer addresses. */
  datatype Reality = Reality(zones: seq<seq<ZoneRecord>>, lbs: seq<LbIp>)

  datatype Category = DnsNameStale | LbIpMissing

  /** A safe drift with its writable target; an empty dnsName means the target sets a description. */
  datatype Drift = Drift(category: Category, key: string, address: string, dnsName: string, description: string)

  function BeforeSlash(s: string): string {
    if s == [] || s[0] == '/' then [] else [s[0]] + BeforeSlash(s[1..])
  }

  /** _bare_ip of a non-empty address. */
  function BareIp(a: string): string { Lower(Strip(BeforeSlash(a))) }

  const EXCLUDED_PREFIXES: seq<string> := ["192.168.", "10.42.", "10.43.", "10.45."]

  /** The recovery-path floor: the protected ranges. */
  predicate Protected(bare: string) { exists p | p in EXCLUDED_PREFIXES :: p <= bare }

  // ---------------------------------------------------------------------------
  // comparators
  // ---------------------------------------------------------------------------

  /** The first record with this host address; |ips| when there is none. */
  function ByHost(ips: Records, bare: string): (i: nat)
    ensures i <= |ips|
    ensures i < |ips| ==> ips[i].address != "" && BareIp(ips[i].address) == bare
    ensures forall k :: 0 <= k < i ==> ips[k].address == "" || BareIp(ips[k].address) != bare
  {
    if ips == [] then 0
    else if ips[0].address != "" && BareIp(ips[0].address) == bare then 0
    else 1 + ByHost(ips[1..], bare)
  }

  predicate Known(ips: Records, bare: string) { ByHost(ips, bare) < |ips| }

  /** The record's name, as the comparator reads it, is not the one the zone serves. */
  predicate Stale(r: ZoneRecord, ips: Records) {
    Known(ips, BareIp(r.ip)) && Lower(Strip(ips[ByHost(ips, BareIp(r.ip))].dnsName)) != r.fqdn
  }

  function DnsDrift(r: ZoneRecord, ips: Records): Drift
    requires Known(ips, BareIp(r.ip))
  {
    Drift(DnsNameStale, "ip=" + r.ip, ips[ByHost(ips, BareIp(r.ip))].address, r.fqdn, "")
  }

  function NamePick(ips: Records): ZoneRecord -> Option<Drift> {
    (r: ZoneRecord) => if Stale(r, ips) then Some(DnsDrift(r, ips)) else None
  }

  /** compare_dns_names */
  function DnsDrifts(recs: seq<ZoneRecord>, ips: Records): seq<Drift> { Picked(recs, NamePick(ips)) }

  function LbDrift(lb: LbIp): Drift { Drift(LbIpMissing, "ip=" + lb.ip, lb.ip, "", "LB svc " + lb.svc) }

  function HostPick(ips: Records): LbIp -> Option<Drift> {
    (lb: LbIp) => if !Known(ips, BareIp(lb.ip)) then Some(LbDrift(lb)) else None
  }

  /** compare_lb_ips */
  function LbDrifts(lbs: seq<LbIp>, ips: Records): seq<Drift> { Picked(lbs, HostPick(ips)) }

  function AllDnsDrifts(zones: seq<seq<ZoneRecord>>, ips: Records): seq<Drift> {
    if zones == [] then [] else DnsDrifts(zones[0], ips) + AllDnsDrifts(zones[1..], ips)
  }

  /** The safe part of compute_drifts. */
  function SafeDrifts(reality: Reality, ips: Records): seq<Drift> {
    AllDnsDrifts(reality.zones, ips) + LbDrifts(reality.lbs, ips)
  }

  /** byIp is the dictionary from host address to the first record that has it. */
  ghost predicate IndexOf(byIp: map<string, IpRecord>, ips: Records) {
    && (forall b :: b in byIp <==> Known(ips, b))
    && (forall b :: b in byIp ==> byIp[b] == ips[ByHost(ips, b)])
  }

  function SetDefault(byIp: map<string, IpRecord>, p: IpRecord): map<string, IpRecord> {
    if p.address != "" && BareIp(p.address) !in byIp then byIp[BareIp(p.address) := p] else byIp
  }

  lemma IndexAppend(byIp: map<string, IpRecord>, ips: Records, p: IpRecord)
    requires IndexOf(byIp, ips)
    ensures IndexOf(SetDefault(byIp, p), ips + [p])
  {
    var more, after := ips + [p], SetDefault(byIp, p);
    ByHostAppendAll(ips, p);
    assert forall b :: b in after <==> Known(more, b);
    assert forall b :: b in after ==> after[b] == more[ByHost(more, b)];
  }

  /** The dictionary compare_dns_names builds with setdefault. */
  method BuildIndex(ips: Records) returns (byIp: map<string, IpRecord>)
    ensures IndexOf(byIp, ips)
  {
    byIp := map[];
    for i := 0 to |ips|
      invariant IndexOf(byIp, ips[..i])
    {
      assert ips[..i + 1] == ips[..i] + [ips[i]];
      IndexAppend(byIp, ips[..i], ips[i]);
      byIp := SetDefault(byIp, ips[i]);
    }
    assert ips[..|ips|] == ips;
  }

  /** Record i is the first one of the host. */
  ghost predicate FirstOfHost(ips: Records, host: string, i: nat) {
    && i < |ips| && ips[i].address != "" && BareIp(ips[i].address) == host
    && forall k :: 0 <= k < i ==> ips[k].address == "" || BareIp(ips[k].address) != host
  }

  /** The host's first record has another name than the zone, blanks around it and letter case apart; the drift aims
      at that record's address as it is stored. */
  ghost predicate NameDrift(r: ZoneRecord, ips: Records, d: Drift) {
    exists i: nat ::
      && FirstOfHost(ips, BareIp(r.ip), i) && Lower(Strip(ips[i].dnsName)) != r.fqdn
      && d == Drift(DnsNameStale, "ip=" + r.ip, ips[i].address, r.fqdn, "")
  }

  /** No record has the LoadBalancer's host; the drift aims at its address, with a description. */
  ghost predicate HostDrift(lb: LbIp, ips: Records, d: Drift) {
    && (forall i: nat :: !FirstOfHost(ips, BareIp(lb.ip), i))
    && d == Drift(LbIpMissing, "ip=" + lb.ip, lb.ip, "", "LB svc " + lb.svc)
  }

  lemma FirstOfHostIs(ips: Records, host: string, i: nat)
    ensures FirstOfHost(ips, host, i) <==> i == ByHost(ips, host) && Known(ips, host)
  {}

  lemma NameDriftIs(r: ZoneRecord, ips: Records, d: Drift)
    ensures NameDrift(r, ips, d) <==> NamePick(ips)(r) == Some(d)
  {
    var i := ByHost(ips, BareIp(r.ip));
    FirstOfHostIs(ips, BareIp(r.ip), i);
    if j: nat :| FirstOfHost(ips, BareIp(r.ip), j) { FirstOfHostIs(ips, BareIp(r.ip), j); }
  }

  lemma HostDriftIs(lb: LbIp, ips: Records, d: Drift)
    ensures HostDrift(lb, ips, d) <==> HostPick(ips)(lb) == Some(d)
  {
    FirstOfHostIs(ips, BareIp(lb.ip), ByHost(ips, BareIp(lb.ip)));
    if j: nat :| FirstOfHost(ips, BareIp(lb.ip), j) { FirstOfHostIs(ips, BareIp(lb.ip), j); }
  }

  /** The drifts of a list, in its order: one for each element that calls for one, at the places `at`. */
  ghost predicate InOrder<T(!new)>(xs: seq<T>, calls: (T, Drift) -> bool, at: seq<nat>, drifts: seq<Drift>) {
    && |drifts| == |at| && (forall j, k :: 0 <= j < k < |at| ==> at[j] < at[k])
    && (forall j :: 0 <= j < |at| ==> at[j] < |xs| && calls(xs[at[j]], drifts[j]))
    && (forall i, d :: 0 <= i < |xs| && calls(xs[i], d) ==> i in at)
  }

  lemma PickedAreInOrder<T(!new)>(xs: seq<T>, pick: T -> Option<Drift>, calls: (T, Drift) -> bool)
      returns (at: seq<nat>)
    requires forall x, d :: calls(x, d) <==> pick(x) == Some(d)
    ensures InOrder(xs, calls, at, Picked(xs, pick))
  {
    at := PickedInOrder(xs, pick);
  }

  /** compare_dns_names: its dictionary, and its loop over the zone. */
  method CompareDnsNames(recs: seq<ZoneRecord>, ips: Records) returns (drifts: seq<Drift>, ghost at: seq<nat>)
    ensures drifts == DnsDrifts(recs, ips)
    ensures InOrder(recs, (r, d) => NameDrift(r, ips, d), at, drifts)
  {
    drifts := ScanZone(recs, ips);
    forall r: ZoneRecord, d { NameDriftIs(r, ips, d); }
    at := PickedAreInOrder(recs, NamePick(ips), (r, d) => NameDrift(r, ips, d));
  }

  method ScanZone(recs: seq<ZoneRecord>, ips: Records) returns (drifts: seq<Drift>)
    ensures drifts == DnsDrifts(recs, ips)
  {
    var byIp := BuildIndex(ips);
    drifts := [];
    ghost var pick := NamePick(ips);
    PickStart(recs, pick);
    for j := 0 to |recs|
      invariant PickedTo(recs, pick, j, drifts)
    {
      var r := recs[j];
      PickStep(recs, pick, j, drifts);
      var bare := BareIp(r.ip);
      if bare in byIp {
        var p := byIp[bare];
        if Lower(Strip(p.dnsName)) != r.fqdn {
          drifts := drifts + [Drift(DnsNameStale, "ip=" + r.ip, p.address, r.fqdn, "")];
        }
      }
    }
    PickEnd(recs, pick, drifts);
  }

  lemma {:induction false} ByHostAppend(ips: Records, p: IpRecord, b: string)
    ensures ByHost(ips + [p], b) ==
              if Known(ips, b) then ByHost(ips, b)
              else if p.address != "" && BareIp(p.address) == b then |ips| else |ips| + 1
  {
    if ips == [] {
      assert ips + [p] == [p] && [p][1..] == [];
    } else {
      assert (ips + [p])[1..] == ips[1..] + [p];
      ByHostAppend(ips[1..], p, b);
    }
  }

  lemma ByHostAppendAll(ips: Records, p: IpRecord)
    ensures forall b :: Known(ips + [p], b) <==> Known(ips, b) || (p.address != "" && BareIp(p.address) == b)
    ensures forall b :: Known(ips + [p], b) ==>
              (ips + [p])[ByHost(ips + [p], b)] == if Known(ips, b) then ips[ByHost(ips, b)] else p
  {
    forall b ensures (Known(ips + [p], b) <==> Known(ips, b) || (p.address != "" && BareIp(p.address) == b))
                  && (Known(ips + [p], b) ==>
                        (ips + [p])[ByHost(ips + [p], b)] == if Known(ips, b) then ips[ByHost(ips, b)] else p)
    {
      ByHostAppend(ips, p, b);
    }
  }

  function HostSet(ips: Records): (hosts: set<string>)
    ensures forall b :: b in hosts <==> Known(ips, b)
  {
    set i | 0 <= i < |ips| && ips[i].address != "" :: BareIp(ips[i].address)
  }

  /** compare_lb_ips: the set of recorded hosts, and its loop over the LoadBalancer addresses. */
  method CompareLbIps(lbs: seq<LbIp>, ips: Records) returns (drifts: seq<Drift>, ghost at: seq<nat>)
    ensures drifts == LbDrifts(lbs, ips)
    ensures InOrder(lbs, (lb, d) => HostDrift(lb, ips, d), at, drifts)
  {
    drifts := ScanLbs(lbs, ips);
    forall lb: LbIp, d { HostDriftIs(lb, ips, d); }
    at := PickedAreInOrder(lbs, HostPick(ips), (lb, d) => HostDrift(lb, ips, d));
  }

  method ScanLbs(lbs: seq<LbIp>, ips: Records) returns (drifts: seq<Drift>)
    ensures drifts == LbDrifts(lbs, ips)
  {
    var known := HostSet(ips);
    drifts := [];
    ghost var pick := HostPick(ips);
    PickStart(lbs, pick);
    for j := 0 to |lbs|
      invariant PickedTo(lbs, pick, j, drifts)
    {
      PickStep(lbs, pick, j, drifts);
      if BareIp(lbs[j].ip) !in known {
        drifts := drifts + [LbDrift(lbs[j])];
      }
    }
    PickEnd(lbs, pick, drifts);
  }

  // ---------------------------------------------------------------------------
  // the gated upsert
  // ---------------------------------------------------------------------------

  /** NetBox's address filter: an address with a mask is matched exactly, one without by its host. */
  predicate Matches(p: IpRecord, address: string) {
    if '/' in address then p.address == address else p.address != "" && BareIp(p.address) == BareIp(address)
  }

  function Find(ips: Records, address: string): (i: nat)
    ensures i <= |ips|
    ensures i < |ips| ==> Matches(ips[i], address)
    ensures forall k :: 0 <= k < i ==> !Matches(ips[k], address)
  {
    if ips == [] || Matches(ips[0], address) then 0 else 1 + Find(ips[1..], address)
  }

  /** NetBox stores a bare host address with a host mask. */
  function Stored(address: string): string {
    if '/' in address then address else address + (if ':' in address then "/128" else "/32")
  }

  /** The record a drift creates. */
  function Created(d: Drift, tag: bool): IpRecord {
    IpRecord(Stored(d.address), d.dnsName, if d.dnsName != "" then "" else d.description, tag)
  }

  /** The record a drift leaves of one that exists: tagged only if the field it sets was different. */
  function Patched(p: IpRecord, d: Drift, tag: bool): (q: IpRecord)
    ensures q.address == p.address && q.dnsName == if d.dnsName != "" then d.dnsName else p.dnsName
  {
    if d.dnsName != "" then
      if p.dnsName == d.dnsName then p else p.(dnsName := d.dnsName, tagged := tag || p.tagged)
    else
      if p.description == d.description then p else p.(description := d.description, tagged := tag || p.tagged)
  }

  /** upsert_ip with apply=True, as apply_one calls it: a name if the target has one, else a description. */
  function Upsert(ips: Records, d: Drift, tag: bool): Records {
    var i := Find(ips, d.address);
    if i == |ips| then ips + [Created(d, tag)] else ips[i := Patched(ips[i], d, tag)]
  }

  /** apply_one: no address, or a protected one, is skipped. */
  function ApplyOne(ips: Records, d: Drift, tag: bool): Records {
    if d.address == "" || Protected(BareIp(d.address)) then ips else Upsert(ips, d, tag)
  }

  function ApplyAll(ips: Records, order: seq<Drift>, tag: bool): Records
    decreases |order|
  {
    if order == [] then ips else ApplyAll(ApplyOne(ips, order[0], tag), order[1..], tag)
  }

  /** The acknowledged fingerprints and the fingerprint function. */
  datatype Gate = Gate(acked: set<string>, fp: (Category, string) -> string)

  predicate Eligible(d: Drift, gate: Gate) {
    gate.fp(d.category, d.key) !in gate.acked && !Protected(BareIp(d.address))
  }

  /** One auto-write pass may handle the eligible drifts in any order that lists exactly them. */
  ghost predicate ListsEligible(order: seq<Drift>, reality: Reality, gate: Gate, ips: Records) {
    forall d :: d in order <==> d in SafeDrifts(reality, ips) && Eligible(d, gate)
  }
}
