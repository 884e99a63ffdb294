/** `BigipSnatManager`: SNAT addresses shared by a tenant's load balancers.
    Every SNAT address of a subnet is a SNAT object on the device and a
    member of the tenant's SNAT pool; the agent also remembers, per device,
    which subnets it has already set up for each tenant. */
module Snats {
  import opened Wrappers
  import opened Text
  import opened Bigip

  /* ---------- names ---------- */

  /** `_get_snat_name`; an unknown HA type gives the empty name. The pair
      name has no hyphen between the traffic group and the subnet id. */
  function SnatName(haType: string, trafficGroupOf: string -> string, subnetId: string, tenantId: string): (r: string)
    ensures haType == "standalone" ==> r == "snat-traffic-group-local-only-" + subnetId
    ensures haType == "pair" ==> r == "snat-traffic-group-1" + subnetId
    ensures haType == "scalen" ==> r == "snat-" + Basename(trafficGroupOf(tenantId)) + "-" + subnetId
    ensures haType !in {"standalone", "pair", "scalen"} ==> r == ""
  {
    if haType == "standalone" then "snat-traffic-group-local-only-" + subnetId
    else if haType == "pair" then "snat-traffic-group-1" + subnetId
    else if haType == "scalen" then "snat-" + Basename(trafficGroupOf(tenantId)) + "-" + subnetId
    else ""
  }

  /** `_get_snat_traffic_group`: a bare traffic-group name, never a path. */
  function SnatTrafficGroup(haType: string, trafficGroupOf: string -> string, tenantId: string): (r: string)
    ensures '/' !in r
    ensures haType == "standalone" ==> r == "traffic-group-local-only"
    ensures haType == "pair" ==> r == "traffic-group-1"
    ensures haType == "scalen" ==> r == Basename(trafficGroupOf(tenantId))
    ensures haType !in {"standalone", "pair", "scalen"} ==> r == ""
  {
    if haType == "standalone" then "traffic-group-local-only"
    else if haType == "pair" then "traffic-group-1"
    else if haType == "scalen" then Basename(trafficGroupOf(tenantId))
    else ""
  }

  /** In standalone and scalen mode the SNAT name is "snat-", the SNAT
      traffic group, "-" and the subnet id; in pair mode the hyphen before
      the subnet id is missing. */
  lemma SnatNameNamesTrafficGroup(haType: string, trafficGroupOf: string -> string, subnetId: string, tenantId: string)
    ensures var tg := SnatTrafficGroup(haType, trafficGroupOf, tenantId);
      && (haType in {"standalone", "scalen"} ==>
            SnatName(haType, trafficGroupOf, subnetId, tenantId) == "snat-" + tg + "-" + subnetId)
      && (haType == "pair" ==>
            SnatName(haType, trafficGroupOf, subnetId, tenantId) == "snat-" + tg + subnetId)
  {
    if haType == "standalone" {
      assert "snat-" + "traffic-group-local-only" + "-" == "snat-traffic-group-local-only-";
    } else if haType == "pair" {
      assert "snat-" + "traffic-group-1" == "snat-traffic-group-1";
    }
  }

  /** The name of the i-th SNAT address of a subnet. */
  function IndexName(snatName: string, i: nat): (r: string)
    ensures StartsWith(r, snatName + "_")
    ensures r[|snatName| + 1..] == NatToString(i)
  {
    snatName + "_" + NatToString(i)
  }

  /** Different slots never share a name. */
  lemma IndexNameInjective(snatName: string, i: nat, j: nat)
    requires IndexName(snatName, i) == IndexName(snatName, j)
    ensures i == j
  {
    NatToStringRoundTrip(i);
    NatToStringRoundTrip(j);
  }

  /** The name the device knows the SNAT by: on a common network the
      index name is made an absolute path in /Common. */
  function TmosName(common: bool, indexName: string): (r: string)
    ensures common ==> r == "/Common/" + indexName
    ensures !common ==> r == indexName
  {
    if common then "/Common/" + indexName else indexName
  }

  /** The `fullPath` the device reports for an object created with this
      partition and name: a name that is already a path is kept. */
  function FullPath(partition: string, name: string): (r: string)
    ensures StartsWith(r, "/")
    ensures StartsWith(name, "/") ==> r == name
    ensures !StartsWith(name, "/") ==> r == "/" + partition + "/" + name
  {
    if StartsWith(name, "/") then name else "/" + partition + "/" + name
  }

  /** The translation address: the port's IP in the network's route domain. */
  function SnatAddress(ip: string, routeDomainId: int): string {
    ip + "%" + IntToString(routeDomainId)
  }

  /** The address part and the route domain come back out of a SNAT
      address when the IP holds no '%'. */
  lemma SnatAddressRoundTrip(ip: string, routeDomainId: int)
    requires '%' !in ip
    ensures var a := SnatAddress(ip, routeDomainId);
      && |ip| < |a| && a[|ip|] == '%' && a[..|ip|] == ip
      && ParseInt(a[|ip| + 1..]) == Some(routeDomainId)
  {
    var a := SnatAddress(ip, routeDomainId);
    assert a[..|ip|] == ip;
    assert a[|ip| + 1..] == IntToString(routeDomainId);
    IntToStringRoundTrip(routeDomainId);
  }

  /* ---------- the SNAT pool member filter ---------- */

  /** The member filter of `_delete_bigip_snats` as written: it keeps the
      members whose basename differs from the TMOS name, in order. */
  function FilterAsWritten(members: seq<string>, tmosName: string): (r: seq<string>)
    ensures |r| <= |members|
  {
    if |members| == 0 then []
    else (if Basename(members[0]) != tmosName then [members[0]] else []) + FilterAsWritten(members[1..], tmosName)
  }

  /** The filter as evidently intended: a member is the SNAT being removed
      when its basename is the basename of the TMOS name. */
  function Filter(members: seq<string>, tmosName: string): (r: seq<string>)
    ensures |r| <= |members|
  {
    if |members| == 0 then []
    else (if Basename(members[0]) != Basename(tmosName) then [members[0]] else []) + Filter(members[1..], tmosName)
  }

  /** As written, exactly the members whose basename is the TMOS name are
      dropped, every copy of them; the others keep their multiplicity. */
  lemma {:induction false} FilterAsWrittenSpec(members: seq<string>, tmosName: string)
    ensures forall m ::
      multiset(FilterAsWritten(members, tmosName))[m] == (if Basename(m) != tmosName then multiset(members)[m] else 0)
    decreases |members|
  {
    if |members| > 0 {
      FilterAsWrittenSpec(members[1..], tmosName);
      assert members == [members[0]] + members[1..];
    }
  }

  /** The intended filter drops exactly the members that share the TMOS
      name's basename, every copy of them; the others keep their
      multiplicity. */
  lemma {:induction false} FilterSpec(members: seq<string>, tmosName: string)
    ensures forall m ::
      multiset(Filter(members, tmosName))[m] == (if Basename(m) != Basename(tmosName) then multiset(members)[m] else 0)
    decreases |members|
  {
    if |members| > 0 {
      FilterSpec(members[1..], tmosName);
      assert members == [members[0]] + members[1..];
    }
  }

  lemma FilterAsWrittenMembership(members: seq<string>, tmosName: string, m: string)
    ensures m in FilterAsWritten(members, tmosName) <==> m in members && Basename(m) != tmosName
  {
    FilterAsWrittenSpec(members, tmosName);
    assert m in FilterAsWritten(members, tmosName) <==> multiset(FilterAsWritten(members, tmosName))[m] > 0;
    assert m in members <==> multiset(members)[m] > 0;
  }

  /** As written, a TMOS name holding a '/' is never any member's
      basename, so the filter keeps the whole pool. */
  lemma {:induction false} FilterAsWrittenKeepsAll(members: seq<string>, tmosName: string)
    requires '/' in tmosName
    ensures FilterAsWritten(members, tmosName) == members
    decreases |members|
  {
    if |members| > 0 {
      var b := Basename(members[0]);
      assert b != tmosName by { assert '/' !in b; }
      FilterAsWrittenKeepsAll(members[1..], tmosName);
      assert FilterAsWritten(members, tmosName) == [members[0]] + members[1..];
      assert members == [members[0]] + members[1..];
    }
  }

  lemma FilterMembership(members: seq<string>, tmosName: string, m: string)
    ensures m in Filter(members, tmosName) <==> m in members && Basename(m) != Basename(tmosName)
  {
    FilterSpec(members, tmosName);
    assert m in Filter(members, tmosName) <==> multiset(Filter(members, tmosName))[m] > 0;
    assert m in members <==> multiset(members)[m] > 0;
  }

  /** The filter keeps order: filtering a concatenation filters each part. */
  lemma {:induction false} FilterAppend(a: seq<string>, b: seq<string>, tmosName: string)
    ensures Filter(a + b, tmosName) == Filter(a, tmosName) + Filter(b, tmosName)
    decreases |a|
  {
    if |a| == 0 {
      assert a + b == b;
    } else {
      var x, rest := a[0], a[1..];
      ConsAppend(a, b);
      FilterAppend(rest, b, tmosName);
      FilterAppendStep(x, rest, b, tmosName);
      assert a == [x] + rest;
    }
  }

  lemma FilterAppendStep(x: string, rest: seq<string>, b: seq<string>, tmosName: string)
    requires Filter(rest + b, tmosName) == Filter(rest, tmosName) + Filter(b, tmosName)
    ensures Filter([x] + (rest + b), tmosName) == Filter([x] + rest, tmosName) + Filter(b, tmosName)
  {
    var keep := if Basename(x) != Basename(tmosName) then [x] else [];
    FilterCons(x, rest + b, tmosName);
    FilterCons(x, rest, tmosName);
    AppendAssoc(keep, Filter(rest, tmosName), Filter(b, tmosName));
  }

  lemma FilterCons(m: string, rest: seq<string>, tmosName: string)
    ensures Filter([m] + rest, tmosName) ==
      (if Basename(m) != Basename(tmosName) then [m] else []) + Filter(rest, tmosName)
  {
    assert ([m] + rest)[0] == m;
    assert ([m] + rest)[1..] == rest;
  }

  /** On a network that is not common both filters agree. */
  lemma FilterAgreesOffCommon(members: seq<string>, indexName: string)
    requires '/' !in indexName
    ensures Filter(members, TmosName(false, indexName)) == FilterAsWritten(members, TmosName(false, indexName))
  {
    assert Basename(indexName) == indexName;
    FiltersEqualOnBareName(members, indexName);
  }

  lemma {:induction false} FiltersEqualOnBareName(members: seq<string>, name: string)
    requires Basename(name) == name
    ensures Filter(members, name) == FilterAsWritten(members, name)
    decreases |members|
  {
    if |members| > 0 {
      FiltersEqualOnBareName(members[1..], name);
    }
  }

  /** The pool member that the assure path adds for a slot: the full path
      of the SNAT created in the network folder. */
  function AddedMember(common: bool, tenantId: string, indexName: string): string {
    FullPath(if common then "Common" else tenantId, TmosName(common, indexName))
  }

  /** As written, on a common network the delete filter keeps the very
      member the assure path added, so the SNAT pool never shrinks. */
  lemma FilterAsWrittenKeepsCommonMember(indexName: string, tenantId: string)
    requires '/' !in indexName
    ensures var m := AddedMember(true, tenantId, indexName);
      FilterAsWritten([m], TmosName(true, indexName)) == [m]
  {
    var m := AddedMember(true, tenantId, indexName);
    assert StartsWith(TmosName(true, indexName), "/");
    assert m == "/Common" + "/" + indexName;
    BasenameAfterSlash("/Common", indexName);
    assert Basename(m) != TmosName(true, indexName) by {
      assert |TmosName(true, indexName)| > |indexName|;
    }
    assert FilterAsWritten([m], TmosName(true, indexName)) == [m] + FilterAsWritten([], TmosName(true, indexName));
  }

  /** A concrete instance: slot 0 of standalone subnet "s" on a common
      network. */
  const CounterexampleSlot := "snat-traffic-group-local-only-s_0"

  lemma FilterAsWrittenCounterexample()
    ensures FilterAsWritten(["/Common/" + CounterexampleSlot], "/Common/" + CounterexampleSlot)
         == ["/Common/" + CounterexampleSlot]
  {
    var idx := CounterexampleSlot;
    assert forall k :: 0 <= k < |idx| ==> idx[k] != '/';
    FilterAsWrittenKeepsCommonMember(idx, "t");
  }

  /** The corrected filter removes the member the assure path added, on
      common networks and elsewhere alike. */
  lemma FilterRemovesAddedMember(common: bool, tenantId: string, indexName: string, members: seq<string>)
    requires '/' !in indexName && '/' !in tenantId
    ensures AddedMember(common, tenantId, indexName) !in Filter(members, TmosName(common, indexName))
  {
    var m := AddedMember(common, tenantId, indexName);
    FilterMembership(members, TmosName(common, indexName), m);
    if common {
      assert StartsWith(TmosName(true, indexName), "/");
      assert m == "/Common" + "/" + indexName;
      BasenameAfterSlash("/Common", indexName);
    } else {
      assert !StartsWith(indexName, "/") by {
        if |indexName| > 0 { assert indexName[..1][0] == indexName[0]; }
      }
      assert m == "/" + tenantId + "/" + indexName;
      BasenameAfterSlash("/" + tenantId, indexName);
    }
  }

  /* ---------- the per-device cache ---------- */

  type Cache = map<string, seq<string>>

  predicate NoDup(s: seq<string>) {
    forall i, j :: 0 <= i < j < |s| ==> s[i] != s[j]
  }

  predicate CacheNoDup(cache: Cache) {
    forall t :: t in cache ==> NoDup(cache[t])
  }

  /** The tenant's list, empty when the tenant is not in the cache. */
  function Listed(cache: Cache, tenantId: string): seq<string> {
    if tenantId in cache then cache[tenantId] else []
  }

  /** `list.remove`: drops the first occurrence. */
  function RemoveFirst(s: seq<string>, x: string): (r: seq<string>)
    requires x in s
    ensures multiset(r) == multiset(s) - multiset{x}
    ensures |r| == |s| - 1
  {
    if s[0] == x then
      assert s == [s[0]] + s[1..];
      s[1..]
    else
      assert s == [s[0]] + s[1..];
      [s[0]] + RemoveFirst(s[1..], x)
  }

  lemma RemoveFirstOfAppended(s: seq<string>, x: string)
    requires x !in s
    ensures RemoveFirst(s + [x], x) == s
  {
    if |s| == 0 {
      assert RemoveFirst([x], x) == [x][1..];
    } else {
      var y, rest := s[0], s[1..];
      assert x in rest + [x];
      calc {
        RemoveFirst(s + [x], x);
        { ConsAppend(s, [x]); }
        RemoveFirst([y] + (rest + [x]), x);
        { RemoveFirstCons(y, rest + [x], x); }
        [y] + RemoveFirst(rest + [x], x);
        { RemoveFirstOfAppended(rest, x); }
        [y] + rest;
        s;
      }
    }
  }

  lemma RemoveFirstCons(y: string, t: seq<string>, x: string)
    requires x in t && y != x
    ensures RemoveFirst([y] + t, x) == [y] + RemoveFirst(t, x)
  {
    assert ([y] + t)[0] == y;
    assert ([y] + t)[1..] == t;
  }

  /** `_remove_assured_tenant_snat_subnet`: only the tenant's own list can
      change, and only when it lists the subnet. */
  function RemoveAssured(cache: Cache, tenantId: string, subnetId: string): (r: Cache)
    ensures tenantId !in cache || subnetId !in cache[tenantId] ==> r == cache
    ensures tenantId in cache && subnetId in cache[tenantId] ==>
      r == cache[tenantId := RemoveFirst(cache[tenantId], subnetId)]
  {
    if tenantId in cache && subnetId in cache[tenantId] then
      cache[tenantId := RemoveFirst(cache[tenantId], subnetId)]
    else cache
  }

  /** With duplicate-free lists, after the removal the subnet is listed by
      exactly the other tenants that listed it before. */
  lemma RemoveAssuredListings(cache: Cache, tenantId: string, subnetId: string)
    requires CacheNoDup(cache)
    ensures var r := RemoveAssured(cache, tenantId, subnetId);
      && r.Keys == cache.Keys
      && forall t :: t in r ==> (subnetId in r[t] <==> subnetId in cache[t] && t != tenantId)
  {
    if tenantId in cache && subnetId in cache[tenantId] {
      var l := cache[tenantId];
      var l2 := RemoveFirst(l, subnetId);
      NoDupCount(l, subnetId);
      assert multiset(l2)[subnetId] == 0;
    }
  }

  lemma {:induction false} NoDupCount(s: seq<string>, x: string)
    requires NoDup(s) && x in s
    ensures multiset(s)[x] == 1
    decreases |s|
  {
    assert s == [s[0]] + s[1..];
    if s[0] == x {
      assert x !in s[1..];
    } else {
      NoDupCount(s[1..], x);
    }
  }

  /** The cache update at the end of `_assure_bigip_snats`. */
  function AddAssured(cache: Cache, tenantId: string, subnetId: string): (r: Cache)
    ensures r == cache[tenantId := Listed(cache, tenantId) + [subnetId]]
  {
    cache[tenantId := Listed(cache, tenantId) + [subnetId]]
  }

  /** Adding a subnet the tenant did not list keeps every list free of
      duplicates. */
  lemma AddAssuredKeepsNoDup(cache: Cache, tenantId: string, subnetId: string)
    requires CacheNoDup(cache) && subnetId !in Listed(cache, tenantId)
    ensures CacheNoDup(AddAssured(cache, tenantId, subnetId))
  {
    var l := Listed(cache, tenantId);
    assert NoDup(l);
    assert NoDup(l + [subnetId]) by {
      forall i, j | 0 <= i < j < |l + [subnetId]| ensures (l + [subnetId])[i] != (l + [subnetId])[j] {
        if j == |l| { assert (l + [subnetId])[i] == l[i]; }
      }
    }
  }

  /** Removing after adding gives the tenant back its earlier list. */
  lemma RemoveUndoesAdd(cache: Cache, tenantId: string, subnetId: string)
    requires subnetId !in Listed(cache, tenantId)
    ensures RemoveAssured(AddAssured(cache, tenantId, subnetId), tenantId, subnetId)
         == cache[tenantId := Listed(cache, tenantId)]
  {
    RemoveFirstOfAppended(Listed(cache, tenantId), subnetId);
  }

  /** How many tenants list the subnet (`in_use_count`). */
  function ListingCount(cache: Cache, subnetId: string): (n: nat)
    ensures n != 0 <==> exists t :: t in cache && subnetId in cache[t]
  {
    var tenants := set t | t in cache && subnetId in cache[t];
    if tenants == {} then
      assert forall t :: t in cache && subnetId in cache[t] ==> t in tenants;
      0
    else
      var t :| t in tenants;
      assert t in cache && subnetId in cache[t];
      assert |tenants| > 0;
      |tenants|
  }

  /* ---------- the manager's collaborators ---------- */

  /** A Neutron port as the plugin RPC returns it: its fixed IP addresses. */
  datatype Port = Port(fixedIps: seq<string>)

  datatype Network = Network(id: string, routeDomainId: int)

  /** `subnetinfo`: the subnet id and its network, which may be missing. */
  datatype SubnetInfo = SubnetInfo(network: Option<Network>, subnetId: string)

  /** What the manager reads from its driver and collaborators. The
      plugin RPC, the L2 service, the translation loader and the network
      helper's use count are oracles; every device call goes through
      `fails`. */
  datatype SnatEnv = SnatEnv(
    haType: string,
    addressesPerSubnet: int,
    trafficGroupOf: string -> string,
    isCommonNetwork: Option<Network> -> bool,
    l3Binding: bool,
    fails: Oracle,
    portsByName: string -> seq<Port>,
    newPortOnSubnet: (string, string) -> Port,
    translationAddress: (World, string, Path) -> string,
    useCount: (World, string, string) -> int)

  /** `range(n)` has max(n, 0) elements. */
  function Slots(n: int): (r: nat)
    ensures n >= 0 ==> r == n
    ensures n < 0 ==> r == 0
  {
    if n < 0 then 0 else n
  }

  function SnatNameOf(env: SnatEnv, subnetId: string, tenantId: string): string {
    SnatName(env.haType, env.trafficGroupOf, subnetId, tenantId)
  }

  /* ---------- get_snat_addrs ---------- */

  /** The address for one slot: the first fixed IP of the first port with
      the slot's name, or of a port created for it; a port without fixed
      IPs raises (None). */
  function SlotAddress(env: SnatEnv, subnetId: string, indexName: string): (r: Option<string>)
    ensures |env.portsByName(indexName)| > 0 ==>
      r == (if |env.portsByName(indexName)[0].fixedIps| > 0 then Some(env.portsByName(indexName)[0].fixedIps[0]) else None)
    ensures |env.portsByName(indexName)| == 0 ==>
      r == (if |env.newPortOnSubnet(subnetId, indexName).fixedIps| > 0
            then Some(env.newPortOnSubnet(subnetId, indexName).fixedIps[0]) else None)
  {
    var ports := env.portsByName(indexName);
    var port := if |ports| > 0 then ports[0] else env.newPortOnSubnet(subnetId, indexName);
    if |port.fixedIps| > 0 then Some(port.fixedIps[0]) else None
  }

  function AddressesFrom(env: SnatEnv, subnetId: string, snatName: string, i: nat, n: nat): (r: Option<seq<string>>)
    requires i <= n
    ensures r.Some? ==> |r.value| == n - i
    ensures r.Some? ==> forall k :: i <= k < n ==> SlotAddress(env, subnetId, IndexName(snatName, k)) == Some(r.value[k - i])
    ensures r.None? <==> exists k :: i <= k < n && SlotAddress(env, subnetId, IndexName(snatName, k)).None?
    decreases n - i
  {
    if i == n then Some([])
    else
      match SlotAddress(env, subnetId, IndexName(snatName, i))
      case None => None
      case Some(a) =>
        var rest := AddressesFrom(env, subnetId, snatName, i + 1, n);
        if rest.None? then None else Some([a] + rest.value)
  }

  /** `get_snat_addrs`: one address per slot, in slot order. */
  function GetSnatAddrs(env: SnatEnv, info: SubnetInfo, tenantId: string): (r: Option<seq<string>>)
    ensures var name := SnatNameOf(env, info.subnetId, tenantId);
            var n := Slots(env.addressesPerSubnet);
      && (r.Some? ==> |r.value| == n)
      && (r.Some? ==> forall k :: 0 <= k < n ==> SlotAddress(env, info.subnetId, IndexName(name, k)) == Some(r.value[k]))
      && (r.None? <==> exists k :: 0 <= k < n && SlotAddress(env, info.subnetId, IndexName(name, k)).None?)
  {
    AddressesFrom(env, info.subnetId, SnatNameOf(env, info.subnetId, tenantId), 0, Slots(env.addressesPerSubnet))
  }

  /* ---------- _assure_bigip_snats ---------- */

  /** `snat_info`: the folder of the SNAT objects, the tenant's SNAT pool
      and the addresses. */
  datatype SnatInfo = SnatInfo(networkFolder: string, poolName: string, poolFolder: string, addrs: seq<string>)

  function PoolMembersOf(w: World, host: string, path: Path): seq<string> {
    var d := DeviceOf(w.devices, host);
    if path in d.snatPools then d.snatPools[path] else []
  }

  function AssuredOf(w: World, host: string): Cache {
    DeviceOf(w.devices, host).assured
  }

  /** Every call keeps the agent's cache and leaves the other hosts alone. */
  lemma ExecOnHost(fails: Oracle, w: World, host: string, t: Target, c: Call)
    requires t == OnDevice(host) || t == L3Binding
    ensures var o := Exec(fails, w, t, c);
      && Extends(w, o.world)
      && NewEvents(w, o.world) == [Event(t, c, !o.raised)]
      && AssuredOf(o.world, host) == AssuredOf(w, host)
      && (forall h :: h != host ==> DeviceOf(o.world.devices, h) == DeviceOf(w.devices, h))
      && (!o.raised && t == OnDevice(host) ==> DeviceOf(o.world.devices, host) == Step(DeviceOf(w.devices, host), c))
      && (o.raised || t == L3Binding ==> o.world.devices == w.devices)
  {
    var o := Exec(fails, w, t, c);
    assert o.world.log[..|w.log|] == w.log;
  }

  /** `snatpool_manager.create`, `members.append`, `snatpool.update()`:
      the pool is created when missing (and loaded otherwise), then
      written back with one more member. */
  function AppendToPool(fails: Oracle, host: string, pool: Path, member: string, w: World): (o: Outcome)
    ensures Extends(w, o.world)
    ensures AssuredOf(o.world, host) == AssuredOf(w, host)
    ensures forall h :: h != host ==> DeviceOf(o.world.devices, h) == DeviceOf(w.devices, h)
    ensures DeviceOf(o.world.devices, host).snats == DeviceOf(w.devices, host).snats
    ensures !o.raised ==>
      && pool in DeviceOf(o.world.devices, host).snatPools
      && PoolMembersOf(o.world, host, pool) == PoolMembersOf(w, host, pool) + [member]
      && NewEvents(w, o.world) == [Event(OnDevice(host), SnatPoolCreate(pool), true),
                                   Event(OnDevice(host), SnatPoolUpdate(pool, PoolMembersOf(w, host, pool) + [member]), true)]
  {
    var o1 := Exec(fails, w, OnDevice(host), SnatPoolCreate(pool));
    ExecOnHost(fails, w, host, OnDevice(host), SnatPoolCreate(pool));
    if o1.raised then o1
    else
      assert PoolMembersOf(o1.world, host, pool) == PoolMembersOf(w, host, pool);
      var members := PoolMembersOf(o1.world, host, pool) + [member];
      var o2 := Exec(fails, o1.world, OnDevice(host), SnatPoolUpdate(pool, members));
      ExecOnHost(fails, o1.world, host, OnDevice(host), SnatPoolUpdate(pool, members));
      ExtendsTrans(w, o1.world, o2.world);
      o2
  }

  /** The SNAT object of a slot. */
  function SlotSnat(env: SnatEnv, info: SubnetInfo, si: SnatInfo, tenantId: string, name: string, i: nat): SnatDescriptor
    requires i < |si.addrs| && info.network.Some?
  {
    SnatDescriptor(
      TmosName(env.isCommonNetwork(info.network), IndexName(name, i)),
      si.networkFolder,
      SnatAddress(si.addrs[i], info.network.value.routeDomainId),
      SnatTrafficGroup(env.haType, env.trafficGroupOf, tenantId))
  }

  /** One slot of `_assure_bigip_snats`: create the SNAT, add its full path
      to the tenant's SNAT pool, and bind the address when an L3 binding
      is configured. A missing address or network raises first. */
  function AssureSlot(env: SnatEnv, host: string, info: SubnetInfo, si: SnatInfo, tenantId: string, name: string, i: nat, w: World): (o: Outcome)
    ensures Extends(w, o.world)
    ensures AssuredOf(o.world, host) == AssuredOf(w, host)
    ensures forall h :: h != host ==> DeviceOf(o.world.devices, h) == DeviceOf(w.devices, h)
    ensures i >= |si.addrs| || info.network.None? ==> o.raised && o.world == w
  {
    if i >= |si.addrs| || info.network.None? then Outcome(w, true)
    else
      var snat := SlotSnat(env, info, si, tenantId, name, i);
      var o2 := SlotWrite(env, host, info, si, tenantId, name, i, w);
      if o2.raised || !env.l3Binding then o2
      else
        var o3 := Exec(env.fails, o2.world, L3Binding, BindAddress(info.subnetId, snat.address));
        ExecOnHost(env.fails, o2.world, host, L3Binding, BindAddress(info.subnetId, snat.address));
        ExtendsTrans(w, o2.world, o3.world);
        o3
  }

  /** The device writes of a slot: the SNAT create, then the append of its
      full path to the tenant's pool. */
  function SlotWrite(env: SnatEnv, host: string, info: SubnetInfo, si: SnatInfo, tenantId: string, name: string, i: nat, w: World): (o: Outcome)
    requires i < |si.addrs| && info.network.Some?
    ensures Extends(w, o.world)
    ensures AssuredOf(o.world, host) == AssuredOf(w, host)
    ensures forall h :: h != host ==> DeviceOf(o.world.devices, h) == DeviceOf(w.devices, h)
    ensures !o.raised ==>
      var snat := SlotSnat(env, info, si, tenantId, name, i);
      var pool := Path(si.poolFolder, si.poolName);
      && SnatPath(snat) in DeviceOf(o.world.devices, host).snats
      && DeviceOf(o.world.devices, host).snats[SnatPath(snat)] == snat
      && PoolMembersOf(o.world, host, pool) == PoolMembersOf(w, host, pool) + [FullPath(si.networkFolder, snat.name)]
      && |NewEvents(w, o.world)| == 3
      && NewEvents(w, o.world)[0] == Event(OnDevice(host), SnatCreate(snat), true)
  {
    var snat := SlotSnat(env, info, si, tenantId, name, i);
    var pool := Path(si.poolFolder, si.poolName);
    var o1 := Exec(env.fails, w, OnDevice(host), SnatCreate(snat));
    ExecOnHost(env.fails, w, host, OnDevice(host), SnatCreate(snat));
    if o1.raised then o1
    else
      assert SnatPath(snat) in DeviceOf(o1.world.devices, host).snats;
      assert PoolMembersOf(o1.world, host, pool) == PoolMembersOf(w, host, pool);
      var o2 := AppendToPool(env.fails, host, pool, FullPath(si.networkFolder, snat.name), o1.world);
      ExtendsTrans(w, o1.world, o2.world);
      o2
  }

  /** A slot that went through wrote its SNAT at `address%route_domain`,
      appended the SNAT's full path to the tenant's pool, and issued the
      SNAT create first and the bind last. */
  lemma AssureSlotWrites(env: SnatEnv, host: string, info: SubnetInfo, si: SnatInfo, tenantId: string, name: string, i: nat, w: World)
    requires !AssureSlot(env, host, info, si, tenantId, name, i, w).raised
    ensures i < |si.addrs| && info.network.Some?
    ensures var o := AssureSlot(env, host, info, si, tenantId, name, i, w);
            var snat := SlotSnat(env, info, si, tenantId, name, i);
            var pool := Path(si.poolFolder, si.poolName);
      && SnatPath(snat) in DeviceOf(o.world.devices, host).snats
      && DeviceOf(o.world.devices, host).snats[SnatPath(snat)] == snat
      && PoolMembersOf(o.world, host, pool) == PoolMembersOf(w, host, pool) + [FullPath(si.networkFolder, snat.name)]
      && |NewEvents(w, o.world)| == (if env.l3Binding then 4 else 3)
      && NewEvents(w, o.world)[0] == Event(OnDevice(host), SnatCreate(snat), true)
      && (env.l3Binding ==> NewEvents(w, o.world)[3] == Event(L3Binding, BindAddress(info.subnetId, snat.address), true))
  {
    var snat := SlotSnat(env, info, si, tenantId, name, i);
    var o2 := SlotWrite(env, host, info, si, tenantId, name, i, w);
    assert !o2.raised;
    if env.l3Binding {
      var o3 := Exec(env.fails, o2.world, L3Binding, BindAddress(info.subnetId, snat.address));
      ExecOnHost(env.fails, o2.world, host, L3Binding, BindAddress(info.subnetId, snat.address));
      ExtendsTrans(w, o2.world, o3.world);
      assert NewEvents(w, o3.world) == NewEvents(w, o2.world) + [Event(L3Binding, BindAddress(info.subnetId, snat.address), true)];
    }
  }

  /** The pool members the assure path adds for slots i .. n-1, in slot
      order. */
  function AddedMembers(folder: string, common: bool, name: string, i: nat, n: nat): (r: seq<string>)
    requires i <= n
    ensures |r| == n - i
    ensures forall k :: i <= k < n ==> r[k - i] == FullPath(folder, TmosName(common, IndexName(name, k)))
    decreases n - i
  {
    if i == n then [] else [FullPath(folder, TmosName(common, IndexName(name, i)))] + AddedMembers(folder, common, name, i + 1, n)
  }

  /** The `for i in range(...)` loop of `_assure_bigip_snats` from slot i
      on; the first slot that raises ends it. */
  function AssureLoop(env: SnatEnv, host: string, info: SubnetInfo, si: SnatInfo, tenantId: string, name: string, i: nat, n: nat, w: World): (o: Outcome)
    requires i <= n
    ensures Extends(w, o.world)
    ensures AssuredOf(o.world, host) == AssuredOf(w, host)
    ensures forall h :: h != host ==> DeviceOf(o.world.devices, h) == DeviceOf(w.devices, h)
    decreases n - i
  {
    if i == n then Outcome(w, false)
    else
      var o1 := AssureSlot(env, host, info, si, tenantId, name, i, w);
      if o1.raised then o1
      else
        var o2 := AssureLoop(env, host, info, si, tenantId, name, i + 1, n, o1.world);
        ExtendsTrans(w, o1.world, o2.world);
        o2
  }

  /** A loop that went through appended one member per slot, in order. */
  lemma {:induction false} AssureLoopAppends(env: SnatEnv, host: string, info: SubnetInfo, si: SnatInfo, tenantId: string, name: string, i: nat, n: nat, w: World)
    requires i <= n && !AssureLoop(env, host, info, si, tenantId, name, i, n, w).raised
    ensures var o := AssureLoop(env, host, info, si, tenantId, name, i, n, w);
            var pool := Path(si.poolFolder, si.poolName);
      PoolMembersOf(o.world, host, pool) ==
        PoolMembersOf(w, host, pool) + AddedMembers(si.networkFolder, env.isCommonNetwork(info.network), name, i, n)
    decreases n - i
  {
    if i < n {
      var pool := Path(si.poolFolder, si.poolName);
      var common := env.isCommonNetwork(info.network);
      var o1 := AssureSlot(env, host, info, si, tenantId, name, i, w);
      assert !o1.raised;
      assert AssureLoop(env, host, info, si, tenantId, name, i, n, w) == AssureLoop(env, host, info, si, tenantId, name, i + 1, n, o1.world);
      AssureSlotWrites(env, host, info, si, tenantId, name, i, w);
      var x := FullPath(si.networkFolder, TmosName(common, IndexName(name, i)));
      var before := PoolMembersOf(w, host, pool);
      var rest := AddedMembers(si.networkFolder, common, name, i + 1, n);
      assert PoolMembersOf(o1.world, host, pool) == before + [x];
      AssureLoopAppends(env, host, info, si, tenantId, name, i + 1, n, o1.world);
      assert AddedMembers(si.networkFolder, common, name, i, n) == [x] + rest;
      AppendAssoc(before, [x], rest);
    }
  }

  /** A loop that went through issued a successful SNAT create for every
      slot, each at its own address. */
  lemma {:induction false} AssureLoopCreates(env: SnatEnv, host: string, info: SubnetInfo, si: SnatInfo, tenantId: string, name: string, i: nat, n: nat, w: World)
    requires i <= n && !AssureLoop(env, host, info, si, tenantId, name, i, n, w).raised
    ensures CreatedSlots(NewEvents(w, AssureLoop(env, host, info, si, tenantId, name, i, n, w).world), env, info, si, tenantId, name, i, n)
    decreases n - i
  {
    if i < n {
      var o1 := AssureSlot(env, host, info, si, tenantId, name, i, w);
      var whole := AssureLoop(env, host, info, si, tenantId, name, i, n, w);
      var rest := AssureLoop(env, host, info, si, tenantId, name, i + 1, n, o1.world);
      AssureLoopUnfold(env, host, info, si, tenantId, name, i, n, w);
      AssureLoopCreates(env, host, info, si, tenantId, name, i + 1, n, o1.world);
      CreatesStep(env, info, si, tenantId, name, i, n, NewEvents(w, o1.world), NewEvents(o1.world, rest.world),
                  NewEvents(w, whole.world));
    }
  }

  /** A loop over slots i .. n-1 that went through had a network and an
      address for every one of its slots. */
  lemma {:induction false} AssureLoopHadAddresses(env: SnatEnv, host: string, info: SubnetInfo, si: SnatInfo, tenantId: string, name: string, i: nat, n: nat, w: World)
    requires i <= n && !AssureLoop(env, host, info, si, tenantId, name, i, n, w).raised
    ensures i < n ==> n <= |si.addrs| && info.network.Some?
    decreases n - i
  {
    if i < n {
      var o1 := AssureSlot(env, host, info, si, tenantId, name, i, w);
      AssureLoopUnfold(env, host, info, si, tenantId, name, i, n, w);
      AssureLoopHadAddresses(env, host, info, si, tenantId, name, i + 1, n, o1.world);
    }
  }

  /** A loop that went through from slot i: slot i went through, issued its
      SNAT create first, and the rest of the loop went through after it. */
  lemma AssureLoopUnfold(env: SnatEnv, host: string, info: SubnetInfo, si: SnatInfo, tenantId: string, name: string, i: nat, n: nat, w: World)
    requires i < n && !AssureLoop(env, host, info, si, tenantId, name, i, n, w).raised
    ensures i < |si.addrs| && info.network.Some?
    ensures var o1 := AssureSlot(env, host, info, si, tenantId, name, i, w);
      && !o1.raised
      && |NewEvents(w, o1.world)| > 0
      && NewEvents(w, o1.world)[0].call == SnatCreate(SlotSnat(env, info, si, tenantId, name, i))
      && AssureLoop(env, host, info, si, tenantId, name, i, n, w) == AssureLoop(env, host, info, si, tenantId, name, i + 1, n, o1.world)
      && NewEvents(w, AssureLoop(env, host, info, si, tenantId, name, i, n, w).world) ==
           NewEvents(w, o1.world) + NewEvents(o1.world, AssureLoop(env, host, info, si, tenantId, name, i + 1, n, o1.world).world)
  {
    var o1 := AssureSlot(env, host, info, si, tenantId, name, i, w);
    AssureSlotWrites(env, host, info, si, tenantId, name, i, w);
    ExtendsTrans(w, o1.world, AssureLoop(env, host, info, si, tenantId, name, i + 1, n, o1.world).world);
  }

  /** `ev` issued the SNAT create of every slot i .. n-1 that has an
      address. */
  predicate CreatedSlots(ev: seq<Event>, env: SnatEnv, info: SubnetInfo, si: SnatInfo, tenantId: string, name: string, i: nat, n: nat) {
    forall k :: i <= k < n && k < |si.addrs| && info.network.Some? ==>
      Issued(ev, SnatCreate(SlotSnat(env, info, si, tenantId, name, k)))
  }

  /** Slot i's create in front of the creates of slots i+1 .. n-1. */
  lemma CreatesStep(env: SnatEnv, info: SubnetInfo, si: SnatInfo, tenantId: string, name: string, i: nat, n: nat,
                    first: seq<Event>, later: seq<Event>, all: seq<Event>)
    requires all == first + later
    requires i < n && i < |si.addrs| && info.network.Some?
    requires |first| > 0 && first[0].call == SnatCreate(SlotSnat(env, info, si, tenantId, name, i))
    requires CreatedSlots(later, env, info, si, tenantId, name, i + 1, n)
    ensures CreatedSlots(all, env, info, si, tenantId, name, i, n)
  {
    forall k | i <= k < n && k < |si.addrs| && info.network.Some?
      ensures Issued(all, SnatCreate(SlotSnat(env, info, si, tenantId, name, k)))
    {
      var c := SnatCreate(SlotSnat(env, info, si, tenantId, name, k));
      IssuedAppend(first, later, c);
      if k == i { assert first[0].call == c; }
    }
  }

  /** `snat_info` as `assure_bigip_snats` builds it: the SNATs go in
      /Common on a common network and in the tenant's folder otherwise;
      the pool is named after the tenant and lives in its folder. */
  function MakeSnatInfo(env: SnatEnv, info: SubnetInfo, tenantId: string, addrs: seq<string>): (si: SnatInfo)
    ensures si.networkFolder == (if env.isCommonNetwork(info.network) then "Common" else tenantId)
    ensures si.poolName == tenantId && si.poolFolder == tenantId && si.addrs == addrs
  {
    SnatInfo(if env.isCommonNetwork(info.network) then "Common" else tenantId, tenantId, tenantId, addrs)
  }

  /** `_assure_bigip_snats`: the tenant gets a cache entry; a subnet the
      tenant already lists is left alone; otherwise every slot is set up
      and, only when all of them went through, the subnet is listed. */
  function AssureSnats(env: SnatEnv, host: string, info: SubnetInfo, si: SnatInfo, tenantId: string, w: World): (o: Outcome)
    ensures Extends(w, o.world)
    ensures forall h :: h != host ==> DeviceOf(o.world.devices, h) == DeviceOf(w.devices, h)
    ensures var cache := AssuredOf(w, host);
      && (info.subnetId in Listed(cache, tenantId) ==>
            && !o.raised && NewEvents(w, o.world) == []
            && DeviceOf(o.world.devices, host) == DeviceOf(w.devices, host).(assured := cache[tenantId := Listed(cache, tenantId)]))
      && (info.subnetId !in Listed(cache, tenantId) && !o.raised ==>
            AssuredOf(o.world, host) == AddAssured(cache, tenantId, info.subnetId))
      && (o.raised ==> AssuredOf(o.world, host) == cache[tenantId := Listed(cache, tenantId)])
  {
    var cache := AssuredOf(w, host);
    var w1 := WithTenantKey(w, host, tenantId);
    if info.subnetId in Listed(cache, tenantId) then Outcome(w1, false)
    else
      var o := AssureLoop(env, host, info, si, tenantId, SnatNameOf(env, info.subnetId, tenantId), 0, Slots(env.addressesPerSubnet), w1);
      if o.raised then o
      else Outcome(SetAssured(o.world, host, AddAssured(AssuredOf(o.world, host), tenantId, info.subnetId)), false)
  }

  /** The tenant gets a cache entry, empty when it had none. */
  function WithTenantKey(w: World, host: string, tenantId: string): (r: World)
    ensures r.log == w.log
    ensures DeviceOf(r.devices, host) ==
      DeviceOf(w.devices, host).(assured := AssuredOf(w, host)[tenantId := Listed(AssuredOf(w, host), tenantId)])
    ensures forall h :: h != host ==> DeviceOf(r.devices, h) == DeviceOf(w.devices, h)
  {
    var cache := AssuredOf(w, host);
    if tenantId in cache then
      assert cache[tenantId := Listed(cache, tenantId)] == cache;
      assert DeviceOf(w.devices, host).(assured := cache) == DeviceOf(w.devices, host);
      w
    else SetAssured(w, host, cache[tenantId := []])
  }

  /** `assure_bigip_snats`: SNATs go to "Common" on a common network and
      to the tenant's folder otherwise; the pool is the tenant's own. Only
      the one BIG-IP is touched. */
  function AssureBigipSnats(env: SnatEnv, host: string, info: SubnetInfo, addrs: seq<string>, tenantId: string, w: World): (o: Outcome)
    ensures Extends(w, o.world)
    ensures forall h :: h != host ==> DeviceOf(o.world.devices, h) == DeviceOf(w.devices, h)
  {
    AssureSnats(env, host, info, MakeSnatInfo(env, info, tenantId, addrs), tenantId, w)
  }

  /** The cache lists stay free of duplicates across an assure. */
  lemma AssureKeepsCacheNoDup(env: SnatEnv, host: string, info: SubnetInfo, addrs: seq<string>, tenantId: string, w: World)
    requires CacheNoDup(AssuredOf(w, host))
    ensures CacheNoDup(AssuredOf(AssureBigipSnats(env, host, info, addrs, tenantId, w).world, host))
  {
    var cache := AssuredOf(w, host);
    if info.subnetId !in Listed(cache, tenantId) {
      AddAssuredKeepsNoDup(cache, tenantId, info.subnetId);
    }
  }

  /** An assure of a new subnet that went through appended the full path of
      every slot's SNAT to the tenant's pool, in slot order. */
  lemma AssureAppendsMembers(env: SnatEnv, host: string, info: SubnetInfo, addrs: seq<string>, tenantId: string, w: World)
    requires info.subnetId !in Listed(AssuredOf(w, host), tenantId)
    requires !AssureBigipSnats(env, host, info, addrs, tenantId, w).raised
    ensures var pool := Path(tenantId, tenantId);
            var common := env.isCommonNetwork(info.network);
      PoolMembersOf(AssureBigipSnats(env, host, info, addrs, tenantId, w).world, host, pool) ==
        PoolMembersOf(w, host, pool) +
        AddedMembers(if common then "Common" else tenantId, common, SnatNameOf(env, info.subnetId, tenantId), 0, Slots(env.addressesPerSubnet))
  {
    var si := MakeSnatInfo(env, info, tenantId, addrs);
    var w1 := WithTenantKey(w, host, tenantId);
    assert PoolMembersOf(w1, host, Path(tenantId, tenantId)) == PoolMembersOf(w, host, Path(tenantId, tenantId));
    AssureLoopAppends(env, host, info, si, tenantId, SnatNameOf(env, info.subnetId, tenantId), 0, Slots(env.addressesPerSubnet), w1);
  }

  /* ---------- delete_bigip_snats ---------- */

  /** What `_delete_bigip_snats` returns, the world after it, and whether
      an exception escaped (the sets mean nothing then). */
  datatype DeleteResult = DeleteResult(world: World, raised: bool, deletedNames: set<string>, inUseSubnets: set<string>)

  /** With an L3 binding: load the slot's SNAT translation from the
      tenant's folder and unbind its address from the subnet. */
  function UnbindSlot(env: SnatEnv, host: string, subnetId: string, tenantId: string, indexName: string, w: World): (o: Outcome)
    ensures Extends(w, o.world)
    ensures AssuredOf(o.world, host) == AssuredOf(w, host)
    ensures forall h :: DeviceOf(o.world.devices, h) == DeviceOf(w.devices, h)
    ensures !env.l3Binding ==> o == Outcome(w, false)
    ensures env.l3Binding ==>
      && |NewEvents(w, o.world)| > 0
      && NewEvents(w, o.world)[0].call == SnatTranslationLoad(Path(tenantId, indexName))
      && (NewEvents(w, o.world)[0].ok <==> |NewEvents(w, o.world)| == 2)
      && (|NewEvents(w, o.world)| == 2 ==> NewEvents(w, o.world)[1].call.UnbindAddress? && NewEvents(w, o.world)[1].call.subnetId == subnetId)
  {
    if !env.l3Binding then Outcome(w, false)
    else
      var path := Path(tenantId, indexName);
      var o1 := Exec(env.fails, w, OnDevice(host), SnatTranslationLoad(path));
      ExecOnHost(env.fails, w, host, OnDevice(host), SnatTranslationLoad(path));
      if o1.raised then o1
      else
        var address := env.translationAddress(o1.world, host, path);
        var o2 := Exec(env.fails, o1.world, L3Binding, UnbindAddress(subnetId, address));
        ExecOnHost(env.fails, o1.world, host, L3Binding, UnbindAddress(subnetId, address));
        ExtendsTrans(w, o1.world, o2.world);
        o2
  }

  /** Write back the kept members; delete the pool when none are left. */
  function WriteBack(fails: Oracle, host: string, pool: Path, kept: seq<string>, w: World): (o: Outcome)
    ensures Extends(w, o.world)
    ensures AssuredOf(o.world, host) == AssuredOf(w, host)
    ensures forall h :: h != host ==> DeviceOf(o.world.devices, h) == DeviceOf(w.devices, h)
    ensures !o.raised ==>
      && (pool in DeviceOf(o.world.devices, host).snatPools <==> |kept| > 0)
      && PoolMembersOf(o.world, host, pool) == kept
      && NewEvents(w, o.world) == [Event(OnDevice(host), SnatPoolUpdate(pool, kept), true)] +
           (if |kept| == 0 then [Event(OnDevice(host), SnatPoolDelete(pool), true)] else [])
  {
    var o1 := Exec(fails, w, OnDevice(host), SnatPoolUpdate(pool, kept));
    ExecOnHost(fails, w, host, OnDevice(host), SnatPoolUpdate(pool, kept));
    if o1.raised || |kept| > 0 then o1
    else
      var o2 := Exec(fails, o1.world, OnDevice(host), SnatPoolDelete(pool));
      ExecOnHost(fails, o1.world, host, OnDevice(host), SnatPoolDelete(pool));
      ExtendsTrans(w, o1.world, o2.world);
      o2
  }

  /** Load the tenant's SNAT pool (a missing pool raises), then write back
      the members the filter as written keeps. */
  function ShrinkPool(fails: Oracle, host: string, pool: Path, tmosName: string, w: World): (o: Outcome)
    ensures Extends(w, o.world)
    ensures AssuredOf(o.world, host) == AssuredOf(w, host)
    ensures forall h :: h != host ==> DeviceOf(o.world.devices, h) == DeviceOf(w.devices, h)
    ensures pool !in DeviceOf(w.devices, host).snatPools ==> o.raised
    ensures !o.raised ==>
      var kept := FilterAsWritten(PoolMembersOf(w, host, pool), tmosName);
      && (pool in DeviceOf(o.world.devices, host).snatPools <==> |kept| > 0)
      && PoolMembersOf(o.world, host, pool) == kept
      && |NewEvents(w, o.world)| == (if |kept| == 0 then 3 else 2)
      && NewEvents(w, o.world)[0] == Event(OnDevice(host), SnatPoolLoad(pool), true)
      && NewEvents(w, o.world)[1] == Event(OnDevice(host), SnatPoolUpdate(pool, kept), true)
  {
    var o1 := Exec(fails, w, OnDevice(host), SnatPoolLoad(pool));
    ExecOnHost(fails, w, host, OnDevice(host), SnatPoolLoad(pool));
    if o1.raised then o1
    else
      assert PoolMembersOf(o1.world, host, pool) == PoolMembersOf(w, host, pool);
      var o2 := WriteBack(fails, host, pool, FilterAsWritten(PoolMembersOf(o1.world, host, pool), tmosName), o1.world);
      ExtendsTrans(w, o1.world, o2.world);
      o2
  }

  /** One slot of `_delete_bigip_snats`: unbind, shrink the tenant's pool,
      drop the subnet from the tenant's cache list, then decide whether
      the subnet is still in use and whether the slot's port may go. */
  function DeleteSlot(env: SnatEnv, host: string, info: SubnetInfo, tenantId: string, name: string, i: nat, w: World): (r: DeleteResult)
    ensures Extends(w, r.world)
    ensures forall h :: h != host ==> DeviceOf(r.world.devices, h) == DeviceOf(w.devices, h)
    ensures r.deletedNames <= {IndexName(name, i)} && r.inUseSubnets <= {info.subnetId}
    ensures !r.raised ==>
      var tmos := TmosName(env.isCommonNetwork(info.network), IndexName(name, i));
      var cache := RemoveAssured(AssuredOf(w, host), tenantId, info.subnetId);
      && AssuredOf(r.world, host) == cache
      && (IndexName(name, i) in r.deletedNames <==> env.useCount(r.world, host, tmos) == 0)
      && (info.subnetId in r.inUseSubnets <==>
            (exists t :: t in cache && info.subnetId in cache[t]) || env.useCount(r.world, host, info.subnetId) != 0)
  {
    var idx := IndexName(name, i);
    var tmos := TmosName(env.isCommonNetwork(info.network), idx);
    var o1 := UnbindSlot(env, host, info.subnetId, tenantId, idx, w);
    if o1.raised then DeleteResult(o1.world, true, {}, {})
    else
      var o2 := ShrinkPool(env.fails, host, Path(tenantId, tenantId), tmos, o1.world);
      ExtendsTrans(w, o1.world, o2.world);
      if o2.raised then DeleteResult(o2.world, true, {}, {})
      else
        var cache := RemoveAssured(AssuredOf(o2.world, host), tenantId, info.subnetId);
        var w3 := SetAssured(o2.world, host, cache);
        var inUse := ListingCount(cache, info.subnetId) != 0 || env.useCount(w3, host, info.subnetId) != 0;
        var deleted := env.useCount(w3, host, tmos) == 0;
        DeleteResult(w3, false, if deleted then {idx} else {}, if inUse then {info.subnetId} else {})
  }

  /** A slot that went through left in the tenant's pool only members it
      had before, and none that the filter removes. */
  lemma DeleteSlotShrinksPool(env: SnatEnv, host: string, info: SubnetInfo, tenantId: string, name: string, i: nat, w: World)
    requires !DeleteSlot(env, host, info, tenantId, name, i, w).raised
    ensures var pool := Path(tenantId, tenantId);
            var tmos := TmosName(env.isCommonNetwork(info.network), IndexName(name, i));
            var after := PoolMembersOf(DeleteSlot(env, host, info, tenantId, name, i, w).world, host, pool);
      && pool in DeviceOf(w.devices, host).snatPools
      && after == FilterAsWritten(PoolMembersOf(w, host, pool), tmos)
      && (pool in DeviceOf(DeleteSlot(env, host, info, tenantId, name, i, w).world.devices, host).snatPools <==> |after| > 0)
  {
    var idx := IndexName(name, i);
    var tmos := TmosName(env.isCommonNetwork(info.network), idx);
    var pool := Path(tenantId, tenantId);
    var o1 := UnbindSlot(env, host, info.subnetId, tenantId, idx, w);
    assert PoolMembersOf(o1.world, host, pool) == PoolMembersOf(w, host, pool);
  }

  /** The `for i in range(...)` loop of `_delete_bigip_snats` from slot i
      on, accumulating both result sets; the first slot that raises ends
      it. */
  function DeleteLoop(env: SnatEnv, host: string, info: SubnetInfo, tenantId: string, name: string, i: nat, n: nat,
                      w: World, deleted: set<string>, inUse: set<string>): (r: DeleteResult)
    requires i <= n
    ensures Extends(w, r.world)
    ensures forall h :: h != host ==> DeviceOf(r.world.devices, h) == DeviceOf(w.devices, h)
    ensures deleted <= r.deletedNames && inUse <= r.inUseSubnets <= inUse + {info.subnetId}
    ensures forall x :: x in r.deletedNames ==> x in deleted || exists k :: i <= k < n && x == IndexName(name, k)
    decreases n - i
  {
    if i == n then DeleteResult(w, false, deleted, inUse)
    else
      var r1 := DeleteSlot(env, host, info, tenantId, name, i, w);
      if r1.raised then DeleteResult(r1.world, true, deleted, inUse)
      else
        var r2 := DeleteLoop(env, host, info, tenantId, name, i + 1, n, r1.world, deleted + r1.deletedNames, inUse + r1.inUseSubnets);
        ExtendsTrans(w, r1.world, r2.world);
        r2
  }

  /** `delete_bigip_snats`: a missing network is skipped with empty
      results and no call. */
  function DeleteBigipSnats(env: SnatEnv, host: string, info: SubnetInfo, tenantId: string, w: World): (r: DeleteResult)
    ensures Extends(w, r.world)
    ensures forall h :: h != host ==> DeviceOf(r.world.devices, h) == DeviceOf(w.devices, h)
    ensures info.network.None? ==> r == DeleteResult(w, false, {}, {})
    ensures r.inUseSubnets <= {info.subnetId}
    ensures forall x :: x in r.deletedNames ==>
      exists k :: 0 <= k < Slots(env.addressesPerSubnet) && x == IndexName(SnatNameOf(env, info.subnetId, tenantId), k)
  {
    if info.network.None? then DeleteResult(w, false, {}, {})
    else DeleteLoop(env, host, info, tenantId, SnatNameOf(env, info.subnetId, tenantId), 0, Slots(env.addressesPerSubnet), w, {}, {})
  }

  lemma IndexNameHasNoSlash(name: string, i: nat)
    requires '/' !in name
    ensures '/' !in IndexName(name, i)
  {
    var s := NatToString(i);
    assert forall k :: 0 <= k < |s| ==> IsDigit(s[k]);
    assert IndexName(name, i) == name + "_" + s;
  }

  /** A slot that went through keeps only earlier members. Off a common
      network it removes the member the assure path added for it; on a
      common network the filter as written keeps the whole pool. */
  lemma DeleteSlotRemovesOwn(env: SnatEnv, host: string, info: SubnetInfo, tenantId: string, name: string, i: nat, w: World)
    requires '/' !in tenantId && '/' !in name
    requires !DeleteSlot(env, host, info, tenantId, name, i, w).raised
    ensures var before := PoolMembersOf(w, host, Path(tenantId, tenantId));
            var after := PoolMembersOf(DeleteSlot(env, host, info, tenantId, name, i, w).world, host, Path(tenantId, tenantId));
      && (forall m :: m in after ==> m in before)
      && (!env.isCommonNetwork(info.network) ==> AddedMember(false, tenantId, IndexName(name, i)) !in after)
      && (env.isCommonNetwork(info.network) ==> after == before)
  {
    var pool := Path(tenantId, tenantId);
    var common := env.isCommonNetwork(info.network);
    var idx := IndexName(name, i);
    var tmos := TmosName(common, idx);
    var before := PoolMembersOf(w, host, pool);
    DeleteSlotShrinksPool(env, host, info, tenantId, name, i, w);
    forall m | m in FilterAsWritten(before, tmos) ensures m in before {
      FilterAsWrittenMembership(before, tmos, m);
    }
    IndexNameHasNoSlash(name, i);
    if common {
      assert tmos[0] == '/';
      FilterAsWrittenKeepsAll(before, tmos);
    } else {
      FilterAgreesOffCommon(before, idx);
      FilterRemovesAddedMember(false, tenantId, idx, before);
    }
  }

  /** A delete loop that went through keeps only earlier members. Off a
      common network it leaves none of the members the assure path adds
      for its slots; on a common network the pool comes out unchanged. */
  lemma {:induction false} DeleteLoopRemovesSlots(env: SnatEnv, host: string, info: SubnetInfo, tenantId: string, name: string, i: nat, n: nat,
                                                  w: World, deleted: set<string>, inUse: set<string>)
    requires i <= n && '/' !in tenantId && '/' !in name
    requires !DeleteLoop(env, host, info, tenantId, name, i, n, w, deleted, inUse).raised
    ensures var before := PoolMembersOf(w, host, Path(tenantId, tenantId));
            var after := PoolMembersOf(DeleteLoop(env, host, info, tenantId, name, i, n, w, deleted, inUse).world, host, Path(tenantId, tenantId));
      && (forall m :: m in after ==> m in before)
      && (!env.isCommonNetwork(info.network) ==>
            forall k :: i <= k < n ==> AddedMember(false, tenantId, IndexName(name, k)) !in after)
      && (env.isCommonNetwork(info.network) ==> after == before)
    decreases n - i
  {
    if i < n {
      var pool := Path(tenantId, tenantId);
      var common := env.isCommonNetwork(info.network);
      var r1 := DeleteSlot(env, host, info, tenantId, name, i, w);
      assert !r1.raised;
      var d1, u1 := deleted + r1.deletedNames, inUse + r1.inUseSubnets;
      var r2 := DeleteLoop(env, host, info, tenantId, name, i + 1, n, r1.world, d1, u1);
      assert DeleteLoop(env, host, info, tenantId, name, i, n, w, deleted, inUse) == r2;
      DeleteSlotRemovesOwn(env, host, info, tenantId, name, i, w);
      DeleteLoopRemovesSlots(env, host, info, tenantId, name, i + 1, n, r1.world, d1, u1);
      var mid := PoolMembersOf(r1.world, host, pool);
      var after := PoolMembersOf(r2.world, host, pool);
      if !common {
        SlotsGoneStep(false, tenantId, name, i, n, PoolMembersOf(w, host, pool), mid, after);
      }
    }
  }

  /** One more slot gone: the members removed so far stay removed. */
  lemma SlotsGoneStep(common: bool, tenantId: string, name: string, i: nat, n: nat, before: seq<string>, mid: seq<string>, after: seq<string>)
    requires i < n
    requires forall m :: m in mid ==> m in before
    requires AddedMember(common, tenantId, IndexName(name, i)) !in mid
    requires forall m :: m in after ==> m in mid
    requires forall k :: i + 1 <= k < n ==> AddedMember(common, tenantId, IndexName(name, k)) !in after
    ensures forall m :: m in after ==> m in before
    ensures forall k :: i <= k < n ==> AddedMember(common, tenantId, IndexName(name, k)) !in after
  {
    forall k | i <= k < n ensures AddedMember(common, tenantId, IndexName(name, k)) !in after {
      if k == i {
        assert AddedMember(common, tenantId, IndexName(name, i)) !in mid;
      }
    }
  }

  /** Assure then delete, both going through: the assure appended every
      slot's member to the tenant's pool. Off a common network the delete
      takes all of them out again; on a common network the filter as
      written keeps them all and the pool is left as the assure left it. */
  lemma AssureThenDeleteSlotMembers(env: SnatEnv, host: string, info: SubnetInfo, addrs: seq<string>, tenantId: string, w: World)
    requires '/' !in tenantId && '/' !in SnatNameOf(env, info.subnetId, tenantId)
    requires info.subnetId !in Listed(AssuredOf(w, host), tenantId)
    requires !AssureBigipSnats(env, host, info, addrs, tenantId, w).raised
    requires !DeleteBigipSnats(env, host, info, tenantId, AssureBigipSnats(env, host, info, addrs, tenantId, w).world).raised
    ensures var common := env.isCommonNetwork(info.network);
            var added := AddedMembers(if common then "Common" else tenantId, common, SnatNameOf(env, info.subnetId, tenantId), 0, Slots(env.addressesPerSubnet));
            var w1 := AssureBigipSnats(env, host, info, addrs, tenantId, w).world;
            var w2 := DeleteBigipSnats(env, host, info, tenantId, w1).world;
      && (forall m :: m in added ==> m in PoolMembersOf(w1, host, Path(tenantId, tenantId)))
      && (info.network.Some? && !common ==> forall m :: m in added ==> m !in PoolMembersOf(w2, host, Path(tenantId, tenantId)))
      && (common ==> PoolMembersOf(w2, host, Path(tenantId, tenantId)) == PoolMembersOf(w1, host, Path(tenantId, tenantId)))
  {
    var common := env.isCommonNetwork(info.network);
    var name := SnatNameOf(env, info.subnetId, tenantId);
    var n := Slots(env.addressesPerSubnet);
    var w1 := AssureBigipSnats(env, host, info, addrs, tenantId, w).world;
    AssureAppendsMembers(env, host, info, addrs, tenantId, w);
    if info.network.Some? {
      DeleteLoopRemovesSlots(env, host, info, tenantId, name, 0, n, w1, {}, {});
      if !common {
        NoAddedMemberLeft(tenantId, name, n, PoolMembersOf(DeleteBigipSnats(env, host, info, tenantId, w1).world, host, Path(tenantId, tenantId)));
      }
    }
  }

  /** No slot's member is left, so none of the appended list is. */
  lemma NoAddedMemberLeft(tenantId: string, name: string, n: nat, after: seq<string>)
    requires forall k :: 0 <= k < n ==> AddedMember(false, tenantId, IndexName(name, k)) !in after
    ensures forall m :: m in AddedMembers(tenantId, false, name, 0, n) ==> m !in after
  {
    forall m | m in AddedMembers(tenantId, false, name, 0, n) ensures m !in after {
      var added := AddedMembers(tenantId, false, name, 0, n);
      var k :| 0 <= k < |added| && added[k] == m;
      assert m == AddedMember(false, tenantId, IndexName(name, k));
    }
  }
}
