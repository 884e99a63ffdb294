/** `ServiceModelAdapter`: the pure mapping from LBaaS objects to BIG-IP
    resource descriptors (the dictionaries handed to the device client). */
module ServiceAdapter {
  import opened Wrappers
  import opened Text
  import opened Lbaas

  /** The agent configuration the adapter reads. */
  datatype Config = Config(environmentPrefix: string)

  /* ---------- descriptors ---------- */

  datatype PoolDescriptor = PoolDescriptor(
    name: string,
    partition: string,
    description: Option<string>,
    loadBalancingMode: Option<string>,
    monitor: Option<string>)

  datatype MonitorDescriptor = MonitorDescriptor(
    name: string,
    partition: string,
    send: Option<string>,
    recv: Option<string>,
    interval: Option<int>,
    timeout: Option<int>)

  /** The `sourceAddressTranslation` sub-dictionary. */
  datatype AddressTranslation = Automap | SnatPool(pool: string)

  /** A virtual-server descriptor. `enabled` and `disabled` record whether
      the key of that name was set (it is only ever set to True). */
  datatype VirtualDescriptor = VirtualDescriptor(
    name: string,
    partition: string,
    description: Option<string>,
    ipProtocol: Option<string>,
    connectionLimit: Option<int>,
    destination: Option<string>,
    enabled: bool,
    disabled: bool,
    profiles: Option<seq<string>>,
    vlanName: Option<string>,
    snatPoolName: Option<string>,
    sourceAddressTranslation: Option<AddressTranslation>)

  datatype MemberDescriptor = MemberDescriptor(
    name: string,
    partition: string,
    address: string)

  /** The `{"name", "partition"}` dictionaries of `get_pool_name` and
      `get_virtual_name`. */
  datatype ResourceName = ResourceName(name: string, partition: string)

  datatype TrafficGroupDescriptor = TrafficGroupDescriptor(
    name: string,
    partition: string,
    trafficGroup: string)

  /* ---------- folders and traffic groups ---------- */

  const CommonFolder := "Common"

  /** The tenant's partition: the environment prefix followed by the tenant
      id with every '/' removed, or "Common" when there is no tenant. */
  function FolderName(conf: Config, tenantId: Option<string>): (r: string)
    ensures tenantId.None? ==> r == CommonFolder
    ensures tenantId.Some? ==>
      && StartsWith(r, conf.environmentPrefix)
      && '/' !in r[|conf.environmentPrefix|..]
      && (forall c :: c != '/' ==> (c in r[|conf.environmentPrefix|..] <==> c in tenantId.value))
      && ('/' !in tenantId.value ==> r == conf.environmentPrefix + tenantId.value)
      // `replace('/', '')` is `''.join(split('/'))`: the pieces between the slashes, in order
      && r == conf.environmentPrefix + Join(Split(tenantId.value, '/'), "")
  {
    match tenantId
    case Some(t) =>
      var r := conf.environmentPrefix + RemoveChar(t, '/');
      assert r[|conf.environmentPrefix|..] == RemoveChar(t, '/');
      JoinSplitIsRemove(t, '/');
      r
    case None => CommonFolder
  }

  /** The tenant's traffic group: the digest of the tenant id modulo the
      number of groups picks the group. `digest` stands for the integer value
      of the MD5 hex digest. An empty list is Python's ZeroDivisionError. */
  function TenantToTrafficGroup(tenantId: string, trafficGroups: seq<string>, digest: string -> nat): (r: Option<string>)
    ensures r.Some? <==> |trafficGroups| > 0
    ensures r.Some? ==> r.value in trafficGroups
    ensures r.Some? ==> exists k :: 0 <= k < |trafficGroups| && k == digest(tenantId) % |trafficGroups| && r.value == trafficGroups[k]
  {
    if |trafficGroups| == 0 then None
    else Some(trafficGroups[digest(tenantId) % |trafficGroups|])
  }

  /* ---------- health monitors ---------- */

  const RecvPrefix := "HTTP/1.(0|1) "
  const DefaultRecv := RecvPrefix + "200"

  /** The pieces followed each by a '|', as the receive-string loop builds
      them before its trailing '|' is cut. */
  function PipeTerminated(pieces: seq<string>): (r: string)
    ensures |pieces| > 0 ==> |r| > 0 && r[|r| - 1] == '|'
  {
    if |pieces| == 0 then "" else pieces[0] + "|" + PipeTerminated(pieces[1..])
  }

  lemma {:induction false} PipeTerminatedIsJoin(pieces: seq<string>)
    requires |pieces| > 0
    ensures PipeTerminated(pieces)[..|PipeTerminated(pieces)| - 1] == Join(pieces, "|")
  {
    if |pieces| > 1 {
      PipeTerminatedIsJoin(pieces[1..]);
      var t := PipeTerminated(pieces[1..]);
      assert PipeTerminated(pieces) == pieces[0] + "|" + t;
      assert (pieces[0] + "|" + t)[..|pieces[0] + "|" + t| - 1] == pieces[0] + "|" + t[..|t| - 1];
    }
  }

  predicate AllIntLiterals(pieces: seq<string>) {
    forall k :: 0 <= k < |pieces| ==> IsIntLiteral(pieces[k])
  }

  /** The receive string for the monitor's `expected_codes`, following
      `_get_recv_text`: the first separator decides the syntax, a piece that
      `int()` rejects (or a missing field) gives the 200 fallback. */
  function RecvText(expectedCodes: Option<string>): (r: string)
    ensures StartsWith(r, RecvPrefix)
  {
    match expectedCodes
    case None => DefaultRecv
    case Some(codes) =>
      if Find(codes, ',') > 0 then
        var pieces := Split(codes, ',');
        if AllIntLiterals(pieces) then
          var text := RecvPrefix + "(" + PipeTerminated(pieces);
          text[..|text| - 1] + ")"
        else DefaultRecv
      else if Find(codes, '-') > 0 then
        var range := Split(codes, '-');
        assert |range| >= 2 by { SplitFoundHasTwoPieces(codes, '-'); }
        if IsIntLiteral(range[0]) && IsIntLiteral(range[1]) then
          RecvPrefix + "[" + range[0] + "-" + range[1] + "]"
        else DefaultRecv
      else if IsIntLiteral(codes) then RecvPrefix + codes
      else DefaultRecv
  }

  lemma SplitFoundHasTwoPieces(s: string, c: char)
    requires c in s
    ensures |Split(s, c)| >= 2
    ensures Split(s, c)[0] == s[..Find(s, c)]
  {
  }

  /** The three syntaxes of `expected_codes`, stated over the input string. */
  lemma RecvTextCommaList(codes: string)
    requires Find(codes, ',') > 0
    ensures AllIntLiterals(Split(codes, ',')) ==>
      RecvText(Some(codes)) == RecvPrefix + "(" + ReplaceChar(codes, ',', '|') + ")"
    ensures !AllIntLiterals(Split(codes, ',')) ==> RecvText(Some(codes)) == DefaultRecv
  {
    var pieces := Split(codes, ',');
    if AllIntLiterals(pieces) {
      PipeListText(pieces);
      JoinSplitIsReplace(codes, ',', '|');
    }
  }

  /** Cutting the trailing '|' off the loop's text leaves the pieces joined
      by '|'. */
  lemma PipeListText(pieces: seq<string>)
    requires |pieces| > 0
    ensures var text := RecvPrefix + "(" + PipeTerminated(pieces);
      text[..|text| - 1] + ")" == RecvPrefix + "(" + Join(pieces, "|") + ")"
  {
    var body := PipeTerminated(pieces);
    var text := RecvPrefix + "(" + body;
    PipeTerminatedIsJoin(pieces);
    assert text[..|text| - 1] == RecvPrefix + "(" + body[..|body| - 1];
  }

  lemma RecvTextRange(codes: string)
    requires Find(codes, ',') <= 0 && Find(codes, '-') > 0
    ensures var d := Find(codes, '-');
            var lo := codes[..d];
            var hi := Split(codes[d + 1..], '-')[0];
            RecvText(Some(codes)) ==
              if IsIntLiteral(lo) && IsIntLiteral(hi) then RecvPrefix + "[" + lo + "-" + hi + "]"
              else DefaultRecv
  {
    var d := Find(codes, '-');
    var range := Split(codes, '-');
    assert range == [codes[..d]] + Split(codes[d + 1..], '-');
  }

  lemma RecvTextSingle(codes: string)
    requires Find(codes, ',') <= 0 && Find(codes, '-') <= 0
    ensures RecvText(Some(codes)) == if IsIntLiteral(codes) then RecvPrefix + codes else DefaultRecv
  {
  }

  const MonitorPrefix := "hm_"

  function MonitorName(hm: HealthMonitor): string {
    MonitorPrefix + hm.id
  }

  predicate IsHttpType(t: Option<string>) {
    t == Some("HTTP") || t == Some("HTTPS")
  }

  /** The request line an HTTP(S) monitor sends. The two `\r\n` pairs are
      literal backslash sequences, as the device expects them. */
  function SendText(urlPath: Option<string>): string {
    "GET " + urlPath.GetOr("/") + " HTTP/1.0\\r\\n\\r\\n"
  }

  function MapHealthMonitor(conf: Config, lb: LoadBalancer, hm: HealthMonitor): (r: MonitorDescriptor)
    ensures r.name == MonitorPrefix + hm.id
    ensures r.partition == FolderName(conf, lb.tenantId)
    ensures r.send.Some? <==> IsHttpType(hm.monitorType)
    ensures r.recv.Some? <==> IsHttpType(hm.monitorType)
    ensures r.send.Some? ==> r.send.value == "GET " + hm.urlPath.GetOr("/") + " HTTP/1.0\\r\\n\\r\\n"
    ensures r.recv.Some? ==> r.recv.value == RecvText(hm.expectedCodes)
    ensures r.interval == hm.delay
    ensures r.timeout.Some? <==> hm.timeout.Some? && hm.maxRetries.Some?
    ensures r.timeout.Some? ==> r.timeout.value == hm.maxRetries.value * hm.timeout.value
  {
    var http := IsHttpType(hm.monitorType);
    MonitorDescriptor(
      name := MonitorName(hm),
      partition := FolderName(conf, lb.tenantId),
      send := if http then Some(SendText(hm.urlPath)) else None,
      recv := if http then Some(RecvText(hm.expectedCodes)) else None,
      interval := hm.delay,
      timeout := if hm.timeout.Some? && hm.maxRetries.Some? then Some(hm.maxRetries.value * hm.timeout.value) else None)
  }

  /* ---------- pools ---------- */

  /** The load-balancing method table, keyed by the upper-cased algorithm. */
  const LbMethodTable: map<string, string> := map[
    "LEAST_CONNECTIONS" := "least-connections-member",
    "RATIO_LEAST_CONNECTIONS" := "ratio-least-connections-member",
    "SOURCE_IP" := "least-connections-node",
    "OBSERVED_MEMBER" := "observed-member",
    "PREDICTIVE_MEMBER" := "predictive-member",
    "RATIO" := "ratio-member"]

  const DefaultLbMethod := "round-robin"

  /** The method for an algorithm name, compared case-insensitively;
      anything outside the table is round robin. */
  function LbMethod(algorithm: string): (r: string)
    ensures Upper(algorithm) in LbMethodTable ==> r == LbMethodTable[Upper(algorithm)]
    ensures Upper(algorithm) !in LbMethodTable ==> r == DefaultLbMethod
    ensures r in LbMethodTable.Values + {DefaultLbMethod}
  {
    var m := Upper(algorithm);
    if m == "LEAST_CONNECTIONS" then "least-connections-member"
    else if m == "RATIO_LEAST_CONNECTIONS" then "ratio-least-connections-member"
    else if m == "SOURCE_IP" then "least-connections-node"
    else if m == "OBSERVED_MEMBER" then "observed-member"
    else if m == "PREDICTIVE_MEMBER" then "predictive-member"
    else if m == "RATIO" then "ratio-member"
    else DefaultLbMethod
  }

  function MapPool(conf: Config, lb: LoadBalancer, pool: Pool, hm: Option<HealthMonitor>): (r: PoolDescriptor)
    ensures r.name == pool.name
    ensures r.partition == FolderName(conf, lb.tenantId)
    ensures r.description == pool.description
    ensures r.loadBalancingMode.Some? <==> pool.lbAlgorithm.Some?
    ensures r.loadBalancingMode.Some? ==> r.loadBalancingMode.value == LbMethod(pool.lbAlgorithm.value)
    ensures r.monitor.Some? <==> hm.Some?
    ensures hm.Some? ==> r.monitor == Some(MonitorPrefix + hm.value.id)
  {
    PoolDescriptor(
      name := pool.name,
      partition := FolderName(conf, lb.tenantId),
      description := pool.description,
      loadBalancingMode := if pool.lbAlgorithm.Some? then Some(LbMethod(pool.lbAlgorithm.value)) else None,
      monitor := if hm.Some? then Some(MonitorName(hm.value)) else None)
  }

  /* ---------- virtual servers and members ---------- */

  /** `ip:port`, or `ip.port` when the address contains ':' (IPv6). */
  function EndpointName(ip: string, port: int): string {
    if ':' in ip then ip + "." + IntToString(port) else ip + ":" + IntToString(port)
  }

  /** The VIP with a trailing default route domain `%0` removed. */
  function StripDefaultRouteDomain(ip: string): (r: string)
    ensures EndsWith(ip, "%0") ==> ip == r + "%0"
    ensures !EndsWith(ip, "%0") ==> r == ip
  {
    if EndsWith(ip, "%0") then ip[..|ip| - 2] else ip
  }

  function ClampConnectionLimit(limit: int): int {
    if limit < 0 then 0 else limit
  }

  const FastL4Profile := "/Common/fastL4"

  function MapVirtual(conf: Config, lb: LoadBalancer, listener: Listener): (v: VirtualDescriptor)
    ensures v.connectionLimit.Some? <==> listener.connectionLimit.Some?
    ensures v.connectionLimit.Some? ==>
      v.connectionLimit.value == if listener.connectionLimit.value < 0 then 0 else listener.connectionLimit.value
    ensures v.destination.Some? <==> listener.protocolPort.Some? && lb.vipAddress.Some?
    ensures v.destination.Some? ==>
      IsEndpoint(v.destination.value, StripDefaultRouteDomain(lb.vipAddress.value), listener.protocolPort.value)
    ensures v.profiles.None? && v.vlanName.None? && v.snatPoolName.None? && v.sourceAddressTranslation.None?
  {
    EndpointRoundTrip(StripDefaultRouteDomain(lb.vipAddress.GetOr("")), listener.protocolPort.GetOr(0));
    VirtualDescriptor(
      name := listener.name,
      partition := FolderName(conf, lb.tenantId),
      description := listener.description,
      ipProtocol := if listener.protocol.Some? then Some("tcp") else None,
      connectionLimit :=
        if listener.connectionLimit.Some? then Some(ClampConnectionLimit(listener.connectionLimit.value)) else None,
      destination :=
        if listener.protocolPort.Some? && lb.vipAddress.Some? then
          Some(EndpointName(StripDefaultRouteDomain(lb.vipAddress.value), listener.protocolPort.value))
        else None,
      enabled := listener.adminStateUp == Some(true),
      disabled := listener.adminStateUp == Some(false),
      profiles := None,
      vlanName := None,
      snatPoolName := None,
      sourceAddressTranslation := None)
  }

  /** `_add_bigip_items`: profile, VLAN and SNAT settings a create needs. */
  function AddBigipItems(listener: Listener, vip: VirtualDescriptor): (r: VirtualDescriptor)
    ensures r.(profiles := vip.profiles, vlanName := vip.vlanName, snatPoolName := vip.snatPoolName,
               sourceAddressTranslation := vip.sourceAddressTranslation) == vip
  {
    var fastL4 :=
      !(listener.protocol == Some("HTTP") || listener.protocol == Some("HTTPS"))
      && listener.sessionPersistence != Some("APP_COOKIE");
    var vip1 := if fastL4 then vip.(profiles := Some([FastL4Profile])) else vip;
    var vip2 :=
      if listener.networkName.Some? then
        vip1.(vlanName := listener.networkName,
              snatPoolName := if listener.snatPoolName.Some? then listener.snatPoolName else vip1.snatPoolName)
      else vip1;
    if listener.useSnat == Some(true) then
      vip2.(sourceAddressTranslation :=
              Some(if vip2.snatPoolName.Some? then SnatPool(vip2.snatPoolName.value) else Automap))
    else vip2
  }

  function MapMember(conf: Config, lb: LoadBalancer, member: Member): (r: MemberDescriptor)
    ensures r.address == member.address
    ensures r.partition == FolderName(conf, lb.tenantId)
    ensures IsEndpoint(r.name, member.address, member.protocolPort)
  {
    EndpointRoundTrip(member.address, member.protocolPort);
    MemberDescriptor(
      name := EndpointName(member.address, member.protocolPort),
      partition := FolderName(conf, lb.tenantId),
      address := member.address)
  }

  /* ---------- reading an endpoint name back ---------- */

  predicate IsSeparator(c: char) {
    c == '.' || c == ':'
  }

  /** Index of the last '.' or ':', or -1. */
  function LastSeparator(s: string): (r: int)
    ensures -1 <= r < |s|
    ensures r >= 0 ==> IsSeparator(s[r])
    ensures forall k :: r < k < |s| ==> !IsSeparator(s[k])
  {
    if |s| == 0 then -1
    else if IsSeparator(s[|s| - 1]) then |s| - 1
    else LastSeparator(s[..|s| - 1])
  }

  /** Splits an endpoint name at its last separator and reads the port:
      the inverse of `EndpointName`. */
  function ParseEndpoint(s: string): Option<(string, int)> {
    var k := LastSeparator(s);
    if k < 0 then None
    else
      match ParseInt(s[k + 1..])
      case None => None
      case Some(port) => Some((s[..k], port))
  }

  lemma LastSeparatorOfSuffix(ip: string, sep: char, digits: string)
    requires IsSeparator(sep)
    requires '.' !in digits && ':' !in digits
    ensures LastSeparator(ip + [sep] + digits) == |ip|
  {
    var s := ip + [sep] + digits;
    var r := LastSeparator(s);
    assert s[|ip|] == sep;
    assert r >= |ip|;
    if r > |ip| {
      assert false;
    }
  }

  /** `name` is the endpoint of `ip` and `port`: the address, the
      separator (':' for IPv4, '.' for an address containing ':'), then the
      decimal port, and reading it back gives the address and the port. */
  predicate IsEndpoint(name: string, ip: string, port: int) {
    && ParseEndpoint(name) == Some((ip, port))
    && |name| > |ip| && name[..|ip|] == ip
    && name[|ip|] == (if ':' in ip then '.' else ':')
    && name[|ip| + 1..] == IntToString(port)
  }

  /** The address and port are recovered from the endpoint name, and the
      separator is '.' exactly for addresses containing ':'. */
  lemma EndpointRoundTrip(ip: string, port: int)
    ensures ParseEndpoint(EndpointName(ip, port)) == Some((ip, port))
    ensures EndpointName(ip, port)[|ip|] == if ':' in ip then '.' else ':'
    ensures IsEndpoint(EndpointName(ip, port), ip, port)
  {
    var digits := IntToString(port);
    IntToStringHasNoSeparator(port, '.');
    IntToStringHasNoSeparator(port, ':');
    IntToStringRoundTrip(port);
    var sep := if ':' in ip then '.' else ':';
    var s := ip + [sep] + digits;
    assert EndpointName(ip, port) == s;
    LastSeparatorOfSuffix(ip, sep, digits);
    assert s[|ip| + 1..] == digits;
    assert s[..|ip|] == ip;
  }

  /* ---------- the get_* wrappers over an svc dictionary ---------- */

  function GetPool(conf: Config, svc: Svc): (r: Option<PoolDescriptor>)
    ensures r.Some? <==> svc.pool.Some?
    ensures r.Some? ==> r.value == MapPool(conf, svc.loadbalancer, svc.pool.value, svc.healthmonitor)
  {
    if svc.pool.None? then None else Some(MapPool(conf, svc.loadbalancer, svc.pool.value, svc.healthmonitor))
  }

  function GetPoolName(conf: Config, svc: Svc): (r: Option<ResourceName>)
    ensures r.Some? <==> svc.pool.Some?
    ensures r.Some? ==> r.value.name == GetPool(conf, svc).value.name && r.value.partition == GetPool(conf, svc).value.partition
  {
    if svc.pool.None? then None
    else Some(ResourceName(svc.pool.value.name, FolderName(conf, svc.loadbalancer.tenantId)))
  }

  function GetVirtual(conf: Config, svc: Svc): (r: Option<VirtualDescriptor>)
    ensures r.Some? <==> svc.listener.Some?
    ensures r.Some? ==>
      var l := svc.listener.value;
      var lb := svc.loadbalancer;
      var v := r.value;
      && v.name == l.name && v.partition == FolderName(conf, lb.tenantId)
      && v.description == l.description
      // any protocol, supported or not, gives a TCP virtual server
      && v.ipProtocol == (if l.protocol.Some? then Some("tcp") else None)
      // fastL4 unless the protocol is HTTP(S) or the persistence is APP_COOKIE
      && (v.profiles.Some? <==>
            l.protocol != Some("HTTP") && l.protocol != Some("HTTPS") && l.sessionPersistence != Some("APP_COOKIE"))
      && (v.profiles.Some? ==> v.profiles.value == [FastL4Profile])
      // source address translation only with use_snat, a SNAT pool only under a network name
      && (v.sourceAddressTranslation.Some? <==> l.useSnat == Some(true))
      && (forall p :: v.sourceAddressTranslation == Some(SnatPool(p)) <==>
            l.useSnat == Some(true) && l.networkName.Some? && l.snatPoolName == Some(p))
      && (v.vlanName == l.networkName)
      && v.snatPoolName == (if l.networkName.Some? then l.snatPoolName else None)
      // a negative connection limit is raised to zero
      && (v.connectionLimit.Some? <==> l.connectionLimit.Some?)
      && (v.connectionLimit.Some? ==>
            v.connectionLimit.value == if l.connectionLimit.value < 0 then 0 else l.connectionLimit.value)
      // the destination reads back as the VIP (without a `%0`) and the port
      && (v.destination.Some? <==> l.protocolPort.Some? && lb.vipAddress.Some?)
      && (v.destination.Some? ==>
            IsEndpoint(v.destination.value, StripDefaultRouteDomain(lb.vipAddress.value), l.protocolPort.value))
      && !(v.enabled && v.disabled)
      && (v.enabled <==> l.adminStateUp == Some(true))
      && (v.disabled <==> l.adminStateUp == Some(false))
  {
    if svc.listener.None? then None
    else
      var l := svc.listener.value;
      Some(AddBigipItems(l, MapVirtual(conf, svc.loadbalancer, l)))
  }

  function GetVirtualName(conf: Config, svc: Svc): (r: Option<ResourceName>)
    ensures r.Some? <==> svc.listener.Some?
    ensures r.Some? ==> r.value.name == GetVirtual(conf, svc).value.name && r.value.partition == GetVirtual(conf, svc).value.partition
  {
    if svc.listener.None? then None
    else Some(ResourceName(svc.listener.value.name, FolderName(conf, svc.loadbalancer.tenantId)))
  }

  /** None when the load balancer has no traffic group; a missing listener
      (a KeyError in Python) is also None. */
  function GetTrafficGroup(conf: Config, svc: Svc): (r: Option<TrafficGroupDescriptor>)
    ensures r.Some? <==> svc.loadbalancer.trafficGroup.Some? && svc.listener.Some?
    ensures r.Some? ==> r.value.trafficGroup == svc.loadbalancer.trafficGroup.value
    ensures r.Some? ==> r.value.name == svc.listener.value.name
    ensures r.Some? ==> r.value.partition == FolderName(conf, svc.loadbalancer.tenantId)
  {
    if svc.loadbalancer.trafficGroup.Some? && svc.listener.Some? then
      Some(TrafficGroupDescriptor(svc.listener.value.name, FolderName(conf, svc.loadbalancer.tenantId),
                                  svc.loadbalancer.trafficGroup.value))
    else None
  }

  function GetMember(conf: Config, svc: Svc): (r: Option<MemberDescriptor>)
    ensures r.Some? <==> svc.member.Some?
  {
    if svc.member.None? then None else Some(MapMember(conf, svc.loadbalancer, svc.member.value))
  }

  function GetHealthMonitor(conf: Config, svc: Svc): (r: Option<MonitorDescriptor>)
    ensures r.Some? <==> svc.healthmonitor.Some?
  {
    if svc.healthmonitor.None? then None else Some(MapHealthMonitor(conf, svc.loadbalancer, svc.healthmonitor.value))
  }

  function GetMonitorType(svc: Svc): (r: Option<string>)
    ensures svc.healthmonitor.Some? ==> r == svc.healthmonitor.value.monitorType
    ensures svc.healthmonitor.None? ==> r.None?
  {
    if svc.healthmonitor.None? then None else svc.healthmonitor.value.monitorType
  }
}
