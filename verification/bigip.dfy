/** The BIG-IP fleet as the resource builders see it: every device call is
    an event in a log, its failure is decided by an oracle, and a call that
    succeeds changes a map-based picture of the device's configuration.
    The F5 SDK, `BigIPResourceHelper`, the listener builder and the L3
    binding are not part of this model; they appear only as calls. */
module Bigip {
  import opened Wrappers
  import opened Lbaas
  import opened ServiceAdapter

  /** A device object's folder and name. */
  datatype Path = Path(partition: string, name: string)

  /** The three monitor helpers of the pool builder. */
  datatype MonitorKind = HttpMonitor | HttpsMonitor | TcpMonitor

  /** A SNAT translation object as `_assure_bigip_snats` creates it. */
  datatype SnatDescriptor = SnatDescriptor(
    name: string,
    partition: string,
    address: string,
    trafficGroup: string)

  datatype Call =
    // pool builder, one device at a time
    | PoolCreate(pool: PoolDescriptor)
    | PoolUpdate(pool: PoolDescriptor)
    | PoolDelete(path: Path)
    | PoolLoad(path: Path)
    | MonitorCreate(kind: MonitorKind, monitor: MonitorDescriptor)
    | MonitorDelete(kind: MonitorKind, path: Path)
    | MemberCreate(poolPath: Path, member: MemberDescriptor)
    | MemberDelete(poolPath: Path, memberPath: Path)
    | MemberUpdate(poolPath: Path, member: MemberDescriptor)
    // listener builder, over all devices at once
    | ListenerCreate(svc: Svc)
    | ListenerUpdatePool(svc: Svc, poolName: string)
    | ListenerUpdatePersistence(svc: Svc)
    | ListenerRemovePersistence(svc: Svc)
    | ListenerDelete(svc: Svc)
    // L3 address binding
    | BindAddress(subnetId: string, ipAddress: string)
    | UnbindAddress(subnetId: string, ipAddress: string)
    // SNAT manager, one device at a time
    | SnatCreate(snat: SnatDescriptor)
    | SnatPoolCreate(path: Path)
    | SnatPoolLoad(path: Path)
    | SnatPoolUpdate(path: Path, members: seq<string>)
    | SnatPoolDelete(path: Path)
    | SnatTranslationLoad(path: Path)

  /** Who receives a call: one BIG-IP (by host name), the listener builder
      acting on all BIG-IPs, or the L3 binding collaborator. */
  datatype Target = OnDevice(host: string) | AllDevices | L3Binding

  /** One issued call and whether it returned normally. */
  datatype Event = Event(target: Target, call: Call, ok: bool)

  /** One BIG-IP's configuration, plus the agent's in-memory
      `assured_tenant_snat_subnets` cache kept on the BIG-IP handle
      (tenant id -> subnet ids). */
  datatype Device = Device(
    pools: map<Path, PoolDescriptor>,
    monitors: map<(MonitorKind, Path), MonitorDescriptor>,
    members: map<(Path, Path), MemberDescriptor>,
    snats: map<Path, SnatDescriptor>,
    snatPools: map<Path, seq<string>>,
    assured: map<string, seq<string>>)

  const EmptyDevice := Device(map[], map[], map[], map[], map[], map[])

  datatype World = World(devices: map<string, Device>, log: seq<Event>)

  /** The result of a builder operation: the world afterwards and whether
      an exception propagated out of it. */
  datatype Outcome = Outcome(world: World, raised: bool)

  /** Decides whether a call raises, given everything that happened so far. */
  type Oracle = (World, Target, Call) -> bool

  function DeviceOf(devices: map<string, Device>, host: string): Device {
    if host in devices then devices[host] else EmptyDevice
  }

  function PoolPath(p: PoolDescriptor): Path {
    Path(p.partition, p.name)
  }

  function MonitorPath(m: MonitorDescriptor): Path {
    Path(m.partition, m.name)
  }

  function MemberPath(m: MemberDescriptor): Path {
    Path(m.partition, m.name)
  }

  function SnatPath(s: SnatDescriptor): Path {
    Path(s.partition, s.name)
  }

  /** The effect of a successful call on one device, map by map; the
      agent-side cache is never touched by a device call. */
  function Step(d: Device, c: Call): Device {
    Device(StepPools(d.pools, c), StepMonitors(d.monitors, c), StepMembers(d.members, c),
           StepSnats(d.snats, c), StepSnatPools(d.snatPools, c), d.assured)
  }

  function StepPools(pools: map<Path, PoolDescriptor>, c: Call): map<Path, PoolDescriptor> {
    match c
    case PoolCreate(p) => pools[PoolPath(p) := p]
    case PoolUpdate(p) => pools[PoolPath(p) := p]
    case PoolDelete(path) => pools - {path}
    case _ => pools
  }

  function StepMonitors(monitors: map<(MonitorKind, Path), MonitorDescriptor>, c: Call): map<(MonitorKind, Path), MonitorDescriptor> {
    match c
    case MonitorCreate(k, m) => monitors[(k, MonitorPath(m)) := m]
    case MonitorDelete(k, path) => monitors - {(k, path)}
    case _ => monitors
  }

  function StepMembers(members: map<(Path, Path), MemberDescriptor>, c: Call): map<(Path, Path), MemberDescriptor> {
    match c
    case MemberCreate(pp, m) => members[(pp, MemberPath(m)) := m]
    case MemberDelete(pp, mp) => members - {(pp, mp)}
    case MemberUpdate(pp, m) => members[(pp, MemberPath(m)) := m]
    case _ => members
  }

  function StepSnats(snats: map<Path, SnatDescriptor>, c: Call): map<Path, SnatDescriptor> {
    match c
    case SnatCreate(s) => snats[SnatPath(s) := s]
    case _ => snats
  }

  /** Creating a SNAT pool that exists keeps it as it is. */
  function StepSnatPools(snatPools: map<Path, seq<string>>, c: Call): map<Path, seq<string>> {
    match c
    case SnatPoolCreate(path) => if path in snatPools then snatPools else snatPools[path := []]
    case SnatPoolUpdate(path, ms) => snatPools[path := ms]
    case SnatPoolDelete(path) => snatPools - {path}
    case _ => snatPools
  }

  /** Loading an object the device does not have raises. */
  predicate LoadsMissing(d: Device, c: Call) {
    (c.PoolLoad? && c.path !in d.pools) || (c.SnatPoolLoad? && c.path !in d.snatPools)
  }

  /** Issues one call: it is logged; it raises when the oracle says so or
      when it loads a missing object; otherwise its effect is applied. */
  function Exec(fails: Oracle, w: World, t: Target, c: Call): (o: Outcome)
    ensures o.world.log == w.log + [Event(t, c, !o.raised)]
    ensures o.raised ==> o.world.devices == w.devices
    ensures !o.raised && t.OnDevice? ==>
      o.world.devices == w.devices[t.host := Step(DeviceOf(w.devices, t.host), c)]
    ensures !t.OnDevice? ==> o.world.devices == w.devices
  {
    var failed := fails(w, t, c) || (t.OnDevice? && LoadsMissing(DeviceOf(w.devices, t.host), c));
    var devices :=
      if failed || !t.OnDevice? then w.devices
      else w.devices[t.host := Step(DeviceOf(w.devices, t.host), c)];
    Outcome(World(devices, w.log + [Event(t, c, !failed)]), failed)
  }

  /** Replaces one device's agent-side cache; no call is issued. */
  function SetAssured(w: World, host: string, cache: map<string, seq<string>>): (r: World)
    ensures r.log == w.log
    ensures DeviceOf(r.devices, host) == DeviceOf(w.devices, host).(assured := cache)
    ensures forall h :: h != host ==> DeviceOf(r.devices, h) == DeviceOf(w.devices, h)
  {
    World(w.devices[host := DeviceOf(w.devices, host).(assured := cache)], w.log)
  }

  /** `w2`'s log continues `w1`'s. */
  predicate Extends(w1: World, w2: World) {
    |w1.log| <= |w2.log| && w2.log[..|w1.log|] == w1.log
  }

  /** The events `w2` added to `w1`'s log (none when it does not continue it). */
  function NewEvents(w1: World, w2: World): seq<Event> {
    if Extends(w1, w2) then w2.log[|w1.log|..] else []
  }

  lemma ExtendsTrans(w1: World, w2: World, w3: World)
    requires Extends(w1, w2) && Extends(w2, w3)
    ensures Extends(w1, w3)
    ensures NewEvents(w1, w3) == NewEvents(w1, w2) + NewEvents(w2, w3)
  {
    assert w3.log[..|w1.log|] == w3.log[..|w2.log|][..|w1.log|];
    assert w3.log[|w1.log|..] == w3.log[|w1.log|..|w2.log|] + w3.log[|w2.log|..];
    assert w3.log[|w1.log|..|w2.log|] == w3.log[..|w2.log|][|w1.log|..];
  }

  /** Every call's effect is idempotent: repeating a successful call on the
      same device changes nothing more. */
  lemma StepIdempotent(d: Device, c: Call)
    ensures Step(Step(d, c), c) == Step(d, c)
  {
    PoolsIdempotent(d.pools, c);
    MonitorsIdempotent(d.monitors, c);
    MembersIdempotent(d.members, c);
    SnatsIdempotent(d.snats, c);
    SnatPoolsIdempotent(d.snatPools, c);
  }

  lemma PoolsIdempotent(m: map<Path, PoolDescriptor>, c: Call)
    ensures StepPools(StepPools(m, c), c) == StepPools(m, c)
  {
    var m1 := StepPools(m, c);
    match c
    case PoolCreate(p) => assert m1[PoolPath(p) := p] == m1;
    case PoolUpdate(p) => assert m1[PoolPath(p) := p] == m1;
    case PoolDelete(path) => assert m1 - {path} == m1;
    case _ =>
  }

  lemma MonitorsIdempotent(m: map<(MonitorKind, Path), MonitorDescriptor>, c: Call)
    ensures StepMonitors(StepMonitors(m, c), c) == StepMonitors(m, c)
  {
    var m1 := StepMonitors(m, c);
    match c
    case MonitorCreate(k, mon) => assert m1[(k, MonitorPath(mon)) := mon] == m1;
    case MonitorDelete(k, path) => assert m1 - {(k, path)} == m1;
    case _ =>
  }

  lemma MembersIdempotent(m: map<(Path, Path), MemberDescriptor>, c: Call)
    ensures StepMembers(StepMembers(m, c), c) == StepMembers(m, c)
  {
    var m1 := StepMembers(m, c);
    match c
    case MemberCreate(pp, mem) => assert m1[(pp, MemberPath(mem)) := mem] == m1;
    case MemberDelete(pp, mp) => assert m1 - {(pp, mp)} == m1;
    case MemberUpdate(pp, mem) => assert m1[(pp, MemberPath(mem)) := mem] == m1;
    case _ =>
  }

  lemma SnatsIdempotent(m: map<Path, SnatDescriptor>, c: Call)
    ensures StepSnats(StepSnats(m, c), c) == StepSnats(m, c)
  {
    var m1 := StepSnats(m, c);
    match c
    case SnatCreate(sn) => assert m1[SnatPath(sn) := sn] == m1;
    case _ =>
  }

  lemma SnatPoolsIdempotent(m: map<Path, seq<string>>, c: Call)
    ensures StepSnatPools(StepSnatPools(m, c), c) == StepSnatPools(m, c)
  {
    var m1 := StepSnatPools(m, c);
    match c
    case SnatPoolUpdate(path, ms) => assert m1[path := ms] == m1;
    case SnatPoolDelete(path) => assert m1 - {path} == m1;
    case _ =>
  }

  /** Some event of `ev` issued call `c`. */
  predicate Issued(ev: seq<Event>, c: Call) {
    exists j :: 0 <= j < |ev| && ev[j].call == c
  }

  lemma IssuedAppend(a: seq<Event>, b: seq<Event>, c: Call)
    ensures Issued(a + b, c) <==> Issued(a, c) || Issued(b, c)
  {
    if Issued(a, c) {
      var j :| 0 <= j < |a| && a[j].call == c;
      assert (a + b)[j] == a[j];
    }
    if Issued(b, c) {
      var j :| 0 <= j < |b| && b[j].call == c;
      assert (a + b)[|a| + j] == b[j];
    }
    if Issued(a + b, c) {
      var j :| 0 <= j < |a + b| && (a + b)[j].call == c;
      if j < |a| { assert a[j] == (a + b)[j]; } else { assert b[j - |a|] == (a + b)[j]; }
    }
  }
}
