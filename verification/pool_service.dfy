/** `PoolServiceBuilder`: creates, updates and deletes pools, health
    monitors and members on every BIG-IP of a list, one device after the
    other. The first call that raises ends the operation: the exception
    propagates to the caller and later devices are not touched. */
module PoolService {
  import opened Wrappers
  import opened Lbaas
  import opened ServiceAdapter
  import opened Bigip

  /** `o` issued `c` to the hosts in list order, one call each, stopping
      right after the first call that raised. */
  predicate RanOnEach(w: World, o: Outcome, hosts: seq<string>, c: Call) {
    && Extends(w, o.world)
    && var ev := NewEvents(w, o.world);
    && |ev| <= |hosts|
    && (forall k :: 0 <= k < |ev| ==> ev[k] == Event(OnDevice(hosts[k]), c, k < |ev| - 1 || !o.raised))
    && (o.raised ==> |ev| > 0)
    && (!o.raised ==> |ev| == |hosts|)
  }

  /** The `for bigip in bigips: helper.<op>(bigip, ...)` loop. */
  function EachDevice(fails: Oracle, w: World, hosts: seq<string>, c: Call): (o: Outcome)
    ensures RanOnEach(w, o, hosts, c)
    ensures forall h :: h !in hosts ==> DeviceOf(o.world.devices, h) == DeviceOf(w.devices, h)
    ensures !o.raised ==> forall h :: h in hosts ==> DeviceOf(o.world.devices, h) == Step(DeviceOf(w.devices, h), c)
    decreases |hosts|
  {
    if |hosts| == 0 then Outcome(w, false)
    else
      var o1 := Exec(fails, w, OnDevice(hosts[0]), c);
      if o1.raised then o1
      else
        var o2 := EachDevice(fails, o1.world, hosts[1..], c);
        assert Extends(w, o1.world);
        ExtendsTrans(w, o1.world, o2.world);
        assert NewEvents(w, o1.world) == [Event(OnDevice(hosts[0]), c, true)];
        forall h | h in hosts && !o2.raised
          ensures DeviceOf(o2.world.devices, h) == Step(DeviceOf(w.devices, h), c)
        {
          StepIdempotent(DeviceOf(w.devices, h), c);
          if h != hosts[0] {
            assert h in hosts[1..];
          }
        }
        o2
  }

  /* ---------- pools ---------- */

  /** Raised with nothing issued: the adapter raised before the first call. */
  function AdapterRaised(w: World): Outcome {
    Outcome(w, true)
  }

  function CreatePool(conf: Config, fails: Oracle, w: World, svc: Svc, hosts: seq<string>): (o: Outcome)
    ensures svc.pool.None? ==> o.raised && o.world == w
    ensures svc.pool.Some? ==>
      var p := MapPool(conf, svc.loadbalancer, svc.pool.value, svc.healthmonitor);
      && RanOnEach(w, o, hosts, PoolCreate(p))
      && (!o.raised ==> forall h :: h in hosts ==>
            PoolPath(p) in DeviceOf(o.world.devices, h).pools && DeviceOf(o.world.devices, h).pools[PoolPath(p)] == p)
  {
    match GetPool(conf, svc)
    case None => AdapterRaised(w)
    case Some(p) => EachDevice(fails, w, hosts, PoolCreate(p))
  }

  function DeletePool(conf: Config, fails: Oracle, w: World, svc: Svc, hosts: seq<string>): (o: Outcome)
    ensures svc.pool.None? ==> o.raised && o.world == w
    ensures svc.pool.Some? ==>
      var path := Path(FolderName(conf, svc.loadbalancer.tenantId), svc.pool.value.name);
      && RanOnEach(w, o, hosts, PoolDelete(path))
      && (!o.raised ==> forall h :: h in hosts ==> path !in DeviceOf(o.world.devices, h).pools)
  {
    match GetPool(conf, svc)
    case None => AdapterRaised(w)
    case Some(p) => EachDevice(fails, w, hosts, PoolDelete(PoolPath(p)))
  }

  function UpdatePool(conf: Config, fails: Oracle, w: World, svc: Svc, hosts: seq<string>): (o: Outcome)
    ensures svc.pool.None? ==> o.raised && o.world == w
    ensures svc.pool.Some? ==>
      var p := MapPool(conf, svc.loadbalancer, svc.pool.value, svc.healthmonitor);
      && RanOnEach(w, o, hosts, PoolUpdate(p))
      && (!o.raised ==> forall h :: h in hosts ==>
            PoolPath(p) in DeviceOf(o.world.devices, h).pools && DeviceOf(o.world.devices, h).pools[PoolPath(p)] == p)
  {
    match GetPool(conf, svc)
    case None => AdapterRaised(w)
    case Some(p) => EachDevice(fails, w, hosts, PoolUpdate(p))
  }

  /* ---------- health monitors ---------- */

  /** `_get_monitor_helper`: HTTPS and TCP have their own helpers, every
      other type (a missing one included) uses the HTTP helper. */
  function MonitorHelper(monitorType: Option<string>): (k: MonitorKind)
    ensures k == HttpsMonitor <==> monitorType == Some("HTTPS")
    ensures k == TcpMonitor <==> monitorType == Some("TCP")
    ensures k == HttpMonitor <==> monitorType != Some("HTTPS") && monitorType != Some("TCP")
  {
    if monitorType == Some("HTTPS") then HttpsMonitor
    else if monitorType == Some("TCP") then TcpMonitor
    else HttpMonitor
  }

  /** What a monitor create did: only creates of `hm` and pool updates
      of the service's mapped pool, every update after every create, the
      first call a create, and on success the monitor and that pool, which
      refers to it, on every device. */
  predicate MonitorPushed(conf: Config, w: World, o: Outcome, svc: Svc, hosts: seq<string>, hm: MonitorDescriptor, kind: MonitorKind) {
    var ev := NewEvents(w, o.world);
    && (forall i :: 0 <= i < |ev| ==>
          || ev[i].call == MonitorCreate(kind, hm)
          || (svc.pool.Some? && ev[i].call == PoolUpdate(MapPool(conf, svc.loadbalancer, svc.pool.value, svc.healthmonitor))))
    && (|hosts| > 0 ==> |ev| > 0 && ev[0].call == MonitorCreate(kind, hm))
    && (forall i, j :: 0 <= i < |ev| && 0 <= j < |ev| && ev[i].call.PoolUpdate? && ev[j].call.MonitorCreate? ==> j < i)
    && (forall i :: 0 <= i < |ev| && ev[i].call.PoolUpdate? ==> ev[i].call.pool.monitor == Some(hm.name))
    && (!o.raised ==> svc.pool.Some? && forall h :: h in hosts ==>
          && (kind, MonitorPath(hm)) in DeviceOf(o.world.devices, h).monitors
          && DeviceOf(o.world.devices, h).monitors[(kind, MonitorPath(hm))] == hm
          && Path(hm.partition, svc.pool.value.name) in DeviceOf(o.world.devices, h).pools
          && DeviceOf(o.world.devices, h).pools[Path(hm.partition, svc.pool.value.name)].monitor == Some(hm.name)
          && DeviceOf(o.world.devices, h).pools[Path(hm.partition, svc.pool.value.name)]
               == MapPool(conf, svc.loadbalancer, svc.pool.value, svc.healthmonitor))
  }

  /** Creates the monitor on every device, then pushes the pool (which now
      names the monitor) to every device. */
  function CreateHealthMonitor(conf: Config, fails: Oracle, w: World, svc: Svc, hosts: seq<string>): (o: Outcome)
    ensures Extends(w, o.world)
    ensures svc.healthmonitor.None? ==> o.raised && o.world == w
    ensures svc.healthmonitor.Some? ==>
      MonitorPushed(conf, w, o, svc, hosts, MapHealthMonitor(conf, svc.loadbalancer, svc.healthmonitor.value),
                    MonitorHelper(svc.healthmonitor.value.monitorType))
  {
    match GetHealthMonitor(conf, svc)
    case None => AdapterRaised(w)
    case Some(hm) => PushMonitor(conf, fails, w, svc, hosts, hm, MonitorHelper(GetMonitorType(svc)))
  }

  /** The two loops of `create_healthmonitor` for a mapped monitor. */
  function PushMonitor(conf: Config, fails: Oracle, w: World, svc: Svc, hosts: seq<string>, hm: MonitorDescriptor, kind: MonitorKind): (o: Outcome)
    requires svc.healthmonitor.Some? && hm.name == MonitorPrefix + svc.healthmonitor.value.id
    requires hm.partition == FolderName(conf, svc.loadbalancer.tenantId)
    ensures Extends(w, o.world)
    ensures MonitorPushed(conf, w, o, svc, hosts, hm, kind)
  {
    var o1 := EachDevice(fails, w, hosts, MonitorCreate(kind, hm));
    if o1.raised then o1
    else match GetPool(conf, svc)
      case None => Outcome(o1.world, true)
      case Some(p) =>
        var o2 := EachDevice(fails, o1.world, hosts, PoolUpdate(p));
        RanTwice(w, o1, o2, hosts, MonitorCreate(kind, hm), PoolUpdate(p));
        o2
  }

  /** Two device loops in a row: the first loop's calls, one per host, come
      before every call of the second. */
  lemma RanTwice(w: World, o1: Outcome, o2: Outcome, hosts: seq<string>, c1: Call, c2: Call)
    requires RanOnEach(w, o1, hosts, c1) && !o1.raised && RanOnEach(o1.world, o2, hosts, c2)
    ensures Extends(w, o2.world)
    ensures var ev := NewEvents(w, o2.world);
      && |hosts| <= |ev|
      && (forall i :: 0 <= i < |hosts| ==> ev[i].call == c1)
      && (forall i :: |hosts| <= i < |ev| ==> ev[i].call == c2)
  {
    ExtendsTrans(w, o1.world, o2.world);
  }

  /** Only monitor deletes and pushes of `pool`, each push right after its
      own device's successful monitor delete. */
  predicate DeletePairs(ev: seq<Event>, kind: MonitorKind, path: Path, pool: PoolDescriptor) {
    && (forall j :: 0 <= j < |ev| ==> ev[j].call == MonitorDelete(kind, path) || ev[j].call == PoolUpdate(pool))
    && (forall j :: 0 <= j < |ev| && ev[j].call.PoolUpdate? ==>
          j > 0 && ev[j - 1] == Event(ev[j].target, MonitorDelete(kind, path), true))
  }

  /** The device has no such monitor and holds the pushed pool. */
  predicate MonitorGoneOn(d: Device, kind: MonitorKind, path: Path, pool: PoolDescriptor) {
    && (kind, path) !in d.monitors
    && PoolPath(pool) in d.pools
    && d.pools[PoolPath(pool)] == pool
  }

  /** Per device: delete the monitor, then push the pool with an empty
      monitor reference. */
  function DeleteMonitorEach(fails: Oracle, w: World, hosts: seq<string>, kind: MonitorKind, path: Path, pool: PoolDescriptor): (o: Outcome)
    ensures Extends(w, o.world)
    ensures var ev := NewEvents(w, o.world);
      && DeletePairs(ev, kind, path, pool)
      && (!o.raised ==> |ev| == 2 * |hosts|)
      && (|hosts| > 0 ==> |ev| > 0 && ev[0].call == MonitorDelete(kind, path))
    ensures forall h :: h !in hosts ==> DeviceOf(o.world.devices, h) == DeviceOf(w.devices, h)
    ensures !o.raised ==> forall h :: h in hosts ==> MonitorGoneOn(DeviceOf(o.world.devices, h), kind, path, pool)
    decreases |hosts|
  {
    if |hosts| == 0 then Outcome(w, false)
    else
      var o1 := DeleteMonitorOn(fails, w, hosts[0], kind, path, pool);
      if o1.raised then o1
      else
        var o3 := DeleteMonitorEach(fails, o1.world, hosts[1..], kind, path, pool);
        ExtendsTrans(w, o1.world, o3.world);
        DeleteMonitorEventsCons(NewEvents(w, o1.world), NewEvents(o1.world, o3.world), hosts[0], kind, path, pool);
        assert forall h :: h !in hosts[1..] && h != hosts[0] ==> h !in hosts;
        o3
  }

  /** One device of the monitor delete loop: the monitor delete, then the
      pool push. */
  function DeleteMonitorOn(fails: Oracle, w: World, h: string, kind: MonitorKind, path: Path, pool: PoolDescriptor): (o: Outcome)
    ensures Extends(w, o.world)
    ensures var ev := NewEvents(w, o.world);
      && 0 < |ev| <= 2
      && ev[0].target == OnDevice(h) && ev[0].call == MonitorDelete(kind, path)
      && (|ev| == 2 ==> ev[0].ok && ev[1].target == OnDevice(h) && ev[1].call == PoolUpdate(pool))
      && (!o.raised ==> |ev| == 2)
    ensures forall x :: x != h ==> DeviceOf(o.world.devices, x) == DeviceOf(w.devices, x)
    ensures !o.raised ==> MonitorGoneOn(DeviceOf(o.world.devices, h), kind, path, pool)
  {
    var o1 := Exec(fails, w, OnDevice(h), MonitorDelete(kind, path));
    assert o1.world.log[..|w.log|] == w.log;
    if o1.raised then o1
    else
      var o2 := Exec(fails, o1.world, OnDevice(h), PoolUpdate(pool));
      assert o2.world.log[..|w.log|] == w.log;
      assert NewEvents(w, o2.world) == [Event(OnDevice(h), MonitorDelete(kind, path), true), Event(OnDevice(h), PoolUpdate(pool), !o2.raised)];
      o2
  }

  /** A device's delete-then-push pair in front of the later devices' events
      keeps every pool push right after its own device's monitor delete. */
  lemma DeleteMonitorEventsCons(a: seq<Event>, b: seq<Event>, h: string, kind: MonitorKind, path: Path, pool: PoolDescriptor)
    requires a == [Event(OnDevice(h), MonitorDelete(kind, path), true), Event(OnDevice(h), PoolUpdate(pool), true)]
    requires DeletePairs(b, kind, path, pool)
    ensures DeletePairs(a + b, kind, path, pool)
  {
    var ev := a + b;
    forall j | 2 <= j < |ev|
      ensures ev[j] == b[j - 2]
    {
    }
  }

  function DeleteHealthMonitor(conf: Config, fails: Oracle, w: World, svc: Svc, hosts: seq<string>): (o: Outcome)
    ensures Extends(w, o.world)
    ensures svc.healthmonitor.None? || svc.pool.None? ==> o.raised && o.world == w
    ensures svc.healthmonitor.Some? && svc.pool.Some? ==>
      var hm := MapHealthMonitor(conf, svc.loadbalancer, svc.healthmonitor.value);
      var kind := MonitorHelper(svc.healthmonitor.value.monitorType);
      var pool := MapPool(conf, svc.loadbalancer, svc.pool.value, svc.healthmonitor).(monitor := Some(""));
      var ev := NewEvents(w, o.world);
      && DeletePairs(ev, kind, MonitorPath(hm), pool)
      && (|hosts| > 0 ==> |ev| > 0 && ev[0].call == MonitorDelete(kind, MonitorPath(hm)))
      && (!o.raised ==> |ev| == 2 * |hosts|)
      && (!o.raised ==> forall h :: h in hosts ==> MonitorGoneOn(DeviceOf(o.world.devices, h), kind, MonitorPath(hm), pool))
    ensures forall h :: h !in hosts ==> DeviceOf(o.world.devices, h) == DeviceOf(w.devices, h)
  {
    match GetHealthMonitor(conf, svc)
    case None => AdapterRaised(w)
    case Some(hm) =>
      var kind := MonitorHelper(GetMonitorType(svc));
      match GetPool(conf, svc)
      case None => AdapterRaised(w)
      case Some(p) => DeleteMonitorEach(fails, w, hosts, kind, MonitorPath(hm), p.(monitor := Some("")))
  }

  /** `update_healthmonitor` as written: it only deletes the monitor. */
  function UpdateHealthMonitor(conf: Config, fails: Oracle, w: World, svc: Svc, hosts: seq<string>): (o: Outcome)
    ensures svc.healthmonitor.None? ==> o.raised && o.world == w
    ensures svc.healthmonitor.Some? ==>
      var hm := MapHealthMonitor(conf, svc.loadbalancer, svc.healthmonitor.value);
      RanOnEach(w, o, hosts, MonitorDelete(MonitorHelper(svc.healthmonitor.value.monitorType), MonitorPath(hm)))
  {
    match GetHealthMonitor(conf, svc)
    case None => AdapterRaised(w)
    case Some(hm) => EachDevice(fails, w, hosts, MonitorDelete(MonitorHelper(GetMonitorType(svc)), MonitorPath(hm)))
  }

  /* ---------- members ---------- */

  datatype MemberOp = CreateOp | DeleteOp | UpdateOp

  /** The facts one member operation keeps about the events it issued. */
  predicate MemberEvents(w: World, ev: seq<Event>, hosts: seq<string>, poolPath: Path, m: MemberDescriptor, op: MemberOp) {
    forall j :: 0 <= j < |ev| ==>
      && ev[j].target.OnDevice? && ev[j].target.host in hosts
      && ev[j].call in {PoolLoad(poolPath), MemberCreate(poolPath, m), MemberDelete(poolPath, MemberPath(m)), MemberUpdate(poolPath, m)}
      && (ev[j].call.MemberCreate? ==> op == CreateOp)
      && (ev[j].call.MemberDelete? ==> op == DeleteOp && (poolPath, MemberPath(m)) in DeviceOf(w.devices, ev[j].target.host).members)
      && (ev[j].call.MemberUpdate? ==> op == UpdateOp && (poolPath, MemberPath(m)) in DeviceOf(w.devices, ev[j].target.host).members)
  }

  /** What one member operation leaves on a device it completed on. */
  predicate MemberDone(before: Device, after: Device, key: (Path, Path), m: MemberDescriptor, op: MemberOp) {
    && (op == CreateOp ==> key in after.members && after.members[key] == m)
    && (op == DeleteOp ==> key !in after.members)
    && (op == UpdateOp ==> (key in after.members <==> key in before.members) && (key in before.members ==> after.members[key] == m))
  }

  /** One device: load the pool (raising when it is missing), then create
      the member, or delete / update it only if the device has it. */
  function MemberStep(fails: Oracle, w: World, h: string, poolPath: Path, m: MemberDescriptor, op: MemberOp): (o: Outcome)
    ensures Extends(w, o.world)
    ensures |NewEvents(w, o.world)| > 0 && NewEvents(w, o.world)[0].call == PoolLoad(poolPath)
    ensures NewEvents(w, o.world)[0].target == OnDevice(h)
    ensures MemberEvents(w, NewEvents(w, o.world), [h], poolPath, m, op)
    ensures forall x :: x != h ==> DeviceOf(o.world.devices, x) == DeviceOf(w.devices, x)
    ensures DeviceOf(o.world.devices, h).members.Keys <= DeviceOf(w.devices, h).members.Keys + {(poolPath, MemberPath(m))}
    ensures op != CreateOp ==> DeviceOf(o.world.devices, h).members.Keys <= DeviceOf(w.devices, h).members.Keys
    ensures !o.raised ==> MemberDone(DeviceOf(w.devices, h), DeviceOf(o.world.devices, h), (poolPath, MemberPath(m)), m, op)
  {
    var o1 := Exec(fails, w, OnDevice(h), PoolLoad(poolPath));
    assert o1.world.devices == w.devices || o1.world.devices == w.devices[h := DeviceOf(w.devices, h)];
    assert forall x :: DeviceOf(o1.world.devices, x) == DeviceOf(w.devices, x);
    assert NewEvents(w, o1.world) == [Event(OnDevice(h), PoolLoad(poolPath), !o1.raised)];
    if o1.raised then o1
    else
      var o2 := MemberWrite(fails, o1.world, h, poolPath, m, op);
      ExtendsTrans(w, o1.world, o2.world);
      MemberEventsCons(w, o1.world, o2.world, h, poolPath, m, op);
      o2
  }

  lemma MemberEventsCons(w: World, w1: World, w2: World, h: string, poolPath: Path, m: MemberDescriptor, op: MemberOp)
    requires Extends(w, w1) && Extends(w1, w2)
    requires NewEvents(w, w1) == [Event(OnDevice(h), PoolLoad(poolPath), true)]
    requires forall x :: DeviceOf(w1.devices, x) == DeviceOf(w.devices, x)
    requires MemberEvents(w1, NewEvents(w1, w2), [h], poolPath, m, op)
    ensures Extends(w, w2)
    ensures MemberEvents(w, NewEvents(w, w1) + NewEvents(w1, w2), [h], poolPath, m, op)
  {
    ExtendsTrans(w, w1, w2);
    var ev := NewEvents(w, w1) + NewEvents(w1, w2);
    forall j | 1 <= j < |ev|
      ensures ev[j] == NewEvents(w1, w2)[j - 1]
    {
    }
  }

  /** The write after the pool loaded: create, or delete / update only when
      the device has the member. */
  function MemberWrite(fails: Oracle, w: World, h: string, poolPath: Path, m: MemberDescriptor, op: MemberOp): (o: Outcome)
    ensures Extends(w, o.world)
    ensures MemberEvents(w, NewEvents(w, o.world), [h], poolPath, m, op)
    ensures forall x :: x != h ==> DeviceOf(o.world.devices, x) == DeviceOf(w.devices, x)
    ensures DeviceOf(o.world.devices, h).members.Keys <= DeviceOf(w.devices, h).members.Keys + {(poolPath, MemberPath(m))}
    ensures op != CreateOp ==> DeviceOf(o.world.devices, h).members.Keys <= DeviceOf(w.devices, h).members.Keys
    ensures !o.raised ==> MemberDone(DeviceOf(w.devices, h), DeviceOf(o.world.devices, h), (poolPath, MemberPath(m)), m, op)
  {
    var present := (poolPath, MemberPath(m)) in DeviceOf(w.devices, h).members;
    var o :=
      match op
      case CreateOp => Exec(fails, w, OnDevice(h), MemberCreate(poolPath, m))
      case DeleteOp =>
        if present then Exec(fails, w, OnDevice(h), MemberDelete(poolPath, MemberPath(m)))
        else Outcome(w, false)
      case UpdateOp =>
        if present then Exec(fails, w, OnDevice(h), MemberUpdate(poolPath, m))
        else Outcome(w, false);
    assert o.world.log[..|w.log|] == w.log;
    o
  }

  /** The member loop over all devices. */
  function MemberEach(fails: Oracle, w: World, hosts: seq<string>, poolPath: Path, m: MemberDescriptor, op: MemberOp): (o: Outcome)
    ensures Extends(w, o.world)
    ensures |hosts| > 0 ==>
      |NewEvents(w, o.world)| > 0 && NewEvents(w, o.world)[0].call == PoolLoad(poolPath) &&
      NewEvents(w, o.world)[0].target == OnDevice(hosts[0])
    ensures MemberEvents(w, NewEvents(w, o.world), hosts, poolPath, m, op)
    ensures forall h :: h !in hosts ==> DeviceOf(o.world.devices, h) == DeviceOf(w.devices, h)
    ensures op != CreateOp ==> forall h :: DeviceOf(o.world.devices, h).members.Keys <= DeviceOf(w.devices, h).members.Keys
    ensures !o.raised ==> forall h :: h in hosts ==>
      MemberDone(DeviceOf(w.devices, h), DeviceOf(o.world.devices, h), (poolPath, MemberPath(m)), m, op)
    decreases |hosts|
  {
    if |hosts| == 0 then Outcome(w, false)
    else
      var h := hosts[0];
      var o1 := MemberStep(fails, w, h, poolPath, m, op);
      if o1.raised then o1
      else
        var o2 := MemberEach(fails, o1.world, hosts[1..], poolPath, m, op);
        ExtendsTrans(w, o1.world, o2.world);
        MemberEachFacts(w, o1, o2, hosts, poolPath, m, op);
        o2
  }

  lemma MemberEachFacts(w: World, o1: Outcome, o2: Outcome, hosts: seq<string>, poolPath: Path, m: MemberDescriptor, op: MemberOp)
    requires |hosts| > 0 && !o1.raised
    requires Extends(w, o1.world) && Extends(o1.world, o2.world)
    requires NewEvents(w, o2.world) == NewEvents(w, o1.world) + NewEvents(o1.world, o2.world)
    requires MemberEvents(w, NewEvents(w, o1.world), [hosts[0]], poolPath, m, op)
    requires forall x :: x != hosts[0] ==> DeviceOf(o1.world.devices, x) == DeviceOf(w.devices, x)
    requires op != CreateOp ==> DeviceOf(o1.world.devices, hosts[0]).members.Keys <= DeviceOf(w.devices, hosts[0]).members.Keys
    requires MemberDone(DeviceOf(w.devices, hosts[0]), DeviceOf(o1.world.devices, hosts[0]), (poolPath, MemberPath(m)), m, op)
    requires MemberEvents(o1.world, NewEvents(o1.world, o2.world), hosts[1..], poolPath, m, op)
    requires forall h :: h !in hosts[1..] ==> DeviceOf(o2.world.devices, h) == DeviceOf(o1.world.devices, h)
    requires op != CreateOp ==> forall h :: DeviceOf(o2.world.devices, h).members.Keys <= DeviceOf(o1.world.devices, h).members.Keys
    requires !o2.raised ==> forall h :: h in hosts[1..] ==>
      MemberDone(DeviceOf(o1.world.devices, h), DeviceOf(o2.world.devices, h), (poolPath, MemberPath(m)), m, op)
    ensures MemberEvents(w, NewEvents(w, o2.world), hosts, poolPath, m, op)
    ensures forall h :: h !in hosts ==> DeviceOf(o2.world.devices, h) == DeviceOf(w.devices, h)
    ensures op != CreateOp ==> forall h :: DeviceOf(o2.world.devices, h).members.Keys <= DeviceOf(w.devices, h).members.Keys
    ensures !o2.raised ==> forall h :: h in hosts ==>
      MemberDone(DeviceOf(w.devices, h), DeviceOf(o2.world.devices, h), (poolPath, MemberPath(m)), m, op)
  {
    var key := (poolPath, MemberPath(m));
    var e1, e2 := NewEvents(w, o1.world), NewEvents(o1.world, o2.world);
    forall j | 0 <= j < |e1 + e2|
      ensures MemberEvents(w, [(e1 + e2)[j]], hosts, poolPath, m, op)
    {
      if j >= |e1| {
        var e := e2[j - |e1|];
        assert MemberEvents(o1.world, [e], hosts[1..], poolPath, m, op);
        if op != CreateOp && e.target.OnDevice? {
          assert DeviceOf(o1.world.devices, e.target.host).members.Keys <= DeviceOf(w.devices, e.target.host).members.Keys;
        }
      } else {
        assert MemberEvents(w, [e1[j]], [hosts[0]], poolPath, m, op);
      }
    }
    forall h | !o2.raised && h in hosts
      ensures MemberDone(DeviceOf(w.devices, h), DeviceOf(o2.world.devices, h), key, m, op)
    {
      if h in hosts[1..] {
        var d0, d1, d2 := DeviceOf(w.devices, h), DeviceOf(o1.world.devices, h), DeviceOf(o2.world.devices, h);
        if h == hosts[0] {
          assert MemberDone(d0, d1, key, m, op);
          assert MemberDone(d1, d2, key, m, op);
        }
      }
    }
  }

  lemma CreateEventKinds(w: World, ev: seq<Event>, hosts: seq<string>, poolPath: Path, m: MemberDescriptor)
    requires MemberEvents(w, ev, hosts, poolPath, m, CreateOp)
    ensures forall j :: 0 <= j < |ev| ==> ev[j].call.PoolLoad? || ev[j].call.MemberCreate?
  {
    forall j | 0 <= j < |ev|
      ensures ev[j].call.PoolLoad? || ev[j].call.MemberCreate?
    {
      assert ev[j].call in {PoolLoad(poolPath), MemberCreate(poolPath, m), MemberDelete(poolPath, MemberPath(m)), MemberUpdate(poolPath, m)};
    }
  }

  lemma DeleteEventKinds(w: World, ev: seq<Event>, hosts: seq<string>, poolPath: Path, m: MemberDescriptor)
    requires MemberEvents(w, ev, hosts, poolPath, m, DeleteOp)
    ensures forall j :: 0 <= j < |ev| && ev[j].call.MemberDelete? ==>
      ev[j].target.OnDevice? && (poolPath, MemberPath(m)) in DeviceOf(w.devices, ev[j].target.host).members
    ensures forall j :: 0 <= j < |ev| ==> ev[j].call.PoolLoad? || ev[j].call.MemberDelete?
  {
    forall j | 0 <= j < |ev|
      ensures ev[j].call.PoolLoad? || ev[j].call.MemberDelete?
    {
      assert ev[j].call in {PoolLoad(poolPath), MemberCreate(poolPath, m), MemberDelete(poolPath, MemberPath(m)), MemberUpdate(poolPath, m)};
    }
  }

  lemma UpdateEventKinds(w: World, ev: seq<Event>, hosts: seq<string>, poolPath: Path, m: MemberDescriptor)
    requires MemberEvents(w, ev, hosts, poolPath, m, UpdateOp)
    ensures forall j :: 0 <= j < |ev| && ev[j].call.MemberUpdate? ==>
      ev[j].target.OnDevice? && (poolPath, MemberPath(m)) in DeviceOf(w.devices, ev[j].target.host).members
    ensures forall j :: 0 <= j < |ev| ==> ev[j].call.PoolLoad? || ev[j].call.MemberUpdate?
  {
    forall j | 0 <= j < |ev|
      ensures ev[j].call.PoolLoad? || ev[j].call.MemberUpdate?
    {
      assert ev[j].call in {PoolLoad(poolPath), MemberCreate(poolPath, m), MemberDelete(poolPath, MemberPath(m)), MemberUpdate(poolPath, m)};
    }
  }

  function CreateMember(conf: Config, fails: Oracle, w: World, svc: Svc, hosts: seq<string>): (o: Outcome)
    ensures Extends(w, o.world)
    ensures svc.pool.None? || svc.member.None? ==> o.raised && o.world == w
    ensures svc.pool.Some? && svc.member.Some? && |hosts| > 0 ==>
      |NewEvents(w, o.world)| > 0 &&
      NewEvents(w, o.world)[0] == Event(OnDevice(hosts[0]), PoolLoad(Path(FolderName(conf, svc.loadbalancer.tenantId), svc.pool.value.name)),
                                        NewEvents(w, o.world)[0].ok)
    ensures forall j :: 0 <= j < |NewEvents(w, o.world)| ==>
      NewEvents(w, o.world)[j].call.PoolLoad? || NewEvents(w, o.world)[j].call.MemberCreate?
    ensures svc.pool.Some? && svc.member.Some? && !o.raised ==>
      var m := MapMember(conf, svc.loadbalancer, svc.member.value);
      var key := (Path(m.partition, svc.pool.value.name), MemberPath(m));
      forall h :: h in hosts ==> key in DeviceOf(o.world.devices, h).members && DeviceOf(o.world.devices, h).members[key] == m
  {
    match GetPool(conf, svc)
    case None => AdapterRaised(w)
    case Some(p) =>
      match GetMember(conf, svc)
      case None => AdapterRaised(w)
      case Some(m) =>
        var o := MemberEach(fails, w, hosts, PoolPath(p), m, CreateOp);
        CreateEventKinds(w, NewEvents(w, o.world), hosts, PoolPath(p), m);
        o
  }

  function DeleteMember(conf: Config, fails: Oracle, w: World, svc: Svc, hosts: seq<string>): (o: Outcome)
    ensures Extends(w, o.world)
    ensures svc.pool.None? || svc.member.None? ==> o.raised && o.world == w
    ensures svc.pool.Some? && svc.member.Some? && |hosts| > 0 ==>
      |NewEvents(w, o.world)| > 0 &&
      NewEvents(w, o.world)[0] == Event(OnDevice(hosts[0]), PoolLoad(Path(FolderName(conf, svc.loadbalancer.tenantId), svc.pool.value.name)),
                                        NewEvents(w, o.world)[0].ok)
    ensures svc.pool.Some? && svc.member.Some? ==>
      var m := MapMember(conf, svc.loadbalancer, svc.member.value);
      var key := (Path(m.partition, svc.pool.value.name), MemberPath(m));
      var ev := NewEvents(w, o.world);
      && (forall j :: 0 <= j < |ev| && ev[j].call.MemberDelete? ==>
            ev[j].target.OnDevice? && key in DeviceOf(w.devices, ev[j].target.host).members)
      && (forall j :: 0 <= j < |ev| ==> ev[j].call.PoolLoad? || ev[j].call.MemberDelete?)
      && (!o.raised ==> forall h :: h in hosts ==> key !in DeviceOf(o.world.devices, h).members)
  {
    match GetPool(conf, svc)
    case None => AdapterRaised(w)
    case Some(p) =>
      match GetMember(conf, svc)
      case None => AdapterRaised(w)
      case Some(m) =>
        var o := MemberEach(fails, w, hosts, PoolPath(p), m, DeleteOp);
        DeleteEventKinds(w, NewEvents(w, o.world), hosts, PoolPath(p), m);
        o
  }

  function UpdateMember(conf: Config, fails: Oracle, w: World, svc: Svc, hosts: seq<string>): (o: Outcome)
    ensures Extends(w, o.world)
    ensures svc.pool.None? || svc.member.None? ==> o.raised && o.world == w
    ensures svc.pool.Some? && svc.member.Some? && |hosts| > 0 ==>
      |NewEvents(w, o.world)| > 0 &&
      NewEvents(w, o.world)[0] == Event(OnDevice(hosts[0]), PoolLoad(Path(FolderName(conf, svc.loadbalancer.tenantId), svc.pool.value.name)),
                                        NewEvents(w, o.world)[0].ok)
    ensures svc.pool.Some? && svc.member.Some? ==>
      var m := MapMember(conf, svc.loadbalancer, svc.member.value);
      var key := (Path(m.partition, svc.pool.value.name), MemberPath(m));
      var ev := NewEvents(w, o.world);
      && (forall j :: 0 <= j < |ev| && ev[j].call.MemberUpdate? ==>
            ev[j].target.OnDevice? && key in DeviceOf(w.devices, ev[j].target.host).members)
      && (forall j :: 0 <= j < |ev| ==> ev[j].call.PoolLoad? || ev[j].call.MemberUpdate?)
      && (!o.raised ==> forall h :: h in hosts ==>
            (key in DeviceOf(o.world.devices, h).members <==> key in DeviceOf(w.devices, h).members))
  {
    match GetPool(conf, svc)
    case None => AdapterRaised(w)
    case Some(p) =>
      match GetMember(conf, svc)
      case None => AdapterRaised(w)
      case Some(m) =>
        var o := MemberEach(fails, w, hosts, PoolPath(p), m, UpdateOp);
        UpdateEventKinds(w, NewEvents(w, o.world), hosts, PoolPath(p), m);
        o
  }
}
