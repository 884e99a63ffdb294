/** `LBaaSBuilder.assure_service`: the eight reconciliation phases, each
    branching its items on `provisioning_status`, with a failure in one item
    caught so that the remaining items and phases still run. */
module LbaasBuilder {
  import opened Wrappers
  import opened Lbaas
  import opened ServiceAdapter
  import opened Bigip
  import opened PoolService

  /** What the builder reads from its driver: the adapter configuration,
      the BIG-IP host list, whether an L3 binding is configured, and the
      failure oracle standing for every collaborator. */
  datatype Driver = Driver(conf: Config, hosts: seq<string>, l3Binding: bool, fails: Oracle)

  /** The world after `assure_service`, whether an exception escaped it,
      and its return value (`all_subnet_hints`) when none did. */
  datatype AssureResult<H> = AssureResult(world: World, raised: bool, hints: Option<H>)

  /* ---------- lookups ---------- */

  /** The `for x in xs: if x["id"] == id: return x` scan: the first item
      whose id (read by `idOf`) is `id`, or None when no item has it. */
  function FindFirst<T(==)>(xs: seq<T>, idOf: T -> string, id: string): (r: Option<T>)
    ensures r.None? <==> forall k :: 0 <= k < |xs| ==> idOf(xs[k]) != id
    ensures r.Some? ==> exists k :: 0 <= k < |xs| && xs[k] == r.value && idOf(r.value) == id &&
                                    forall j :: 0 <= j < k ==> idOf(xs[j]) != id
  {
    if |xs| == 0 then None
    else if idOf(xs[0]) == id then Some(xs[0])
    else
      var r := FindFirst(xs[1..], idOf, id);
      if r.Some? then
        var k :| 0 <= k < |xs[1..]| && xs[1..][k] == r.value && idOf(r.value) == id &&
                 forall j :: 0 <= j < k ==> idOf(xs[1..][j]) != id;
        assert xs[k + 1] == r.value;
        assert forall j :: 1 <= j < k + 1 ==> xs[j] == xs[1..][j - 1];
        r
      else
        assert forall k :: 1 <= k < |xs| ==> xs[k] == xs[1..][k - 1];
        r
  }

  /** The first pool of the service with that id, or None (also when the
      service has no pools). */
  function GetPoolById(service: Service, poolId: string): (r: Option<Pool>)
    ensures service.pools.None? ==> r.None?
    ensures r.Some? ==> r.value in service.pools.value && r.value.id == poolId
    ensures service.pools.Some? ==> (r.None? <==> forall p :: p in service.pools.value ==> p.id != poolId)
    ensures r.Some? ==> exists k :: 0 <= k < |service.pools.value| && service.pools.value[k] == r.value &&
                                    forall j :: 0 <= j < k ==> service.pools.value[j].id != poolId
  {
    if service.pools.None? then None else FindFirst(service.pools.value, (p: Pool) => p.id, poolId)
  }

  function GetListenerById(service: Service, listenerId: string): (r: Option<Listener>)
    ensures service.listeners.None? ==> r.None?
    ensures r.Some? ==> r.value in service.listeners.value && r.value.id == listenerId
    ensures service.listeners.Some? ==> (r.None? <==> forall l :: l in service.listeners.value ==> l.id != listenerId)
    ensures r.Some? ==> exists k :: 0 <= k < |service.listeners.value| && service.listeners.value[k] == r.value &&
                                    forall j :: 0 <= j < k ==> service.listeners.value[j].id != listenerId
  {
    if service.listeners.None? then None else FindFirst(service.listeners.value, (l: Listener) => l.id, listenerId)
  }

  /** The listener named first in the pool's listener list, if the service
      has it; the other listeners of the pool are never consulted. */
  function GetListener(service: Service, pool: Pool): (r: Option<Listener>)
    ensures r.None? <==>
      |pool.listeners| == 0 || service.listeners.None? ||
      forall l :: l in service.listeners.value ==> l.id != pool.listeners[0]
    ensures r.Some? ==> service.listeners.Some? && r.value.id == pool.listeners[0] && r.value in service.listeners.value
    ensures r.Some? ==> exists k :: 0 <= k < |service.listeners.value| && service.listeners.value[k] == r.value &&
                                    forall j :: 0 <= j < k ==> service.listeners.value[j].id != pool.listeners[0]
  {
    if |pool.listeners| > 0 then GetListenerById(service, pool.listeners[0]) else None
  }

  /** Puts the pool's first listener into `svc`; `svc` is left as it was
      when the pool has no listeners or that listener is unknown. */
  function AddListenerPool(service: Service, svc: Svc): (r: Svc)
    requires svc.pool.Some?
    ensures r.(listener := svc.listener) == svc
    ensures GetListener(service, svc.pool.value).None? ==> r == svc
    ensures GetListener(service, svc.pool.value).Some? ==> r.listener == GetListener(service, svc.pool.value)
    ensures r.listener != svc.listener ==>
      && |svc.pool.value.listeners| > 0
      && r.listener.Some? && r.listener.value.id == svc.pool.value.listeners[0]
  {
    var pool := svc.pool.value;
    if |pool.listeners| > 0 then
      match GetListenerById(service, pool.listeners[0])
      case Some(l) => svc.(listener := Some(l))
      case None => svc
    else svc
  }

  /* ---------- the order of phases ---------- */

  predicate IsPendingDeletePool(svc: Svc) {
    svc.pool.Some? && svc.pool.value.status == PendingDelete
  }

  /** The phase (1 to 8) in which `assure_service` issues each kind of call;
      SNAT calls, which it never issues, are 0. */
  function Stage(c: Call): nat {
    match c
    case BindAddress(_, _) => 1
    case ListenerCreate(_) => 2
    case PoolCreate(_) => 3
    case ListenerUpdatePool(svc, _) => if IsPendingDeletePool(svc) then 6 else 3
    case ListenerUpdatePersistence(_) => 3
    case MonitorCreate(_, _) => 4
    case MonitorDelete(_, _) => 4
    case PoolUpdate(_) => 4
    case PoolLoad(_) => 5
    case MemberCreate(_, _) => 5
    case MemberDelete(_, _) => 5
    case MemberUpdate(_, _) => 5
    case PoolDelete(_) => 6
    case ListenerRemovePersistence(_) => 6
    case ListenerDelete(_) => 7
    case UnbindAddress(_, _) => 8
    case _ => 0
  }

  predicate AllAt(ev: seq<Event>, k: nat) {
    forall j :: 0 <= j < |ev| ==> Stage(ev[j].call) == k
  }

  predicate AtMost(ev: seq<Event>, k: nat) {
    forall j :: 0 <= j < |ev| ==> 1 <= Stage(ev[j].call) <= k
  }

  predicate StagesSorted(ev: seq<Event>) {
    forall i, j :: 0 <= i < j < |ev| ==> Stage(ev[i].call) <= Stage(ev[j].call)
  }

  lemma AppendStage(a: seq<Event>, b: seq<Event>, k: nat)
    requires StagesSorted(a) && AtMost(a, k) && AllAt(b, k) && k >= 1
    ensures StagesSorted(a + b) && AtMost(a + b, k)
  {
    forall i, j | 0 <= i < j < |a + b|
      ensures Stage((a + b)[i].call) <= Stage((a + b)[j].call)
    {
      if j >= |a| { assert (a + b)[j] == b[j - |a|]; }
      if i >= |a| { assert (a + b)[i] == b[i - |a|]; }
    }
  }

  lemma AllAtAppend(a: seq<Event>, b: seq<Event>, k: nat)
    requires AllAt(a, k) && AllAt(b, k)
    ensures AllAt(a + b, k)
  {
    assert forall j :: |a| <= j < |a + b| ==> (a + b)[j] == b[j - |a|];
  }

  /** Chaining a later phase onto the events issued so far keeps them in
      phase order. */
  lemma ChainStage(w1: World, w2: World, w3: World, k0: nat, k: nat)
    requires Extends(w1, w2) && Extends(w2, w3)
    requires StagesSorted(NewEvents(w1, w2)) && AtMost(NewEvents(w1, w2), k0)
    requires AllAt(NewEvents(w2, w3), k) && 1 <= k0 <= k
    ensures Extends(w1, w3)
    ensures StagesSorted(NewEvents(w1, w3)) && AtMost(NewEvents(w1, w3), k)
  {
    ExtendsTrans(w1, w2, w3);
    AppendStage(NewEvents(w1, w2), NewEvents(w2, w3), k);
  }

  lemma StartStage(w1: World, w2: World, k: nat)
    requires Extends(w1, w2) && AllAt(NewEvents(w1, w2), k) && k >= 1
    ensures StagesSorted(NewEvents(w1, w2)) && AtMost(NewEvents(w1, w2), k)
  {
  }

  lemma PrependBind(a: seq<Event>, b: seq<Event>, k: nat)
    requires AllAt(a, 1) && StagesSorted(b) && AtMost(b, k) && k >= 1
    ensures StagesSorted(a + b) && AtMost(a + b, k)
  {
    forall i, j | 0 <= i < j < |a + b|
      ensures Stage((a + b)[i].call) <= Stage((a + b)[j].call)
    {
      if j >= |a| { assert (a + b)[j] == b[j - |a|]; }
      if i >= |a| { assert (a + b)[i] == b[i - |a|]; }
    }
    assert forall j :: |a| <= j < |a + b| ==> (a + b)[j] == b[j - |a|];
  }

  lemma ExecEvents(fails: Oracle, w: World, t: Target, c: Call)
    ensures Extends(w, Exec(fails, w, t, c).world)
    ensures NewEvents(w, Exec(fails, w, t, c).world) == [Event(t, c, !Exec(fails, w, t, c).raised)]
  {
    var o := Exec(fails, w, t, c);
    assert o.world.log[..|w.log|] == w.log;
  }

  lemma RanOnEachStage(w: World, o: Outcome, hosts: seq<string>, c: Call)
    requires RanOnEach(w, o, hosts, c)
    ensures AllAt(NewEvents(w, o.world), Stage(c))
  {
  }

  lemma ThenStage(w1: World, w2: World, w3: World, k: nat)
    requires Extends(w1, w2) && Extends(w2, w3)
    requires AllAt(NewEvents(w1, w2), k) && AllAt(NewEvents(w2, w3), k)
    ensures Extends(w1, w3) && AllAt(NewEvents(w1, w3), k)
  {
    ExtendsTrans(w1, w2, w3);
    AllAtAppend(NewEvents(w1, w2), NewEvents(w2, w3), k);
  }

  /* ---------- phase 1 and 8: the VIP address binding ---------- */

  /** `_assure_loadbalancer_created`. A missing `vip_address` raises. */
  function BindVip(d: Driver, lb: LoadBalancer, w: World): (o: Outcome)
    ensures Extends(w, o.world) && AllAt(NewEvents(w, o.world), 1)
    ensures |NewEvents(w, o.world)| > 0 ==> d.l3Binding
    ensures !d.l3Binding ==> !o.raised && o.world == w
    ensures d.l3Binding && lb.vipAddress.None? ==> o.raised && o.world == w
    ensures d.l3Binding && lb.vipAddress.Some? ==>
      NewEvents(w, o.world) == [Event(L3Binding, BindAddress(lb.vipSubnetId, lb.vipAddress.value), !o.raised)]
  {
    if !d.l3Binding then Outcome(w, false)
    else if lb.vipAddress.None? then Outcome(w, true)
    else
      ExecEvents(d.fails, w, L3Binding, BindAddress(lb.vipSubnetId, lb.vipAddress.value));
      Exec(d.fails, w, L3Binding, BindAddress(lb.vipSubnetId, lb.vipAddress.value))
  }

  /** `_assure_loadbalancer_deleted`. */
  function UnbindVip(d: Driver, lb: LoadBalancer, w: World): (o: Outcome)
    ensures Extends(w, o.world) && AllAt(NewEvents(w, o.world), 8)
    ensures |NewEvents(w, o.world)| > 0 ==> d.l3Binding && lb.status == PendingDelete
    ensures lb.status != PendingDelete || !d.l3Binding ==> !o.raised && o.world == w
    ensures lb.status == PendingDelete && d.l3Binding && lb.vipAddress.None? ==> o.raised && o.world == w
    ensures lb.status == PendingDelete && d.l3Binding && lb.vipAddress.Some? ==>
      NewEvents(w, o.world) == [Event(L3Binding, UnbindAddress(lb.vipSubnetId, lb.vipAddress.value), !o.raised)]
  {
    if lb.status != PendingDelete || !d.l3Binding then Outcome(w, false)
    else if lb.vipAddress.None? then Outcome(w, true)
    else
      ExecEvents(d.fails, w, L3Binding, UnbindAddress(lb.vipSubnetId, lb.vipAddress.value));
      Exec(d.fails, w, L3Binding, UnbindAddress(lb.vipSubnetId, lb.vipAddress.value))
  }

  /* ---------- phase 2 and 7: listeners ---------- */

  function ListenerSvc(lb: LoadBalancer, l: Listener): Svc {
    Svc(lb, Some(l), None, None, None)
  }

  function ListenerCall(lb: LoadBalancer, l: Listener, deleting: bool): Call {
    if deleting then ListenerDelete(ListenerSvc(lb, l)) else ListenerCreate(ListenerSvc(lb, l))
  }

  /** The listener phase handles `l`: the creating phase takes every
      listener not PENDING_DELETE, the deleting phase the others. */
  predicate Selected(l: Listener, deleting: bool) {
    (l.status == PendingDelete) == deleting
  }

  /** Every event is the phase's call for a listener of the list that the
      phase selects. */
  predicate ListenerEvents(lb: LoadBalancer, listeners: seq<Listener>, deleting: bool, ev: seq<Event>) {
    forall j :: 0 <= j < |ev| ==>
      && ev[j].target == AllDevices
      && (ev[j].call.ListenerCreate? || ev[j].call.ListenerDelete?)
      && ev[j].call.svc.listener.Some?
      && var l := ev[j].call.svc.listener.value;
      && l in listeners && Selected(l, deleting) && ev[j].call == ListenerCall(lb, l, deleting)
  }

  lemma ListenerEventsCons(lb: LoadBalancer, listeners: seq<Listener>, deleting: bool, e1: seq<Event>, e2: seq<Event>)
    requires |listeners| > 0
    requires ListenerEvents(lb, listeners[..1], deleting, e1) && ListenerEvents(lb, listeners[1..], deleting, e2)
    ensures ListenerEvents(lb, listeners, deleting, e1 + e2)
  {
    assert listeners == listeners[..1] + listeners[1..];
    forall j | 0 <= j < |e1 + e2|
      ensures (e1 + e2)[j].call.ListenerCreate? || (e1 + e2)[j].call.ListenerDelete?
      ensures (e1 + e2)[j].call.svc.listener.Some? && (e1 + e2)[j].call.svc.listener.value in listeners
    {
      if j < |e1| { assert (e1 + e2)[j] == e1[j]; } else { assert (e1 + e2)[j] == e2[j - |e1|]; }
    }
  }

  lemma ListenerEventsStage(lb: LoadBalancer, listeners: seq<Listener>, deleting: bool, ev: seq<Event>)
    requires ListenerEvents(lb, listeners, deleting, ev)
    ensures AllAt(ev, if deleting then 7 else 2)
  {
  }

  /** One listener: `listener_builder.create_listener` or
      `delete_listener` when the phase selects it, nothing otherwise. */
  function ListenerItem(d: Driver, lb: LoadBalancer, l: Listener, deleting: bool, w: World): (r: World)
    ensures Extends(w, r)
    ensures Selected(l, deleting) ==> exists ok :: NewEvents(w, r) == [Event(AllDevices, ListenerCall(lb, l, deleting), ok)]
    ensures !Selected(l, deleting) ==> r == w
  {
    if !Selected(l, deleting) then w
    else
      ExecEvents(d.fails, w, AllDevices, ListenerCall(lb, l, deleting));
      Exec(d.fails, w, AllDevices, ListenerCall(lb, l, deleting)).world
  }

  /** `_assure_listeners_created` (deleting = false) and
      `_assure_listeners_deleted` (deleting = true): a listener-builder
      failure is caught and the loop moves on. */
  function ListenersPhase(d: Driver, lb: LoadBalancer, listeners: seq<Listener>, deleting: bool, w: World): (r: World)
    ensures Extends(w, r)
    ensures ListenerEvents(lb, listeners, deleting, NewEvents(w, r))
    ensures AllAt(NewEvents(w, r), if deleting then 7 else 2)
    decreases |listeners|
  {
    if |listeners| == 0 then w
    else
      var w1 := ListenerItem(d, lb, listeners[0], deleting, w);
      var r := ListenersPhase(d, lb, listeners[1..], deleting, w1);
      ExtendsTrans(w, w1, r);
      assert listeners[0] in listeners[..1];
      ListenerEventsCons(lb, listeners, deleting, NewEvents(w, w1), NewEvents(w1, r));
      ListenerEventsStage(lb, listeners, deleting, NewEvents(w, r));
      r
  }

  /** Failure isolation: every listener the phase selects gets its call,
      whatever became of the calls for the listeners before it. */
  lemma {:induction false} ListenersPhaseIssues(d: Driver, lb: LoadBalancer, listeners: seq<Listener>, deleting: bool, w: World, l: Listener)
    requires l in listeners && Selected(l, deleting)
    ensures Issued(NewEvents(w, ListenersPhase(d, lb, listeners, deleting, w)), ListenerCall(lb, l, deleting))
    decreases |listeners|
  {
    var w1 := ListenerItem(d, lb, listeners[0], deleting, w);
    var r := ListenersPhase(d, lb, listeners[1..], deleting, w1);
    ExtendsTrans(w, w1, r);
    IssuedAppend(NewEvents(w, w1), NewEvents(w1, r), ListenerCall(lb, l, deleting));
    if l == listeners[0] {
      assert NewEvents(w, w1)[0].call == ListenerCall(lb, l, deleting);
    } else {
      assert l in listeners[1..];
      ListenersPhaseIssues(d, lb, listeners[1..], deleting, w1, l);
    }
  }

  /** Both directions: the listener phase issues a listener's call exactly
      when the listener is in the list and the phase selects it. */
  lemma ListenersPhasePartition(d: Driver, lb: LoadBalancer, listeners: seq<Listener>, deleting: bool, w: World, l: Listener)
    ensures Issued(NewEvents(w, ListenersPhase(d, lb, listeners, deleting, w)), ListenerCall(lb, l, deleting))
        <==> l in listeners && Selected(l, deleting)
  {
    var ev := NewEvents(w, ListenersPhase(d, lb, listeners, deleting, w));
    if l in listeners && Selected(l, deleting) {
      ListenersPhaseIssues(d, lb, listeners, deleting, w, l);
    }
    if Issued(ev, ListenerCall(lb, l, deleting)) {
      var j :| 0 <= j < |ev| && ev[j].call == ListenerCall(lb, l, deleting);
      assert ev[j].call.svc.listener.value == l;
    }
  }

  /* ---------- phase 3 and 6: pools ---------- */

  /** The `svc` built for a pool: the load balancer, the pool and the
      pool's first listener. */
  function PoolSvc(service: Service, lb: LoadBalancer, p: Pool): (svc: Svc)
    ensures svc.pool == Some(p) && svc.loadbalancer == lb
    ensures svc.healthmonitor.None? && svc.member.None?
  {
    AddListenerPool(service, Svc(lb, None, Some(p), None, None))
  }

  /** One pool of `_assure_pools_created`: create the pool on every device,
      then point its listener at it, then set session persistence; a
      failing step ends this pool's processing. */
  function CreatePoolItem(d: Driver, service: Service, lb: LoadBalancer, pool: Pool, w: World): (r: World)
    requires pool.status != PendingDelete
    ensures Extends(w, r) && AllAt(NewEvents(w, r), 3)
    ensures |d.hosts| > 0 ==> |NewEvents(w, r)| > 0 && NewEvents(w, r)[0].call == PoolCreate(MapPool(d.conf, lb, pool, None))
  {
    var svc := PoolSvc(service, lb, pool);
    var o1 := CreatePool(d.conf, d.fails, w, svc, d.hosts);
    RanOnEachStage(w, o1, d.hosts, PoolCreate(MapPool(d.conf, lb, pool, None)));
    if o1.raised then o1.world
    else
      var r := CreatePoolRest(d, svc, pool.name, o1.world);
      ThenStage(w, o1.world, r, 3);
      r
  }

  /** What follows a pool created on every device: the listener update,
      then, only if that went through, session persistence. */
  function CreatePoolRest(d: Driver, svc: Svc, poolName: string, w: World): (r: World)
    requires !IsPendingDeletePool(svc)
    ensures Extends(w, r) && AllAt(NewEvents(w, r), 3)
    ensures var ev := NewEvents(w, r);
      && 1 <= |ev| <= 2
      && ev[0] == Event(AllDevices, ListenerUpdatePool(svc, poolName), ev[0].ok)
      && (|ev| == 2 ==> ev[0].ok && ev[1].call == ListenerUpdatePersistence(svc))
  {
    var o2 := Exec(d.fails, w, AllDevices, ListenerUpdatePool(svc, poolName));
    ExecEvents(d.fails, w, AllDevices, ListenerUpdatePool(svc, poolName));
    if o2.raised then o2.world
    else
      var o3 := Exec(d.fails, o2.world, AllDevices, ListenerUpdatePersistence(svc));
      ExecEvents(d.fails, o2.world, AllDevices, ListenerUpdatePersistence(svc));
      ExtendsTrans(w, o2.world, o3.world);
      assert NewEvents(w, o3.world) == [Event(AllDevices, ListenerUpdatePool(svc, poolName), true), Event(AllDevices, ListenerUpdatePersistence(svc), !o3.raised)];
      o3.world
  }

  /** Inside one created pool the order is: the pool on every device, then
      the listener update, then persistence, each only after the step
      before it succeeded everywhere. */
  lemma CreatePoolItemOrder(d: Driver, service: Service, lb: LoadBalancer, pool: Pool, w: World)
    requires pool.status != PendingDelete
    ensures var svc := PoolSvc(service, lb, pool);
            var ev := NewEvents(w, CreatePoolItem(d, service, lb, pool, w));
      && (forall j :: 0 <= j < |ev| && ev[j].call.ListenerUpdatePool? ==>
            && ev[j] == Event(AllDevices, ListenerUpdatePool(svc, pool.name), ev[j].ok)
            && j == |d.hosts|
            && forall i :: 0 <= i < j ==> ev[i] == Event(OnDevice(d.hosts[i]), PoolCreate(MapPool(d.conf, lb, pool, None)), true))
      && (forall j :: 0 <= j < |ev| && ev[j].call.ListenerUpdatePersistence? ==>
            j == |d.hosts| + 1 && ev[j - 1] == Event(AllDevices, ListenerUpdatePool(svc, pool.name), true))
  {
    var svc := PoolSvc(service, lb, pool);
    var c := PoolCreate(MapPool(d.conf, lb, pool, None));
    var o1 := CreatePool(d.conf, d.fails, w, svc, d.hosts);
    var e1 := NewEvents(w, o1.world);
    if !o1.raised {
      var r := CreatePoolRest(d, svc, pool.name, o1.world);
      ExtendsTrans(w, o1.world, r);
      PoolThenListener(e1, NewEvents(o1.world, r), NewEvents(w, r), d.hosts, c, svc, pool.name);
    } else {
      assert forall j :: 0 <= j < |e1| ==> e1[j].call == c;
    }
  }

  /** The pool creates on every device, followed by the listener update and
      at most the persistence update. */
  lemma PoolThenListener(e1: seq<Event>, rest: seq<Event>, ev: seq<Event>, hosts: seq<string>, c: Call, svc: Svc, poolName: string)
    requires ev == e1 + rest && c.PoolCreate?
    requires |e1| == |hosts| && forall k :: 0 <= k < |e1| ==> e1[k] == Event(OnDevice(hosts[k]), c, true)
    requires 1 <= |rest| <= 2 && rest[0] == Event(AllDevices, ListenerUpdatePool(svc, poolName), rest[0].ok)
    requires |rest| == 2 ==> rest[0].ok && rest[1].call == ListenerUpdatePersistence(svc)
    ensures forall j :: 0 <= j < |ev| && ev[j].call.ListenerUpdatePool? ==>
      && ev[j] == Event(AllDevices, ListenerUpdatePool(svc, poolName), ev[j].ok)
      && j == |hosts|
      && forall i :: 0 <= i < j ==> ev[i] == Event(OnDevice(hosts[i]), c, true)
    ensures forall j :: 0 <= j < |ev| && ev[j].call.ListenerUpdatePersistence? ==>
      j == |hosts| + 1 && ev[j - 1] == Event(AllDevices, ListenerUpdatePool(svc, poolName), true)
  {
    assert forall j :: |e1| <= j < |ev| ==> ev[j] == rest[j - |e1|];
    assert forall j :: 0 <= j < |e1| ==> ev[j] == e1[j];
  }

  /** One pool of `_assure_pools_deleted`: detach the pool from its
      listener, then delete it on every device, then remove session
      persistence; a failing step ends this pool's processing. */
  function DeletePoolItem(d: Driver, service: Service, lb: LoadBalancer, pool: Pool, w: World): (r: World)
    requires pool.status == PendingDelete
    ensures Extends(w, r) && AllAt(NewEvents(w, r), 6)
    ensures |NewEvents(w, r)| > 0 && NewEvents(w, r)[0].target == AllDevices
    ensures NewEvents(w, r)[0].call == ListenerUpdatePool(PoolSvc(service, lb, pool), "")
  {
    var svc := PoolSvc(service, lb, pool);
    var o1 := Exec(d.fails, w, AllDevices, ListenerUpdatePool(svc, ""));
    ExecEvents(d.fails, w, AllDevices, ListenerUpdatePool(svc, ""));
    if o1.raised then o1.world
    else
      var r := DeletePoolRest(d, svc, o1.world);
      ExtendsTrans(w, o1.world, r);
      AllAtAppend(NewEvents(w, o1.world), NewEvents(o1.world, r), 6);
      r
  }

  /** What follows a successful detach: the pool deleted on every device,
      then, only if that went through, session persistence removed. */
  function DeletePoolRest(d: Driver, svc: Svc, w: World): (r: World)
    requires IsPendingDeletePool(svc)
    ensures Extends(w, r) && AllAt(NewEvents(w, r), 6)
  {
    var o2 := DeletePool(d.conf, d.fails, w, svc, d.hosts);
    RanOnEachStage(w, o2, d.hosts, PoolDelete(Path(FolderName(d.conf, svc.loadbalancer.tenantId), svc.pool.value.name)));
    if o2.raised then o2.world
    else
      var o3 := Exec(d.fails, o2.world, AllDevices, ListenerRemovePersistence(svc));
      ExecEvents(d.fails, o2.world, AllDevices, ListenerRemovePersistence(svc));
      ThenStage(w, o2.world, o3.world, 6);
      o3.world
  }

  lemma DeletePoolRestOrder(d: Driver, svc: Svc, w: World)
    requires IsPendingDeletePool(svc)
    ensures var ev := NewEvents(w, DeletePoolRest(d, svc, w));
      && (forall j :: 0 <= j < |ev| && ev[j].call.PoolDelete? ==>
            ev[j].call.path == Path(FolderName(d.conf, svc.loadbalancer.tenantId), svc.pool.value.name))
      && (forall j :: 0 <= j < |ev| && ev[j].call.ListenerRemovePersistence? ==>
            j == |ev| - 1 && j == |d.hosts| && forall i :: 0 <= i < j ==> ev[i].ok)
  {
    var o2 := DeletePool(d.conf, d.fails, w, svc, d.hosts);
    if !o2.raised {
      var o3 := Exec(d.fails, o2.world, AllDevices, ListenerRemovePersistence(svc));
      ExecEvents(d.fails, o2.world, AllDevices, ListenerRemovePersistence(svc));
      ExtendsTrans(w, o2.world, o3.world);
      assert NewEvents(w, o3.world) == NewEvents(w, o2.world) + [Event(AllDevices, ListenerRemovePersistence(svc), !o3.raised)];
    }
  }

  /** Inside one deleted pool: the pool is deleted only after its listener
      let go of it, and persistence is removed last, only after every
      earlier step succeeded. */
  lemma DeletePoolItemOrder(d: Driver, service: Service, lb: LoadBalancer, pool: Pool, w: World)
    requires pool.status == PendingDelete
    ensures var ev := NewEvents(w, DeletePoolItem(d, service, lb, pool, w));
      && (!ev[0].ok ==> |ev| == 1)
      && (forall j :: 0 <= j < |ev| && ev[j].call.PoolDelete? ==>
            j >= 1 && ev[0].ok && ev[j].call.path == Path(FolderName(d.conf, lb.tenantId), pool.name))
      && (forall j :: 0 <= j < |ev| && ev[j].call.ListenerRemovePersistence? ==>
            j == |ev| - 1 && j == |d.hosts| + 1 && forall i :: 0 <= i < j ==> ev[i].ok)
  {
    var svc := PoolSvc(service, lb, pool);
    var o1 := Exec(d.fails, w, AllDevices, ListenerUpdatePool(svc, ""));
    ExecEvents(d.fails, w, AllDevices, ListenerUpdatePool(svc, ""));
    if !o1.raised {
      var r := DeletePoolRest(d, svc, o1.world);
      DeletePoolRestOrder(d, svc, o1.world);
      ExtendsTrans(w, o1.world, r);
      var rest := NewEvents(o1.world, r);
      assert NewEvents(w, r) == [Event(AllDevices, ListenerUpdatePool(svc, ""), true)] + rest;
      assert forall j :: 1 <= j < 1 + |rest| ==> NewEvents(w, r)[j] == rest[j - 1];
    }
  }

  /** `_assure_pools_created` (deleting = false) and `_assure_pools_deleted`
      (deleting = true) over the service's pool list. */
  function PoolsPhase(d: Driver, service: Service, lb: LoadBalancer, pools: seq<Pool>, deleting: bool, w: World): (r: World)
    ensures Extends(w, r)
    ensures AllAt(NewEvents(w, r), if deleting then 6 else 3)
    decreases |pools|
  {
    if |pools| == 0 then w
    else
      var p := pools[0];
      var w1 :=
        if (p.status == PendingDelete) != deleting then w
        else if deleting then DeletePoolItem(d, service, lb, p, w)
        else CreatePoolItem(d, service, lb, p, w);
      var r := PoolsPhase(d, service, lb, pools[1..], deleting, w1);
      ThenStage(w, w1, r, if deleting then 6 else 3);
      r
  }

  /** Failure isolation in the deleting pool phase: every PENDING_DELETE
      pool is detached from its listener, however the earlier pools fared. */
  lemma {:induction false} PoolsPhaseDetaches(d: Driver, service: Service, lb: LoadBalancer, pools: seq<Pool>, w: World, p: Pool)
    requires p in pools && p.status == PendingDelete
    ensures Issued(NewEvents(w, PoolsPhase(d, service, lb, pools, true, w)), ListenerUpdatePool(PoolSvc(service, lb, p), ""))
    decreases |pools|
  {
    var c := ListenerUpdatePool(PoolSvc(service, lb, p), "");
    var q := pools[0];
    var w1 := if q.status != PendingDelete then w else DeletePoolItem(d, service, lb, q, w);
    var r := PoolsPhase(d, service, lb, pools[1..], true, w1);
    ExtendsTrans(w, w1, r);
    IssuedAppend(NewEvents(w, w1), NewEvents(w1, r), c);
    if p == q {
      assert NewEvents(w, w1)[0].call == c;
    } else {
      assert p in pools[1..];
      PoolsPhaseDetaches(d, service, lb, pools[1..], w1, p);
    }
  }

  /** Failure isolation in the creating pool phase: with at least one
      device, every pool not PENDING_DELETE is pushed to the first device. */
  lemma {:induction false} PoolsPhaseCreates(d: Driver, service: Service, lb: LoadBalancer, pools: seq<Pool>, w: World, p: Pool)
    requires p in pools && p.status != PendingDelete && |d.hosts| > 0
    ensures Issued(NewEvents(w, PoolsPhase(d, service, lb, pools, false, w)), PoolCreate(MapPool(d.conf, lb, p, None)))
    decreases |pools|
  {
    var c := PoolCreate(MapPool(d.conf, lb, p, None));
    var q := pools[0];
    var w1 := if q.status == PendingDelete then w else CreatePoolItem(d, service, lb, q, w);
    var r := PoolsPhase(d, service, lb, pools[1..], false, w1);
    ExtendsTrans(w, w1, r);
    IssuedAppend(NewEvents(w, w1), NewEvents(w1, r), c);
    if p == q {
      assert NewEvents(w, w1)[0].call == c;
    } else {
      assert p in pools[1..];
      PoolsPhaseCreates(d, service, lb, pools[1..], w1, p);
    }
  }

  /* ---------- phase 4: health monitors ---------- */

  function MonitorSvc(service: Service, lb: LoadBalancer, m: HealthMonitor): Svc {
    Svc(lb, None, GetPoolById(service, m.poolId), Some(m), None)
  }

  /** One monitor of `_assure_monitors`: deleted when PENDING_DELETE,
      created otherwise. */
  function MonitorItem(d: Driver, service: Service, lb: LoadBalancer, m: HealthMonitor, w: World): (r: World)
    ensures Extends(w, r) && AllAt(NewEvents(w, r), 4)
    ensures m.status != PendingDelete && |d.hosts| > 0 ==>
      |NewEvents(w, r)| > 0 && NewEvents(w, r)[0].call == MonitorCreate(MonitorHelper(m.monitorType), MapHealthMonitor(d.conf, lb, m))
    ensures m.status == PendingDelete && |d.hosts| > 0 && GetPoolById(service, m.poolId).Some? ==>
      |NewEvents(w, r)| > 0 && NewEvents(w, r)[0].call == MonitorDelete(MonitorHelper(m.monitorType), MonitorPath(MapHealthMonitor(d.conf, lb, m)))
  {
    var svc := MonitorSvc(service, lb, m);
    if m.status == PendingDelete then
      var o := DeleteHealthMonitor(d.conf, d.fails, w, svc, d.hosts);
      MonitorStage(NewEvents(w, o.world));
      o.world
    else
      var o := CreateHealthMonitor(d.conf, d.fails, w, svc, d.hosts);
      MonitorStage(NewEvents(w, o.world));
      o.world
  }

  /** Monitor creates and deletes and the pool pushes around them all
      belong to phase 4. */
  lemma MonitorStage(ev: seq<Event>)
    requires forall j :: 0 <= j < |ev| ==> ev[j].call.MonitorCreate? || ev[j].call.MonitorDelete? || ev[j].call.PoolUpdate?
    ensures AllAt(ev, 4)
  {
  }

  function MonitorsPhase(d: Driver, service: Service, lb: LoadBalancer, monitors: seq<HealthMonitor>, w: World): (r: World)
    ensures Extends(w, r) && AllAt(NewEvents(w, r), 4)
    decreases |monitors|
  {
    if |monitors| == 0 then w
    else
      var w1 := MonitorItem(d, service, lb, monitors[0], w);
      var r := MonitorsPhase(d, service, lb, monitors[1..], w1);
      ThenStage(w, w1, r, 4);
      r
  }

  /** The first call the monitor phase makes for `m`: its delete when it is
      PENDING_DELETE, its create otherwise. */
  function MonitorFirstCall(d: Driver, lb: LoadBalancer, m: HealthMonitor): Call {
    var hm := MapHealthMonitor(d.conf, lb, m);
    if m.status == PendingDelete then MonitorDelete(MonitorHelper(m.monitorType), MonitorPath(hm))
    else MonitorCreate(MonitorHelper(m.monitorType), hm)
  }

  /** Failure isolation in the monitor phase: with at least one device,
      every monitor is deleted or created on the first device, whatever
      became of the monitors before it (a delete needs the monitor's pool,
      without which the adapter raises first). */
  lemma {:induction false} MonitorsPhaseIssues(d: Driver, service: Service, lb: LoadBalancer, monitors: seq<HealthMonitor>, w: World, m: HealthMonitor)
    requires m in monitors && |d.hosts| > 0
    requires m.status == PendingDelete ==> GetPoolById(service, m.poolId).Some?
    ensures Issued(NewEvents(w, MonitorsPhase(d, service, lb, monitors, w)), MonitorFirstCall(d, lb, m))
    decreases |monitors|
  {
    var c := MonitorFirstCall(d, lb, m);
    var w1 := MonitorItem(d, service, lb, monitors[0], w);
    var r := MonitorsPhase(d, service, lb, monitors[1..], w1);
    ExtendsTrans(w, w1, r);
    IssuedAppend(NewEvents(w, w1), NewEvents(w1, r), c);
    if m == monitors[0] {
      assert NewEvents(w, w1)[0].call == c;
    } else {
      assert m in monitors[1..];
      MonitorsPhaseIssues(d, service, lb, monitors[1..], w1, m);
    }
  }

  /* ---------- phase 5: members ---------- */

  function MemberSvc(service: Service, lb: LoadBalancer, m: Member): Svc {
    Svc(lb, None, GetPoolById(service, m.poolId), None, Some(m))
  }

  /** The member's pool as the member builder loads it. */
  function MemberPoolLoad(d: Driver, service: Service, lb: LoadBalancer, m: Member): Call
    requires GetPoolById(service, m.poolId).Some?
  {
    PoolLoad(Path(FolderName(d.conf, lb.tenantId), GetPoolById(service, m.poolId).value.name))
  }

  /** One member of `_assure_members`: deleted when PENDING_DELETE,
      created otherwise. */
  function MemberItem(d: Driver, service: Service, lb: LoadBalancer, m: Member, w: World): (r: World)
    ensures Extends(w, r) && AllAt(NewEvents(w, r), 5)
    ensures |d.hosts| > 0 && GetPoolById(service, m.poolId).Some? ==>
      |NewEvents(w, r)| > 0 && NewEvents(w, r)[0].call == MemberPoolLoad(d, service, lb, m)
  {
    var svc := MemberSvc(service, lb, m);
    if m.status == PendingDelete then
      DeleteMemberStage(d, svc, w);
      DeleteMember(d.conf, d.fails, w, svc, d.hosts).world
    else
      CreateMemberStage(d, svc, w);
      CreateMember(d.conf, d.fails, w, svc, d.hosts).world
  }

  lemma MemberCallsAt5(ev: seq<Event>)
    requires forall j :: 0 <= j < |ev| ==> ev[j].call.PoolLoad? || ev[j].call.MemberCreate? || ev[j].call.MemberDelete?
    ensures AllAt(ev, 5)
  {
  }

  lemma CreateMemberStage(d: Driver, svc: Svc, w: World)
    ensures Extends(w, CreateMember(d.conf, d.fails, w, svc, d.hosts).world)
    ensures AllAt(NewEvents(w, CreateMember(d.conf, d.fails, w, svc, d.hosts).world), 5)
  {
    var o := CreateMember(d.conf, d.fails, w, svc, d.hosts);
    MemberCallsAt5(NewEvents(w, o.world));
  }

  lemma DeleteMemberStage(d: Driver, svc: Svc, w: World)
    ensures Extends(w, DeleteMember(d.conf, d.fails, w, svc, d.hosts).world)
    ensures AllAt(NewEvents(w, DeleteMember(d.conf, d.fails, w, svc, d.hosts).world), 5)
  {
    var o := DeleteMember(d.conf, d.fails, w, svc, d.hosts);
    MemberCallsAt5(NewEvents(w, o.world));
  }

  function MembersPhase(d: Driver, service: Service, lb: LoadBalancer, members: seq<Member>, w: World): (r: World)
    ensures Extends(w, r) && AllAt(NewEvents(w, r), 5)
    decreases |members|
  {
    if |members| == 0 then w
    else
      var w1 := MemberItem(d, service, lb, members[0], w);
      var r := MembersPhase(d, service, lb, members[1..], w1);
      ThenStage(w, w1, r, 5);
      r
  }

  /** Failure isolation in the member phase: with at least one device,
      every member whose pool is found gets its pool loaded on the first
      device, whatever became of the members before it. */
  lemma {:induction false} MembersPhaseLoads(d: Driver, service: Service, lb: LoadBalancer, members: seq<Member>, w: World, m: Member)
    requires m in members && |d.hosts| > 0 && GetPoolById(service, m.poolId).Some?
    ensures Issued(NewEvents(w, MembersPhase(d, service, lb, members, w)), MemberPoolLoad(d, service, lb, m))
    decreases |members|
  {
    var c := MemberPoolLoad(d, service, lb, m);
    var w1 := MemberItem(d, service, lb, members[0], w);
    var r := MembersPhase(d, service, lb, members[1..], w1);
    ExtendsTrans(w, w1, r);
    IssuedAppend(NewEvents(w, w1), NewEvents(w1, r), c);
    if m == members[0] {
      assert NewEvents(w, w1)[0].call == c;
    } else {
      assert m in members[1..];
      MembersPhaseLoads(d, service, lb, members[1..], w1, m);
    }
  }

  /* ---------- assure_service ---------- */

  /** Phases 2 to 7; none of them lets an exception escape. */
  function MiddlePhases(d: Driver, service: Service, lb: LoadBalancer, w: World): (r: World)
    ensures Extends(w, r)
    ensures StagesSorted(NewEvents(w, r)) && AtMost(NewEvents(w, r), 7)
  {
    var w2 := if service.listeners.Some? then ListenersPhase(d, lb, service.listeners.value, false, w) else w;
    var w3 := if service.pools.Some? then PoolsPhase(d, service, lb, service.pools.value, false, w2) else w2;
    var w4 := if service.pools.Some? && service.healthmonitors.Some?
              then MonitorsPhase(d, service, lb, service.healthmonitors.value, w3) else w3;
    var w5 := if service.pools.Some? && service.members.Some?
              then MembersPhase(d, service, lb, service.members.value, w4) else w4;
    var w6 := if service.pools.Some? then PoolsPhase(d, service, lb, service.pools.value, true, w5) else w5;
    var w7 := if service.listeners.Some? then ListenersPhase(d, lb, service.listeners.value, true, w6) else w6;
    SixStages(w, w2, w3, w4, w5, w6, w7);
    w7
  }

  /** Six runs in a row, the k-th issuing only phase k + 1 calls, issue
      their calls in phase order. */
  lemma SixStages(w: World, w2: World, w3: World, w4: World, w5: World, w6: World, w7: World)
    requires Extends(w, w2) && AllAt(NewEvents(w, w2), 2)
    requires Extends(w2, w3) && AllAt(NewEvents(w2, w3), 3)
    requires Extends(w3, w4) && AllAt(NewEvents(w3, w4), 4)
    requires Extends(w4, w5) && AllAt(NewEvents(w4, w5), 5)
    requires Extends(w5, w6) && AllAt(NewEvents(w5, w6), 6)
    requires Extends(w6, w7) && AllAt(NewEvents(w6, w7), 7)
    ensures Extends(w, w7) && StagesSorted(NewEvents(w, w7)) && AtMost(NewEvents(w, w7), 7)
  {
    StartStage(w, w2, 2);
    ChainStage(w, w2, w3, 2, 3);
    ChainStage(w, w3, w4, 3, 4);
    ChainStage(w, w4, w5, 4, 5);
    ChainStage(w, w5, w6, 5, 6);
    ChainStage(w, w6, w7, 6, 7);
  }

  /** `assure_service` once the load balancer is known: bind, phases 2 to
      7, unbind. Only the bind or the unbind can let an exception escape. */
  function AssureLoadBalancer(d: Driver, service: Service, lb: LoadBalancer, w: World): (o: Outcome)
    ensures Extends(w, o.world)
    ensures StagesSorted(NewEvents(w, o.world)) && AtMost(NewEvents(w, o.world), 8)
  {
    var o1 := BindVip(d, lb, w);
    StartStage(w, o1.world, 1);
    if o1.raised then o1
    else
      var w7 := MiddlePhases(d, service, lb, o1.world);
      var o8 := UnbindVip(d, lb, w7);
      ExtendsTrans(w, o1.world, w7);
      PrependBind(NewEvents(w, o1.world), NewEvents(o1.world, w7), 7);
      ChainStage(w, w7, o8.world, 7, 8);
      o8
  }

  /** `assure_service`. Without a load balancer every path raises a
      KeyError before any call; the hints come back unchanged whenever no
      exception escapes. */
  function AssureService<H>(d: Driver, service: Service, hints: H, w: World): (r: AssureResult<H>)
    ensures Extends(w, r.world)
    ensures StagesSorted(NewEvents(w, r.world)) && AtMost(NewEvents(w, r.world), 8)
    ensures r.raised <==> r.hints.None?
    ensures r.hints.Some? ==> r.hints.value == hints
    ensures service.loadbalancer.None? ==> r.raised && r.world == w
  {
    match service.loadbalancer
    case None => AssureResult(w, true, None)
    case Some(lb) =>
      var o := AssureLoadBalancer(d, service, lb, w);
      AssureResult(o.world, o.raised, if o.raised then None else Some(hints))
  }

  /* ---------- skipped phases and failure isolation across phases ---------- */

  /** No event of `ev` belongs to phase `k`. */
  predicate Avoids(ev: seq<Event>, k: nat) {
    forall j :: 0 <= j < |ev| ==> Stage(ev[j].call) != k
  }

  lemma ChainAvoids(w1: World, w2: World, w3: World, k: nat)
    requires Extends(w1, w2) && Extends(w2, w3)
    requires Avoids(NewEvents(w1, w2), k) && Avoids(NewEvents(w2, w3), k)
    ensures Extends(w1, w3) && Avoids(NewEvents(w1, w3), k)
  {
    ExtendsTrans(w1, w2, w3);
    var a, b := NewEvents(w1, w2), NewEvents(w2, w3);
    assert forall j :: |a| <= j < |a + b| ==> (a + b)[j] == b[j - |a|];
  }

  /** Whether `assure_service` skips phase `k` for this service: pools
      need "pools", monitors need "pools" and "healthmonitors", members
      need "pools" and "members". */
  predicate Skips(service: Service, k: nat) {
    || ((k == 3 || k == 6) && service.pools.None?)
    || (k == 4 && (service.pools.None? || service.healthmonitors.None?))
    || (k == 5 && (service.pools.None? || service.members.None?))
  }

  /** A skipped phase issues nothing. */
  lemma MiddlePhasesSkips(d: Driver, service: Service, lb: LoadBalancer, w: World, k: nat)
    requires Skips(service, k)
    ensures Avoids(NewEvents(w, MiddlePhases(d, service, lb, w)), k)
  {
    var w2 := if service.listeners.Some? then ListenersPhase(d, lb, service.listeners.value, false, w) else w;
    var w3 := if service.pools.Some? then PoolsPhase(d, service, lb, service.pools.value, false, w2) else w2;
    var w4 := if service.pools.Some? && service.healthmonitors.Some?
              then MonitorsPhase(d, service, lb, service.healthmonitors.value, w3) else w3;
    var w5 := if service.pools.Some? && service.members.Some?
              then MembersPhase(d, service, lb, service.members.value, w4) else w4;
    var w6 := if service.pools.Some? then PoolsPhase(d, service, lb, service.pools.value, true, w5) else w5;
    var w7 := if service.listeners.Some? then ListenersPhase(d, lb, service.listeners.value, true, w6) else w6;
    assert MiddlePhases(d, service, lb, w) == w7;
    ChainAvoids(w, w2, w3, k);
    ChainAvoids(w, w3, w4, k);
    ChainAvoids(w, w4, w5, k);
    ChainAvoids(w, w5, w6, k);
    ChainAvoids(w, w6, w7, k);
  }

  /** `c` issued somewhere in the middle of a run is issued by the run. */
  lemma IssuedWithin(w1: World, w2: World, w3: World, w4: World, c: Call)
    requires Extends(w1, w2) && Extends(w2, w3) && Extends(w3, w4)
    requires Issued(NewEvents(w2, w3), c)
    ensures Extends(w1, w4) && Issued(NewEvents(w1, w4), c)
  {
    ExtendsTrans(w1, w2, w3);
    ExtendsTrans(w1, w3, w4);
    IssuedAppend(NewEvents(w1, w2), NewEvents(w2, w3), c);
    IssuedAppend(NewEvents(w1, w3), NewEvents(w3, w4), c);
  }

  /** The worlds between the phases of a run whose bind went through:
      `w2` after the listeners were created, `w3` after the pools were
      created, `w4` after the monitors, `w5` after the members. */
  lemma RunWorlds<H>(d: Driver, service: Service, hints: H, w: World) returns (w2: World, w3: World, w4: World, w5: World)
    requires service.loadbalancer.Some? && service.pools.Some?
    requires !BindVip(d, service.loadbalancer.value, w).raised
    ensures var lb := service.loadbalancer.value;
            var w1 := BindVip(d, lb, w).world;
      && Extends(w, w2)
      && w3 == PoolsPhase(d, service, lb, service.pools.value, false, w2)
      && Extends(w3, w4)
      && Extends(w4, w5)
      && (service.members.Some? ==> w5 == MembersPhase(d, service, lb, service.members.value, w4))
      && Extends(w5, AssureService(d, service, hints, w).world)
  {
    var lb := service.loadbalancer.value;
    var pools := service.pools.value;
    var w1 := BindVip(d, lb, w).world;
    w2 := if service.listeners.Some? then ListenersPhase(d, lb, service.listeners.value, false, w1) else w1;
    w3 := PoolsPhase(d, service, lb, pools, false, w2);
    w4 := if service.healthmonitors.Some? then MonitorsPhase(d, service, lb, service.healthmonitors.value, w3) else w3;
    w5 := if service.members.Some? then MembersPhase(d, service, lb, service.members.value, w4) else w4;
    var w6 := PoolsPhase(d, service, lb, pools, true, w5);
    var w7 := if service.listeners.Some? then ListenersPhase(d, lb, service.listeners.value, true, w6) else w6;
    assert MiddlePhases(d, service, lb, w1) == w7;
    var w8 := UnbindVip(d, lb, w7).world;
    assert AssureService(d, service, hints, w).world == w8;
    ExtendsTrans(w, w1, w2);
    ExtendsTrans(w5, w6, w7);
    ExtendsTrans(w5, w7, w8);
  }

  /** Failure isolation across phases: once the VIP is bound, whatever the
      listener phase ran into, every pool not PENDING_DELETE is created. */
  lemma AssureCreatesEveryPool<H>(d: Driver, service: Service, hints: H, w: World, p: Pool)
    requires service.loadbalancer.Some? && service.pools.Some? && |d.hosts| > 0
    requires !BindVip(d, service.loadbalancer.value, w).raised
    requires p in service.pools.value && p.status != PendingDelete
    ensures Issued(NewEvents(w, AssureService(d, service, hints, w).world),
                   PoolCreate(MapPool(d.conf, service.loadbalancer.value, p, None)))
  {
    var lb := service.loadbalancer.value;
    var w2, w3, w4, w5 := RunWorlds(d, service, hints, w);
    var r := AssureService(d, service, hints, w).world;
    PoolsPhaseCreates(d, service, lb, service.pools.value, w2, p);
    ExtendsTrans(w4, w5, r);
    ExtendsTrans(w3, w4, r);
    IssuedWithin(w, w2, w3, r, PoolCreate(MapPool(d.conf, lb, p, None)));
  }

  /** Failure isolation across phases: once the VIP is bound, whatever the
      listener, pool and monitor phases ran into, every member whose pool
      is found has that pool loaded. */
  lemma AssureLoadsEveryMemberPool<H>(d: Driver, service: Service, hints: H, w: World, m: Member)
    requires service.loadbalancer.Some? && service.pools.Some? && service.members.Some? && |d.hosts| > 0
    requires !BindVip(d, service.loadbalancer.value, w).raised
    requires m in service.members.value && GetPoolById(service, m.poolId).Some?
    ensures Issued(NewEvents(w, AssureService(d, service, hints, w).world), MemberPoolLoad(d, service, service.loadbalancer.value, m))
  {
    var lb := service.loadbalancer.value;
    var w2, w3, w4, w5 := RunWorlds(d, service, hints, w);
    var r := AssureService(d, service, hints, w).world;
    MembersPhaseLoads(d, service, lb, service.members.value, w4, m);
    ExtendsTrans(w, w2, w3);
    ExtendsTrans(w, w3, w4);
    IssuedWithin(w, w4, w5, r, MemberPoolLoad(d, service, lb, m));
  }
}
