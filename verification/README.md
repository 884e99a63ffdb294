# BIG-IP LBaaS v2 driver core, modelled in Dafny

This project models the part of the F5 BIG-IP LBaaS v2 agent that turns an
OpenStack LBaaS v2 service description into BIG-IP configuration. The model
has four parts:

- **The service model adapter** (`ServiceAdapter`, `service_adapter.dfy`)
  maps load balancers, listeners, pools, health monitors and members to
  BIG-IP descriptors. It covers:
  - folder names;
  - the load-balancing method table;
  - the monitor `send`/`recv` strings, including the `expected_codes` parser;
  - connection-limit clamping;
  - IPv4/IPv6 endpoint names;
  - the fastL4 profile and SNAT selection of a virtual server;
  - the tenant-to-traffic-group choice.
- **The pool service builder** (`PoolService`, `pool_service.dfy`) covers
  create, update and delete of pools, health monitors and members. Each is
  run device by device over the BIG-IP list. The first exception ends the
  operation.
- **The LBaaS builder** (`LbaasBuilder`, `lbaas_builder.dfy`) runs
  `assure_service`: eight phases in a fixed order, each phase branching its
  items on `provisioning_status`. A failure in one item is caught, so later
  items and phases still run. It also has the pool, listener and
  first-listener lookups.
- **The SNAT manager** (`Snats`, `snats.dfy`) covers:
  - HA-mode SNAT names and traffic groups;
  - SNAT address allocation through Neutron ports;
  - the per-BIG-IP `assured_tenant_snat_subnets` cache;
  - SNAT creation and SNAT-pool membership on assure;
  - pool filtering and deletion on delete, with the in-use and
    deleted-name results. The delete path runs the member filter as it is
    written, including its behaviour on common networks (see Findings).

Supporting modules:

- `Lbaas` (`lbaas.dfy`): the service dictionary as datatypes. A key that may
  be absent is an `Option`.
- `Bigip` (`bigip.dfy`): the BIG-IP fleet as a world.
  - A world is a map from host to a device's configuration (pools, monitors,
    members, SNATs, SNAT pools, and the agent's cache), plus a log of issued
    calls.
  - Every call goes through `Exec`, which logs it.
  - An oracle decides whether a call raises. Loading a missing pool or SNAT
    pool also raises.
  - A call that succeeds applies its effect to the device.
  - The F5 SDK, `BigIPResourceHelper`, the listener service builder, the L3
    binding, the L2 service, the network helper and the Neutron plugin RPC
    are not part of this model. They appear only as calls in the log or as
    oracle parameters.
- `Text` (`text.dfy`): the Python string built-ins the code relies on:
  `str.find`, `split`, `join`, `replace`, `upper`, `str(int)`, `int(str)` and
  `os.path.basename`.
- `Wrappers` (`wrappers.dfy`): `Option`.

Every source path below is relative to the repository root. Line numbers
refer to the files as they are in the repository.

## Model

| member | source | states |
|---|---|---|
| ServiceAdapter.FolderName | f5_openstack_agent/lbaasv2/drivers/bigip/service_adapter.py:111-117 | No tenant gives "Common". Otherwise the result is the environment prefix followed by `''.join(tenant_id.split('/'))`, which is what `replace('/', '')` computes: the pieces between the slashes, in order. So there is no '/' after the prefix, every other character of the tenant id is kept, and an id without '/' is kept as is. |
| ServiceAdapter.TenantToTrafficGroup | f5_openstack_agent/lbaasv2/drivers/bigip/service_adapter.py:119-123 | The result is an element of the traffic-group list: the one at index digest(tenant) mod length. An empty list gives None, which is where Python raises ZeroDivisionError. |
| ServiceAdapter.RecvText | f5_openstack_agent/lbaasv2/drivers/bigip/service_adapter.py:164-200 | Every receive string starts with "HTTP/1.(0\|1) ", including the 200 fallback for a missing or malformed `expected_codes`. |
| ServiceAdapter.RecvTextCommaList | f5_openstack_agent/lbaasv2/drivers/bigip/service_adapter.py:167-175 | When the first ',' is past index 0, every piece must parse as an int. Then the codes come back as "(a\|b\|…)", which equals the input with each ',' replaced by '\|'. If any piece does not parse, the result is the 200 fallback. |
| ServiceAdapter.RecvTextRange | f5_openstack_agent/lbaasv2/drivers/bigip/service_adapter.py:176-187 | With no comma past index 0 but a '-' past index 0, the result is "[lo-hi]" built from the first two dash pieces, provided both parse. Otherwise it is the 200 fallback. |
| ServiceAdapter.RecvTextSingle | f5_openstack_agent/lbaasv2/drivers/bigip/service_adapter.py:188-196 | With neither separator past index 0, a code that parses is appended verbatim. Anything else gives the 200 fallback. |
| ServiceAdapter.MapHealthMonitor | f5_openstack_agent/lbaasv2/drivers/bigip/service_adapter.py:125-162 | The name is "hm_" + id and the partition is the tenant folder. `send` and `recv` are present exactly for HTTP/HTTPS. `send` is "GET " + `url_path` + " HTTP/1.0\r\n\r\n", with "/" as the path when `url_path` is missing. `recv` is the receive string of `expected_codes`, as RecvText and its three syntax lemmas pin it. `interval` is `delay`. `timeout` is present iff both `timeout` and `max_retries` are, and then equals their product. |
| ServiceAdapter.LbMethod | f5_openstack_agent/lbaasv2/drivers/bigip/service_adapter.py:229-245 | The upper-cased algorithm is looked up in the six-entry method table; anything else is "round-robin". The result is always a table value or "round-robin". |
| ServiceAdapter.MapPool | f5_openstack_agent/lbaasv2/drivers/bigip/service_adapter.py:209-227 | Name, partition and description are copied. `loadBalancingMode` is present iff `lb_algorithm` is, and is then the method LbMethod picks for it. `monitor` is present iff a monitor is given, and is then "hm_" + its id. |
| ServiceAdapter.StripDefaultRouteDomain | f5_openstack_agent/lbaasv2/drivers/bigip/service_adapter.py:277-278 | A VIP ending in "%0" loses exactly that suffix; any other VIP is unchanged. |
| ServiceAdapter.EndpointRoundTrip | f5_openstack_agent/lbaasv2/drivers/bigip/service_adapter.py:280-283 | Splitting an endpoint name at its last '.' or ':' gives back the address and the port. The name is the address, then ':' for an address without ':' or '.' for one with it, then the decimal port. |
| ServiceAdapter.MapMember | f5_openstack_agent/lbaasv2/drivers/bigip/service_adapter.py:336-345 | The address is copied verbatim and the partition is the tenant folder. The member name is the address, then ':' for IPv4 or '.' for an address containing ':', then the decimal port, and it reads back as (address, port). |
| ServiceAdapter.MapVirtual | f5_openstack_agent/lbaasv2/drivers/bigip/service_adapter.py:247-297 | The connection limit is present iff the listener has one, with a negative limit replaced by 0. The destination is present iff the port and the VIP are, and is the endpoint of (VIP without "%0", port). None of the create-only items (profiles, VLAN, SNAT pool, address translation) is set. |
| ServiceAdapter.AddBigipItems | f5_openstack_agent/lbaasv2/drivers/bigip/service_adapter.py:299-334 | Only the profiles, the VLAN, the SNAT pool name and the address translation can change; every field `_map_virtual` set is kept. |
| ServiceAdapter.GetVirtual | f5_openstack_agent/lbaasv2/drivers/bigip/service_adapter.py:54-59 | `get_virtual` is `_map_virtual` (lines 247-297) followed by `_add_bigip_items` (lines 299-334); MapVirtual and AddBigipItems carry the parts and this contract states their composition. Present iff there is a listener. Name, partition and description are copied. `ipProtocol` is "tcp" iff a protocol is given, supported or not. The profile is ["/Common/fastL4"] iff the protocol is neither HTTP nor HTTPS and persistence is not APP_COOKIE. Source address translation is present iff `use_snat` is true; it is a SNAT pool p iff a network name is also given and `snat_pool_name` is p, otherwise automap. The VLAN is the network name. The SNAT pool name is copied iff a network name is given, and is absent otherwise. The connection limit is the listener's, with a negative one replaced by 0. The destination is present iff both the port and the VIP are; it is the VIP without "%0", then ':' for IPv4 or '.' for IPv6, then the decimal port, and reads back as that pair. `enabled` is set iff `admin_state_up` is true, `disabled` iff it is false, never both. |
| ServiceAdapter.GetPoolName | f5_openstack_agent/lbaasv2/drivers/bigip/service_adapter.py:47-52 | Present iff the pool is; it names the same name and partition as the full pool descriptor. |
| ServiceAdapter.GetVirtualName | f5_openstack_agent/lbaasv2/drivers/bigip/service_adapter.py:61-66 | Present iff the listener is; it names the same name and partition as the full virtual descriptor. |
| ServiceAdapter.GetTrafficGroup | f5_openstack_agent/lbaasv2/drivers/bigip/service_adapter.py:68-77 | Present iff the load balancer has a traffic group and there is a listener. It carries that traffic group under the listener's name, in the tenant folder. |
| ServiceAdapter.GetMember | f5_openstack_agent/lbaasv2/drivers/bigip/service_adapter.py:79-82 | Present iff the member is; a missing member is the adapter's KeyError. |
| ServiceAdapter.GetHealthMonitor | f5_openstack_agent/lbaasv2/drivers/bigip/service_adapter.py:84-88 | Present iff the monitor is; a missing monitor is the adapter's KeyError. |
| PoolService.EachDevice | f5_openstack_agent/lbaasv2/drivers/bigip/pool_service.py:49-51 | One call per device in list order, stopping right after the first one that raises. Devices outside the list are untouched. When nothing raised, every listed device has the call's effect. |
| PoolService.CreatePool | f5_openstack_agent/lbaasv2/drivers/bigip/pool_service.py:40-51 | Without a pool the adapter raises before any call. Otherwise the same mapped pool is created once per device in order, and on success every device holds exactly that pool. |
| PoolService.DeletePool | f5_openstack_agent/lbaasv2/drivers/bigip/pool_service.py:53-82 | One delete per device, by folder and pool name. On success no device has the pool. |
| PoolService.UpdatePool | f5_openstack_agent/lbaasv2/drivers/bigip/pool_service.py:84-93 | One update per device with the mapped pool. On success every device holds that pool. |
| PoolService.MonitorHelper | f5_openstack_agent/lbaasv2/drivers/bigip/pool_service.py:174-181 | HTTPS iff the type is "HTTPS", TCP iff it is "TCP", and HTTP for every other type, including a missing one. |
| PoolService.PushMonitor | f5_openstack_agent/lbaasv2/drivers/bigip/pool_service.py:100-106 | The create loop runs first and the pool loop only if it did not raise; a missing pool raises after the creates. Every pool update pushes the service's mapped pool (`get_pool`), which names the monitor, and comes after every monitor create. On success every device has the monitor and exactly that pool. |
| PoolService.CreateHealthMonitor | f5_openstack_agent/lbaasv2/drivers/bigip/pool_service.py:95-106 | Only monitor creates and pool updates are issued. Every pool update pushes the service's mapped pool, which names the monitor "hm_" + id, and comes after every monitor create. On success every device has the monitor and exactly that pool. |
| PoolService.DeleteMonitorEach | f5_openstack_agent/lbaasv2/drivers/bigip/pool_service.py:117-121 | Per device, the monitor delete comes immediately before that device's pool update, and only after it succeeded. On success each device has no monitor and holds the pushed pool. |
| PoolService.DeleteHealthMonitor | f5_openstack_agent/lbaasv2/drivers/bigip/pool_service.py:108-121 | The pushed pool is the service's mapped pool with monitor "". Each device's monitor delete is immediately followed by that device's push of this pool. On success, every device has two calls, lacks the monitor and holds the pushed pool. Devices not in the list are untouched. A missing monitor or pool raises before any call. |
| PoolService.UpdateHealthMonitor | f5_openstack_agent/lbaasv2/drivers/bigip/pool_service.py:123-129 | Issues only monitor deletes, one per device in order. |
| PoolService.MemberStep | f5_openstack_agent/lbaasv2/drivers/bigip/pool_service.py:137-157 | On one device the pool is loaded first, and a missing pool raises. A delete or update is issued only if the device has the member. The only member key that can appear is this member's, and only a create adds it. |
| PoolService.MemberEach | f5_openstack_agent/lbaasv2/drivers/bigip/pool_service.py:146-172 | Over the device list, the first call is the pool load on the first device. Deletes and updates happen only where the member existed. On success, create leaves the member on every device, delete removes it, and update keeps presence as it was. |
| PoolService.CreateMember | f5_openstack_agent/lbaasv2/drivers/bigip/pool_service.py:134-144 | Only pool loads and member creates are issued, starting with the pool load on the first device. On success every device has the member in the pool. |
| PoolService.DeleteMember | f5_openstack_agent/lbaasv2/drivers/bigip/pool_service.py:146-157 | Only pool loads and member deletes are issued, and a delete goes only to a device that had the member. On success no device has it. |
| PoolService.UpdateMember | f5_openstack_agent/lbaasv2/drivers/bigip/pool_service.py:159-172 | Only pool loads and member updates are issued, and an update goes only to a device that had the member. When nothing raised, the member's presence on each device is unchanged. |
| LbaasBuilder.FindFirst | f5_openstack_agent/lbaasv2/drivers/bigip/lbaas_builder.py:261-276 | The lookup by id that both `get_pool_by_id` and `get_listener_by_id` run: None iff no item has the id, otherwise the first item with that id. |
| LbaasBuilder.GetPoolById | f5_openstack_agent/lbaasv2/drivers/bigip/lbaas_builder.py:262-268 | None when the service has no pools or none has the id. Otherwise it is the first pool of the service with that id. |
| LbaasBuilder.GetListenerById | f5_openstack_agent/lbaasv2/drivers/bigip/lbaas_builder.py:271-277 | None when the service has no listeners or none has the id. Otherwise it is the first listener of the service with that id. |
| LbaasBuilder.GetListener | f5_openstack_agent/lbaasv2/drivers/bigip/lbaas_builder.py:289-295 | None iff the pool has no listeners, the service has none, or none has the pool's first listener id. Otherwise it is the first of the service's listeners with that id; the pool's other listeners are never consulted. |
| LbaasBuilder.AddListenerPool | f5_openstack_agent/lbaasv2/drivers/bigip/lbaas_builder.py:280-286 | Only the `listener` entry can change. It is left as it was when the pool has no listeners or its first one is unknown; otherwise it becomes that first listener. |
| LbaasBuilder.BindVip | f5_openstack_agent/lbaasv2/drivers/bigip/lbaas_builder.py:68-76 | Without an L3 binding nothing happens. With one, exactly one bind of (VIP subnet, VIP address) is issued, and a missing VIP address raises. |
| LbaasBuilder.UnbindVip | f5_openstack_agent/lbaasv2/drivers/bigip/lbaas_builder.py:187-196 | An unbind is issued only for a PENDING_DELETE load balancer with an L3 binding; in every other case nothing happens. With an L3 binding, a PENDING_DELETE load balancer without `vip_address` raises the KeyError before any call. Otherwise exactly one unbind of the subnet and address is issued. |
| LbaasBuilder.ListenersPhase | f5_openstack_agent/lbaasv2/drivers/bigip/lbaas_builder.py:78-96 | Every event is the phase's call for a listener of the list that the phase selects: create for listeners not PENDING_DELETE, delete for PENDING_DELETE ones. |
| LbaasBuilder.ListenersPhaseIssues | f5_openstack_agent/lbaasv2/drivers/bigip/lbaas_builder.py:89-96 | Failure isolation: every selected listener gets its call, whatever happened to the listeners before it. |
| LbaasBuilder.ListenersPhasePartition | f5_openstack_agent/lbaasv2/drivers/bigip/lbaas_builder.py:239-248 | A listener's create (or delete) is issued iff it is in the list and not PENDING_DELETE (or is PENDING_DELETE). So each listener goes to exactly one of the two phases. |
| LbaasBuilder.CreatePoolItem | f5_openstack_agent/lbaasv2/drivers/bigip/lbaas_builder.py:106-129 | A created pool issues only phase-3 calls, and the first is the pool create with the mapped pool. |
| LbaasBuilder.CreatePoolItemOrder | f5_openstack_agent/lbaasv2/drivers/bigip/lbaas_builder.py:114-124 | The listener's pool assignment comes only after the pool was created on every device. The session-persistence update comes directly after a successful assignment. |
| LbaasBuilder.DeletePoolItem | f5_openstack_agent/lbaasv2/drivers/bigip/lbaas_builder.py:206-229 | A deleted pool issues only phase-6 calls, and the first is detaching it from its listener (pool name ""). |
| LbaasBuilder.DeletePoolItemOrder | f5_openstack_agent/lbaasv2/drivers/bigip/lbaas_builder.py:215-224 | A failed detach ends the item. Pool deletes follow a successful detach and use the folder and pool name. Removing session persistence comes last, only after every earlier call succeeded. |
| LbaasBuilder.PoolsPhase | f5_openstack_agent/lbaasv2/drivers/bigip/lbaas_builder.py:98-129 | The creating pass issues only phase-3 calls and the deleting pass only phase-6 calls. In particular, the creating pass never detaches a PENDING_DELETE pool and the deleting pass never creates one. |
| LbaasBuilder.PoolsPhaseCreates | f5_openstack_agent/lbaasv2/drivers/bigip/lbaas_builder.py:106-129 | Failure isolation: with at least one device, every pool not PENDING_DELETE is created, whatever happened to earlier pools. |
| LbaasBuilder.PoolsPhaseDetaches | f5_openstack_agent/lbaasv2/drivers/bigip/lbaas_builder.py:206-229 | Failure isolation: every PENDING_DELETE pool is detached from its listener, whatever happened to earlier pools. |
| LbaasBuilder.MonitorItem | f5_openstack_agent/lbaasv2/drivers/bigip/lbaas_builder.py:139-157 | Only phase-4 calls. A PENDING_DELETE monitor starts with its delete (when its pool is found); any other monitor starts with its create. |
| LbaasBuilder.MonitorsPhase | f5_openstack_agent/lbaasv2/drivers/bigip/lbaas_builder.py:131-157 | The monitor phase issues only phase-4 calls. |
| LbaasBuilder.MonitorsPhaseIssues | f5_openstack_agent/lbaasv2/drivers/bigip/lbaas_builder.py:143-157 | Failure isolation: every monitor is deleted or created, according to its status, whatever happened to earlier monitors. |
| LbaasBuilder.MemberItem | f5_openstack_agent/lbaasv2/drivers/bigip/lbaas_builder.py:167-185 | Only phase-5 calls. When the member's pool is found, the first call loads that pool. |
| LbaasBuilder.MembersPhase | f5_openstack_agent/lbaasv2/drivers/bigip/lbaas_builder.py:159-185 | The member phase issues only phase-5 calls. |
| LbaasBuilder.MembersPhaseLoads | f5_openstack_agent/lbaasv2/drivers/bigip/lbaas_builder.py:171-185 | Failure isolation: every member whose pool is found has that pool loaded, whatever happened to earlier members. |
| LbaasBuilder.MiddlePhases | f5_openstack_agent/lbaasv2/drivers/bigip/lbaas_builder.py:50-60 | The phases from listener creation to listener deletion issue calls in phase order, 2 to 7. |
| LbaasBuilder.MiddlePhasesSkips | f5_openstack_agent/lbaasv2/drivers/bigip/lbaas_builder.py:131-161 | Without "pools" there are no pool, monitor or member calls. Without "healthmonitors" there are no monitor calls, and without "members" there are no member calls. |
| LbaasBuilder.AssureLoadBalancer | f5_openstack_agent/lbaasv2/drivers/bigip/lbaas_builder.py:48-62 | Bind, phases 2 to 7, then unbind: the whole log is in phase order, 1 to 8. |
| LbaasBuilder.AssureService | f5_openstack_agent/lbaasv2/drivers/bigip/lbaas_builder.py:44-66 | The calls follow the fixed phase order. When no exception escapes, the subnet hints come back unchanged. A service without a load balancer raises before any call. |
| LbaasBuilder.AssureCreatesEveryPool | f5_openstack_agent/lbaasv2/drivers/bigip/lbaas_builder.py:86-129 | Failure isolation across phases: once the bind went through, every pool not PENDING_DELETE is created, whatever the listener phase ran into. |
| LbaasBuilder.AssureLoadsEveryMemberPool | f5_openstack_agent/lbaasv2/drivers/bigip/lbaas_builder.py:86-185 | Failure isolation across phases: once the bind went through, every member whose pool is found gets that pool loaded, whatever the listener, pool and monitor phases ran into. |
| Snats.SnatName | f5_openstack_agent/lbaasv2/drivers/bigip/snats.py:40-52 | The name for each mode: standalone gives "snat-traffic-group-local-only-" + subnet; pair gives "snat-traffic-group-1" + subnet, with no hyphen; scalen gives "snat-" + basename(traffic group) + "-" + subnet; any other mode gives "". |
| Snats.SnatTrafficGroup | f5_openstack_agent/lbaasv2/drivers/bigip/snats.py:54-65 | The same three-way mapping: "traffic-group-local-only", "traffic-group-1", basename of the tenant's group, otherwise "". It never contains '/'. |
| Snats.SnatNameNamesTrafficGroup | f5_openstack_agent/lbaasv2/drivers/bigip/snats.py:40-65 | The SNAT name embeds the SNAT traffic group: "snat-" + group + "-" + subnet in standalone and scalen modes, and "snat-" + group + subnet in pair mode. |
| Snats.IndexName | f5_openstack_agent/lbaasv2/drivers/bigip/snats.py:123 | The slot name is the SNAT name, '_', then the decimal slot index. |
| Snats.IndexNameInjective | f5_openstack_agent/lbaasv2/drivers/bigip/snats.py:199 | Different slots of one SNAT name get different slot names. |
| Snats.TmosName | f5_openstack_agent/lbaasv2/drivers/bigip/snats.py:200-203 | A slot on a common network is "/Common/" + slot name; otherwise it is the bare slot name. |
| Snats.FullPath | f5_openstack_agent/lbaasv2/drivers/bigip/snats.py:149 | A SNAT's full path starts with '/'. A name that already starts with '/' is its own full path; otherwise the path is "/" + partition + "/" + name. |
| Snats.SnatAddressRoundTrip | f5_openstack_agent/lbaasv2/drivers/bigip/snats.py:121-122 | The translation address is ip + '%' + route domain. The IP and the route domain id can both be read back from it. |
| Snats.SlotAddress | f5_openstack_agent/lbaasv2/drivers/bigip/snats.py:75-87 | The first fixed IP of the first port with the slot's name; when there is no such port, the first fixed IP of a port created on the subnet. A port without fixed IPs raises. |
| Snats.AddressesFrom | f5_openstack_agent/lbaasv2/drivers/bigip/snats.py:73-88 | One address per remaining slot, in slot order; fails iff some slot fails. |
| Snats.GetSnatAddrs | f5_openstack_agent/lbaasv2/drivers/bigip/snats.py:67-89 | Exactly `f5_snat_addresses_per_subnet` addresses (none for a negative count). Address k is slot k's address, and the call fails iff some slot's port has no fixed IP. |
| Snats.FilterAsWrittenSpec | f5_openstack_agent/lbaasv2/drivers/bigip/snats.py:217-221 | The pool filter as written keeps every occurrence of a member whose basename differs from the TMOS name, and drops the others. |
| Snats.FilterAsWrittenMembership | f5_openstack_agent/lbaasv2/drivers/bigip/snats.py:218-221 | A member survives the filter as written iff it was there and its basename differs from the TMOS name. |
| Snats.FilterAsWrittenKeepsAll | f5_openstack_agent/lbaasv2/drivers/bigip/snats.py:200-221 | As written, a TMOS name containing '/' (every name on a common network) is no member's basename, so the filter keeps the whole pool. |
| Snats.FilterSpec | f5_openstack_agent/lbaasv2/drivers/bigip/snats.py:217-221 | The corrected filter keeps every occurrence of a member whose basename differs from the basename of the TMOS name, and drops the others. |
| Snats.FilterMembership | f5_openstack_agent/lbaasv2/drivers/bigip/snats.py:218-221 | A member survives the corrected filter iff it was there and its basename differs from the TMOS name's basename. |
| Snats.FilterAppend | f5_openstack_agent/lbaasv2/drivers/bigip/snats.py:218-221 | Filtering keeps the survivors in their original order: filtering a concatenation is concatenating the filtered parts. |
| Snats.FilterAgreesOffCommon | f5_openstack_agent/lbaasv2/drivers/bigip/snats.py:200-221 | Off a common network the two filters coincide. |
| Snats.FiltersEqualOnBareName | f5_openstack_agent/lbaasv2/drivers/bigip/snats.py:218-221 | The two filters coincide for any TMOS name without '/'. |
| Snats.FilterAsWrittenKeepsCommonMember | f5_openstack_agent/lbaasv2/drivers/bigip/snats.py:217-221 | As written, on a common network the filter keeps the very member the assure path added, so the pool never shrinks. |
| Snats.FilterAsWrittenCounterexample | f5_openstack_agent/lbaasv2/drivers/bigip/snats.py:217-221 | A concrete case: "/Common/snat-traffic-group-local-only-s_0" survives the filter as written for its own TMOS name. |
| Snats.FilterRemovesAddedMember | f5_openstack_agent/lbaasv2/drivers/bigip/snats.py:217-221 | The corrected filter removes the member the assure path added, on common and tenant networks alike. |
| Snats.RemoveFirst | f5_openstack_agent/lbaasv2/drivers/bigip/snats.py:178 | `list.remove` drops exactly one occurrence: the result is the list's multiset minus that element. |
| Snats.RemoveAssured | f5_openstack_agent/lbaasv2/drivers/bigip/snats.py:168-187 | No change when the tenant is unknown or does not list the subnet. Otherwise only that tenant's list changes, losing one occurrence. |
| Snats.RemoveAssuredListings | f5_openstack_agent/lbaasv2/drivers/bigip/snats.py:168-187 | On a duplicate-free cache the tenants stay the same. Afterwards a tenant lists the subnet iff it did before and is not the removing tenant. |
| Snats.AddAssured | f5_openstack_agent/lbaasv2/drivers/bigip/snats.py:156 | The subnet is appended to the tenant's list, which is created empty when missing; every other tenant is unchanged. |
| Snats.AddAssuredKeepsNoDup | f5_openstack_agent/lbaasv2/drivers/bigip/snats.py:114-156 | Adding a subnet the tenant does not yet list keeps every cache list duplicate-free. |
| Snats.RemoveUndoesAdd | f5_openstack_agent/lbaasv2/drivers/bigip/snats.py:168-178 | Removing a subnet just added restores the cache, except that the tenant keeps its (possibly empty) entry. |
| Snats.ListingCount | f5_openstack_agent/lbaasv2/drivers/bigip/snats.py:242-250 | The in-use count is non-zero iff some tenant lists the subnet. |
| Snats.Slots | f5_openstack_agent/lbaasv2/drivers/bigip/snats.py:73 | `range(n)` has n slots for n >= 0 and none otherwise. |
| Snats.AppendToPool | f5_openstack_agent/lbaasv2/drivers/bigip/snats.py:144-150 | Creates the SNAT pool, keeping one that exists, then writes back its members with the new one appended. |
| Snats.AssureSlot | f5_openstack_agent/lbaasv2/drivers/bigip/snats.py:120-154 | One slot touches only this BIG-IP and leaves the cache alone. A missing address or network raises before any call. |
| Snats.AssureSlotWrites | f5_openstack_agent/lbaasv2/drivers/bigip/snats.py:120-154 | A slot that went through has: its SNAT on the device, at address%route-domain in the network folder with the mode's traffic group; the SNAT's full path appended to the tenant pool; the SNAT create first and, with an L3 binding, the address bind last. |
| Snats.AssureLoop | f5_openstack_agent/lbaasv2/drivers/bigip/snats.py:120-154 | The slot loop touches only this BIG-IP and leaves the cache alone. |
| Snats.AssureLoopAppends | f5_openstack_agent/lbaasv2/drivers/bigip/snats.py:120-154 | A loop that went through appended the full paths of all slots to the tenant pool, in slot order. |
| Snats.AssureLoopCreates | f5_openstack_agent/lbaasv2/drivers/bigip/snats.py:120-142 | A loop that went through created the SNAT of every slot. |
| Snats.AssureLoopHadAddresses | f5_openstack_agent/lbaasv2/drivers/bigip/snats.py:120-122 | A loop that went through had a network and an address for every slot, since indexing past the addresses or a missing network raises. |
| Snats.AssureSnats | f5_openstack_agent/lbaasv2/drivers/bigip/snats.py:109-156 | A subnet the tenant already lists gives no call, and the only change is the tenant's cache key. Otherwise success appends the subnet to the tenant's list, and a raise leaves the tenant with only its key added. |
| Snats.AssureBigipSnats | f5_openstack_agent/lbaasv2/drivers/bigip/snats.py:91-107 | Only the one BIG-IP is touched, and the log only grows. |
| Snats.AssureKeepsCacheNoDup | f5_openstack_agent/lbaasv2/drivers/bigip/snats.py:109-156 | An assure keeps every tenant's cache list duplicate-free. |
| Snats.AssureAppendsMembers | f5_openstack_agent/lbaasv2/drivers/bigip/snats.py:91-156 | Assuring a new subnet appends to the tenant's pool the full path of every slot's SNAT: "/Common/…" names on a common network, tenant-folder paths otherwise. |
| Snats.UnbindSlot | f5_openstack_agent/lbaasv2/drivers/bigip/snats.py:205-209 | Without an L3 binding there are no calls. With one, the translation is loaded from the tenant folder, and only if that succeeds is its address unbound from the subnet. |
| Snats.WriteBack | f5_openstack_agent/lbaasv2/drivers/bigip/snats.py:222-234 | The filtered members are written back, and the pool is deleted iff none are left. |
| Snats.ShrinkPool | f5_openstack_agent/lbaasv2/drivers/bigip/snats.py:217-234 | Loading a missing tenant pool raises. Otherwise the pool keeps exactly the members the filter as written keeps, and survives iff that list is non-empty. |
| Snats.DeleteSlot | f5_openstack_agent/lbaasv2/drivers/bigip/snats.py:198-275 | The cache loses this tenant's listing. The slot name is in `deleted_names` iff the TMOS name's use count is zero. The subnet is in `in_use_subnets` iff some tenant still lists it or its use count is non-zero. |
| Snats.DeleteSlotShrinksPool | f5_openstack_agent/lbaasv2/drivers/bigip/snats.py:217-234 | A slot that went through found the tenant pool and left in it exactly the members whose basename differs from `tmos_snat_name`. The pool survives iff that list is non-empty. |
| Snats.DeleteLoop | f5_openstack_agent/lbaasv2/drivers/bigip/snats.py:198-275 | The results only grow. Every deleted name is a slot name of this loop, and the only subnet reported in use is this one. |
| Snats.DeleteBigipSnats | f5_openstack_agent/lbaasv2/drivers/bigip/snats.py:158-166 | A missing network gives empty results and no call. Otherwise the results name only this SNAT name's slots and this subnet. |
| Snats.DeleteSlotRemovesOwn | f5_openstack_agent/lbaasv2/drivers/bigip/snats.py:200-221 | Deleting a slot adds no member. Off a common network it removes the member the assure path added for the slot. On a common network the tenant pool is left exactly as it was. |
| Snats.DeleteLoopRemovesSlots | f5_openstack_agent/lbaasv2/drivers/bigip/snats.py:198-221 | Deleting all slots adds no member. Off a common network it removes every slot's added member. On a common network the tenant pool is left exactly as it was. |
| Snats.AssureThenDeleteSlotMembers | f5_openstack_agent/lbaasv2/drivers/bigip/snats.py:119-221 | Round trip: assure puts every slot's full path into the tenant pool. Off a common network, on a subnet with a network, a delete that goes through takes all of them out again. On a common network the delete leaves the pool as the assure left it, with every slot's member still there. |

## Left out

- External collaborators are not part of this model. The F5 SDK and `BigIPResourceHelper` become logged calls with a failure oracle. `listener_service.py` is the same: its create, delete, pool-assignment and persistence calls are single logged calls over all BIG-IPs. The L3 binding, `l2_service.is_common_network`, `NetworkHelper.get_snatpool_member_use_count` and the plugin RPC port queries are oracle parameters.
- Port creation in `get_snat_addrs` is an oracle returning a port; its side effect on Neutron is not modelled.
- The `tenant_to_traffic_group` digest (MD5 read as a hex integer) is an abstract function into the naturals; only the "mod n" selection is modelled.
- Python `int()` is modelled for an optional sign followed by decimal digits. Surrounding whitespace, which Python 2's `int()` accepts, is not modelled.
- LbMethod: `upper()` is modelled for ASCII letters only. Python's Unicode `upper()` also maps some other letters into ASCII, for example 'ı' to 'I' and 'ſ' to 'S'. So "ratıo" selects ratio-member in the source but round-robin in the model.
- `get_folder` is not modelled. Its traffic-group branch reads the misspelt key "traffic_gropu" and would raise.
- `_check_monitor_delete` is not modelled: nothing calls it, and it uses LBaaS v1 keys.
- The SNI/TLS `pass` branches of `_map_virtual` are not modelled, and neither is the `mask` branch of `_add_bigip_items`, which never fires because nothing sets "ip_address".
- Logging, `time()` measurement, exception message text, and concurrency between devices are not modelled.
- `delete_bigip_snats` returns a single `set()` for a missing network but a pair of sets otherwise. The model returns empty results in both slots.
- A missing network on the assure path raises, as Python's `None['route_domain_id']` does.
- DeleteSlot: its results on a raise are meaningless, because the exception propagates and the sets are lost. The SNAT translation object itself is never deleted, as in the source.
- SnatName: the pair-mode name has no hyphen before the subnet id. The source marks this with a REVISIT comment; the model keeps it as written.
- PoolsPhase: the claim that a PENDING_DELETE pool gets no pool create in the creating pass is stated only through phase numbers. A pool create carries only the descriptor, not the pool's status.
- MemberItem: failure isolation for members is stated through the first call, the pool load on the first device, not through the member call itself.
- GetTrafficGroup: a load balancer with a traffic group but a service without a listener raises KeyError at service_adapter.py:72. The model returns None there, the same value as for no traffic group.
- GetMonitorType: a service without a health monitor raises KeyError at service_adapter.py:204. The model returns None there, which callers read as "no type". Its contract and that of GetPool restate their bodies, so neither has a row; MapPool and MonitorHelper carry the content.
- MakeSnatInfo: builds `snat_info` (snats.py:97-105) and has no row. Its fields are stated through AssureBigipSnats, AssureSlotWrites and AssureAppendsMembers.
- FullPath: the device is assumed to report `fullPath` as "/partition/name", keeping a name that is already a path. snats.py only reads `fullPath`, and the device computes it. The off-common halves of FilterRemovesAddedMember, DeleteSlotRemovesOwn, DeleteLoopRemovesSlots and AssureThenDeleteSlotMembers depend on this form, because under it the basename of "/tenant/x" is "x".
- StepSnatPools, AppendToPool: a SNAT pool create on a device that already has the pool keeps the pool. This assumes `BigIPResourceHelper.create` does so, and that helper is not part of this model.
- MemberWrite: the member `exists` and `load` SDK calls (pool_service.py:155-156 and 170-171) are not logged and cannot fail. The model reads membership from the device state instead.
- GetMember, GetHealthMonitor: state only presence. The content is stated by MapMember and MapHealthMonitor.
- AssureSlot: its effects are stated by AssureSlotWrites for a slot that went through. A slot that raised part-way may leave a SNAT without its pool entry; this is not stated.

## Findings

| source | as written | input that shows it | evidently intended | confidence | as-written member | corrected member |
|---|---|---|---|---|---|---|
| f5_openstack_agent/lbaasv2/drivers/bigip/snats.py:217-221 | Keeps the members whose `os.path.basename` differs from `tmos_snat_name`. On a common network that name is "/Common/" + slot name, which no basename can equal, so nothing is ever removed. | A common network in standalone mode, subnet "s", slot 0: the pool holds "/Common/snat-traffic-group-local-only-s_0" and the TMOS name is that same string. The member survives the filter, and the pool is never emptied or deleted. | Compare the member's basename with the basename of the TMOS name, which removes the slot's member on common and tenant networks alike. | not executed | Snats.FilterAsWrittenCounterexample | Snats.FilterRemovesAddedMember |

The delete path (Snats.ShrinkPool and everything built on it) follows the
code as written. Snats.DeleteSlotRemovesOwn, Snats.DeleteLoopRemovesSlots
and Snats.AssureThenDeleteSlotMembers therefore state both halves: off a
common network the slot members are removed, and on a common network the
pool is left unchanged. The corrected filter is Snats.Filter. Its partner
lemmas (FilterSpec, FilterMembership, FilterAppend, FilterRemovesAddedMember)
state the intended behaviour, and FilterAgreesOffCommon shows that it agrees
with the code wherever the code already works.
