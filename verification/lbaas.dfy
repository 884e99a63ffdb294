/** The LBaaS v2 service description the driver receives: a load balancer
    with its listeners, pools, health monitors and members. Dictionary keys
    that may be absent are `Option`s; keys the driver always reads are plain
    fields. */
module Lbaas {
  import opened Wrappers

  /** The `provisioning_status` tag; only PENDING_DELETE changes a branch. */
  datatype Status = Active | PendingCreate | PendingUpdate | PendingDelete

  datatype LoadBalancer = LoadBalancer(
    id: string,
    tenantId: Option<string>,        // `tenant_id`, None for Python None
    vipAddress: Option<string>,      // `vip_address`
    vipSubnetId: string,             // `vip_subnet_id`
    status: Status,
    trafficGroup: Option<string>)    // `traffic_group`

  datatype Listener = Listener(
    id: string,
    name: string,
    status: Status,
    description: Option<string>,
    protocol: Option<string>,
    protocolPort: Option<int>,
    connectionLimit: Option<int>,
    adminStateUp: Option<bool>,
    sessionPersistence: Option<string>,
    networkName: Option<string>,
    snatPoolName: Option<string>,
    useSnat: Option<bool>)

  datatype Pool = Pool(
    id: string,
    name: string,
    status: Status,
    description: Option<string>,
    lbAlgorithm: Option<string>,
    listeners: seq<string>)          // ids of `pool["listeners"]`, absent = []

  datatype HealthMonitor = HealthMonitor(
    id: string,
    poolId: string,
    status: Status,
    monitorType: Option<string>,     // `type`
    urlPath: Option<string>,
    expectedCodes: Option<string>,
    delay: Option<int>,
    timeout: Option<int>,
    maxRetries: Option<int>)

  datatype Member = Member(
    id: string,
    poolId: string,
    status: Status,
    address: string,
    protocolPort: int)

  /** The whole service dictionary handed to `assure_service`. */
  datatype Service = Service(
    loadbalancer: Option<LoadBalancer>,
    listeners: Option<seq<Listener>>,
    pools: Option<seq<Pool>>,
    healthmonitors: Option<seq<HealthMonitor>>,
    members: Option<seq<Member>>)

  /** The per-item `svc` dictionary the builder hands to the resource
      builders: the load balancer plus whichever objects the call concerns.
      None stands both for an absent key and for a key holding Python None
      (the result of a failed pool lookup); the adapter raises on either. */
  datatype Svc = Svc(
    loadbalancer: LoadBalancer,
    listener: Option<Listener>,
    pool: Option<Pool>,
    healthmonitor: Option<HealthMonitor>,
    member: Option<Member>)
}
