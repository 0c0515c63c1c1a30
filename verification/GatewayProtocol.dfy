/**
 * Several gateway nodes over one shared store and one changing database, as a timed transition system.
 *
 * Each `await` of the gateway is a task waiting in a node; a step runs one task from one await to the next,
 * so requests, timed refreshes and manual refreshes interleave freely, on every node. A read is answered by the
 * remote store at some instant and its answer returns later; a write to the shared store is posted, then applied
 * or lost. No await and no posted write outlives `delay`. Every cached fact carries the instant its database
 * read was made; the gateway never looks at that stamp.
 */
module GatewayProtocol {
  import opened Wrappers
  import opened Entities
  import opened Registry
  import opened Tiers

  type Time = nat
  type NodeId = nat
  type TaskId = nat

  /** The environment of a run: the database contents at every instant, and the longest await. */
  datatype Config = Config(db: Time -> Database, delay: nat)

  /** A value with the instant of the (first) database read it came from. */
  datatype Stamped<+T> = Stamped(value: T, loadedAt: Time)

  /** A policy is made of three reads: services first (the stamp), then products, then the endpoints. */
  datatype PolicyRead = PolicyRead(policy: EndpointPolicy, productAt: Time, endpointAt: Time)

  datatype Key = PolicyKey(route: string) | PermissionKey(client: Guid) | ClientKey(clientId: string)
  datatype Fact = PolicyFact(read: PolicyRead) | PermissionFact(endpoints: set<Guid>) | ClientFact(client: Client)
  type Item = Stamped<Fact>
  type Tier = map<Key, Entry<Item>>

  datatype Answer<+T> = Pending | Got(value: T)

  // ---------- one policy refresh ----------

  datatype EndpointsLoad = Skipped | Loaded(endpoints: seq<Endpoint>, at: Time)
  datatype Refresh = Refresh(
    services: seq<Service>, servicesAt: Time, products: seq<Product>, productsAt: Time, loads: seq<EndpointsLoad>)
  type PolicyRegistration = Registration<Stamped<PolicyRead>>

  function StampAll(regs: seq<Registration<EndpointPolicy>>, r: Refresh, at: Time): (s: seq<PolicyRegistration>)
    ensures |s| == |regs|
  {
    seq(|regs|, i requires 0 <= i < |regs| =>
      Registration(regs[i].key, Stamped(PolicyRead(regs[i].policy, r.productsAt, at), r.servicesAt)))
  }

  /** What the i-th service contributes: nothing when its product is not among the enabled ones. */
  function ServiceRegistrations(r: Refresh, i: nat): seq<PolicyRegistration>
    requires i < |r.loads| && i < |r.services|
  {
    match r.loads[i]
    case Skipped => []
    case Loaded(endpoints, at) =>
      match FindProduct(r.products, r.services[i].productId)
      case None => []
      case Some(product) => StampAll(RegistrationsOfService(product, r.services[i], endpoints), r, at)
  }

  /** The dictionary assignments of the first n services, in order. */
  function RefreshRegistrations(r: Refresh, n: nat): seq<PolicyRegistration>
    requires n <= |r.loads| && n <= |r.services|
  {
    if n == 0 then [] else RefreshRegistrations(r, n - 1) + ServiceRegistrations(r, n - 1)
  }

  // ---------- tasks and states ----------

  /** What a request awaits. */
  datatype RequestWait =
    | PolicyFromL2(req: Request, policyAnswer: Answer<Option<Stamped<PolicyRead>>>)
    | PolicyStored(req: Request, policy: Stamped<PolicyRead>)
    | ClientFromL2(req: Request, policy: Stamped<PolicyRead>, clientAnswer: Answer<Option<Stamped<Client>>>)
    | ClientFromDb(req: Request, policy: Stamped<PolicyRead>, clientAnswer: Answer<Option<Stamped<Client>>>)
    | ClientStored(req: Request, policy: Stamped<PolicyRead>, client: Stamped<Client>)
    | PermsFromL2(req: Request, policy: Stamped<PolicyRead>, client: Stamped<Client>,
                  permsAnswer: Answer<Option<Stamped<set<Guid>>>>)
    | PermsFromDb(req: Request, policy: Stamped<PolicyRead>, client: Stamped<Client>,
                  permsRead: Answer<Stamped<set<Guid>>>)
    | PermsStored(req: Request, policy: Stamped<PolicyRead>, client: Stamped<Client>, perms: Stamped<set<Guid>>)

  /** What a permission refresh awaits; i is the client being refreshed. */
  datatype WarmWait =
    | ClientList(list: Answer<Stamped<seq<Client>>>)
    | WarmPerms(clients: Stamped<seq<Client>>, i: nat, permsRead: Answer<Stamped<set<Guid>>>)
    | WarmPermsStored(clients: Stamped<seq<Client>>, i: nat)
    | WarmClientStored(clients: Stamped<seq<Client>>, i: nat)

  /** What a policy refresh awaits. */
  datatype RefreshWait =
    | ServiceList(services: Answer<Stamped<seq<Service>>>)
    | ProductList(serviceRows: Stamped<seq<Service>>, products: Answer<Stamped<seq<Product>>>)
    | EndpointList(refresh: Refresh, done: seq<PolicyRegistration>, endpoints: Answer<Stamped<seq<Endpoint>>>)
    | PolicyWritten(refresh: Refresh, done: seq<PolicyRegistration>, todo: seq<PolicyRegistration>)

  datatype Wait = Requesting(request: RequestWait) | Warming(warm: WarmWait) | Refreshing(reload: RefreshWait)

  datatype Task = Task(deadline: Time, wait: Wait)

  /** `origin` is the refresh whose result the snapshot is. */
  datatype Node = Node(
    l1: Tier, snapshot: map<string, Stamped<PolicyRead>>, origin: Option<Refresh>, tasks: map<TaskId, Task>)

  /** A write posted to the shared store and not applied yet. */
  datatype Write = Write(key: Key, item: Item, deadline: Time)

  datatype Outcome =
    | Resolved(at: Time, req: Request, policy: Stamped<PolicyRead>)
    | Admitted(at: Time, req: Request, policy: Stamped<PolicyRead>, client: Stamped<Client>, perms: Stamped<set<Guid>>)
    | AdmittedAnonymously(at: Time, req: Request, policy: Stamped<PolicyRead>)
    | Rejected(at: Time, req: Request, status: nat)
    | Bypassed(at: Time, req: Request)

  datatype State = State(now: Time, nodes: map<NodeId, Node>, l2: Tier, writes: seq<Write>, log: seq<Outcome>)

  const EMPTY_NODE := Node(map[], map[], None, map[])

  ghost predicate Init(s: State) {
    && (forall n :: n in s.nodes ==> s.nodes[n] == EMPTY_NODE)
    && s.l2 == map[] && s.writes == [] && s.log == []
  }

  // ---------- typed reads of a tier ----------

  function AsPolicy(o: Option<Item>): Option<Stamped<PolicyRead>> {
    if o.Some? && o.value.value.PolicyFact? then Some(Stamped(o.value.value.read, o.value.loadedAt)) else None
  }

  function AsClient(o: Option<Item>): Option<Stamped<Client>> {
    if o.Some? && o.value.value.ClientFact? then Some(Stamped(o.value.value.client, o.value.loadedAt)) else None
  }

  function AsPerms(o: Option<Item>): Option<Stamped<set<Guid>>> {
    if o.Some? && o.value.value.PermissionFact? then Some(Stamped(o.value.value.endpoints, o.value.loadedAt)) else None
  }

  function PolicyItem(p: Stamped<PolicyRead>): Item { Stamped(PolicyFact(p.value), p.loadedAt) }
  function ClientItem(c: Stamped<Client>): Item { Stamped(ClientFact(c.value), c.loadedAt) }
  function PermsItem(p: Stamped<set<Guid>>): Item { Stamped(PermissionFact(p.value), p.loadedAt) }

  // ---------- the effects a step is made of ----------

  /** No time passes from s to s', and no node's snapshot changes. */
  ghost predicate Quiet(s: State, s': State) {
    && s'.now == s.now
    && s'.nodes.Keys == s.nodes.Keys
    && forall n :: n in s.nodes ==>
      s'.nodes[n].snapshot == s.nodes[n].snapshot && s'.nodes[n].origin == s.nodes[n].origin
  }

  function Await(c: Config, s: State, n: NodeId, id: TaskId, wait: Wait): (r: State)
    requires n in s.nodes
    ensures Quiet(s, r)
  {
    var node := s.nodes[n];
    s.(nodes := s.nodes[n := node.(tasks := node.tasks[id := Task(s.now + c.delay, wait)])])
  }

  function End(s: State, n: NodeId, id: TaskId): (r: State)
    requires n in s.nodes
    ensures Quiet(s, r)
  {
    var node := s.nodes[n];
    s.(nodes := s.nodes[n := node.(tasks := node.tasks - {id})])
  }

  function Log(s: State, o: Outcome): (r: State)
    ensures Quiet(s, r)
  {
    s.(log := s.log + [o])
  }

  /** Copying an answer of the shared store into the node's own cache. Nothing is written back. */
  function FillL1(s: State, n: NodeId, k: Key, item: Item): (r: State)
    requires n in s.nodes
    ensures Quiet(s, r)
  {
    var node := s.nodes[n];
    s.(nodes := s.nodes[n := node.(l1 := Put(node.l1, k, item, s.now, L1_TTL))])
  }

  /** A cache `Set`: the own cache at once, the shared store by a posted write. */
  function CacheSet(c: Config, s: State, n: NodeId, k: Key, item: Item): (r: State)
    requires n in s.nodes
    ensures Quiet(s, r)
  {
    var filled := FillL1(s, n, k, item);
    filled.(writes := s.writes + [Write(k, item, s.now + c.delay)])
  }

  // ---------- a request, from one await to the next ----------

  function RouteOf(req: Request): string {
    RequestKey(req.path, req.verb)
  }

  function ClientIdOf(req: Request): string {
    if req.clientId.Some? then req.clientId.value else ""
  }

  function Reject(s: State, n: NodeId, id: TaskId, req: Request, status: nat): (r: State)
    requires n in s.nodes
    ensures Quiet(s, r)
  {
    End(Log(s, Rejected(s.now, req, status)), n, id)
  }

  function BeginRequest(c: Config, s: State, n: NodeId, id: TaskId, req: Request): (r: State)
    requires n in s.nodes
    ensures Quiet(s, r)
  {
    if IsHealthPath(req.path) then
      Log(s, Bypassed(s.now, req))
    else
      match AsPolicy(L1Get(s.nodes[n].l1, PolicyKey(RouteOf(req)), s.now))
      case Some(policy) => GotPolicy(c, s, n, id, req, policy)
      case None => Await(c, s, n, id, Requesting(PolicyFromL2(req, Pending)))
  }

  function AfterPolicyL2(c: Config, s: State, n: NodeId, id: TaskId, req: Request,
                         answer: Option<Stamped<PolicyRead>>): (r: State)
    requires n in s.nodes
    ensures Quiet(s, r)
  {
    var route := RouteOf(req);
    match answer
    case Some(policy) => GotPolicy(c, FillL1(s, n, PolicyKey(route), PolicyItem(policy)), n, id, req, policy)
    case None =>
      if route in s.nodes[n].snapshot then
        var policy := s.nodes[n].snapshot[route];
        Await(c, CacheSet(c, s, n, PolicyKey(route), PolicyItem(policy)), n, id, Requesting(PolicyStored(req, policy)))
      else
        Reject(s, n, id, req, 404)
  }

  function GotPolicy(c: Config, s: State, n: NodeId, id: TaskId, req: Request, policy: Stamped<PolicyRead>): (r: State)
    requires n in s.nodes
    ensures Quiet(s, r)
  {
    var s := Log(s, Resolved(s.now, req, policy));
    var requiresJwt := policy.value.policy.requiresJwt;
    if requiresJwt && req.authenticated == Some(false) then
      Reject(s, n, id, req, 401)
    else if req.clientId == None || req.clientId == Some("") then
      if requiresJwt then Reject(s, n, id, req, 401)
      else End(Log(s, AdmittedAnonymously(s.now, req, policy)), n, id)
    else
      LookUpClient(c, s, n, id, req, policy)
  }

  function LookUpClient(c: Config, s: State, n: NodeId, id: TaskId, req: Request, policy: Stamped<PolicyRead>): (r: State)
    requires n in s.nodes
    ensures Quiet(s, r)
  {
    match AsClient(L1Get(s.nodes[n].l1, ClientKey(ClientIdOf(req)), s.now))
    case Some(client) => GotClient(c, s, n, id, req, policy, client)
    case None => Await(c, s, n, id, Requesting(ClientFromL2(req, policy, Pending)))
  }

  function GotClient(c: Config, s: State, n: NodeId, id: TaskId, req: Request,
                     policy: Stamped<PolicyRead>, client: Stamped<Client>): (r: State)
    requires n in s.nodes
    ensures Quiet(s, r)
  {
    match AsPerms(L1Get(s.nodes[n].l1, PermissionKey(client.value.id), s.now))
    case Some(perms) => GotPerms(s, n, id, req, policy, client, perms)
    case None => Await(c, s, n, id, Requesting(PermsFromL2(req, policy, client, Pending)))
  }

  function GotPerms(s: State, n: NodeId, id: TaskId, req: Request, policy: Stamped<PolicyRead>,
                    client: Stamped<Client>, perms: Stamped<set<Guid>>): (r: State)
    requires n in s.nodes
    ensures Quiet(s, r)
  {
    if policy.value.policy.endpoint.id in perms.value then
      End(Log(s, Admitted(s.now, req, policy, client, perms)), n, id)
    else
      Reject(s, n, id, req, 403)
  }

  // ---------- a permission refresh ----------

  function WarmNext(c: Config, s: State, n: NodeId, id: TaskId, clients: Stamped<seq<Client>>, i: nat): (r: State)
    requires n in s.nodes
    ensures Quiet(s, r)
  {
    if i < |clients.value| then Await(c, s, n, id, Warming(WarmPerms(clients, i, Pending))) else End(s, n, id)
  }

  // ---------- a policy refresh ----------

  function AddLoad(r: Refresh, rows: Stamped<seq<Endpoint>>): Refresh {
    r.(loads := r.loads + [Loaded(rows.value, rows.loadedAt)])
  }

  /** Services whose product is not enabled are passed over without a read. */
  function PassOver(r: Refresh): (r': Refresh)
    ensures r' == r.(loads := r'.loads) && |r'.loads| >= |r.loads| && r'.loads[..|r.loads|] == r.loads
    ensures forall i :: |r.loads| <= i < |r'.loads| ==> r'.loads[i].Skipped?
    ensures |r.loads| <= |r.services| ==> |r'.loads| <= |r'.services|
    ensures |r'.loads| < |r'.services| ==>
      FindProduct(r'.products, r'.services[|r'.loads|].productId).Some?
    ensures forall i :: |r.loads| <= i < |r'.loads| ==>
      i < |r.services| && FindProduct(r.products, r.services[i].productId).None?
    decreases |r.services| - |r.loads|
  {
    if |r.loads| < |r.services| && FindProduct(r.products, r.services[|r.loads|].productId).None?
    then PassOver(r.(loads := r.loads + [Skipped]))
    else r
  }

  /** Register the next policy, or read the next service's endpoints, or swap the finished snapshot in. */
  function RefreshOn(c: Config, s: State, n: NodeId, id: TaskId, refresh: Refresh,
                     done: seq<PolicyRegistration>, todo: seq<PolicyRegistration>): (r: State)
    requires n in s.nodes
    ensures r.now == s.now && r.nodes.Keys == s.nodes.Keys
  {
    if todo != [] then
      var s' := CacheSet(c, s, n, PolicyKey(todo[0].key), PolicyItem(todo[0].policy));
      Await(c, s', n, id, Refreshing(PolicyWritten(refresh, done + [todo[0]], todo[1..])))
    else
      var r := PassOver(refresh);
      if |r.loads| < |r.services| then
        Await(c, s, n, id, Refreshing(EndpointList(r, done, Pending)))
      else
        var node := s.nodes[n];
        var swapped := node.(snapshot := SnapshotOf(done), origin := Some(r));
        End(s.(nodes := s.nodes[n := swapped]), n, id)
  }

  // ---------- the remote side of an await ----------

  function ReadPolicy(s: State, req: Request): Option<Stamped<PolicyRead>> {
    AsPolicy(L2Get(s.l2, PolicyKey(RouteOf(req)), s.now))
  }

  function DbClient(c: Config, s: State, clientId: string): Option<Stamped<Client>> {
    match ClientByClientId(c.db(s.now), clientId)
    case None => None
    case Some(client) => Some(Stamped(client, s.now))
  }

  function DbPerms(c: Config, s: State, client: Guid): Stamped<set<Guid>> {
    Stamped(AuthorizedEndpointIds(c.db(s.now), client, s.now), s.now)
  }

  function ServeRequest(c: Config, s: State, w: RequestWait): Option<RequestWait> {
    match w
    case PolicyFromL2(req, Pending) => Some(PolicyFromL2(req, Got(ReadPolicy(s, req))))
    case ClientFromL2(req, policy, Pending) =>
      Some(ClientFromL2(req, policy, Got(AsClient(L2Get(s.l2, ClientKey(ClientIdOf(req)), s.now)))))
    case ClientFromDb(req, policy, Pending) => Some(ClientFromDb(req, policy, Got(DbClient(c, s, ClientIdOf(req)))))
    case PermsFromL2(req, policy, client, Pending) =>
      Some(PermsFromL2(req, policy, client, Got(AsPerms(L2Get(s.l2, PermissionKey(client.value.id), s.now)))))
    case PermsFromDb(req, policy, client, Pending) =>
      Some(PermsFromDb(req, policy, client, Got(DbPerms(c, s, client.value.id))))
    case _ => None
  }

  function ServeWarm(c: Config, s: State, w: WarmWait): Option<WarmWait> {
    match w
    case ClientList(Pending) => Some(ClientList(Got(Stamped(EnabledClients(c.db(s.now)), s.now))))
    case WarmPerms(clients, i, Pending) =>
      if i < |clients.value| then Some(WarmPerms(clients, i, Got(DbPerms(c, s, clients.value[i].id)))) else None
    case _ => None
  }

  function ServeRefresh(c: Config, s: State, w: RefreshWait): Option<RefreshWait> {
    match w
    case ServiceList(Pending) => Some(ServiceList(Got(Stamped(EnabledServices(c.db(s.now)), s.now))))
    case ProductList(rows, Pending) => Some(ProductList(rows, Got(Stamped(EnabledProducts(c.db(s.now)), s.now))))
    case EndpointList(r, done, Pending) =>
      if |r.loads| < |r.services|
      then Some(EndpointList(r, done, Got(Stamped(EnabledEndpointsOf(c.db(s.now), r.services[|r.loads|].id), s.now))))
      else None
    case _ => None
  }

  /** The answer a pending read gets at this instant; `None` when no read is awaited. */
  function Serve(c: Config, s: State, w: Wait): Option<Wait> {
    match w
    case Requesting(r) => (match ServeRequest(c, s, r) case Some(r') => Some(Requesting(r')) case None => None)
    case Warming(r) => (match ServeWarm(c, s, r) case Some(r') => Some(Warming(r')) case None => None)
    case Refreshing(r) => (match ServeRefresh(c, s, r) case Some(r') => Some(Refreshing(r')) case None => None)
  }

  // ---------- the await returns ----------

  function ResumeRequest(c: Config, s: State, n: NodeId, id: TaskId, w: RequestWait): (r: Option<State>)
    requires n in s.nodes
    ensures r.Some? ==> Quiet(s, r.value)
  {
    match w
    case PolicyFromL2(req, Got(answer)) => Some(AfterPolicyL2(c, s, n, id, req, answer))
    case PolicyStored(req, policy) => Some(GotPolicy(c, s, n, id, req, policy))
    case ClientFromL2(req, policy, Got(Some(client))) =>
      Some(GotClient(c, FillL1(s, n, ClientKey(ClientIdOf(req)), ClientItem(client)), n, id, req, policy, client))
    case ClientFromL2(req, policy, Got(None)) => Some(Await(c, s, n, id, Requesting(ClientFromDb(req, policy, Pending))))
    case ClientFromDb(req, policy, Got(Some(client))) =>
      var s' := CacheSet(c, s, n, ClientKey(ClientIdOf(req)), ClientItem(client));
      Some(Await(c, s', n, id, Requesting(ClientStored(req, policy, client))))
    case ClientFromDb(req, _, Got(None)) => Some(Reject(s, n, id, req, 403))
    case ClientStored(req, policy, client) => Some(GotClient(c, s, n, id, req, policy, client))
    case PermsFromL2(req, policy, client, Got(Some(perms))) =>
      var s' := FillL1(s, n, PermissionKey(client.value.id), PermsItem(perms));
      Some(GotPerms(s', n, id, req, policy, client, perms))
    case PermsFromL2(req, policy, client, Got(None)) =>
      Some(Await(c, s, n, id, Requesting(PermsFromDb(req, policy, client, Pending))))
    case PermsFromDb(req, policy, client, Got(perms)) =>
      var s' := CacheSet(c, s, n, PermissionKey(client.value.id), PermsItem(perms));
      Some(Await(c, s', n, id, Requesting(PermsStored(req, policy, client, perms))))
    case PermsStored(req, policy, client, perms) => Some(GotPerms(s, n, id, req, policy, client, perms))
    case _ => None
  }

  function ResumeWarm(c: Config, s: State, n: NodeId, id: TaskId, w: WarmWait): (r: Option<State>)
    requires n in s.nodes
    ensures r.Some? ==> Quiet(s, r.value)
  {
    match w
    case ClientList(Got(clients)) => Some(WarmNext(c, s, n, id, clients, 0))
    case WarmPerms(clients, i, Got(perms)) =>
      if i < |clients.value| then
        var s' := CacheSet(c, s, n, PermissionKey(clients.value[i].id), PermsItem(perms));
        Some(Await(c, s', n, id, Warming(WarmPermsStored(clients, i))))
      else None
    case WarmPermsStored(clients, i) =>
      if i < |clients.value| then
        var client := clients.value[i];
        var s' := CacheSet(c, s, n, ClientKey(client.clientId), ClientItem(Stamped(client, clients.loadedAt)));
        Some(Await(c, s', n, id, Warming(WarmClientStored(clients, i))))
      else None
    case WarmClientStored(clients, i) => Some(WarmNext(c, s, n, id, clients, i + 1))
    case _ => None
  }

  function ResumeRefresh(c: Config, s: State, n: NodeId, id: TaskId, w: RefreshWait): (r: Option<State>)
    requires n in s.nodes
    ensures r.Some? ==> r.value.now == s.now && r.value.nodes.Keys == s.nodes.Keys
  {
    match w
    case ServiceList(Got(rows)) => Some(Await(c, s, n, id, Refreshing(ProductList(rows, Pending))))
    case ProductList(rows, Got(products)) =>
      if DistinctIds(products.value) then
        Some(RefreshOn(c, s, n, id, Refresh(rows.value, rows.loadedAt, products.value, products.loadedAt, []), [], []))
      else
        Some(End(s, n, id))  // ToDictionary throws; the refresh is abandoned
    case EndpointList(r, done, Got(rows)) =>
      if |r.loads| < |r.services| then
        var r' := AddLoad(r, rows);
        Some(RefreshOn(c, s, n, id, r', done, ServiceRegistrations(r', |r.loads|)))
      else None
    case PolicyWritten(r, done, todo) => Some(RefreshOn(c, s, n, id, r, done, todo))
    case _ => None
  }

  function Resume(c: Config, s: State, n: NodeId, id: TaskId, w: Wait): (r: Option<State>)
    requires n in s.nodes
    ensures r.Some? ==> r.value.now == s.now && r.value.nodes.Keys == s.nodes.Keys
  {
    match w
    case Requesting(r) => ResumeRequest(c, s, n, id, r)
    case Warming(r) => ResumeWarm(c, s, n, id, r)
    case Refreshing(r) => ResumeRefresh(c, s, n, id, r)
  }

  /**
   * The await throws. A failed shared-store read counts as a miss; a failed database read ends a request with 500,
   * skips one client of a permission refresh, and abandons a policy refresh.
   */
  function FailRequest(c: Config, s: State, n: NodeId, id: TaskId, w: RequestWait): (r: Option<State>)
    requires n in s.nodes
    ensures r.Some? ==> Quiet(s, r.value)
  {
    match w
    case PolicyFromL2(req, _) => Some(AfterPolicyL2(c, s, n, id, req, None))
    case ClientFromL2(req, policy, _) => Some(Await(c, s, n, id, Requesting(ClientFromDb(req, policy, Pending))))
    case PermsFromL2(req, policy, client, _) => Some(Await(c, s, n, id, Requesting(PermsFromDb(req, policy, client, Pending))))
    case ClientFromDb(req, _, _) => Some(Reject(s, n, id, req, 500))
    case PermsFromDb(req, _, _, _) => Some(Reject(s, n, id, req, 500))
    case _ => None
  }

  function FailWarm(c: Config, s: State, n: NodeId, id: TaskId, w: WarmWait): (r: Option<State>)
    requires n in s.nodes
    ensures r.Some? ==> Quiet(s, r.value)
  {
    match w
    case WarmPerms(clients, i, _) => Some(WarmNext(c, s, n, id, clients, i + 1))
    case ClientList(_) => Some(End(s, n, id))
    case _ => None
  }

  function FailRefresh(c: Config, s: State, n: NodeId, id: TaskId, w: RefreshWait): (r: Option<State>)
    requires n in s.nodes
    ensures r.Some? ==> Quiet(s, r.value)
  {
    match w
    case ServiceList(_) => Some(End(s, n, id))
    case ProductList(_, _) => Some(End(s, n, id))
    case EndpointList(_, _, _) => Some(End(s, n, id))
    case _ => None
  }

  function Fail(c: Config, s: State, n: NodeId, id: TaskId, w: Wait): (r: Option<State>)
    requires n in s.nodes
    ensures r.Some? ==> Quiet(s, r.value)
  {
    match w
    case Requesting(r) => FailRequest(c, s, n, id, r)
    case Warming(r) => FailWarm(c, s, n, id, r)
    case Refreshing(r) => FailRefresh(c, s, n, id, r)
  }

  // ---------- steps and runs ----------

  datatype Event =
    | Tick(t: Time)
    | StartRequest(n: NodeId, id: TaskId, req: Request)
    | StartPermissionRefresh(n: NodeId, id: TaskId)
    | StartPolicyRefresh(n: NodeId, id: TaskId)
    | Answered(n: NodeId, id: TaskId)
    | Returned(n: NodeId, id: TaskId)
    | Threw(n: NodeId, id: TaskId)
    | Applied(w: nat)
    | Lost(w: nat)
    | EvictL1(n: NodeId, key: Key)
    | EvictL2(key: Key)
    | Restart(n: NodeId)

  ghost predicate Due(s: State, t: Time) {
    && (forall n, id :: n in s.nodes && id in s.nodes[n].tasks ==> t <= s.nodes[n].tasks[id].deadline)
    && (forall i :: 0 <= i < |s.writes| ==> t <= s.writes[i].deadline)
  }

  predicate Waiting(s: State, n: NodeId, id: TaskId) {
    n in s.nodes && id in s.nodes[n].tasks
  }

  predicate Free(s: State, n: NodeId, id: TaskId) {
    n in s.nodes && id !in s.nodes[n].tasks
  }

  function WithoutWrite(s: State, i: nat): seq<Write>
    requires i < |s.writes|
  {
    s.writes[..i] + s.writes[i + 1..]
  }

  ghost predicate Next(c: Config, s: State, e: Event, s': State) {
    match e
    case Tick(t) => s.now <= t && Due(s, t) && s' == s.(now := t)
    case StartRequest(n, id, req) => Free(s, n, id) && s' == BeginRequest(c, s, n, id, req)
    case StartPermissionRefresh(n, id) => Free(s, n, id) && s' == Await(c, s, n, id, Warming(ClientList(Pending)))
    case StartPolicyRefresh(n, id) => Free(s, n, id) && s' == Await(c, s, n, id, Refreshing(ServiceList(Pending)))
    case Answered(n, id) =>
      && Waiting(s, n, id)
      && var task := s.nodes[n].tasks[id];
      && var w := Serve(c, s, task.wait);
      && w.Some?
      && s' == s.(nodes := s.nodes[n := s.nodes[n].(tasks := s.nodes[n].tasks[id := task.(wait := w.value)])])
    case Returned(n, id) => Waiting(s, n, id) && Resume(c, s, n, id, s.nodes[n].tasks[id].wait) == Some(s')
    case Threw(n, id) => Waiting(s, n, id) && Fail(c, s, n, id, s.nodes[n].tasks[id].wait) == Some(s')
    case Applied(i) =>
      && i < |s.writes|
      && s' == s.(l2 := Put(s.l2, s.writes[i].key, s.writes[i].item, s.now, L2_TTL), writes := WithoutWrite(s, i))
    case Lost(i) => i < |s.writes| && s' == s.(writes := WithoutWrite(s, i))
    case EvictL1(n, k) => n in s.nodes && s' == s.(nodes := s.nodes[n := s.nodes[n].(l1 := s.nodes[n].l1 - {k})])
    case EvictL2(k) => s' == s.(l2 := s.l2 - {k})
    case Restart(n) => n in s.nodes && s' == s.(nodes := s.nodes[n := EMPTY_NODE])
  }

  ghost predicate Run(c: Config, states: seq<State>, events: seq<Event>) {
    && |states| == |events| + 1
    && Init(states[0])
    && forall i :: 0 <= i < |events| ==> Next(c, states[i], events[i], states[i + 1])
  }
}
