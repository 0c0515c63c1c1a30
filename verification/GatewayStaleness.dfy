/**
 * How old the database facts behind a gateway decision can be, in every run.
 *
 * The invariant says of each place a fact can rest (own cache, shared store, posted write, waiting task, snapshot)
 * that the fact was true of the database at its stamp, and how far from its stamp it may still be used.
 */
module GatewayStaleness {
  import opened Wrappers
  import opened Entities
  import opened Registry
  import opened Tiers
  import opened GatewayProtocol

  // ---------- the bounds ----------

  /** A run's environment with a bound on its enabled clients and a bound on the age of its policy snapshots. */
  datatype Bounded = Bounded(run: Config, maxClients: nat, snapshotAge: nat)

  /** The waits of i whole iterations of the permission refresh: one read and two writes each. */
  function LoopDelay(c: Bounded, i: nat): nat {
    if i == 0 then 0 else LoopDelay(c, i - 1) + c.run.delay + c.run.delay + c.run.delay
  }

  /** The age of a fact when it is handed to a cache `Set`. */
  function SetAge(c: Bounded, k: Key): nat {
    match k
    case PolicyKey(_) => c.snapshotAge
    case PermissionKey(_) => c.run.delay
    case ClientKey(_) => LoopDelay(c, c.maxClients)
  }

  /** The age at which the last copy of a fact leaves the last own cache. */
  function CachedAge(c: Bounded, k: Key): nat {
    SetAge(c, k) + c.run.delay + L2_TTL + c.run.delay + L1_TTL
  }

  const ANY_POLICY := PolicyKey("")
  const ANY_CLIENT := ClientKey("")

  // ---------- a fact is true at its stamp ----------

  ghost predicate PolicyOk(c: Bounded, now: Time, route: string, p: Stamped<PolicyRead>) {
    var policy := p.value.policy;
    && KeyAgrees(route, policy)
    && policy.service in EnabledServices(c.run.db(p.loadedAt))
    && policy.product in EnabledProducts(c.run.db(p.value.productAt))
    && policy.endpoint in EnabledEndpointsOf(c.run.db(p.value.endpointAt), policy.service.id)
    && p.loadedAt <= p.value.productAt <= p.value.endpointAt <= now
  }

  ghost predicate ClientOk(c: Bounded, now: Time, clientId: string, client: Stamped<Client>) {
    && client.value in EnabledClients(c.run.db(client.loadedAt))
    && client.value.clientId == clientId
    && client.loadedAt <= now
  }

  ghost predicate PermsOk(c: Bounded, now: Time, client: Guid, perms: Stamped<set<Guid>>) {
    && perms.value == AuthorizedEndpointIds(c.run.db(perms.loadedAt), client, perms.loadedAt)
    && perms.loadedAt <= now
  }

  ghost predicate ItemOk(c: Bounded, now: Time, k: Key, item: Item) {
    match k
    case PolicyKey(route) => item.value.PolicyFact? && PolicyOk(c, now, route, Stamped(item.value.read, item.loadedAt))
    case ClientKey(id) => item.value.ClientFact? && ClientOk(c, now, id, Stamped(item.value.client, item.loadedAt))
    case PermissionKey(id) =>
      item.value.PermissionFact? && PermsOk(c, now, id, Stamped(item.value.endpoints, item.loadedAt))
  }

  // ---------- the invariant, place by place ----------

  ghost predicate L1Ok(c: Bounded, now: Time, l1: Tier) {
    forall k :: k in l1 ==>
      ItemOk(c, now, k, l1[k].value) && l1[k].expiresAt <= l1[k].value.loadedAt + CachedAge(c, k)
  }

  ghost predicate L2Ok(c: Bounded, now: Time, l2: Tier) {
    forall k :: k in l2 ==>
      && ItemOk(c, now, k, l2[k].value)
      && l2[k].expiresAt <= l2[k].value.loadedAt + SetAge(c, k) + c.run.delay + L2_TTL
  }

  ghost predicate WriteOk(c: Bounded, now: Time, w: Write) {
    && ItemOk(c, now, w.key, w.item)
    && now <= w.deadline <= w.item.loadedAt + SetAge(c, w.key) + c.run.delay
  }

  /** The parts of a refresh are what the database said when each was read. */
  ghost predicate RefreshOk(c: Bounded, now: Time, r: Refresh) {
    && r.services == EnabledServices(c.run.db(r.servicesAt))
    && r.products == EnabledProducts(c.run.db(r.productsAt))
    && r.servicesAt <= r.productsAt <= now
    && |r.loads| <= |r.services|
    && forall i :: 0 <= i < |r.loads| ==> LoadOk(c, now, r, i)
  }

  ghost predicate LoadOk(c: Bounded, now: Time, r: Refresh, i: nat)
    requires i < |r.loads| <= |r.services|
  {
    match r.loads[i]
    case Skipped => FindProduct(r.products, r.services[i].productId).None?
    case Loaded(endpoints, at) =>
      && FindProduct(r.products, r.services[i].productId).Some?
      && endpoints == EnabledEndpointsOf(c.run.db(at), r.services[i].id)
      && r.productsAt <= at <= now
  }

  ghost predicate Building(c: Bounded, now: Time, r: Refresh, regs: seq<PolicyRegistration>) {
    && RefreshOk(c, now, r)
    && regs == RefreshRegistrations(r, |r.loads|)
  }

  /** The policy a request holds after j further waits. */
  ghost predicate HeldPolicy(c: Bounded, now: Time, limit: Time, req: Request, p: Stamped<PolicyRead>, waits: nat) {
    && PolicyOk(c, now, RouteOf(req), p)
    && limit < p.loadedAt + CachedAge(c, ANY_POLICY) + waits
  }

  /** The request is past the identity checks of its policy. */
  ghost predicate Passed(req: Request, p: Stamped<PolicyRead>) {
    Identified(req) && (p.value.policy.requiresJwt ==> req.authenticated != Some(false))
  }

  ghost predicate HeldClient(c: Bounded, now: Time, limit: Time, req: Request, client: Stamped<Client>, waits: nat) {
    && ClientOk(c, now, ClientIdOf(req), client)
    && limit < client.loadedAt + CachedAge(c, ANY_CLIENT) + waits
  }

  ghost predicate RequestOk(c: Bounded, now: Time, deadline: Time, w: RequestWait) {
    var d := c.run.delay;
    match w
    case PolicyFromL2(req, answer) =>
      answer.Got? && answer.value.Some? ==>
        && PolicyOk(c, now, RouteOf(req), answer.value.value)
        && deadline <= answer.value.value.loadedAt + SetAge(c, ANY_POLICY) + d + L2_TTL + d
    case PolicyStored(req, p) => HeldPolicy(c, now, deadline, req, p, 0)
    case ClientFromL2(req, p, answer) =>
      && Passed(req, p) && HeldPolicy(c, now, deadline, req, p, d)
      && (answer.Got? && answer.value.Some? ==>
        && ClientOk(c, now, ClientIdOf(req), answer.value.value)
        && deadline <= answer.value.value.loadedAt + SetAge(c, ANY_CLIENT) + d + L2_TTL + d)
    case ClientFromDb(req, p, answer) =>
      && Passed(req, p) && HeldPolicy(c, now, deadline, req, p, d + d)
      && (answer.Got? && answer.value.Some? ==>
        && ClientOk(c, now, ClientIdOf(req), answer.value.value)
        && deadline <= answer.value.value.loadedAt + d)
    case ClientStored(req, p, client) =>
      && Passed(req, p) && HeldPolicy(c, now, deadline, req, p, d + d + d)
      && HeldClient(c, now, deadline, req, client, 0)
    case PermsFromL2(req, p, client, answer) =>
      && Passed(req, p) && HeldPolicy(c, now, deadline, req, p, d + d + d + d)
      && HeldClient(c, now, deadline, req, client, d)
      && (answer.Got? && answer.value.Some? ==>
        && PermsOk(c, now, client.value.id, answer.value.value)
        && deadline <= answer.value.value.loadedAt + d + d + L2_TTL + d)
    case PermsFromDb(req, p, client, answer) =>
      && Passed(req, p) && HeldPolicy(c, now, deadline, req, p, d + d + d + d + d)
      && HeldClient(c, now, deadline, req, client, d + d)
      && (answer.Got? ==>
        && PermsOk(c, now, client.value.id, answer.value)
        && deadline <= answer.value.loadedAt + d)
    case PermsStored(req, p, client, perms) =>
      && Passed(req, p) && HeldPolicy(c, now, deadline, req, p, d + d + d + d + d + d)
      && HeldClient(c, now, deadline, req, client, d + d + d)
      && PermsOk(c, now, client.value.id, perms)
      && deadline <= perms.loadedAt + d + d
  }

  ghost predicate WarmOk(c: Bounded, now: Time, deadline: Time, w: WarmWait) {
    var d := c.run.delay;
    match w
    case ClientList(list) =>
      list.Got? ==> ClientsOk(c, now, list.value) && deadline <= list.value.loadedAt + d
    case WarmPerms(clients, i, answer) =>
      && ClientsOk(c, now, clients)
      && i < |clients.value|
      && deadline <= clients.loadedAt + LoopDelay(c, i) + d + d
      && (answer.Got? ==>
        && PermsOk(c, now, clients.value[i].id, answer.value)
        && deadline <= answer.value.loadedAt + d)
    case WarmPermsStored(clients, i) =>
      && ClientsOk(c, now, clients)
      && i < |clients.value|
      && deadline <= clients.loadedAt + LoopDelay(c, i) + d + d + d
    case WarmClientStored(clients, i) =>
      && ClientsOk(c, now, clients)
      && i < |clients.value|
      && deadline <= clients.loadedAt + LoopDelay(c, i + 1) + d
  }

  ghost predicate ReloadOk(c: Bounded, now: Time, w: RefreshWait) {
    match w
    case ServiceList(rows) =>
      rows.Got? ==> rows.value.value == EnabledServices(c.run.db(rows.value.loadedAt)) && rows.value.loadedAt <= now
    case ProductList(rows, products) =>
      && rows.value == EnabledServices(c.run.db(rows.loadedAt))
      && rows.loadedAt <= now
      && (products.Got? ==>
        && products.value.value == EnabledProducts(c.run.db(products.value.loadedAt))
        && rows.loadedAt <= products.value.loadedAt <= now)
    case EndpointList(r, done, answer) =>
      && Building(c, now, r, done)
      && |r.loads| < |r.services|
      && FindProduct(r.products, r.services[|r.loads|].productId).Some?
      && (answer.Got? ==>
        && answer.value.value == EnabledEndpointsOf(c.run.db(answer.value.loadedAt), r.services[|r.loads|].id)
        && r.productsAt <= answer.value.loadedAt <= now)
    case PolicyWritten(r, done, todo) => Building(c, now, r, done + todo)
  }

  /** What a policy refresh has got through: services, and registrations. */
  function Work(r: Refresh, done: seq<PolicyRegistration>): nat {
    |r.loads| + |done|
  }

  /** The waits of k reads and writes, one after the other. */
  function Waits(c: Bounded, k: nat): nat {
    if k == 0 then 0 else Waits(c, k - 1) + c.run.delay
  }

  /** A policy refresh waits no longer than its work takes, from the instant its services were read. */
  ghost predicate Timely(c: Bounded, deadline: Time, w: RefreshWait) {
    var d := c.run.delay;
    match w
    case ServiceList(rows) => rows.Got? ==> deadline <= rows.value.loadedAt + d
    case ProductList(rows, _) => deadline <= rows.loadedAt + d + d
    case EndpointList(r, done, _) => deadline <= r.servicesAt + Waits(c, Work(r, done)) + d + d + d
    case PolicyWritten(r, done, _) => deadline <= r.servicesAt + Waits(c, Work(r, done)) + d + d
  }

  ghost predicate WaitOk(c: Bounded, now: Time, deadline: Time, w: Wait) {
    match w
    case Requesting(r) => RequestOk(c, now, deadline, r)
    case Warming(r) => WarmOk(c, now, deadline, r)
    case Refreshing(r) => ReloadOk(c, now, r) && Timely(c, deadline, r)
  }

  ghost predicate ClientsOk(c: Bounded, now: Time, clients: Stamped<seq<Client>>) {
    clients.value == EnabledClients(c.run.db(clients.loadedAt)) && clients.loadedAt <= now
  }

  ghost predicate TaskOk(c: Bounded, now: Time, t: Task) {
    now <= t.deadline <= now + c.run.delay && WaitOk(c, now, t.deadline, t.wait)
  }

  /** A snapshot is empty, or the complete result of the one refresh it came from. */
  ghost predicate SnapshotOk(c: Bounded, now: Time, snapshot: map<string, Stamped<PolicyRead>>, origin: Option<Refresh>) {
    match origin
    case None => snapshot == map[]
    case Some(r) =>
      && RefreshOk(c, now, r)
      && |r.loads| == |r.services|
      && snapshot == SnapshotOf(RefreshRegistrations(r, |r.loads|))
  }

  ghost predicate NodeOk(c: Bounded, now: Time, node: Node) {
    && L1Ok(c, now, node.l1)
    && SnapshotOk(c, now, node.snapshot, node.origin)
    && forall id :: id in node.tasks ==> TaskOk(c, now, node.tasks[id])
  }

  /** What the log records of a decision is true, and recent. */
  ghost predicate OutcomeOk(c: Bounded, o: Outcome) {
    var d := c.run.delay;
    match o
    case Resolved(at, req, p) => HeldPolicy(c, at, at, req, p, 0)
    case AdmittedAnonymously(at, req, p) => HeldPolicy(c, at, at, req, p, 0) && !p.value.policy.requiresJwt && !Identified(req)
    case Admitted(at, req, p, client, perms) =>
      && Passed(req, p) && HeldPolicy(c, at, at, req, p, d + d + d + d + d + d)
      && HeldClient(c, at, at, req, client, d + d + d)
      && PermsOk(c, at, client.value.id, perms)
      && at < perms.loadedAt + CachedAge(c, PermissionKey(client.value.id))
      && p.value.policy.endpoint.id in perms.value
    case Rejected(_, _, _) => true
    case Bypassed(_, req) => IsHealthPath(req.path)
  }

  ghost predicate Inv(c: Bounded, s: State) {
    && (forall n :: n in s.nodes ==> NodeOk(c, s.now, s.nodes[n]))
    && L2Ok(c, s.now, s.l2)
    && (forall w :: w in s.writes ==> WriteOk(c, s.now, w))
    && (forall o :: o in s.log ==> OutcomeOk(c, o) && o.at <= s.now)
  }

  /** What a policy refresh files next, in order, once what it awaits is there. */
  function ToFile(w: RefreshWait): seq<PolicyRegistration> {
    match w
    case EndpointList(r, _, Got(rows)) =>
      if |r.loads| < |r.services| then ServiceRegistrations(AddLoad(r, rows), |r.loads|) else []
    case PolicyWritten(_, _, todo) => todo
    case _ => []
  }

  ghost predicate FreshTask(c: Bounded, now: Time, t: Task) {
    t.wait.Refreshing? && ToFile(t.wait.reload) != [] ==> now <= t.wait.reload.refresh.servicesAt + c.snapshotAge
  }

  /** A refresh that has got to its end, and what the database answered each of its reads, none of them yet to come. */
  ghost predicate WholeRefresh(c: Config, now: Time, r: Refresh) {
    && r.services == EnabledServices(c.db(r.servicesAt))
    && r.products == EnabledProducts(c.db(r.productsAt))
    && r.servicesAt <= r.productsAt <= now
    && |r.loads| == |r.services|
    && forall i :: 0 <= i < |r.loads| ==>
      match r.loads[i]
      case Skipped => FindProduct(r.products, r.services[i].productId).None?
      case Loaded(endpoints, at) =>
        && FindProduct(r.products, r.services[i].productId).Some?
        && endpoints == EnabledEndpointsOf(c.db(at), r.services[i].id)
        && r.productsAt <= at <= now
  }

  /** At this instant no snapshot, finished or being filed, is older than the bound. */
  ghost predicate Fresh(c: Bounded, s: State) {
    forall n :: n in s.nodes ==>
      && (s.nodes[n].origin.Some? ==> s.now <= s.nodes[n].origin.value.servicesAt + c.snapshotAge)
      && forall id :: id in s.nodes[n].tasks ==>
        FreshTask(c, s.now, s.nodes[n].tasks[id])
  }

  /** Up to this instant the database never listed more enabled clients than the bound. */
  ghost predicate FewClients(c: Bounded, now: Time) {
    c.maxClients >= 1 && forall t: Time :: t <= now ==> |EnabledClients(c.run.db(t))| <= c.maxClients
  }

  ghost predicate Assumed(c: Bounded, s: State) {
    Fresh(c, s) && FewClients(c, s.now)
  }

  // ---------- registrations of a refresh are true policies ----------

  lemma EndpointPolicyTrue(c: Bounded, now: Time, r: Refresh, i: nat, e: Endpoint,
                           x: Registration<EndpointPolicy>)
    requires RefreshOk(c, now, r) && i < |r.loads| && r.loads[i].Loaded? && e in r.loads[i].endpoints
    requires FindProduct(r.products, r.services[i].productId).Some?
    requires x in RegistrationsOfEndpoint(FindProduct(r.products, r.services[i].productId).value, r.services[i], e)
    ensures PolicyOk(c, now, x.key, Stamped(PolicyRead(x.policy, r.productsAt, r.loads[i].at), r.servicesAt))
  {
    assert LoadOk(c, now, r, i);
    assert r.services[i] in r.services;
    hide RouteKeys, EffectiveCrypto;
  }

  lemma ServiceTrue(c: Bounded, now: Time, r: Refresh, i: nat, x: PolicyRegistration)
    requires RefreshOk(c, now, r) && i < |r.loads| && x in ServiceRegistrations(r, i)
    ensures PolicyOk(c, now, x.key, x.policy) && x.policy.loadedAt == r.servicesAt
  {
    assert LoadOk(c, now, r, i);
    hide PolicyOk, RegistrationsOfEndpoint, EnabledEndpointsOf, FindProduct;
    var service := r.services[i];
    var load := r.loads[i];
    var product := FindProduct(r.products, service.productId).value;
    var regs := RegistrationsOfService(product, service, load.endpoints);
    var k :| 0 <= k < |regs| && x == StampAll(regs, r, load.at)[k];
    assert regs[k] in regs;
    var e :| e in load.endpoints && regs[k] in RegistrationsOfEndpoint(product, service, e);
    EndpointPolicyTrue(c, now, r, i, e, regs[k]);
  }

  lemma {:induction false} RegistrationsTrue(c: Bounded, now: Time, r: Refresh, n: nat)
    requires RefreshOk(c, now, r) && n <= |r.loads|
    ensures forall x :: x in RefreshRegistrations(r, n) ==>
      PolicyOk(c, now, x.key, x.policy) && x.policy.loadedAt == r.servicesAt
  {
    hide PolicyOk, LoadOk, ServiceRegistrations;
    if n > 0 {
      RegistrationsTrue(c, now, r, n - 1);
      forall x | x in ServiceRegistrations(r, n - 1)
        ensures PolicyOk(c, now, x.key, x.policy) && x.policy.loadedAt == r.servicesAt
      {
        ServiceTrue(c, now, r, n - 1, x);
      }
    }
  }

  lemma SnapshotTrue(c: Bounded, now: Time, node: Node, route: string)
    requires SnapshotOk(c, now, node.snapshot, node.origin) && route in node.snapshot
    ensures node.origin.Some?
    ensures PolicyOk(c, now, route, node.snapshot[route])
    ensures node.snapshot[route].loadedAt == node.origin.value.servicesAt
  {
    var r := node.origin.value;
    RegistrationsTrue(c, now, r, |r.loads|);
    assert Registration(route, node.snapshot[route]) in RefreshRegistrations(r, |r.loads|);
  }

  lemma {:induction false} LoopDelayMonotone(c: Bounded, i: nat, j: nat)
    requires i <= j
    ensures LoopDelay(c, i) <= LoopDelay(c, j)
    decreases j
  {
    if i < j {
      LoopDelayMonotone(c, i, j - 1);
    }
  }

  lemma {:induction false} WaitsMonotone(c: Bounded, i: nat, j: nat)
    requires i <= j
    ensures Waits(c, i) <= Waits(c, j)
    decreases j
  {
    if i < j {
      WaitsMonotone(c, i, j - 1);
    }
  }

  // ---------- the effects keep the invariant ----------

  lemma NodeReplaced(c: Bounded, s: State, n: NodeId, node: Node)
    requires Inv(c, s) && n in s.nodes && NodeOk(c, s.now, node)
    ensures Inv(c, s.(nodes := s.nodes[n := node]))
  {
    hide NodeOk, WriteOk, L2Ok, OutcomeOk;
  }

  lemma AwaitKeeps(c: Bounded, s: State, n: NodeId, id: TaskId, wait: Wait)
    requires Inv(c, s) && n in s.nodes
    requires WaitOk(c, s.now, s.now + c.run.delay, wait)
    ensures Inv(c, Await(c.run, s, n, id, wait))
  {
    hide L1Ok, SnapshotOk, WaitOk, L2Ok, WriteOk, OutcomeOk;
    var node := s.nodes[n];
    var t := Task(s.now + c.run.delay, wait);
    assert NodeOk(c, s.now, node);
    var node' := node.(tasks := node.tasks[id := t]);
    assert NodeOk(c, s.now, node');
    NodeReplaced(c, s, n, node');
  }

  lemma EndKeeps(c: Bounded, s: State, n: NodeId, id: TaskId)
    requires Inv(c, s) && n in s.nodes
    ensures Inv(c, End(s, n, id))
  {
    hide TaskOk, L1Ok, SnapshotOk;
    var node := s.nodes[n];
    assert NodeOk(c, s.now, node);
    var node' := node.(tasks := node.tasks - {id});
    assert NodeOk(c, s.now, node');
    NodeReplaced(c, s, n, node');
  }

  lemma LogKeeps(c: Bounded, s: State, o: Outcome)
    requires Inv(c, s) && OutcomeOk(c, o) && o.at == s.now
    ensures Inv(c, Log(s, o))
  {
  }

  lemma FillKeeps(c: Bounded, s: State, n: NodeId, k: Key, item: Item)
    requires Inv(c, s) && n in s.nodes
    requires ItemOk(c, s.now, k, item)
    requires s.now <= item.loadedAt + SetAge(c, k) + c.run.delay + L2_TTL + c.run.delay
    ensures Inv(c, FillL1(s, n, k, item))
  {
    var node := s.nodes[n];
    assert NodeOk(c, s.now, node);
    assert L1Ok(c, s.now, Put(node.l1, k, item, s.now, L1_TTL));
  }

  lemma WriteKeeps(c: Bounded, s: State, w: Write)
    requires Inv(c, s) && WriteOk(c, s.now, w)
    ensures Inv(c, s.(writes := s.writes + [w]))
  {
    hide NodeOk, WriteOk, OutcomeOk, L2Ok;
  }

  lemma SetKeeps(c: Bounded, s: State, n: NodeId, k: Key, item: Item)
    requires Inv(c, s) && n in s.nodes
    requires ItemOk(c, s.now, k, item)
    requires s.now <= item.loadedAt + SetAge(c, k)
    ensures Inv(c, CacheSet(c.run, s, n, k, item))
  {
    hide NodeOk, ItemOk, OutcomeOk, L2Ok, FillL1;
    FillKeeps(c, s, n, k, item);
    WriteKeeps(c, FillL1(s, n, k, item), Write(k, item, s.now + c.run.delay));
  }

  lemma RejectKeeps(c: Bounded, s: State, n: NodeId, id: TaskId, req: Request, status: nat)
    requires Inv(c, s) && n in s.nodes
    ensures Inv(c, Reject(s, n, id, req, status))
  {
    LogKeeps(c, s, Rejected(s.now, req, status));
    EndKeeps(c, Log(s, Rejected(s.now, req, status)), n, id);
  }

  // ---------- a request keeps the invariant ----------

  /** A hit in the own cache is a true fact, still inside its age bound. */
  lemma HitIsRecent(c: Bounded, s: State, n: NodeId, k: Key)
    requires Inv(c, s) && n in s.nodes
    ensures var o := L1Get(s.nodes[n].l1, k, s.now);
      o.Some? ==> ItemOk(c, s.now, k, o.value) && s.now < o.value.loadedAt + CachedAge(c, k)
  {
    hide ItemOk, SnapshotOk, TaskOk, WriteOk, L2Ok, OutcomeOk;
    assert NodeOk(c, s.now, s.nodes[n]);
  }

  lemma GotPermsKeeps(c: Bounded, s: State, n: NodeId, id: TaskId, req: Request, p: Stamped<PolicyRead>,
                      client: Stamped<Client>, perms: Stamped<set<Guid>>)
    requires Inv(c, s) && n in s.nodes
    requires Passed(req, p)
    requires HeldPolicy(c, s.now, s.now, req, p,
      c.run.delay + c.run.delay + c.run.delay + c.run.delay + c.run.delay + c.run.delay)
    requires HeldClient(c, s.now, s.now, req, client, c.run.delay + c.run.delay + c.run.delay)
    requires PermsOk(c, s.now, client.value.id, perms)
    requires s.now < perms.loadedAt + CachedAge(c, PermissionKey(client.value.id))
    ensures Inv(c, GotPerms(s, n, id, req, p, client, perms))
  {
    if p.value.policy.endpoint.id in perms.value {
      var o := Admitted(s.now, req, p, client, perms);
      LogKeeps(c, s, o);
      EndKeeps(c, Log(s, o), n, id);
    } else {
      RejectKeeps(c, s, n, id, req, 403);
    }
  }

  lemma GotClientKeeps(c: Bounded, s: State, n: NodeId, id: TaskId, req: Request, p: Stamped<PolicyRead>,
                       client: Stamped<Client>)
    requires Inv(c, s) && n in s.nodes
    requires Passed(req, p) && HeldPolicy(c, s.now, s.now, req, p, c.run.delay + c.run.delay + c.run.delay)
    requires HeldClient(c, s.now, s.now, req, client, 0)
    ensures Inv(c, GotClient(c.run, s, n, id, req, p, client))
  {
    hide Inv, PolicyOk, ClientOk, Await, GotPerms;
    HitIsRecent(c, s, n, PermissionKey(client.value.id));
    match AsPerms(L1Get(s.nodes[n].l1, PermissionKey(client.value.id), s.now))
    case Some(perms) => GotPermsKeeps(c, s, n, id, req, p, client, perms);
    case None => AwaitKeeps(c, s, n, id, Requesting(PermsFromL2(req, p, client, Pending)));
  }

  lemma LookUpClientKeeps(c: Bounded, s: State, n: NodeId, id: TaskId, req: Request, p: Stamped<PolicyRead>)
    requires Inv(c, s) && n in s.nodes
    requires Passed(req, p) && HeldPolicy(c, s.now, s.now, req, p, 0)
    ensures Inv(c, LookUpClient(c.run, s, n, id, req, p))
  {
    hide Inv, PolicyOk, Await, GotClient;
    HitIsRecent(c, s, n, ClientKey(ClientIdOf(req)));
    match AsClient(L1Get(s.nodes[n].l1, ClientKey(ClientIdOf(req)), s.now))
    case Some(client) => GotClientKeeps(c, s, n, id, req, p, client);
    case None => AwaitKeeps(c, s, n, id, Requesting(ClientFromL2(req, p, Pending)));
  }

  lemma GotPolicyKeeps(c: Bounded, s: State, n: NodeId, id: TaskId, req: Request, p: Stamped<PolicyRead>)
    requires Inv(c, s) && n in s.nodes
    requires HeldPolicy(c, s.now, s.now, req, p, 0)
    ensures Inv(c, GotPolicy(c.run, s, n, id, req, p))
  {
    hide Inv, HeldPolicy, End, LookUpClient, Reject;
    var s' := Log(s, Resolved(s.now, req, p));
    LogKeeps(c, s, Resolved(s.now, req, p));
    var requiresJwt := p.value.policy.requiresJwt;
    if requiresJwt && req.authenticated == Some(false) {
      RejectKeeps(c, s', n, id, req, 401);
    } else if req.clientId == None || req.clientId == Some("") {
      if requiresJwt {
        RejectKeeps(c, s', n, id, req, 401);
      } else {
        var o := AdmittedAnonymously(s'.now, req, p);
        LogKeeps(c, s', o);
        EndKeeps(c, Log(s', o), n, id);
      }
    } else {
      LookUpClientKeeps(c, s', n, id, req, p);
    }
  }

  lemma AfterPolicyL2Keeps(c: Bounded, s: State, n: NodeId, id: TaskId, req: Request,
                           answer: Option<Stamped<PolicyRead>>)
    requires Inv(c, s) && n in s.nodes && Fresh(c, s)
    requires answer.Some? ==>
      && PolicyOk(c, s.now, RouteOf(req), answer.value)
      && s.now <= answer.value.loadedAt + SetAge(c, ANY_POLICY) + c.run.delay + L2_TTL + c.run.delay
    ensures Inv(c, AfterPolicyL2(c.run, s, n, id, req, answer))
  {
    hide PolicyOk, L1Ok, L2Ok, WriteOk, OutcomeOk, TaskOk, SnapshotOk, GotPolicy, Await, Reject;
    var route := RouteOf(req);
    match answer
    case Some(p) =>
      FillKeeps(c, s, n, PolicyKey(route), PolicyItem(p));
      GotPolicyKeeps(c, FillL1(s, n, PolicyKey(route), PolicyItem(p)), n, id, req, p);
    case None =>
      assert NodeOk(c, s.now, s.nodes[n]);
      if route in s.nodes[n].snapshot {
        var p := s.nodes[n].snapshot[route];
        SnapshotTrue(c, s.now, s.nodes[n], route);
        SetKeeps(c, s, n, PolicyKey(route), PolicyItem(p));
        AwaitKeeps(c, CacheSet(c.run, s, n, PolicyKey(route), PolicyItem(p)), n, id, Requesting(PolicyStored(req, p)));
      } else {
        RejectKeeps(c, s, n, id, req, 404);
      }
  }

  lemma BeginKeeps(c: Bounded, s: State, n: NodeId, id: TaskId, req: Request)
    requires Inv(c, s) && n in s.nodes
    ensures Inv(c, BeginRequest(c.run, s, n, id, req))
  {
    hide Inv, PolicyOk, Await, GotPolicy, IsHealthPath;
    if IsHealthPath(req.path) {
      LogKeeps(c, s, Bypassed(s.now, req));
    } else {
      HitIsRecent(c, s, n, PolicyKey(RouteOf(req)));
      match AsPolicy(L1Get(s.nodes[n].l1, PolicyKey(RouteOf(req)), s.now))
      case Some(p) => GotPolicyKeeps(c, s, n, id, req, p);
      case None => AwaitKeeps(c, s, n, id, Requesting(PolicyFromL2(req, Pending)));
    }
  }

  // ---------- the refreshes keep the invariant ----------

  lemma WarmNextKeeps(c: Bounded, s: State, n: NodeId, id: TaskId, clients: Stamped<seq<Client>>, i: nat)
    requires Inv(c, s) && n in s.nodes
    requires ClientsOk(c, s.now, clients)
    requires s.now <= clients.loadedAt + LoopDelay(c, i) + c.run.delay
    ensures Inv(c, WarmNext(c.run, s, n, id, clients, i))
  {
    if i < |clients.value| {
      AwaitKeeps(c, s, n, id, Warming(WarmPerms(clients, i, Pending)));
    } else {
      EndKeeps(c, s, n, id);
    }
  }

  /** What a service contributes depends on its own load only. */
  lemma ServiceStable(r: Refresh, r': Refresh, i: nat)
    requires i < |r.loads| <= |r.services| && i < |r'.loads|
    requires r' == r.(loads := r'.loads) && r.loads[i] == r'.loads[i]
    ensures ServiceRegistrations(r, i) == ServiceRegistrations(r', i)
  {
    hide RegistrationsOfService, FindProduct;
    if r.loads[i].Loaded? && FindProduct(r.products, r.services[i].productId).Some? {
      var product := FindProduct(r.products, r.services[i].productId).value;
      var regs := RegistrationsOfService(product, r.services[i], r.loads[i].endpoints);
      assert StampAll(regs, r, r.loads[i].at) == StampAll(regs, r', r.loads[i].at);
    }
  }

  lemma {:induction false} RegistrationsStable(r: Refresh, r': Refresh, n: nat)
    requires n <= |r.loads| <= |r.services| && |r'.loads| <= |r'.services|
    requires r' == r.(loads := r'.loads) && |r.loads| <= |r'.loads|
    requires forall i :: 0 <= i < |r.loads| ==> r.loads[i] == r'.loads[i]
    ensures RefreshRegistrations(r, n) == RefreshRegistrations(r', n)
  {
    hide ServiceRegistrations;
    if n > 0 {
      assert r.loads[n - 1] == r'.loads[n - 1];
      ServiceStable(r, r', n - 1);
      RegistrationsStable(r, r', n - 1);
    }
  }

  /** Passing over services adds loads that contribute nothing. */
  lemma {:induction false} SkipsAddNothing(r: Refresh, r': Refresh, n: nat)
    requires |r.loads| <= n <= |r'.loads| <= |r'.services|
    requires r' == r.(loads := r'.loads) && r'.loads[..|r.loads|] == r.loads
    requires forall i :: |r.loads| <= i < |r'.loads| ==> r'.loads[i].Skipped?
    ensures RefreshRegistrations(r', n) == RefreshRegistrations(r, |r.loads|)
    decreases n
  {
    hide FindProduct, StampAll, RegistrationsOfService;
    if n == |r.loads| {
      assert forall i :: 0 <= i < |r.loads| ==> r.loads[i] == r'.loads[..|r.loads|][i];
      RegistrationsStable(r, r', n);
    } else {
      SkipsAddNothing(r, r', n - 1);
      assert ServiceRegistrations(r', n - 1) == [] by { assert r'.loads[n - 1].Skipped?; }
    }
  }

  lemma WritePolicyKeeps(c: Bounded, s: State, n: NodeId, id: TaskId, r: Refresh,
                         done: seq<PolicyRegistration>, todo: seq<PolicyRegistration>)
    requires Inv(c, s) && n in s.nodes
    requires Building(c, s.now, r, done + todo) && todo != []
    requires s.now <= r.servicesAt + c.snapshotAge
    requires s.now <= r.servicesAt + Waits(c, Work(r, done)) + c.run.delay + c.run.delay
    ensures Inv(c, RefreshOn(c.run, s, n, id, r, done, todo))
  {
    hide Inv, PolicyOk, RefreshOk, Await, RefreshRegistrations, CacheSet, PassOver;
    var x := todo[0];
    assert Work(r, done + [x]) == Work(r, done) + 1;
    RegistrationsTrue(c, s.now, r, |r.loads|);
    assert (done + todo)[|done|] == x;
    SetKeeps(c, s, n, PolicyKey(x.key), PolicyItem(x.policy));
    assert (done + [x]) + todo[1..] == done + todo;
    AwaitKeeps(c, CacheSet(c.run, s, n, PolicyKey(x.key), PolicyItem(x.policy)), n, id,
               Refreshing(PolicyWritten(r, done + [x], todo[1..])));
  }

  lemma PassOverOk(c: Bounded, now: Time, r: Refresh)
    requires RefreshOk(c, now, r)
    ensures RefreshOk(c, now, PassOver(r))
    ensures RefreshRegistrations(PassOver(r), |PassOver(r).loads|) == RefreshRegistrations(r, |r.loads|)
  {
    var r' := PassOver(r);
    SkipsAddNothing(r, r', |r'.loads|);
    hide PassOver, FindProduct;
    forall i | 0 <= i < |r'.loads| ensures LoadOk(c, now, r', i) {
      if i < |r.loads| {
        assert r'.loads[i] == r'.loads[..|r.loads|][i];
        assert LoadOk(c, now, r, i);
      }
    }
  }

  lemma SwapKeeps(c: Bounded, s: State, n: NodeId, id: TaskId, r: Refresh, done: seq<PolicyRegistration>)
    requires Inv(c, s) && n in s.nodes
    requires Building(c, s.now, r, done) && |r.loads| == |r.services|
    ensures Inv(c, End(s.(nodes := s.nodes[n := s.nodes[n].(snapshot := SnapshotOf(done), origin := Some(r))]), n, id))
  {
    hide TaskOk, L1Ok, RefreshOk, RefreshRegistrations;
    var node := s.nodes[n];
    assert NodeOk(c, s.now, node);
    var swapped := node.(snapshot := SnapshotOf(done), origin := Some(r));
    assert NodeOk(c, s.now, swapped);
    NodeReplaced(c, s, n, swapped);
    EndKeeps(c, s.(nodes := s.nodes[n := swapped]), n, id);
  }

  lemma RefreshOnKeeps(c: Bounded, s: State, n: NodeId, id: TaskId, r: Refresh,
                       done: seq<PolicyRegistration>, todo: seq<PolicyRegistration>)
    requires Inv(c, s) && n in s.nodes
    requires Building(c, s.now, r, done + todo)
    requires todo != [] ==> s.now <= r.servicesAt + c.snapshotAge
    requires s.now <= r.servicesAt + Waits(c, Work(r, done)) + c.run.delay + c.run.delay
    ensures Inv(c, RefreshOn(c.run, s, n, id, r, done, todo))
  {
    hide Inv, LoadOk, PassOver, Await, RefreshRegistrations;
    if todo != [] {
      WritePolicyKeeps(c, s, n, id, r, done, todo);
    } else {
      assert done + todo == done;
      var r' := PassOver(r);
      PassOverOk(c, s.now, r);
      WaitsMonotone(c, Work(r, done), Work(r', done));
      if |r'.loads| < |r'.services| {
        AwaitKeeps(c, s, n, id, Refreshing(EndpointList(r', done, Pending)));
      } else {
        SwapKeeps(c, s, n, id, r', done);
      }
    }
  }

  lemma LoadAdded(c: Bounded, now: Time, r: Refresh, rows: Stamped<seq<Endpoint>>)
    requires RefreshOk(c, now, r) && |r.loads| < |r.services|
    requires FindProduct(r.products, r.services[|r.loads|].productId).Some?
    requires rows.value == EnabledEndpointsOf(c.run.db(rows.loadedAt), r.services[|r.loads|].id)
    requires r.productsAt <= rows.loadedAt <= now
    ensures RefreshOk(c, now, AddLoad(r, rows))
  {
    hide FindProduct, EnabledEndpointsOf, EnabledServices, EnabledProducts;
    var r' := AddLoad(r, rows);
    forall i | 0 <= i < |r'.loads| ensures LoadOk(c, now, r', i) {
      if i < |r.loads| {
        assert LoadOk(c, now, r, i);
      }
    }
  }

  lemma StillBuilding(c: Bounded, now: Time, r: Refresh, done: seq<PolicyRegistration>, rows: Stamped<seq<Endpoint>>)
    requires Building(c, now, r, done) && |r.loads| < |r.services|
    requires FindProduct(r.products, r.services[|r.loads|].productId).Some?
    requires rows.value == EnabledEndpointsOf(c.run.db(rows.loadedAt), r.services[|r.loads|].id)
    requires r.productsAt <= rows.loadedAt <= now
    ensures var r' := AddLoad(r, rows); Building(c, now, r', done + ServiceRegistrations(r', |r.loads|))
  {
    var r' := AddLoad(r, rows);
    LoadAdded(c, now, r, rows);
    hide LoadOk, FindProduct, EnabledEndpointsOf, ServiceRegistrations;
    RegistrationsStable(r, r', |r.loads|);
  }

  lemma EndpointsLoadedKeeps(c: Bounded, s: State, n: NodeId, id: TaskId, r: Refresh,
                             done: seq<PolicyRegistration>, rows: Stamped<seq<Endpoint>>)
    requires Inv(c, s) && n in s.nodes
    requires Building(c, s.now, r, done) && |r.loads| < |r.services|
    requires FindProduct(r.products, r.services[|r.loads|].productId).Some?
    requires rows.value == EnabledEndpointsOf(c.run.db(rows.loadedAt), r.services[|r.loads|].id)
    requires r.productsAt <= rows.loadedAt <= s.now
    requires ServiceRegistrations(AddLoad(r, rows), |r.loads|) != [] ==> s.now <= r.servicesAt + c.snapshotAge
    requires s.now <= r.servicesAt + Waits(c, Work(r, done)) + c.run.delay + c.run.delay + c.run.delay
    ensures var r' := AddLoad(r, rows);
      Inv(c, RefreshOn(c.run, s, n, id, r', done, ServiceRegistrations(r', |r.loads|)))
  {
    var r' := AddLoad(r, rows);
    StillBuilding(c, s.now, r, done, rows);
    StillTimely(c, r, done, rows);
    hide *;
    RefreshOnKeeps(c, s, n, id, r', done, ServiceRegistrations(r', |r.loads|));
  }

  lemma StillTimely(c: Bounded, r: Refresh, done: seq<PolicyRegistration>, rows: Stamped<seq<Endpoint>>)
    ensures var r' := AddLoad(r, rows);
      r'.servicesAt == r.servicesAt && Waits(c, Work(r', done)) == Waits(c, Work(r, done)) + c.run.delay
  {
    assert Work(AddLoad(r, rows), done) == Work(r, done) + 1;
  }

  // ---------- the three ways a task moves ----------

  lemma TaskIn(c: Bounded, s: State, n: NodeId, id: TaskId)
    requires Inv(c, s) && Waiting(s, n, id)
    ensures TaskOk(c, s.now, s.nodes[n].tasks[id])
    ensures NodeOk(c, s.now, s.nodes[n])
  {
    hide TaskOk, L1Ok, SnapshotOk, WriteOk, L2Ok, OutcomeOk;
    assert NodeOk(c, s.now, s.nodes[n]);
  }

  /** An answer of the shared store can be used for one more wait beyond the store's own lifetime for it. */
  lemma ServedFromL2(c: Bounded, s: State, k: Key)
    requires L2Ok(c, s.now, s.l2)
    ensures var o := L2Get(s.l2, k, s.now);
      o.Some? ==>
        && ItemOk(c, s.now, k, o.value)
        && s.now <= o.value.loadedAt + SetAge(c, k) + c.run.delay + L2_TTL
  {
  }

  lemma ServedClient(c: Bounded, s: State, clientId: string)
    ensures var o := DbClient(c.run, s, clientId); o.Some? ==> ClientOk(c, s.now, clientId, o.value)
  {
    var db := c.run.db(s.now);
    var answer := ClientByClientId(db, clientId);
    if answer.Some? {
      assert answer.value in EnabledClients(db);
    }
  }

  lemma ServeKeeps(c: Bounded, s: State, t: Task)
    requires L2Ok(c, s.now, s.l2) && TaskOk(c, s.now, t)
    requires Serve(c.run, s, t.wait).Some?
    ensures TaskOk(c, s.now, t.(wait := Serve(c.run, s, t.wait).value))
  {
    match t.wait
    case Requesting(r) => ServeRequestKeeps(c, s, t.deadline, r);
    case Warming(r) => ServeWarmKeeps(c, s, t.deadline, r);
    case Refreshing(r) => ServeRefreshKeeps(c, s, t.deadline, r);
  }

  lemma ServeRequestKeeps(c: Bounded, s: State, deadline: Time, w: RequestWait)
    requires L2Ok(c, s.now, s.l2) && RequestOk(c, s.now, deadline, w) && deadline <= s.now + c.run.delay
    requires ServeRequest(c.run, s, w).Some?
    ensures RequestOk(c, s.now, deadline, ServeRequest(c.run, s, w).value)
  {
    if w.PermsFromL2? || w.PermsFromDb? {
      ServePermsKeeps(c, s, deadline, w);
    } else {
      ServePolicyOrClientKeeps(c, s, deadline, w);
    }
  }

  lemma ServePolicyOrClientKeeps(c: Bounded, s: State, deadline: Time, w: RequestWait)
    requires L2Ok(c, s.now, s.l2) && RequestOk(c, s.now, deadline, w) && deadline <= s.now + c.run.delay
    requires ServeRequest(c.run, s, w).Some? && !w.PermsFromL2? && !w.PermsFromDb?
    ensures RequestOk(c, s.now, deadline, ServeRequest(c.run, s, w).value)
  {
    match w
    case PolicyFromL2(req, _) => ServedFromL2(c, s, PolicyKey(RouteOf(req)));
    case ClientFromL2(req, _, _) => ServedFromL2(c, s, ClientKey(ClientIdOf(req)));
    case ClientFromDb(req, _, _) => ServedClient(c, s, ClientIdOf(req));
    case _ =>
    hide L2Ok, PolicyOk, ClientOk, HeldPolicy, HeldClient, DbClient, L2Get, LoopDelay, Passed, RouteOf, ClientIdOf;
  }

  lemma ServePermsKeeps(c: Bounded, s: State, deadline: Time, w: RequestWait)
    requires L2Ok(c, s.now, s.l2) && RequestOk(c, s.now, deadline, w) && deadline <= s.now + c.run.delay
    requires ServeRequest(c.run, s, w).Some? && (w.PermsFromL2? || w.PermsFromDb?)
    ensures RequestOk(c, s.now, deadline, ServeRequest(c.run, s, w).value)
  {
    match w
    case PermsFromL2(req, p, client, Pending) => StoredPermsServed(c, s, deadline, req, p, client);
    case PermsFromDb(req, p, client, Pending) => ReadPermsServed(c, s, deadline, req, p, client);
    hide RequestOk;
  }

  lemma StoredPermsServed(c: Bounded, s: State, deadline: Time, req: Request, p: Stamped<PolicyRead>,
                          client: Stamped<Client>)
    requires L2Ok(c, s.now, s.l2) && deadline <= s.now + c.run.delay
    requires RequestOk(c, s.now, deadline, PermsFromL2(req, p, client, Pending))
    ensures var stored := AsPerms(L2Get(s.l2, PermissionKey(client.value.id), s.now));
      RequestOk(c, s.now, deadline, PermsFromL2(req, p, client, Got(stored)))
  {
    ServedFromL2(c, s, PermissionKey(client.value.id));
    hide L2Ok, PermsOk, HeldPolicy, HeldClient, L2Get, Passed;
  }

  lemma ReadPermsServed(c: Bounded, s: State, deadline: Time, req: Request, p: Stamped<PolicyRead>,
                        client: Stamped<Client>)
    requires deadline <= s.now + c.run.delay && RequestOk(c, s.now, deadline, PermsFromDb(req, p, client, Pending))
    ensures RequestOk(c, s.now, deadline, PermsFromDb(req, p, client, Got(DbPerms(c.run, s, client.value.id))))
  {
    hide HeldPolicy, HeldClient, Passed;
  }

  lemma ServeWarmKeeps(c: Bounded, s: State, deadline: Time, w: WarmWait)
    requires WarmOk(c, s.now, deadline, w) && deadline <= s.now + c.run.delay
    requires ServeWarm(c.run, s, w).Some?
    ensures WarmOk(c, s.now, deadline, ServeWarm(c.run, s, w).value)
  {
  }

  lemma ServeRefreshKeeps(c: Bounded, s: State, deadline: Time, w: RefreshWait)
    requires ReloadOk(c, s.now, w) && Timely(c, deadline, w) && deadline <= s.now + c.run.delay
    requires ServeRefresh(c.run, s, w).Some?
    ensures ReloadOk(c, s.now, ServeRefresh(c.run, s, w).value)
    ensures Timely(c, deadline, ServeRefresh(c.run, s, w).value)
  {
    hide LoadOk, RefreshRegistrations;
  }

  lemma ResumeKeeps(c: Bounded, s: State, n: NodeId, id: TaskId, w: Wait)
    requires Inv(c, s) && Assumed(c, s) && Waiting(s, n, id) && s.nodes[n].tasks[id].wait == w
    requires Resume(c.run, s, n, id, w).Some?
    ensures Inv(c, Resume(c.run, s, n, id, w).value)
  {
    TaskIn(c, s, n, id);
    hide Inv, NodeOk, ResumeRequest, ResumeWarm, ResumeRefresh, RequestOk, WarmOk, ReloadOk, Timely;
    var deadline := s.nodes[n].tasks[id].deadline;
    match w
    case Requesting(r) => ResumeRequestKeeps(c, s, n, id, deadline, r);
    case Warming(r) => ResumeWarmKeeps(c, s, n, id, deadline, r);
    case Refreshing(r) => assert FreshTask(c, s.now, s.nodes[n].tasks[id]); ResumeRefreshKeeps(c, s, n, id, deadline, r);
  }

  lemma ResumeRequestKeeps(c: Bounded, s: State, n: NodeId, id: TaskId, deadline: Time, w: RequestWait)
    requires Inv(c, s) && Assumed(c, s) && n in s.nodes
    requires RequestOk(c, s.now, deadline, w) && s.now <= deadline
    requires ResumeRequest(c.run, s, n, id, w).Some?
    ensures Inv(c, ResumeRequest(c.run, s, n, id, w).value)
  {
    hide Inv, RequestOk, ResumeRequest, Assumed;
    match w
    case PolicyFromL2(_, _) => ResumePolicyKeeps(c, s, n, id, deadline, w);
    case PolicyStored(_, _) => ResumePolicyKeeps(c, s, n, id, deadline, w);
    case ClientFromL2(_, _, _) => ResumeClientKeeps(c, s, n, id, deadline, w);
    case ClientFromDb(_, _, _) => ResumeClientKeeps(c, s, n, id, deadline, w);
    case ClientStored(_, _, _) => ResumeClientKeeps(c, s, n, id, deadline, w);
    case _ => ResumePermsKeeps(c, s, n, id, deadline, w);
  }

  lemma ResumePolicyKeeps(c: Bounded, s: State, n: NodeId, id: TaskId, deadline: Time, w: RequestWait)
    requires Inv(c, s) && Assumed(c, s) && n in s.nodes
    requires RequestOk(c, s.now, deadline, w) && s.now <= deadline
    requires ResumeRequest(c.run, s, n, id, w).Some?
    requires w.PolicyFromL2? || w.PolicyStored?
    ensures Inv(c, ResumeRequest(c.run, s, n, id, w).value)
  {
    hide Inv, PolicyOk, Fresh, GotPolicy, GotClient, GotPerms, Reject, AfterPolicyL2, Await, CacheSet, FillL1;
    match w
    case PolicyFromL2(req, Got(answer)) => AfterPolicyL2Keeps(c, s, n, id, req, answer);
    case PolicyStored(req, p) => GotPolicyKeeps(c, s, n, id, req, p);
  }

  lemma ResumeClientKeeps(c: Bounded, s: State, n: NodeId, id: TaskId, deadline: Time, w: RequestWait)
    requires Inv(c, s) && Assumed(c, s) && n in s.nodes
    requires RequestOk(c, s.now, deadline, w) && s.now <= deadline
    requires ResumeRequest(c.run, s, n, id, w).Some?
    requires w.ClientFromL2? || w.ClientFromDb? || w.ClientStored?
    ensures Inv(c, ResumeRequest(c.run, s, n, id, w).value)
  {
    hide Inv, PolicyOk, Fresh, GotPolicy, GotClient, GotPerms, Reject, AfterPolicyL2, Await, CacheSet, FillL1;
    match w
    case ClientFromL2(req, p, Got(Some(client))) =>
      FillKeeps(c, s, n, ClientKey(ClientIdOf(req)), ClientItem(client));
      GotClientKeeps(c, FillL1(s, n, ClientKey(ClientIdOf(req)), ClientItem(client)), n, id, req, p, client);
    case ClientFromL2(req, p, Got(None)) => AwaitKeeps(c, s, n, id, Requesting(ClientFromDb(req, p, Pending)));
    case ClientFromDb(req, p, Got(Some(client))) =>
      LoopDelayMonotone(c, 1, c.maxClients);
      SetKeeps(c, s, n, ClientKey(ClientIdOf(req)), ClientItem(client));
      AwaitKeeps(c, CacheSet(c.run, s, n, ClientKey(ClientIdOf(req)), ClientItem(client)), n, id,
                 Requesting(ClientStored(req, p, client)));
    case ClientFromDb(req, _, Got(None)) => RejectKeeps(c, s, n, id, req, 403);
    case ClientStored(req, p, client) => GotClientKeeps(c, s, n, id, req, p, client);
  }

  lemma PermsFoundKeeps(c: Bounded, s: State, n: NodeId, id: TaskId, req: Request, p: Stamped<PolicyRead>,
                        client: Stamped<Client>, perms: Stamped<set<Guid>>)
    requires Inv(c, s) && n in s.nodes
    requires RequestOk(c, s.now, s.now, PermsFromL2(req, p, client, Got(Some(perms))))
    ensures Inv(c, ResumeRequest(c.run, s, n, id, PermsFromL2(req, p, client, Got(Some(perms)))).value)
  {
    hide Inv, PolicyOk, ClientOk, GotPerms, FillL1;
    FillKeeps(c, s, n, PermissionKey(client.value.id), PermsItem(perms));
    GotPermsKeeps(c, FillL1(s, n, PermissionKey(client.value.id), PermsItem(perms)), n, id, req, p, client, perms);
  }

  lemma PermsReadKeeps(c: Bounded, s: State, n: NodeId, id: TaskId, req: Request, p: Stamped<PolicyRead>,
                       client: Stamped<Client>, perms: Stamped<set<Guid>>)
    requires Inv(c, s) && n in s.nodes
    requires RequestOk(c, s.now, s.now, PermsFromDb(req, p, client, Got(perms)))
    ensures Inv(c, ResumeRequest(c.run, s, n, id, PermsFromDb(req, p, client, Got(perms))).value)
  {
    hide Inv, PolicyOk, ClientOk, Await, CacheSet;
    SetKeeps(c, s, n, PermissionKey(client.value.id), PermsItem(perms));
    AwaitKeeps(c, CacheSet(c.run, s, n, PermissionKey(client.value.id), PermsItem(perms)), n, id,
               Requesting(PermsStored(req, p, client, perms)));
  }

  lemma ResumePermsKeeps(c: Bounded, s: State, n: NodeId, id: TaskId, deadline: Time, w: RequestWait)
    requires Inv(c, s) && Assumed(c, s) && n in s.nodes
    requires RequestOk(c, s.now, deadline, w) && s.now <= deadline
    requires ResumeRequest(c.run, s, n, id, w).Some?
    requires w.PermsFromL2? || w.PermsFromDb? || w.PermsStored?
    ensures Inv(c, ResumeRequest(c.run, s, n, id, w).value)
  {
    hide Inv, Fresh, PolicyOk, ClientOk, GotPolicy, GotClient, GotPerms, Reject, AfterPolicyL2, Await, CacheSet, FillL1;
    match w
    case PermsFromL2(req, p, client, Got(Some(perms))) =>
      PermsFoundKeeps(c, s, n, id, req, p, client, perms);
    case PermsFromL2(req, p, client, Got(None)) =>
      AwaitKeeps(c, s, n, id, Requesting(PermsFromDb(req, p, client, Pending)));
    case PermsFromDb(req, p, client, Got(perms)) =>
      PermsReadKeeps(c, s, n, id, req, p, client, perms);
    case PermsStored(req, p, client, perms) => GotPermsKeeps(c, s, n, id, req, p, client, perms);
  }

  lemma WarmPermsKeeps(c: Bounded, s: State, n: NodeId, id: TaskId, clients: Stamped<seq<Client>>, i: nat,
                       perms: Stamped<set<Guid>>)
    requires Inv(c, s) && n in s.nodes && i < |clients.value|
    requires ClientsOk(c, s.now, clients) && s.now <= clients.loadedAt + LoopDelay(c, i) + c.run.delay + c.run.delay
    requires PermsOk(c, s.now, clients.value[i].id, perms) && s.now <= perms.loadedAt + c.run.delay
    ensures Inv(c, ResumeWarm(c.run, s, n, id, WarmPerms(clients, i, Got(perms))).value)
  {
    hide Inv, Await, CacheSet, ClientsOk;
    var k := PermissionKey(clients.value[i].id);
    SetKeeps(c, s, n, k, PermsItem(perms));
    AwaitKeeps(c, CacheSet(c.run, s, n, k, PermsItem(perms)), n, id, Warming(WarmPermsStored(clients, i)));
  }

  lemma ListedClientOk(c: Bounded, now: Time, clients: Stamped<seq<Client>>, i: nat)
    requires ClientsOk(c, now, clients) && i < |clients.value|
    ensures var client := clients.value[i];
      ItemOk(c, now, ClientKey(client.clientId), ClientItem(Stamped(client, clients.loadedAt)))
  {
    hide EnabledClients;
  }

  lemma TurnInTime(c: Bounded, i: nat)
    requires i < c.maxClients
    ensures var d := c.run.delay;
      LoopDelay(c, i) + d + d + d == LoopDelay(c, i + 1) <= SetAge(c, ANY_CLIENT)
  {
    LoopDelayMonotone(c, i + 1, c.maxClients);
  }

  lemma WarmClientKeeps(c: Bounded, s: State, n: NodeId, id: TaskId, clients: Stamped<seq<Client>>, i: nat)
    requires Inv(c, s) && n in s.nodes && i < |clients.value| <= c.maxClients
    requires ClientsOk(c, s.now, clients)
    requires s.now <= clients.loadedAt + LoopDelay(c, i) + c.run.delay + c.run.delay + c.run.delay
    ensures Inv(c, ResumeWarm(c.run, s, n, id, WarmPermsStored(clients, i)).value)
  {
    hide Inv, Await, CacheSet, ClientsOk, ItemOk;
    var client := clients.value[i];
    var k := ClientKey(client.clientId);
    var item := ClientItem(Stamped(client, clients.loadedAt));
    TurnInTime(c, i);
    ListedClientOk(c, s.now, clients, i);
    SetKeeps(c, s, n, k, item);
    hide LoopDelay;
    AwaitKeeps(c, CacheSet(c.run, s, n, k, item), n, id, Warming(WarmClientStored(clients, i)));
  }

  lemma ResumeWarmKeeps(c: Bounded, s: State, n: NodeId, id: TaskId, deadline: Time, w: WarmWait)
    requires Inv(c, s) && FewClients(c, s.now) && n in s.nodes
    requires WarmOk(c, s.now, deadline, w) && s.now <= deadline
    requires ResumeWarm(c.run, s, n, id, w).Some?
    ensures Inv(c, ResumeWarm(c.run, s, n, id, w).value)
  {
    hide Inv, Await, CacheSet, WarmNext, PermsOk;
    match w
    case ClientList(Got(clients)) => WarmNextKeeps(c, s, n, id, clients, 0);
    case WarmPerms(clients, i, Got(perms)) => WarmPermsKeeps(c, s, n, id, clients, i, perms);
    case WarmPermsStored(clients, i) => WarmClientKeeps(c, s, n, id, clients, i);
    case WarmClientStored(clients, i) => WarmNextKeeps(c, s, n, id, clients, i + 1);
  }

  lemma ResumeRefreshKeeps(c: Bounded, s: State, n: NodeId, id: TaskId, deadline: Time, w: RefreshWait)
    requires Inv(c, s) && n in s.nodes
    requires ReloadOk(c, s.now, w) && Timely(c, deadline, w) && s.now <= deadline
    requires FreshTask(c, s.now, Task(deadline, Refreshing(w)))
    requires ResumeRefresh(c.run, s, n, id, w).Some?
    ensures Inv(c, ResumeRefresh(c.run, s, n, id, w).value)
  {
    hide Inv, LoadOk, RefreshOn, Await, ServiceRegistrations;
    match w
    case ServiceList(Got(rows)) => AwaitKeeps(c, s, n, id, Refreshing(ProductList(rows, Pending)));
    case ProductList(rows, Got(products)) =>
      if DistinctIds(products.value) {
        var r := Refresh(rows.value, rows.loadedAt, products.value, products.loadedAt, []);
        RefreshOnKeeps(c, s, n, id, r, [], []);
      } else {
        EndKeeps(c, s, n, id);
      }
    case EndpointList(r, done, Got(rows)) => EndpointsLoadedKeeps(c, s, n, id, r, done, rows);
    case PolicyWritten(r, done, todo) => RefreshOnKeeps(c, s, n, id, r, done, todo);
  }

  lemma FailKeeps(c: Bounded, s: State, n: NodeId, id: TaskId, w: Wait)
    requires Inv(c, s) && Assumed(c, s) && Waiting(s, n, id) && s.nodes[n].tasks[id].wait == w
    requires Fail(c.run, s, n, id, w).Some?
    ensures Inv(c, Fail(c.run, s, n, id, w).value)
  {
    TaskIn(c, s, n, id);
    hide Inv, NodeOk, FailRequest, FailWarm, Fresh, RequestOk, WarmOk, ReloadOk, Timely;
    var deadline := s.nodes[n].tasks[id].deadline;
    match w
    case Requesting(r) => FailRequestKeeps(c, s, n, id, deadline, r);
    case Warming(r) => FailWarmKeeps(c, s, n, id, deadline, r);
    case Refreshing(_) => EndKeeps(c, s, n, id);
  }

  lemma FailWarmKeeps(c: Bounded, s: State, n: NodeId, id: TaskId, deadline: Time, w: WarmWait)
    requires Inv(c, s) && n in s.nodes
    requires WarmOk(c, s.now, deadline, w) && s.now <= deadline
    requires FailWarm(c.run, s, n, id, w).Some?
    ensures Inv(c, FailWarm(c.run, s, n, id, w).value)
  {
    hide Inv, End, WarmNext;
    match w
    case WarmPerms(clients, i, _) => WarmNextKeeps(c, s, n, id, clients, i + 1);
    case ClientList(_) => EndKeeps(c, s, n, id);
  }

  lemma FailRequestKeeps(c: Bounded, s: State, n: NodeId, id: TaskId, deadline: Time, w: RequestWait)
    requires Inv(c, s) && Assumed(c, s) && n in s.nodes
    requires RequestOk(c, s.now, deadline, w) && s.now <= deadline
    requires FailRequest(c.run, s, n, id, w).Some?
    ensures Inv(c, FailRequest(c.run, s, n, id, w).value)
  {
    hide Inv, PolicyOk, ClientOk, PermsOk, Passed, Fresh, FewClients, GotPolicy, GotClient, GotPerms, Reject, AfterPolicyL2,
         Await, LoopDelay;
    match w
    case PolicyFromL2(req, _) => AfterPolicyL2Keeps(c, s, n, id, req, None);
    case ClientFromL2(req, p, _) => AwaitKeeps(c, s, n, id, Requesting(ClientFromDb(req, p, Pending)));
    case PermsFromL2(req, p, client, _) => AwaitKeeps(c, s, n, id, Requesting(PermsFromDb(req, p, client, Pending)));
    case ClientFromDb(req, _, _) => RejectKeeps(c, s, n, id, req, 500);
    case PermsFromDb(req, _, _, _) => RejectKeeps(c, s, n, id, req, 500);
  }

  // ---------- time passes ----------

  lemma TaskAges(c: Bounded, now: Time, now': Time, t: Task)
    requires TaskOk(c, now, t) && now <= now' <= t.deadline
    ensures TaskOk(c, now', t)
  {
    match t.wait
    case Refreshing(EndpointList(r, done, _)) => RefreshAges(c, now, now', r);
    case Refreshing(PolicyWritten(r, done, todo)) => RefreshAges(c, now, now', r);
    case _ =>
  }

  lemma RefreshAges(c: Bounded, now: Time, now': Time, r: Refresh)
    requires RefreshOk(c, now, r) && now <= now'
    ensures RefreshOk(c, now', r)
  {
    forall i | 0 <= i < |r.loads| ensures LoadOk(c, now', r, i) {
      assert LoadOk(c, now, r, i);
    }
  }

  lemma TickKeeps(c: Bounded, s: State, t: Time)
    requires Inv(c, s) && s.now <= t && Due(s, t)
    ensures Inv(c, s.(now := t))
  {
    forall n | n in s.nodes ensures NodeOk(c, t, s.nodes[n]) {
      NodeAges(c, s.now, t, s.nodes[n]);
    }
    hide NodeOk, PolicyOk, ClientOk, PermsOk;
  }

  lemma L1Ages(c: Bounded, now: Time, now': Time, l1: Tier)
    requires L1Ok(c, now, l1) && now <= now'
    ensures L1Ok(c, now', l1)
  {
    hide KeyAgrees, CachedAge;
  }

  lemma NodeAges(c: Bounded, now: Time, now': Time, node: Node)
    requires NodeOk(c, now, node) && now <= now'
    requires forall id :: id in node.tasks ==> now' <= node.tasks[id].deadline
    ensures NodeOk(c, now', node)
  {
    hide TaskOk, RefreshOk, RefreshRegistrations, L1Ok;
    L1Ages(c, now, now', node.l1);
    forall id | id in node.tasks ensures TaskOk(c, now', node.tasks[id]) {
      TaskAges(c, now, now', node.tasks[id]);
    }
    if node.origin.Some? {
      RefreshAges(c, now, now', node.origin.value);
    }
  }

  // ---------- every step, every run ----------

  lemma AnsweredKeeps(c: Bounded, s: State, n: NodeId, id: TaskId, w: Wait)
    requires Inv(c, s) && Waiting(s, n, id)
    requires Serve(c.run, s, s.nodes[n].tasks[id].wait) == Some(w)
    ensures var node := s.nodes[n];
      Inv(c, s.(nodes := s.nodes[n := node.(tasks := node.tasks[id := node.tasks[id].(wait := w)])]))
  {
    var node := s.nodes[n];
    var t := node.tasks[id].(wait := w);
    TaskIn(c, s, n, id);
    ServeKeeps(c, s, node.tasks[id]);
    hide TaskOk, L1Ok, SnapshotOk;
    assert NodeOk(c, s.now, node.(tasks := node.tasks[id := t]));
    NodeReplaced(c, s, n, node.(tasks := node.tasks[id := t]));
  }

  lemma WriteEventKeeps(c: Bounded, s: State, i: nat)
    requires Inv(c, s) && i < |s.writes|
    ensures Inv(c, s.(writes := WithoutWrite(s, i)))
    ensures L2Ok(c, s.now, Put(s.l2, s.writes[i].key, s.writes[i].item, s.now, L2_TTL))
  {
    hide NodeOk, OutcomeOk, ItemOk;
    assert WriteOk(c, s.now, s.writes[i]);
  }

  lemma EvictKeeps(c: Bounded, s: State, n: NodeId, k: Key)
    requires Inv(c, s) && n in s.nodes
    ensures Inv(c, s.(nodes := s.nodes[n := s.nodes[n].(l1 := s.nodes[n].l1 - {k})]))
  {
    hide TaskOk, SnapshotOk, ItemOk, L2Ok, OutcomeOk;
    assert NodeOk(c, s.now, s.nodes[n]);
    NodeReplaced(c, s, n, s.nodes[n].(l1 := s.nodes[n].l1 - {k}));
  }

  lemma EvictL2Keeps(c: Bounded, s: State, k: Key)
    requires Inv(c, s)
    ensures Inv(c, s.(l2 := s.l2 - {k}))
  {
    hide NodeOk, OutcomeOk, ItemOk;
  }

  lemma StartKeeps(c: Bounded, s: State, n: NodeId, id: TaskId, w: Wait)
    requires Inv(c, s) && n in s.nodes && (w == Warming(ClientList(Pending)) || w == Refreshing(ServiceList(Pending)))
    ensures Inv(c, Await(c.run, s, n, id, w))
  {
    AwaitKeeps(c, s, n, id, w);
  }

  lemma EmptyNodeOk(c: Bounded, now: Time)
    ensures NodeOk(c, now, EMPTY_NODE)
  {
  }

  lemma RestartKeeps(c: Bounded, s: State, n: NodeId)
    requires Inv(c, s) && n in s.nodes
    ensures Inv(c, s.(nodes := s.nodes[n := EMPTY_NODE]))
  {
    EmptyNodeOk(c, s.now);
    hide *;
    NodeReplaced(c, s, n, EMPTY_NODE);
  }

  lemma StepKeeps(c: Bounded, s: State, e: Event, s': State)
    requires Inv(c, s) && Assumed(c, s) && Next(c.run, s, e, s')
    ensures Inv(c, s')
  {
    hide WaitOk, NodeOk, OutcomeOk, BeginRequest, Serve, Resume, Fail, Await, Fresh, FewClients, WithoutWrite, L2Ok, WriteOk, Due;
    match e
    case Tick(t) => TickKeeps(c, s, t);
    case StartRequest(n, id, req) => BeginKeeps(c, s, n, id, req);
    case StartPermissionRefresh(n, id) => StartKeeps(c, s, n, id, Warming(ClientList(Pending)));
    case StartPolicyRefresh(n, id) => StartKeeps(c, s, n, id, Refreshing(ServiceList(Pending)));
    case Answered(n, id) => AnsweredKeeps(c, s, n, id, Serve(c.run, s, s.nodes[n].tasks[id].wait).value);
    case Returned(n, id) => ResumeKeeps(c, s, n, id, s.nodes[n].tasks[id].wait);
    case Threw(n, id) => FailKeeps(c, s, n, id, s.nodes[n].tasks[id].wait);
    case Applied(i) => WriteEventKeeps(c, s, i);
    case Lost(i) => WriteEventKeeps(c, s, i);
    case EvictL1(n, k) => EvictKeeps(c, s, n, k);
    case EvictL2(k) => EvictL2Keeps(c, s, k);
    case Restart(n) => RestartKeeps(c, s, n);
  }

  lemma InitKeeps(c: Bounded, s: State)
    requires Init(s)
    ensures Inv(c, s)
  {
    EmptyNodeOk(c, s.now);
    hide NodeOk;
  }

  lemma {:induction false} RunKeeps(c: Bounded, states: seq<State>, events: seq<Event>, i: nat)
    requires Run(c.run, states, events) && i < |states|
    requires forall j :: 0 <= j < i ==> Assumed(c, states[j])
    ensures Inv(c, states[i])
  {
    hide Inv, Next, Init, Assumed;
    if i == 0 {
      InitKeeps(c, states[0]);
    } else {
      RunKeeps(c, states, events, i - 1);
      StepKeeps(c, states[i - 1], events[i - 1], states[i]);
    }
  }
}
