/** What every run of the gateway guarantees about the decisions it takes and the places it keeps facts in. */
module GatewayTheorems {
  import opened Wrappers
  import opened Entities
  import opened Registry
  import opened GatewayProtocol
  import opened GatewayStaleness

  // ---------- the environment of a finite run is always bounded ----------

  /** The most enabled clients the database listed up to an instant, and one more. */
  function MaxListed(c: Config, now: Time): nat {
    var here := |EnabledClients(c.db(now))| + 1;
    if now == 0 then here
    else
      var before := MaxListed(c, now - 1);
      if before < here then here else before
  }

  lemma {:induction false} MaxListedBounds(c: Config, now: Time, t: Time)
    requires t <= now
    ensures |EnabledClients(c.db(t))| < MaxListed(c, now)
  {
    if t < now {
      MaxListedBounds(c, now - 1, t);
    }
  }

  lemma FewListed(c: Config, now: Time, later: Time)
    requires now <= later
    ensures forall t: Time :: t <= now ==> |EnabledClients(c.db(t))| < MaxListed(c, later)
  {
    forall t: Time | t <= now ensures |EnabledClients(c.db(t))| < MaxListed(c, later) {
      MaxListedBounds(c, later, t);
    }
  }

  lemma {:induction false} TimeGrows(c: Config, states: seq<State>, events: seq<Event>, i: nat, j: nat)
    requires Run(c, states, events) && i <= j < |states|
    ensures states[i].now <= states[j].now
    decreases j
  {
    if i < j {
      TimeGrows(c, states, events, i, j - 1);
      StepTime(c, states[j - 1], events[j - 1], states[j]);
    }
  }

  lemma StepTime(c: Config, s: State, e: Event, s': State)
    requires Next(c, s, e, s')
    ensures s.now <= s'.now
  {
    hide BeginRequest, Resume, Fail, Serve, Due;
  }

  /** Any finite run satisfies the invariant for some bounds; its own length in time bounds every age. */
  lemma SomeBounds(c: Config, states: seq<State>, events: seq<Event>, i: nat) returns (b: Bounded)
    requires Run(c, states, events) && i < |states|
    ensures b.run == c && Inv(b, states[i])
  {
    b := Bounded(c, MaxListed(c, states[i].now), states[i].now);
    forall j | 0 <= j < i ensures Assumed(b, states[j]) {
      TimeGrows(c, states, events, j, i);
      FewListed(c, states[j].now, states[i].now);
    }
    RunKeeps(b, states, events, i);
  }

  // ---------- freshness of what a request is judged by ----------

  /**
   * A request admitted for a client was permitted by a row of the permission table, enabled and unexpired, at an
   * instant less than both lifetimes and three waits ago. No bound on anything else is needed.
   */
  lemma PermissionFreshness(c: Config, states: seq<State>, events: seq<Event>, i: nat, o: Outcome)
    requires Run(c, states, events) && i < |states| && o in states[i].log && o.Admitted?
    ensures exists u: Time, row: ClientPermission ::
      && u <= o.at < u + 7_200_000 + 3 * c.delay
      && row in c.db(u).permissions && row.clientId == o.client.value.id
      && row.endpointId == o.policy.value.policy.endpoint.id
      && row.isEnabled && (row.expiresAt == None || u < row.expiresAt.value)
  {
    var b := SomeBounds(c, states, events, i);
    assert OutcomeOk(b, o);
    var u, client, endpoint := o.perms.loadedAt, o.client.value.id, o.policy.value.policy.endpoint.id;
    AuthorizedIff(c.db(u), client, endpoint, u);
    assert Permits(c.db(u), client, endpoint, u);
  }

  lemma {:induction false} LoopDelayIs(b: Bounded, i: nat)
    ensures LoopDelay(b, i) == 3 * i * b.run.delay
  {
    if i > 0 {
      LoopDelayIs(b, i - 1);
      assert 3 * i * b.run.delay == 3 * (i - 1) * b.run.delay + 3 * b.run.delay;
    }
  }

  /**
   * The client of an admitted request was an enabled row under that client id not longer ago than both lifetimes and
   * 3n + 5 waits, when the database never lists more than n enabled clients: the timed refresh reads all rows at once
   * and files the last of them only after three waits for each.
   */
  lemma ClientFreshness(c: Config, states: seq<State>, events: seq<Event>, i: nat, o: Outcome, n: nat)
    requires Run(c, states, events) && i < |states| && o in states[i].log && o.Admitted?
    requires forall t: Time :: t <= states[i].now ==> |EnabledClients(c.db(t))| <= n
    ensures exists u: Time ::
      && u <= o.at < u + 7_200_000 + (3 * n + 5) * c.delay
      && o.client.value in c.db(u).clients && o.client.value.isEnabled
    ensures o.req.clientId == Some(o.client.value.clientId)
  {
    var b := Bounded(c, if n == 0 then 1 else n, states[i].now);
    forall j | 0 <= j < i ensures Assumed(b, states[j]) {
      TimeGrows(c, states, events, j, i);
    }
    RunKeeps(b, states, events, i);
    hide NodeOk, L2Ok, WriteOk, Run, Assumed;
    assert OutcomeOk(b, o);
    LoggedClient(b, o, n);
  }

  lemma LoggedClient(b: Bounded, o: Outcome, n: nat)
    requires o.Admitted? && OutcomeOk(b, o)
    requires b.maxClients == if n == 0 then 1 else n
    requires forall t: Time :: t <= o.at ==> |EnabledClients(b.run.db(t))| <= n
    ensures var u := o.client.loadedAt;
      && u <= o.at < u + 7_200_000 + (3 * n + 5) * b.run.delay
      && o.client.value in b.run.db(u).clients && o.client.value.isEnabled
    ensures o.req.clientId == Some(o.client.value.clientId)
  {
    hide HeldPolicy, PermsOk;
    var u := o.client.loadedAt;
    assert o.client.value in EnabledClients(b.run.db(u));
    assert n >= 1;
    LoopDelayIs(b, n);
    assert (3 * n + 5) * b.run.delay == 3 * n * b.run.delay + 5 * b.run.delay;
  }

  /** No node's snapshot is older than the age, counted from the refresh's first read. */
  ghost predicate SnapshotsYoung(age: nat, s: State) {
    forall n :: n in s.nodes ==>
      s.nodes[n].origin.Some? ==> s.now <= s.nodes[n].origin.value.servicesAt + age
  }

  /** No refresh files a policy once it has got through more services and registrations than the bound, that one included. */
  ghost predicate RefreshesSmall(work: nat, s: State) {
    forall n, id :: n in s.nodes && id in s.nodes[n].tasks ==> TaskSmall(work, s.nodes[n].tasks[id])
  }

  ghost predicate TaskSmall(work: nat, t: Task) {
    t.wait.Refreshing? && ToFile(t.wait.reload) != [] ==>
      var pending := if t.wait.reload.EndpointList? then 2 else 1;
      Work(t.wait.reload.refresh, t.wait.reload.done) + pending <= work
  }

  lemma {:induction false} WaitsAre(b: Bounded, k: nat)
    ensures Waits(b, k) == k * b.run.delay
  {
    if k > 0 {
      WaitsAre(b, k - 1);
      assert k * b.run.delay == (k - 1) * b.run.delay + b.run.delay;
    }
  }

  /** The age of a policy when it is handed to a cache: that of a snapshot, or of the longest refresh. */
  function PolicyAge(age: nat, work: nat, delay: nat): nat {
    if age < (work + 1) * delay then (work + 1) * delay else age
  }

  lemma SmallIsFresh(b: Bounded, now: Time, t: Task, work: nat)
    requires TaskOk(b, now, t) && TaskSmall(work, t)
    requires t.wait.Refreshing? && ToFile(t.wait.reload) != []
    ensures now <= t.wait.reload.refresh.servicesAt + (work + 1) * b.run.delay
  {
    var k := Work(t.wait.reload.refresh, t.wait.reload.done);
    var pending := if t.wait.reload.EndpointList? then 2 else 1;
    var d := b.run.delay;
    assert now <= t.wait.reload.refresh.servicesAt + Waits(b, k) + d + (if pending == 2 then d + d else d) by {
      hide ReloadOk, Work, ServiceRegistrations;
    }
    assert k + pending <= work by {
      hide TaskOk, ServiceRegistrations;
    }
    hide *;
    WithinWork(b, k, pending, work);
  }

  lemma WithinWork(b: Bounded, k: nat, pending: nat, work: nat)
    requires k + pending <= work && (pending == 1 || pending == 2)
    ensures var d := b.run.delay;
      Waits(b, k) + d + (if pending == 2 then d + d else d) <= (work + 1) * d
  {
    WaitsMonotone(b, k, work - pending);
    WaitsAre(b, work - pending);
    assert (work + 1) * b.run.delay == (work - pending) * b.run.delay + (pending + 1) * b.run.delay;
  }

  /** In any run, young snapshots and small refreshes keep everything filed from either fresh. */
  lemma YoungIsFresh(b: Bounded, states: seq<State>, events: seq<Event>, j: nat, age: nat, work: nat)
    requires Run(b.run, states, events) && j < |states|
    requires SnapshotsYoung(age, states[j]) && RefreshesSmall(work, states[j])
    requires b.snapshotAge == PolicyAge(age, work, b.run.delay)
    ensures Fresh(b, states[j])
  {
    var any := SomeBounds(b.run, states, events, j);
    var s := states[j];
    hide Run, TaskSmall, FreshTask, TaskOk;
    forall n, id | n in s.nodes && id in s.nodes[n].tasks ensures FreshTask(b, s.now, s.nodes[n].tasks[id]) {
      TaskIn(any, s, n, id);
      var t := s.nodes[n].tasks[id];
      if t.wait.Refreshing? && ToFile(t.wait.reload) != [] {
        SmallIsFresh(any, s.now, t, work);
      }
    }
  }

  /**
   * If no snapshot is ever older than `age`, and no refresh goes through more than `work` services and registrations
   * until it files its last policy, a policy a request is resolved to was built from service, product and endpoint rows
   * that were enabled less than both lifetimes and two waits ago, and `age`, or the `work + 1` waits of a refresh if
   * these are longer. A refresh that fails, or never ends, counts like any other: what it has filed is used.
   */
  lemma PolicyFreshness(c: Config, states: seq<State>, events: seq<Event>, i: nat, o: Outcome, age: nat, work: nat)
    requires Run(c, states, events) && i < |states| && o in states[i].log && o.Resolved?
    requires forall j :: 0 <= j < i ==> SnapshotsYoung(age, states[j]) && RefreshesSmall(work, states[j])
    ensures var p := o.policy.value.policy;
      exists s: Time, t: Time, u: Time ::
        && s <= t <= u <= o.at < s + PolicyAge(age, work, c.delay) + 7_200_000 + 2 * c.delay
        && p.service in c.db(s).services && p.service.isEnabled
        && p.product in c.db(t).products && p.product.isEnabled && p.product.id == p.service.productId
        && p.endpoint in c.db(u).endpoints && p.endpoint.isEnabled && p.endpoint.serviceId == p.service.id
    ensures var p := o.policy.value.policy; BuiltFrom(p, p.product, p.service, p.endpoint)
  {
    var b := Bounded(c, MaxListed(c, states[i].now), PolicyAge(age, work, c.delay));
    forall j | 0 <= j < i ensures Assumed(b, states[j]) {
      YoungIsFresh(b, states, events, j, age, work);
      TimeGrows(c, states, events, j, i);
      FewListed(c, states[j].now, states[i].now);
    }
    RunKeeps(b, states, events, i);
    hide Run, Fresh, NodeOk, L2Ok, WriteOk, PolicyAge, RouteKeys;
    assert OutcomeOk(b, o);
    var p := o.policy.value.policy;
    BuiltIff(p, p.product, p.service, p.endpoint);
    hide BuiltFrom, BuildEndpointPolicy;
  }

  // ---------- key agreement ----------

  /** Whatever sits under a route key, in any node's cache, in the shared store or in a snapshot, regenerates it. */
  lemma KeyAgreementEverywhere(c: Config, states: seq<State>, events: seq<Event>, i: nat, n: NodeId, route: string)
    requires Run(c, states, events) && i < |states| && n in states[i].nodes
    ensures var s := states[i];
      var k := PolicyKey(route);
      && (k in s.nodes[n].l1 ==>
        s.nodes[n].l1[k].value.value.PolicyFact? && Regenerates(route, s.nodes[n].l1[k].value.value.read.policy))
      && (k in s.l2 ==> s.l2[k].value.value.PolicyFact? && Regenerates(route, s.l2[k].value.value.read.policy))
      && (route in s.nodes[n].snapshot ==> Regenerates(route, s.nodes[n].snapshot[route].value.policy))
  {
    var b := SomeBounds(c, states, events, i);
    var s := states[i];
    assert NodeOk(b, s.now, s.nodes[n]);
    forall p: EndpointPolicy ensures KeyAgrees(route, p) ==> Regenerates(route, p) {
      KeyAgreesIff(route, p);
    }
    hide KeyAgrees, Regenerates;
    if route in s.nodes[n].snapshot {
      SnapshotTrue(b, s.now, s.nodes[n], route);
    }
  }

  /** A request is only ever given a policy of its own path and its own method. */
  lemma ResolvedMatchesRequest(c: Config, states: seq<State>, events: seq<Event>, i: nat, o: Outcome)
    requires Run(c, states, events) && i < |states| && o in states[i].log && o.Resolved?
    requires ':' !in o.req.verb
    requires forall m :: Names(o.policy.value.policy.endpoint.httpMethod, m) ==> ':' !in m
    ensures var p := o.policy.value.policy;
      && o.req.path == "/gateway" + p.service.basePath + p.endpoint.relativePath
      && (exists m :: Names(p.endpoint.httpMethod, m) && Uppercase(o.req.verb, m))
      && p.endpoint.serviceId == p.service.id && p.service.productId == p.product.id
  {
    var b := SomeBounds(c, states, events, i);
    assert OutcomeOk(b, o);
    KeyDeterminesRequest(o.req.path, o.req.verb, o.policy.value.policy);
  }

  /**
   * Nothing gets through without its reason: a health path; or a policy of the request's own route that asks for no
   * identity, for a request that has none; or such a policy, the client the request names, a set of permissions that
   * holds the endpoint, and no failed authentication where one is required.
   */
  lemma AdmissionJustified(c: Config, states: seq<State>, events: seq<Event>, i: nat, o: Outcome)
    requires Run(c, states, events) && i < |states| && o in states[i].log
    ensures o.Bypassed? ==> LooksHealthy(o.req.path)
    ensures o.AdmittedAnonymously? ==>
      && Regenerates(RouteOf(o.req), o.policy.value.policy) && !o.policy.value.policy.service.requiresJwt
      && (o.req.clientId == None || o.req.clientId == Some(""))
    ensures o.Admitted? ==>
      var policy := o.policy.value.policy;
      && Regenerates(RouteOf(o.req), policy)
      && (policy.service.requiresJwt ==> o.req.authenticated != Some(false))
      && o.req.clientId == Some(o.client.value.clientId) && o.client.value.isEnabled
      && policy.endpoint.id in o.perms.value
  {
    var b := SomeBounds(c, states, events, i);
    HealthIff(o.req.path);
    if o.Admitted? || o.AdmittedAnonymously? {
      KeyAgreesIff(RouteOf(o.req), o.policy.value.policy);
    }
    hide KeyAgrees, IsHealthPath, LooksHealthy, RoutesTo;
    assert OutcomeOk(b, o);
  }

  // ---------- a refresh is all or nothing ----------

  /** In every reachable state each node's snapshot is the empty one or everything one refresh read, up to then. */
  lemma SnapshotIsWhole(c: Config, states: seq<State>, events: seq<Event>, i: nat, n: NodeId)
    requires Run(c, states, events) && i < |states| && n in states[i].nodes
    ensures var snapshot := states[i].nodes[n].snapshot;
      snapshot == map[] || exists r: Refresh ::
        WholeRefresh(c, states[i].now, r) && snapshot == SnapshotOf(RefreshRegistrations(r, |r.services|))
  {
    var b := SomeBounds(c, states, events, i);
    var node := states[i].nodes[n];
    assert NodeOk(b, states[i].now, node);
    if node.origin.Some? {
      WholeIs(b, states[i].now, node.origin.value);
    }
  }

  lemma WholeIs(b: Bounded, now: Time, r: Refresh)
    requires RefreshOk(b, now, r) && |r.loads| == |r.services|
    ensures WholeRefresh(b.run, now, r)
  {
    hide FindProduct, EnabledEndpointsOf, EnabledServices, EnabledProducts;
    forall i | 0 <= i < |r.loads|
      ensures match r.loads[i]
        case Skipped => FindProduct(r.products, r.services[i].productId).None?
        case Loaded(endpoints, at) =>
          && FindProduct(r.products, r.services[i].productId).Some?
          && endpoints == EnabledEndpointsOf(b.run.db(at), r.services[i].id)
          && r.productsAt <= at <= now
    {
      assert LoadOk(b, now, r, i);
    }
  }

  /**
   * Only the last step of a policy refresh, or a restart, changes a snapshot: no request, no permission refresh, no
   * failure at any point of any refresh, and nothing that happens in the shared store.
   */
  lemma SnapshotChangesOnlyBySwap(c: Config, s: State, e: Event, s': State)
    requires Next(c, s, e, s') && !e.Restart?
    requires !(e.Returned? && s.nodes[e.n].tasks[e.id].wait.Refreshing?)
    ensures e.Tick? || Quiet(s, s')
    ensures s'.nodes.Keys == s.nodes.Keys && forall n :: n in s.nodes ==> s'.nodes[n].snapshot == s.nodes[n].snapshot
  {
    hide BeginRequest, ResumeRequest, ResumeWarm, ResumeRefresh, FailRequest, FailWarm, FailRefresh, Serve, Due;
  }
}
