/**
 * The timed protocol and the classes of one node are two models of the same code: here they are shown to agree on what
 * a refresh registers, on what a cache call does to the tiers, and on what a request is answered.
 */
module GatewayBridge {
  import opened Wrappers
  import opened Entities
  import opened Registry
  import opened Tiers
  import opened PolicyCacheModel
  import R = PolicyResolverModel
  import Q = GatewayRequestModel
  import P = GatewayProtocol
  import S = GatewayStaleness

  // ---------- a whole refresh ----------

  /** Registrations without the instants of their reads. */
  function Unstamped(regs: seq<P.PolicyRegistration>): (u: seq<Registration<EndpointPolicy>>)
    ensures |u| == |regs|
  {
    seq(|regs|, i requires 0 <= i < |regs| => Registration(regs[i].key, regs[i].policy.value.policy))
  }

  /** The database answers the resolver's reads as it answered those of the refresh. */
  ghost predicate SameReads(r: P.Refresh, source: R.RegistryReads) {
    && source.services == Some(r.services) && source.products == Some(r.products)
    && |r.loads| == |r.services|
    && forall i :: 0 <= i < |r.loads| ==>
      r.loads[i].Loaded? ==> source.endpoints(r.services[i]) == Some(r.loads[i].endpoints)
  }

  lemma UnstampedParts(a: seq<P.PolicyRegistration>, b: seq<P.PolicyRegistration>)
    ensures Unstamped(a + b) == Unstamped(a) + Unstamped(b)
  {
  }

  lemma UnstampedService(r: P.Refresh, i: nat)
    requires i < |r.loads| == |r.services| && r.loads[i].Loaded? && FindProduct(r.products, r.services[i].productId).Some?
    ensures Unstamped(P.ServiceRegistrations(r, i)) ==
      RegistrationsOfService(FindProduct(r.products, r.services[i].productId).value, r.services[i], r.loads[i].endpoints)
  {
    hide RegistrationsOfService, FindProduct;
  }

  lemma {:induction false} RefreshFollowsPlan(c: P.Config, now: P.Time, r: P.Refresh, source: R.RegistryReads, n: nat)
    requires S.WholeRefresh(c, now, r) && DistinctIds(r.products) && SameReads(r, source) && n <= |r.services|
    ensures R.Ahead(source, Unstamped(P.RefreshRegistrations(r, n)), n)
  {
    hide R.Ahead, FindProduct, RegistrationsOfService, EnabledEndpointsOf, EnabledServices, EnabledProducts;
    if n == 0 {
      R.AheadAtStart(source);
      assert Unstamped([]) == [];
    } else {
      var i := n - 1;
      RefreshFollowsPlan(c, now, r, source, i);
      var done, more := P.RefreshRegistrations(r, i), P.ServiceRegistrations(r, i);
      R.AheadSteps(source, Unstamped(done), i);
      UnstampedParts(done, more);
      if r.loads[i].Loaded? {
        UnstampedService(r, i);
      } else {
        assert more == [] && Unstamped(done) + [] == Unstamped(done);
      }
    }
  }

  /** A whole refresh of the protocol registers what the resolver's refresh registers on the same reads, in order. */
  lemma RefreshIsPlan(c: P.Config, now: P.Time, r: P.Refresh, source: R.RegistryReads)
    requires S.WholeRefresh(c, now, r) && DistinctIds(r.products) && SameReads(r, source)
    ensures R.RefreshPlan(source) == R.Plan(Unstamped(P.RefreshRegistrations(r, |r.services|)), true)
  {
    hide S.WholeRefresh, P.RefreshRegistrations, R.RefreshPlan;
    var n := |r.services|;
    RefreshFollowsPlan(c, now, r, source, n);
    R.AheadSteps(source, Unstamped(P.RefreshRegistrations(r, n)), n);
  }

  ghost predicate SamePolicies(a: map<string, P.Stamped<P.PolicyRead>>, b: map<string, EndpointPolicy>) {
    (forall k :: k in a <==> k in b) && forall k :: k in a ==> b[k] == a[k].value.policy
  }

  lemma SamePoliciesExtended(a: map<string, P.Stamped<P.PolicyRead>>, b: map<string, EndpointPolicy>, key: string,
                             p: P.Stamped<P.PolicyRead>)
    requires SamePolicies(a, b)
    ensures SamePolicies(a[key := p], b[key := p.value.policy])
  {
  }

  lemma UnstampedLast(regs: seq<P.PolicyRegistration>)
    requires regs != []
    ensures var before, last := regs[..|regs| - 1], regs[|regs| - 1];
      Unstamped(regs) == Unstamped(before) + [Registration(last.key, last.policy.value.policy)]
  {
  }

  /** So the two snapshots are the same map, stamps apart. */
  lemma {:induction false} SnapshotUnstamped(regs: seq<P.PolicyRegistration>)
    ensures SamePolicies(SnapshotOf(regs), SnapshotOf(Unstamped(regs)))
    decreases |regs|
  {
    if regs != [] {
      var before, last := regs[..|regs| - 1], regs[|regs| - 1];
      SnapshotUnstamped(before);
      UnstampedLast(regs);
      SamePoliciesExtended(SnapshotOf(before), SnapshotOf(Unstamped(before)), last.key, last.policy);
      hide SnapshotOf, SamePolicies, Unstamped;
      assert regs == before + [last];
      R.SnapshotExtends(before, last);
      R.SnapshotExtends(Unstamped(before), Registration(last.key, last.policy.value.policy));
    }
  }

  // ---------- the tiers ----------

  function KeyOf(k: P.Key): CacheKey {
    match k
    case PolicyKey(route) => ForPolicy(route)
    case PermissionKey(client) => ForPermissions(client)
    case ClientKey(clientId) => ForClient(clientId)
  }

  function ValueOf(item: P.Item): CacheValue {
    match item.value
    case PolicyFact(read) => PolicyValue(read.policy)
    case PermissionFact(endpoints) => PermissionsValue(endpoints)
    case ClientFact(client) => ClientValue(client)
  }

  /** A protocol tier and a class's store hold the same under every key, with the same expiry. */
  ghost predicate Same(tier: P.Tier, store: Store) {
    forall k :: SameAt(tier, store, k)
  }

  ghost predicate SameAt(tier: P.Tier, store: Store, k: P.Key) {
    && (k in tier <==> Render(KeyOf(k)) in store)
    && (k in tier ==> store[Render(KeyOf(k))] == Entry(ValueOf(tier[k].value), tier[k].expiresAt))
  }

  lemma KeysApart(a: P.Key, b: P.Key)
    requires a != b
    ensures Render(KeyOf(a)) != Render(KeyOf(b))
  {
    if Render(KeyOf(a)) == Render(KeyOf(b)) {
      RenderInjective(KeyOf(a), KeyOf(b));
    }
  }

  lemma SamePut(tier: P.Tier, store: Store, k: P.Key, item: P.Item, now: nat, ttl: nat)
    requires Same(tier, store)
    ensures Same(Put(tier, k, item, now, ttl), Put(store, Render(KeyOf(k)), ValueOf(item), now, ttl))
  {
    hide Render, ValueOf;
    forall j: P.Key ensures SameAt(Put(tier, k, item, now, ttl), Put(store, Render(KeyOf(k)), ValueOf(item), now, ttl), j) {
      assert SameAt(tier, store, j);
      if j != k {
        KeysApart(j, k);
      }
    }
  }

  /** Both give the same answer to a read, at the same instants. */
  lemma SameGet(tier: P.Tier, store: Store, k: P.Key, now: nat)
    requires Same(tier, store)
    ensures L1Get(store, Render(KeyOf(k)), now)
      == (if L1Get(tier, k, now).Some? then Some(ValueOf(L1Get(tier, k, now).value)) else None)
    ensures L2Get(store, Render(KeyOf(k)), now)
      == (if L2Get(tier, k, now).Some? then Some(ValueOf(L2Get(tier, k, now).value)) else None)
  {
    hide Render, ValueOf;
    assert SameAt(tier, store, k);
  }

  ghost predicate SameTiers(s: P.State, n: P.NodeId, t: Tiered) {
    n in s.nodes && Same(s.nodes[n].l1, t.l1) && Same(s.l2, t.l2)
  }

  /** A hit of the store copied inwards is the class's lookup that misses its own cache. */
  lemma FillIsGet(s: P.State, n: P.NodeId, t: Tiered, k: P.Key)
    requires SameTiers(s, n, t)
    requires L1Get(s.nodes[n].l1, k, s.now).None? && L2Get(s.l2, k, s.now).Some?
    ensures SameTiers(P.FillL1(s, n, k, L2Get(s.l2, k, s.now).value), n, Apply(t, Get(Render(KeyOf(k)), s.now, true, true)))
  {
    SameGet(s.nodes[n].l1, t.l1, k, s.now);
    SameGet(s.l2, t.l2, k, s.now);
    SamePut(s.nodes[n].l1, t.l1, k, L2Get(s.l2, k, s.now).value, s.now, L1_TTL);
    hide Same, Render, ValueOf;
    assert L2Get(t.l2, Render(KeyOf(k)), s.now) == Some(t.l2[Render(KeyOf(k))].value);
  }

  /** A set whose write is applied at once, or lost, is the class's set with the store up, or down. */
  lemma CacheSetIsSet(c: P.Config, s: P.State, n: P.NodeId, t: Tiered, k: P.Key, item: P.Item, up: bool)
    requires SameTiers(s, n, t)
    ensures var set_ := P.CacheSet(c, s, n, k, item);
      SameTiers(if up then set_.(l2 := Put(set_.l2, k, item, s.now, L2_TTL)) else set_, n,
                Apply(t, Set(Render(KeyOf(k)), ValueOf(item), s.now, L2_TTL, up, true)))
  {
    SamePut(s.nodes[n].l1, t.l1, k, item, s.now, L1_TTL);
    SamePut(s.l2, t.l2, k, item, s.now, L2_TTL);
    hide Same, Render, ValueOf;
  }

  // ---------- the answers ----------

  /** What an outcome in the log means for the request. */
  function VerdictOf(o: P.Outcome): Option<Q.Verdict> {
    match o
    case Resolved(_, _, _) => None
    case Rejected(_, _, status) => Some(Q.Refused(status))
    case _ => Some(Q.Forwarded)
  }

  function Last(s: P.State): Option<P.Outcome> {
    if s.log == [] then None else Some(s.log[|s.log| - 1])
  }

  /** A request that gets as far as its permissions is answered as the middleware decides. */
  lemma PermissionsDecide(s: P.State, n: P.NodeId, id: P.TaskId, req: Request, policy: P.Stamped<P.PolicyRead>,
                          client: P.Stamped<Client>, perms: P.Stamped<set<Guid>>)
    requires n in s.nodes && !IsHealthPath(req.path) && S.Passed(req, policy)
    ensures var o := Last(P.GotPerms(s, n, id, req, policy, client, perms));
      && o.Some?
      && VerdictOf(o.value)
        == Some(Q.Decide(req, Some(policy.value.policy), Some(client.value), (_: Guid) => perms.value))
  {
  }

  /** A request that fails the identity checks of its policy, or needs none, is answered as the middleware decides. */
  lemma IdentityDecides(c: P.Config, s: P.State, n: P.NodeId, id: P.TaskId, req: Request, policy: P.Stamped<P.PolicyRead>,
                        client: Option<Client>, perms: Guid -> set<Guid>)
    requires n in s.nodes && !IsHealthPath(req.path) && !S.Passed(req, policy)
    requires Identified(req) ==> policy.value.policy.requiresJwt
    ensures var o := Last(P.GotPolicy(c, s, n, id, req, policy));
      && o.Some?
      && VerdictOf(o.value) == Some(Q.Decide(req, Some(policy.value.policy), client, perms))
  {
  }

  /** A request without a policy, or without a client, is answered as the middleware decides; a health check bypasses. */
  lemma AbsenceDecides(c: P.Config, s: P.State, n: P.NodeId, id: P.TaskId, req: Request, policy: P.Stamped<P.PolicyRead>,
                       perms: Guid -> set<Guid>)
    requires n in s.nodes
    ensures IsHealthPath(req.path) ==>
      var o := Last(P.BeginRequest(c, s, n, id, req));
      o.Some? && VerdictOf(o.value) == Some(Q.Decide(req, None, None, perms))
    ensures !IsHealthPath(req.path) && P.RouteOf(req) !in s.nodes[n].snapshot ==>
      var o := Last(P.AfterPolicyL2(c, s, n, id, req, None));
      o.Some? && VerdictOf(o.value) == Some(Q.Decide(req, None, None, perms))
    ensures !IsHealthPath(req.path) && S.Passed(req, policy) ==>
      var r := P.ResumeRequest(c, s, n, id, P.ClientFromDb(req, policy, P.Got(None)));
      && r.Some? && Last(r.value).Some?
      && VerdictOf(Last(r.value).value) == Some(Q.Decide(req, Some(policy.value.policy), None, perms))
  {
    hide IsHealthPath, P.RouteOf;
  }
}
