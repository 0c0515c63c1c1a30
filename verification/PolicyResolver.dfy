/** One node's policy resolver: a snapshot built by a refresh, behind the two-tier cache. */
module PolicyResolverModel {
  import opened Wrappers
  import opened Entities
  import opened Registry
  import opened Tiers
  import opened PolicyCacheModel

  /** What the database answers to the reads of one refresh; `None` is a read that throws. */
  datatype RegistryReads = RegistryReads(
    services: Option<seq<Service>>, products: Option<seq<Product>>, endpoints: Service -> Option<seq<Endpoint>>)

  /** The registrations a refresh performs, in order, and whether it gets to the end. */
  datatype Plan = Plan(registrations: seq<Registration<EndpointPolicy>>, complete: bool)

  /** The plan of the services from the n-th on. */
  function PlanFrom(products: seq<Product>, services: seq<Service>, source: RegistryReads, n: nat): Plan
    decreases |services| - n
  {
    if n >= |services| then Plan([], true)
    else
      var product := FindProduct(products, services[n].productId);
      if product.None? then PlanFrom(products, services, source, n + 1)
      else
        var endpoints := source.endpoints(services[n]);
        if endpoints.None? then Plan([], false)
        else
          var rest := PlanFrom(products, services, source, n + 1);
          Plan(RegistrationsOfService(product.value, services[n], endpoints.value) + rest.registrations, rest.complete)
  }

  function RefreshPlan(source: RegistryReads): Plan {
    if source.services.None? || source.products.None? || !DistinctIds(source.products.value) then Plan([], false)
    else PlanFrom(source.products.value, source.services.value, source, 0)
  }

  // ---------- the same, in what was read ----------

  /** A product, a service and an endpoint that a refresh read and that chain. */
  ghost predicate Chained(source: RegistryReads, product: Product, s: Service, e: Endpoint) {
    && source.products.Some? && product in source.products.value
    && source.services.Some? && s in source.services.value && product.id == s.productId
    && source.endpoints(s).Some? && e in source.endpoints(s).value
  }

  /** No read threw, and no two products have one id; a service without a product is passed over unread. */
  ghost predicate AllRead(source: RegistryReads) {
    && source.services.Some? && source.products.Some?
    && var products := source.products.value;
      && (forall i, j :: 0 <= i < j < |products| ==> products[i].id != products[j].id)
      && forall s :: s in source.services.value ==>
        (exists product :: product in products && product.id == s.productId) ==> source.endpoints(s).Some?
  }

  lemma {:induction false} PlanCompleteIff(products: seq<Product>, services: seq<Service>, source: RegistryReads, n: nat)
    ensures PlanFrom(products, services, source, n).complete <==>
      forall i :: n <= i < |services| ==> FindProduct(products, services[i].productId).Some? ==> source.endpoints(services[i]).Some?
    decreases |services| - n
  {
    hide FindProduct, RegistrationsOfService;
    if n < |services| {
      PlanCompleteIff(products, services, source, n + 1);
    }
  }

  lemma CompleteIff(source: RegistryReads)
    ensures RefreshPlan(source).complete <==> AllRead(source)
  {
    if source.services.Some? && source.products.Some? && DistinctIds(source.products.value) {
      var products, services := source.products.value, source.services.value;
      PlanCompleteIff(products, services, source, 0);
      forall s | s in services
        ensures FindProduct(products, s.productId).Some? <==> exists product :: product in products && product.id == s.productId
      {
      }
      hide FindProduct, PlanFrom;
      assert forall s :: s in services <==> exists i :: 0 <= i < |services| && services[i] == s;
    }
  }

  lemma {:induction false} ServiceRegistersIff(product: Product, s: Service, endpoints: seq<Endpoint>,
                                               r: Registration<EndpointPolicy>)
    ensures r in RegistrationsOfService(product, s, endpoints) <==>
      exists e :: e in endpoints && r in RegistrationsOfEndpoint(product, s, e)
  {
    hide RegistrationsOfEndpoint;
    if endpoints != [] {
      assert endpoints == [endpoints[0]] + endpoints[1..];
      ServiceRegistersIff(product, s, endpoints[1..], r);
    }
  }

  lemma {:induction false} PlanRegistersIff(products: seq<Product>, services: seq<Service>, source: RegistryReads, n: nat,
                                            r: Registration<EndpointPolicy>)
    requires PlanFrom(products, services, source, n).complete
    ensures r in PlanFrom(products, services, source, n).registrations <==>
      exists i :: n <= i < |services| && RegisteredBy(products, services[i], source, r)
    decreases |services| - n
  {
    hide FindProduct, RegistrationsOfService;
    if n < |services| {
      PlanRegistersIff(products, services, source, n + 1, r);
    }
  }

  predicate RegisteredBy(products: seq<Product>, s: Service, source: RegistryReads, r: Registration<EndpointPolicy>) {
    var product := FindProduct(products, s.productId);
    && product.Some? && source.endpoints(s).Some?
    && r in RegistrationsOfService(product.value, s, source.endpoints(s).value)
  }

  /** Some chain that was read registers the policy under the key. */
  ghost predicate Registers(source: RegistryReads, key: string, p: EndpointPolicy) {
    exists product, s, e :: Chained(source, product, s, e) && RoutesTo(key, s, e) && BuiltFrom(p, product, s, e)
  }

  lemma RegisteredByIff(source: RegistryReads, s: Service, r: Registration<EndpointPolicy>)
    requires AllRead(source) && s in source.services.value
    ensures RegisteredBy(source.products.value, s, source, r) <==>
      exists product, e :: Chained(source, product, s, e) && RoutesTo(r.key, s, e) && BuiltFrom(r.policy, product, s, e)
  {
    var products := source.products.value;
    hide RoutesTo, BuiltFrom, RegistrationsOfService, RegistrationsOfEndpoint;
    if RegisteredBy(products, s, source, r) {
      var product, endpoints := FindProduct(products, s.productId).value, source.endpoints(s).value;
      ServiceRegistersIff(product, s, endpoints, r);
      var e :| e in endpoints && r in RegistrationsOfEndpoint(product, s, e);
      RegistrationsIff(product, s, e, r);
      assert Chained(source, product, s, e);
    }
    if product, e :| Chained(source, product, s, e) && RoutesTo(r.key, s, e) && BuiltFrom(r.policy, product, s, e) {
      OneProduct(products, product, s.productId);
      RegistrationsIff(product, s, e, r);
      ServiceRegistersIff(product, s, source.endpoints(s).value, r);
    }
  }

  lemma {:induction false} OneProduct(products: seq<Product>, product: Product, id: Guid)
    requires product in products && product.id == id
    requires forall i, j :: 0 <= i < j < |products| ==> products[i].id != products[j].id
    ensures FindProduct(products, id) == Some(product)
  {
    if products[0].id != id {
      assert products == [products[0]] + products[1..];
      OneProduct(products[1..], product, id);
    }
  }

  /** What a complete refresh registers: of every chain it read, the policy under every key of its endpoint. */
  lemma PlanIff(source: RegistryReads, r: Registration<EndpointPolicy>)
    requires AllRead(source)
    ensures r in RefreshPlan(source).registrations <==> Registers(source, r.key, r.policy)
  {
    CompleteIff(source);
    var products, services := source.products.value, source.services.value;
    assert RefreshPlan(source) == PlanFrom(products, services, source, 0);
    PlanRegistersIff(products, services, source, 0, r);
    hide RefreshPlan, PlanFrom, RegisteredBy, RoutesTo, BuiltFrom, AllRead;
    forall s | s in services
      ensures RegisteredBy(products, s, source, r) <==>
        exists product, e :: Chained(source, product, s, e) && RoutesTo(r.key, s, e) && BuiltFrom(r.policy, product, s, e)
    {
      RegisteredByIff(source, s, r);
    }
    assert forall s :: s in services <==> exists i :: 0 <= i < |services| && services[i] == s;
  }

  /**
   * The keys of a complete refresh's snapshot are exactly those of the endpoints it read, and what is under a key is a
   * policy that one of them registers there.
   */
  ghost predicate Serves(source: RegistryReads, snapshot: map<string, EndpointPolicy>) {
    && (forall key :: key in snapshot ==> Registers(source, key, snapshot[key]))
    && forall product, s, e, key :: Chained(source, product, s, e) && RoutesTo(key, s, e) ==> key in snapshot
  }

  lemma SnapshotServes(source: RegistryReads)
    requires AllRead(source)
    ensures Serves(source, SnapshotOf(RefreshPlan(source).registrations))
  {
    var regs := RefreshPlan(source).registrations;
    var snapshot := SnapshotOf(regs);
    hide RefreshPlan, AllRead, RoutesTo, BuiltFrom, SnapshotOf, Chained;
    forall key | key in snapshot ensures Registers(source, key, snapshot[key]) {
      PlanIff(source, Registration(key, snapshot[key]));
    }
    forall product, s, e, key | Chained(source, product, s, e) && RoutesTo(key, s, e) ensures key in snapshot {
      var r := Registration(key, BuildEndpointPolicy(product, s, e));
      BuiltIff(r.policy, product, s, e);
      PlanIff(source, r);
      assert r in regs;
    }
  }

  /** The chances of a refresh: when its k-th cache write happens, whether it reaches the store, whether it is kept. */
  datatype Chances = Chances(clock: nat -> nat, up: nat -> bool, kept: nat -> bool)

  function WriteOp(r: Registration<EndpointPolicy>, k: nat, ch: Chances): Op {
    Set(Render(ForPolicy(r.key)), PolicyValue(r.policy), ch.clock(k), L2_TTL, ch.up(k), ch.kept(k))
  }

  /** The cache after the first n registrations. */
  function Written(t: Tiered, regs: seq<Registration<EndpointPolicy>>, n: nat, ch: Chances): Tiered
    requires n <= |regs|
  {
    if n == 0 then t else Apply(Written(t, regs, n - 1, ch), WriteOp(regs[n - 1], n - 1, ch))
  }

  /** `ResolvePolicyAsync` as a function of the tiers and the snapshot. */
  function Resolved(t: Tiered, snapshot: map<string, EndpointPolicy>, route: string, now: nat, up: bool)
    : Option<EndpointPolicy>
  {
    var found := Lookup(t, Render(ForPolicy(route)), now, up);
    if found.Some? && found.value.PolicyValue? then Some(found.value.policy)
    else if route in snapshot then Some(snapshot[route])
    else None
  }

  class PolicyResolver {
    const cache: PolicyCache
    var snapshot: map<string, EndpointPolicy>

    constructor (cache: PolicyCache)
      ensures this.cache == cache && snapshot == map[]
    {
      this.cache := cache;
      snapshot := map[];
    }

    method ResolvePolicy(path: string, verb: string, now: nat, up: bool, kept: bool, setUp: bool, setKept: bool)
      returns (r: Option<EndpointPolicy>)
      modifies cache`memory, cache.redis
      ensures r == Resolved(old(cache.State()), snapshot, RequestKey(path, verb), now, up)
      ensures var key := Render(ForPolicy(RequestKey(path, verb)));
        var before := old(cache.State());
        var looked := Apply(before, Get(key, now, up, kept));
        var found := Lookup(before, key, now, up);
        cache.State() ==
          if (found.Some? && found.value.PolicyValue?) || r.None? then looked
          else Apply(looked, Set(key, PolicyValue(r.value), now, L2_TTL, setUp, setKept))
    {
      var route := RequestKey(path, verb);
      r := cache.GetPolicy(route, now, up, kept);
      if r.None? && route in snapshot {
        r := Some(snapshot[route]);
        cache.SetPolicy(route, snapshot[route], now, L2_TTL, setUp, setKept);
      }
    }

    /** The refresh so far: its registrations are in the dictionary being built and in the cache. */
    ghost predicate Filed(before: Tiered, done: seq<Registration<EndpointPolicy>>,
                          building: map<string, EndpointPolicy>, count: nat, ch: Chances)
      reads cache, cache.redis
    {
      count == |done| && building == SnapshotOf(done) && cache.State() == Written(before, done, |done|, ch)
    }

    /** File one policy under all of its endpoint's methods. */
    method RegisterEndpoint(product: Product, service: Service, endpoint: Endpoint,
                            building: map<string, EndpointPolicy>, count: nat, ghost before: Tiered,
                            ghost done: seq<Registration<EndpointPolicy>>, ch: Chances)
      returns (built: map<string, EndpointPolicy>, counted: nat)
      requires Filed(before, done, building, count, ch)
      modifies cache`memory, cache.redis
      ensures Filed(before, done + RegistrationsOfEndpoint(product, service, endpoint), built, counted, ch)
    {
      hide Apply, SnapshotOf, Written, Methods, Render, BuildEndpointPolicy, FullPath, EffectiveCrypto;
      built, counted := building, count;
      var policy := BuildEndpointPolicy(product, service, endpoint);
      var keys := RouteKeys(service, endpoint);
      ghost var regs := RegistrationsOfEndpoint(product, service, endpoint);
      ghost var all := done;
      assert done + regs[..0] == done;
      var j := 0;
      while j < |keys|
        invariant j <= |keys|
        invariant all == done + regs[..j]
        invariant Filed(before, all, built, counted, ch)
      {
        built := built[keys[j] := policy];
        cache.SetPolicy(keys[j], policy, ch.clock(counted), L2_TTL, ch.up(counted), ch.kept(counted));
        WrittenExtends(before, all, regs[j], ch);
        SnapshotExtends(all, regs[j]);
        OneMore(done, regs, j);
        all := all + [regs[j]];
        counted := counted + 1;
        j := j + 1;
      }
      assert regs[..|keys|] == regs;
    }

    method RegisterService(product: Product, service: Service, endpoints: seq<Endpoint>,
                           building: map<string, EndpointPolicy>, count: nat, ghost before: Tiered,
                           ghost done: seq<Registration<EndpointPolicy>>, ch: Chances)
      returns (built: map<string, EndpointPolicy>, counted: nat)
      requires Filed(before, done, building, count, ch)
      modifies cache`memory, cache.redis
      ensures Filed(before, done + RegistrationsOfService(product, service, endpoints), built, counted, ch)
    {
      hide Filed, RegistrationsOfEndpoint;
      built, counted := building, count;
      ghost var all := done;
      assert all == done + RegistrationsOfService(product, service, endpoints[..0]);
      var i := 0;
      while i < |endpoints|
        invariant i <= |endpoints|
        invariant all == done + RegistrationsOfService(product, service, endpoints[..i])
        invariant Filed(before, all, built, counted, ch)
      {
        ghost var regs := RegistrationsOfEndpoint(product, service, endpoints[i]);
        built, counted := RegisterEndpoint(product, service, endpoints[i], built, counted, before, all, ch);
        ServiceExtends(product, service, endpoints, i);
        assert all + regs == done + RegistrationsOfService(product, service, endpoints[..i + 1]);
        all := all + regs;
        i := i + 1;
      }
      assert endpoints[..|endpoints|] == endpoints;
    }

    /**
     * `RefreshPoliciesAsync`: read, build and file everything, then swap. A read that throws, at any point, ends it
     * with the snapshot untouched and the writes made so far left in the cache.
     */
    method RefreshPolicies(source: RegistryReads, ch: Chances)
      modifies this`snapshot, cache`memory, cache.redis
      ensures var plan := RefreshPlan(source);
        && snapshot == (if plan.complete then SnapshotOf(plan.registrations) else old(snapshot))
        && cache.State() == Written(old(cache.State()), plan.registrations, |plan.registrations|, ch)
      ensures if AllRead(source) then Serves(source, snapshot) else snapshot == old(snapshot)
    {
      CompleteIff(source);
      if AllRead(source) {
        SnapshotServes(source);
      }
      hide AllRead, Serves;
      NothingFiled(cache.State(), ch);
      hide SnapshotOf, Written, FindProduct, RegistrationsOfService, Apply, Ahead;
      if source.services.None? || source.products.None? || !DistinctIds(source.products.value) {
        return;
      }
      var services, products := source.services.value, source.products.value;
      ghost var before := cache.State();
      ghost var done: seq<Registration<EndpointPolicy>> := [];
      var building: map<string, EndpointPolicy> := map[];
      var count, n := 0, 0;
      AheadAtStart(source);
      while n < |services|
        invariant n <= |services|
        invariant snapshot == old(snapshot)
        invariant Filed(before, done, building, count, ch)
        invariant Ahead(source, done, n)
      {
        AheadSteps(source, done, n);
        var product := FindProduct(products, services[n].productId);
        if product.Some? {
          var endpoints := source.endpoints(services[n]);
          if endpoints.None? {
            return;
          }
          building, count := RegisterService(product.value, services[n], endpoints.value, building, count,
                                             before, done, ch);
          done := done + RegistrationsOfService(product.value, services[n], endpoints.value);
        }
        n := n + 1;
      }
      AheadSteps(source, done, n);
      snapshot := building;
    }
  }

  /** `done` is behind and the plan from the n-th service on is ahead. */
  ghost predicate Ahead(source: RegistryReads, done: seq<Registration<EndpointPolicy>>, n: nat) {
    && source.services.Some? && source.products.Some?
    && var rest := PlanFrom(source.products.value, source.services.value, source, n);
    RefreshPlan(source) == Plan(done + rest.registrations, rest.complete)
  }

  lemma AheadAtStart(source: RegistryReads)
    requires source.services.Some? && source.products.Some? && DistinctIds(source.products.value)
    ensures Ahead(source, [], 0)
  {
    var rest := PlanFrom(source.products.value, source.services.value, source, 0);
    assert [] + rest.registrations == rest.registrations;
  }

  lemma AheadSteps(source: RegistryReads, done: seq<Registration<EndpointPolicy>>, n: nat)
    requires Ahead(source, done, n) && n <= |source.services.value|
    ensures n == |source.services.value| ==> RefreshPlan(source) == Plan(done, true)
    ensures n < |source.services.value| ==>
      var service := source.services.value[n];
      var product := FindProduct(source.products.value, service.productId);
      && (product.None? ==> Ahead(source, done, n + 1))
      && (product.Some? && source.endpoints(service).None? ==> RefreshPlan(source) == Plan(done, false))
      && (product.Some? && source.endpoints(service).Some? ==>
        Ahead(source, done + RegistrationsOfService(product.value, service, source.endpoints(service).value), n + 1))
  {
    hide RegistrationsOfService, FindProduct;
    assert done + [] == done;
    if n < |source.services.value| {
      var service := source.services.value[n];
      var product := FindProduct(source.products.value, service.productId);
      if product.Some? && source.endpoints(service).Some? {
        var regs := RegistrationsOfService(product.value, service, source.endpoints(service).value);
        var rest := PlanFrom(source.products.value, source.services.value, source, n + 1).registrations;
        assert done + (regs + rest) == (done + regs) + rest;
      }
    }
  }

  lemma OneMore<T>(done: seq<T>, regs: seq<T>, j: nat)
    requires j < |regs|
    ensures done + regs[..j + 1] == done + regs[..j] + [regs[j]]
  {
  }

  lemma NothingFiled(t: Tiered, ch: Chances)
    ensures Written(t, [], 0, ch) == t && SnapshotOf<EndpointPolicy>([]) == map[]
  {
  }

  lemma {:induction false} WrittenPrefix(t: Tiered, regs: seq<Registration<EndpointPolicy>>,
                                         more: seq<Registration<EndpointPolicy>>, n: nat, ch: Chances)
    requires n <= |regs|
    ensures Written(t, regs + more, n, ch) == Written(t, regs, n, ch)
  {
    if n > 0 {
      WrittenPrefix(t, regs, more, n - 1, ch);
    }
  }

  lemma WrittenExtends(t: Tiered, regs: seq<Registration<EndpointPolicy>>, r: Registration<EndpointPolicy>, ch: Chances)
    ensures Written(t, regs + [r], |regs| + 1, ch) == Apply(Written(t, regs, |regs|, ch), WriteOp(r, |regs|, ch))
  {
    WrittenPrefix(t, regs, [r], |regs|, ch);
  }

  lemma SnapshotExtends<V>(regs: seq<Registration<V>>, r: Registration<V>)
    ensures SnapshotOf(regs + [r]) == SnapshotOf(regs)[r.key := r.policy]
  {
    assert (regs + [r])[..|regs|] == regs;
  }

  lemma {:induction false} ServiceExtends(product: Product, service: Service, endpoints: seq<Endpoint>, i: nat)
    requires i < |endpoints|
    ensures RegistrationsOfService(product, service, endpoints[..i + 1])
         == RegistrationsOfService(product, service, endpoints[..i])
          + RegistrationsOfEndpoint(product, service, endpoints[i])
    decreases i
  {
    var head := endpoints[..i + 1];
    if i == 0 {
      assert head[1..] == [];
    } else {
      var tail := endpoints[1..];
      ServiceExtends(product, service, tail, i - 1);
      assert head[1..] == tail[..i];
      assert endpoints[..i][1..] == tail[..i - 1];
    }
  }

  // ---------- what a refresh leaves in the cache ----------

  /** A value one of the registrations gives to a key. */
  ghost predicate NewFor(regs: seq<Registration<EndpointPolicy>>, key: string, v: CacheValue) {
    exists r :: r in regs && Render(ForPolicy(r.key)) == key && v == PolicyValue(r.policy)
  }

  /**
   * However far a refresh got and whatever failed or was evicted meanwhile, every cache entry is the one it was
   * before, or a policy newly built for that very key.
   */
  lemma {:induction false} EntriesOldOrNew(t: Tiered, regs: seq<Registration<EndpointPolicy>>, n: nat, ch: Chances, key: string)
    requires n <= |regs|
    ensures var t' := Written(t, regs, n, ch);
      && (key in t'.l1 ==> (key in t.l1 && t'.l1[key] == t.l1[key]) || NewFor(regs, key, t'.l1[key].value))
      && (key in t'.l2 ==> (key in t.l2 && t'.l2[key] == t.l2[key]) || NewFor(regs, key, t'.l2[key].value))
  {
    hide Render;
    if n > 0 {
      EntriesOldOrNew(t, regs, n - 1, ch, key);
      var r := regs[n - 1];
      assert r in regs;
      assert Render(ForPolicy(r.key)) == key ==> NewFor(regs, key, PolicyValue(r.policy));
    }
  }

  lemma KeysDiffer(a: string, b: string)
    requires a != b
    ensures Render(ForPolicy(a)) != Render(ForPolicy(b))
  {
    if Render(ForPolicy(a)) == Render(ForPolicy(b)) {
      RenderInjective(ForPolicy(a), ForPolicy(b));
    }
  }

  /** With the store answering every write, the last registration of a key is in the store, and alone in the own cache. */
  lemma {:induction false} LastWriterInTiers(t: Tiered, regs: seq<Registration<EndpointPolicy>>, n: nat, ch: Chances, route: string)
    requires n <= |regs|
    requires forall k :: 0 <= k < n ==> ch.up(k)
    requires route in SnapshotOf(regs[..n])
    ensures var t' := Written(t, regs, n, ch);
      var key := Render(ForPolicy(route));
      var v := PolicyValue(SnapshotOf(regs[..n])[route]);
      && (key in t'.l1 ==> t'.l1[key].value == v)
      && key in t'.l2 && t'.l2[key].value == v
  {
    hide Render, SnapshotOf;
    NothingFiled(t, ch);
    assert regs[..0] == [];
    var r := regs[n - 1];
    assert regs[..n] == regs[..n - 1] + [r];
    SnapshotExtends(regs[..n - 1], r);
    if r.key != route {
      LastWriterInTiers(t, regs, n - 1, ch, route);
      KeysDiffer(r.key, route);
    }
  }

  /** One map has no entry the other lacks, and no other value. */
  ghost predicate Part(a: Store, b: Store) {
    forall k :: k in a ==> k in b && a[k] == b[k]
  }

  /**
   * After a complete refresh that reached the store, every key of the new snapshot resolves to the snapshot's value,
   * whichever of own cache, store and snapshot answers: at any later instant, whatever either tier has evicted or let
   * expire, and whether or not the store can be reached. Several endpoints may collide on the key.
   */
  lemma LastWriterAgreement(t: Tiered, source: RegistryReads, ch: Chances, left: Tiered, route: string, now: nat, up: bool)
    requires RefreshPlan(source).complete
    requires forall k :: 0 <= k < |RefreshPlan(source).registrations| ==> ch.up(k)
    requires var regs := RefreshPlan(source).registrations;
      Part(left.l1, Written(t, regs, |regs|, ch).l1) && Part(left.l2, Written(t, regs, |regs|, ch).l2)
    requires route in SnapshotOf(RefreshPlan(source).registrations)
    ensures var snapshot := SnapshotOf(RefreshPlan(source).registrations);
      Resolved(left, snapshot, route, now, up) == Some(snapshot[route])
  {
    hide RefreshPlan, SnapshotOf, Written, Render;
    var regs := RefreshPlan(source).registrations;
    assert regs[..|regs|] == regs;
    LastWriterInTiers(t, regs, |regs|, ch, route);
  }

  /**
   * After such a refresh a request in any case of letters, for a listed method of an endpoint that was read, under
   * "/gateway", the service's base path and the endpoint's relative path, is given a policy of an endpoint with that key;
   * and the one built from these rows when no other chain has the key.
   */
  lemma RequestIsServed(t: Tiered, source: RegistryReads, ch: Chances, left: Tiered, now: nat, up: bool,
                        verb: string, m: string, product: Product, s: Service, e: Endpoint)
    requires AllRead(source) && Chained(source, product, s, e) && Names(e.httpMethod, m) && Uppercase(verb, m)
    requires forall k :: 0 <= k < |RefreshPlan(source).registrations| ==> ch.up(k)
    requires var regs := RefreshPlan(source).registrations;
      Part(left.l1, Written(t, regs, |regs|, ch).l1) && Part(left.l2, Written(t, regs, |regs|, ch).l2)
    ensures var key := m + ":/gateway" + s.basePath + e.relativePath;
      var path := "/gateway" + s.basePath + e.relativePath;
      var snapshot := SnapshotOf(RefreshPlan(source).registrations);
      var r := Resolved(left, snapshot, RequestKey(path, verb), now, up);
      && r.Some? && Registers(source, key, r.value)
      && ((forall product', s', e' :: Chained(source, product', s', e') && RoutesTo(key, s', e') ==>
            product' == product && s' == s && e' == e)
          ==> BuiltFrom(r.value, product, s, e))
  {
    var key, path := m + ":/gateway" + s.basePath + e.relativePath, "/gateway" + s.basePath + e.relativePath;
    UppercaseIff(verb, m);
    assert RequestKey(path, verb) == key;
    assert RoutesTo(key, s, e);
    CompleteIff(source);
    SnapshotServes(source);
    hide AllRead, Chained, RoutesTo, BuiltFrom, RefreshPlan, Written, Part, RequestKey, SnapshotOf;
    LastWriterAgreement(t, source, ch, left, key, now, up);
  }

  /** Every key of a snapshot agrees with the policy filed under it. */
  lemma {:induction false} PlanKeysAgree(products: seq<Product>, services: seq<Service>, source: RegistryReads, n: nat,
                                         r: Registration<EndpointPolicy>)
    requires forall s: Service, e: Endpoint :: source.endpoints(s).Some? && e in source.endpoints(s).value ==> e.serviceId == s.id
    requires r in PlanFrom(products, services, source, n).registrations
    ensures KeyAgrees(r.key, r.policy)
    decreases |services| - n
  {
    var product := FindProduct(products, services[n].productId);
    if product.None? {
      PlanKeysAgree(products, services, source, n + 1, r);
    } else {
      var endpoints := source.endpoints(services[n]).value;
      if r in RegistrationsOfService(product.value, services[n], endpoints) {
        var e :| e in endpoints && r in RegistrationsOfEndpoint(product.value, services[n], e);
        assert e.serviceId == services[n].id;
      } else {
        PlanKeysAgree(products, services, source, n + 1, r);
      }
    }
  }
}
