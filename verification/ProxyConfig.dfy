/** Compiling the policy snapshot into proxy routes and clusters. */
module ProxyConfigModel {
  import opened Wrappers
  import opened Entities
  import opened Registry
  import Text

  datatype RouteConfig = RouteConfig(
    routeId: string, clusterId: string, path: string, methods: seq<string>, pathPattern: string,
    endpointId: Guid, serviceId: Guid, requiresJwt: bool)

  datatype ClusterConfig = ClusterConfig(
    clusterId: string, destinations: map<string, string>, tuning: ClusterTuning, serviceId: Guid, serviceName: string)

  /** Routes by route id, clusters by cluster id. */
  datatype ProxyConfig = ProxyConfig(routes: map<string, RouteConfig>, clusters: map<string, ClusterConfig>)

  /** The JSON reader of a destination list: `None` throws, `Some(None)` is the JSON null. */
  type DestinationReader = string -> Option<Option<seq<string>>>

  function RouteId(p: EndpointPolicy): string {
    p.service.serviceName + "-" + p.endpoint.endpointName
  }

  function BuildRoute(p: EndpointPolicy): RouteConfig {
    var parts := Text.Split(p.endpoint.httpMethod, ',');
    RouteConfig(
      RouteId(p), p.service.clusterId, FullPath(p.service, p.endpoint),
      seq(|parts|, i requires 0 <= i < |parts| => Text.Trim(parts[i])),
      OrElse(p.endpoint.upstreamPathTemplate, p.endpoint.relativePath),
      p.endpoint.id, p.service.id, p.service.requiresJwt)
  }

  // ---------- destinations ----------

  function DestinationName(i: nat): string {
    "destination" + Text.Numeral(i)
  }

  function Destinations(addresses: seq<string>, n: nat): map<string, string>
    requires n <= |addresses|
  {
    if n == 0 then map[] else Destinations(addresses, n - 1)[DestinationName(n - 1) := addresses[n - 1]]
  }

  lemma DestinationNamesDiffer(i: nat, j: nat)
    requires i != j
    ensures DestinationName(i) != DestinationName(j)
  {
    assert DestinationName(i)[11..] == Text.Numeral(i) && DestinationName(j)[11..] == Text.Numeral(j);
    Text.NumeralValue(i);
    Text.NumeralValue(j);
  }

  lemma {:induction false} SlotsAreNamed(addresses: seq<string>, n: nat)
    requires n <= |addresses|
    ensures forall k :: k in Destinations(addresses, n) <==> exists i: nat :: i < n && k == DestinationName(i)
  {
    hide DestinationName;
    if n > 0 {
      SlotsAreNamed(addresses, n - 1);
    }
  }

  lemma OneSlotMore(before: map<string, string>, name: string, address: string)
    ensures name !in before ==> |before[name := address]| == |before| + 1
  {
    assert before[name := address].Keys == before.Keys + {name};
  }

  /** Every address is kept, in a slot of its own, and there is no other slot. */
  lemma {:induction false} DestinationsComplete(addresses: seq<string>, n: nat)
    requires n <= |addresses|
    ensures |Destinations(addresses, n)| == n
    ensures forall i: nat :: i < n ==>
      DestinationName(i) in Destinations(addresses, n) && Destinations(addresses, n)[DestinationName(i)] == addresses[i]
    ensures forall k :: k in Destinations(addresses, n) ==> exists i: nat :: i < n && k == DestinationName(i)
  {
    hide DestinationName;
    SlotsAreNamed(addresses, n);
    if n > 0 {
      DestinationsComplete(addresses, n - 1);
      SlotsAreNamed(addresses, n - 1);
      forall i: nat | i < n - 1 ensures DestinationName(i) != DestinationName(n - 1) {
        DestinationNamesDiffer(i, n - 1);
      }
      OneSlotMore(Destinations(addresses, n - 1), DestinationName(n - 1), addresses[n - 1]);
    }
  }

  function BuildCluster(read: DestinationReader, s: Service): Option<ClusterConfig> {
    match read(s.destinations)
    case None => None
    case Some(addresses) =>
      var a := OrElse(addresses, []);
      Some(ClusterConfig(s.clusterId, Destinations(a, |a|), s.tuning, s.id, s.serviceName))
  }

  // ---------- the same, in the fields of the rows ----------

  /** The methods are the parts of the list, each without its blanks. */
  ghost predicate MethodsOf(methods: seq<string>, list: string) {
    forall m :: m in methods <==> exists i: nat, l: nat, j: nat, k: nat ::
      Text.PartAt(list, ',', i, l) && Text.TrimmedAt(list[i..l], j, k) && m == list[i..l][j..k]
  }

  /** A route in the fields of a policy's rows: its path, and what the path is rewritten to. */
  ghost predicate RouteOf(r: RouteConfig, p: EndpointPolicy) {
    var s, e := p.service, p.endpoint;
    && r.routeId == s.serviceName + "-" + e.endpointName && r.clusterId == s.clusterId
    && r.path == "/gateway" + s.basePath + e.relativePath && MethodsOf(r.methods, e.httpMethod)
    && r.pathPattern == (if e.upstreamPathTemplate.Some? then e.upstreamPathTemplate.value else e.relativePath)
    && r.endpointId == e.id && r.serviceId == s.id && r.requiresJwt == s.requiresJwt
  }

  /** A cluster in the fields of a service: each address of its list, under "destination" and its place. */
  ghost predicate ClusterOf(read: DestinationReader, c: ClusterConfig, s: Service) {
    && c.clusterId == s.clusterId && c.tuning == s.tuning && c.serviceId == s.id && c.serviceName == s.serviceName
    && read(s.destinations).Some?
    && var addresses := if read(s.destinations).value.Some? then read(s.destinations).value.value else [];
      && |c.destinations| == |addresses|
      && forall i: nat :: i < |addresses| ==> SlotOf(c.destinations, i, addresses[i])
  }

  ghost predicate SlotOf(destinations: map<string, string>, i: nat, address: string) {
    var name := "destination" + Text.Numeral(i);
    name in destinations && destinations[name] == address
  }

  lemma RouteIsOf(p: EndpointPolicy)
    ensures RouteOf(BuildRoute(p), p)
  {
    var list := p.endpoint.httpMethod;
    MethodsAre(BuildRoute(p).methods, list);
    hide MethodsOf, Text.Split;
  }

  lemma MethodsAre(methods: seq<string>, list: string)
    requires var parts := Text.Split(list, ',');
      |methods| == |parts| && forall i :: 0 <= i < |parts| ==> methods[i] == Text.Trim(parts[i])
    ensures MethodsOf(methods, list)
  {
    var parts := Text.Split(list, ',');
    forall m
      ensures m in methods <==> exists i: nat, l: nat, j: nat, k: nat ::
        Text.PartAt(list, ',', i, l) && Text.TrimmedAt(list[i..l], j, k) && m == list[i..l][j..k]
    {
      hide Text.Split, Text.Trim;
      if m in methods {
        var n :| 0 <= n < |methods| && methods[n] == m;
        Text.PartsExactly(list, ',', parts[n]);
        Text.TrimExactly(parts[n], m);
      }
      if i: nat, l: nat, j: nat, k: nat :|
        Text.PartAt(list, ',', i, l) && Text.TrimmedAt(list[i..l], j, k) && m == list[i..l][j..k]
      {
        Text.PartsExactly(list, ',', list[i..l]);
        Text.TrimExactly(list[i..l], m);
        var n :| 0 <= n < |parts| && parts[n] == list[i..l];
        assert methods[n] == m;
      }
    }
  }

  lemma ClusterIsOf(read: DestinationReader, s: Service)
    ensures BuildCluster(read, s).Some? ==> ClusterOf(read, BuildCluster(read, s).value, s)
    ensures BuildCluster(read, s).Some? <==> read(s.destinations).Some?
  {
    if read(s.destinations).Some? {
      var a := OrElse(read(s.destinations).value, []);
      DestinationsComplete(a, |a|);
      hide Destinations;
      forall i: nat | i < |a| ensures SlotOf(Destinations(a, |a|), i, a[i]) {
        assert DestinationName(i) == "destination" + Text.Numeral(i);
      }
    }
  }

  // ---------- the compilation, one policy at a time ----------

  /** First come, first served, on both ids. `None` is the exception of an unreadable destination list. */
  function Add(read: DestinationReader, c: ProxyConfig, p: EndpointPolicy): Option<ProxyConfig> {
    if RouteId(p) in c.routes then Some(c)
    else
      var routes := c.routes[RouteId(p) := BuildRoute(p)];
      if p.service.clusterId in c.clusters then Some(c.(routes := routes))
      else
        match BuildCluster(read, p.service)
        case None => None
        case Some(cluster) => Some(ProxyConfig(routes, c.clusters[p.service.clusterId := cluster]))
  }

  function Compile(read: DestinationReader, policies: seq<EndpointPolicy>): Option<ProxyConfig>
    decreases |policies|
  {
    if policies == [] then Some(ProxyConfig(map[], map[]))
    else
      match Compile(read, policies[..|policies| - 1])
      case None => None
      case Some(c) => Add(read, c, policies[|policies| - 1])
  }

  class DatabaseProxyConfigProvider {
    var config: ProxyConfig

    constructor ()
      ensures config == ProxyConfig(map[], map[])
    {
      config := ProxyConfig(map[], map[]);
    }

    method BuildClusterConfig(read: DestinationReader, s: Service) returns (r: Option<ClusterConfig>)
      ensures r == BuildCluster(read, s)
    {
      var parsed := read(s.destinations);
      if parsed.None? {
        return None;
      }
      var addresses := OrElse(parsed.value, []);
      var destinations: map<string, string> := map[];
      for i := 0 to |addresses|
        invariant destinations == Destinations(addresses, i)
      {
        destinations := destinations[DestinationName(i) := addresses[i]];
      }
      return Some(ClusterConfig(s.clusterId, destinations, s.tuning, s.id, s.serviceName));
    }

    /** Compile the policies in whatever order the dictionary yields them, and swap; a failure changes nothing. */
    method RefreshConfig(read: DestinationReader, policies: seq<EndpointPolicy>)
      modifies this
      ensures config == OrElse(Compile(read, policies), old(config))
      ensures RefreshedTo(read, policies, old(config), config)
    {
      CompiledIs(read, policies, config);
      hide RefreshedTo, BuildRoute, BuildCluster, RouteId;
      var routes: map<string, RouteConfig> := map[];
      var clusters: map<string, ClusterConfig> := map[];
      for i := 0 to |policies|
        invariant Compile(read, policies[..i]) == Some(ProxyConfig(routes, clusters))
        invariant config == old(config)
      {
        assert policies[..i + 1][..i] == policies[..i];
        var p := policies[i];
        if RouteId(p) !in routes {
          routes := routes[RouteId(p) := BuildRoute(p)];
          if p.service.clusterId !in clusters {
            var cluster := BuildClusterConfig(read, p.service);
            if cluster.None? {
              CompileFails(read, policies, i + 1);
              return;
            }
            clusters := clusters[p.service.clusterId := cluster.value];
          }
        }
      }
      assert policies[..|policies|] == policies;
      config := ProxyConfig(routes, clusters);
    }
  }

  lemma {:induction false} CompileFails(read: DestinationReader, policies: seq<EndpointPolicy>, n: nat)
    requires n <= |policies| && Compile(read, policies[..n]).None?
    ensures Compile(read, policies).None?
    decreases |policies| - n
  {
    if n == |policies| {
      assert policies[..n] == policies;
    } else {
      assert policies[..n + 1][..n] == policies[..n];
      CompileFails(read, policies, n + 1);
    }
  }

  // ---------- integrity ----------

  /** The route under an id comes from one of the policies and leads to a cluster. */
  ghost predicate RouteSound(policies: seq<EndpointPolicy>, c: ProxyConfig, id: string)
    requires id in c.routes
  {
    && c.routes[id].routeId == id
    && c.routes[id].clusterId in c.clusters
    && exists p :: p in policies && c.routes[id] == BuildRoute(p)
  }

  /** The cluster under an id comes from one of the policies and is led to by a route. */
  ghost predicate ClusterSound(read: DestinationReader, policies: seq<EndpointPolicy>, c: ProxyConfig, id: string)
    requires id in c.clusters
  {
    && c.clusters[id].clusterId == id
    && (exists r :: r in c.routes && c.routes[r].clusterId == id)
    && exists p :: p in policies && BuildCluster(read, p.service) == Some(c.clusters[id])
  }

  ghost predicate Sound(read: DestinationReader, policies: seq<EndpointPolicy>, c: ProxyConfig) {
    && (forall id :: id in c.routes ==> RouteSound(policies, c, id))
    && (forall id :: id in c.clusters ==> ClusterSound(read, policies, c, id))
    && (forall p :: p in policies ==> RouteId(p) in c.routes)
  }

  /** Every policy has a route under its id; every route names a built cluster; every cluster is used by a route. */
  lemma {:induction false} CompileSound(read: DestinationReader, policies: seq<EndpointPolicy>)
    requires Compile(read, policies).Some?
    ensures Sound(read, policies, Compile(read, policies).value)
    decreases |policies|
  {
    if policies != [] {
      var n := |policies| - 1;
      var before, p := policies[..n], policies[n];
      assert policies == before + [p];
      CompileSound(read, before);
      AddSound(read, before, Compile(read, before).value, p);
    }
  }

  ghost predicate RouteFrom(policies: seq<EndpointPolicy>, c: ProxyConfig, id: string)
    requires id in c.routes
  {
    && c.routes[id].routeId == id && c.routes[id].clusterId in c.clusters
    && exists p :: p in policies && RouteOf(c.routes[id], p)
  }

  ghost predicate ClusterFrom(read: DestinationReader, policies: seq<EndpointPolicy>, c: ProxyConfig, id: string)
    requires id in c.clusters
  {
    c.clusters[id].clusterId == id && exists p :: p in policies && ClusterOf(read, c.clusters[id], p.service)
  }

  predicate Routed(c: ProxyConfig, p: EndpointPolicy) {
    p.service.serviceName + "-" + p.endpoint.endpointName in c.routes
  }

  /** A configuration in the fields of the policies' rows: what its routes and clusters are, and what it has a route for. */
  ghost predicate CompiledFrom(read: DestinationReader, policies: seq<EndpointPolicy>, c: ProxyConfig) {
    && (forall id :: id in c.routes ==> RouteFrom(policies, c, id))
    && (forall id :: id in c.clusters ==> ClusterFrom(read, policies, c, id))
    && forall p :: p in policies ==> Routed(c, p)
  }

  /** A refresh gives such a configuration, or, at most when some list cannot be read, leaves the one before. */
  ghost predicate RefreshedTo(read: DestinationReader, policies: seq<EndpointPolicy>, before: ProxyConfig, c: ProxyConfig) {
    CompiledFrom(read, policies, c) || (c == before && exists p :: p in policies && read(p.service.destinations).None?)
  }

  lemma CompiledIs(read: DestinationReader, policies: seq<EndpointPolicy>, before: ProxyConfig)
    ensures RefreshedTo(read, policies, before, OrElse(Compile(read, policies), before))
  {
    if forall p :: p in policies ==> read(p.service.destinations).Some? {
      forall p | p in policies ensures Builds(read, p) {
        ClusterIsOf(read, p.service);
      }
      hide Compile;
      BuildsCompile(read, policies);
    }
    hide Compile, CompiledFrom, Sound;
    if Compile(read, policies).Some? {
      CompileSound(read, policies);
      SoundIsFrom(read, policies, Compile(read, policies).value);
    }
  }

  lemma SoundIsFrom(read: DestinationReader, policies: seq<EndpointPolicy>, c: ProxyConfig)
    requires Sound(read, policies, c)
    ensures CompiledFrom(read, policies, c)
  {
    hide RouteFrom, ClusterFrom, RouteSound, ClusterSound;
    forall id | id in c.routes ensures RouteFrom(policies, c, id) {
      RouteSoundIsFrom(policies, c, id);
    }
    forall id | id in c.clusters ensures ClusterFrom(read, policies, c, id) {
      ClusterSoundIsFrom(read, policies, c, id);
    }
  }

  lemma RouteSoundIsFrom(policies: seq<EndpointPolicy>, c: ProxyConfig, id: string)
    requires id in c.routes && RouteSound(policies, c, id)
    ensures RouteFrom(policies, c, id)
  {
    hide RouteOf, BuildRoute;
    var p :| p in policies && c.routes[id] == BuildRoute(p);
    RouteIsOf(p);
  }

  lemma ClusterSoundIsFrom(read: DestinationReader, policies: seq<EndpointPolicy>, c: ProxyConfig, id: string)
    requires id in c.clusters && ClusterSound(read, policies, c, id)
    ensures ClusterFrom(read, policies, c, id)
  {
    hide ClusterOf, BuildCluster;
    var p :| p in policies && BuildCluster(read, p.service) == Some(c.clusters[id]);
    ClusterIsOf(read, p.service);
  }

  lemma AddSound(read: DestinationReader, policies: seq<EndpointPolicy>, c: ProxyConfig, p: EndpointPolicy)
    requires Sound(read, policies, c) && Add(read, c, p).Some?
    ensures Sound(read, policies + [p], Add(read, c, p).value)
  {
    hide Add, RouteId, RouteSound, ClusterSound;
    AddKeys(read, c, p);
    var c' := Add(read, c, p).value;
    forall id | id in c'.routes ensures RouteSound(policies + [p], c', id) {
      AddRouteSound(read, policies, c, p, id);
    }
    forall id | id in c'.clusters ensures ClusterSound(read, policies + [p], c', id) {
      AddClusterSound(read, policies, c, p, id);
    }
  }

  lemma AddKeys(read: DestinationReader, c: ProxyConfig, p: EndpointPolicy)
    requires Add(read, c, p).Some?
    ensures Add(read, c, p).value.routes.Keys == c.routes.Keys + {RouteId(p)}
  {
    hide BuildRoute, BuildCluster;
  }

  lemma BuiltFacts(read: DestinationReader, p: EndpointPolicy)
    ensures BuildRoute(p).routeId == RouteId(p) && BuildRoute(p).clusterId == p.service.clusterId
    ensures BuildCluster(read, p.service).Some? ==>
      BuildCluster(read, p.service).value.clusterId == p.service.clusterId
  {
  }

  lemma AddRouteSound(read: DestinationReader, policies: seq<EndpointPolicy>, c: ProxyConfig, p: EndpointPolicy, id: string)
    requires Add(read, c, p).Some? && id in Add(read, c, p).value.routes
    requires id in c.routes ==> RouteSound(policies, c, id)
    ensures RouteSound(policies + [p], Add(read, c, p).value, id)
  {
    hide BuildRoute, BuildCluster, RouteId;
    BuiltFacts(read, p);
    var all := policies + [p];
    assert p in all;
    if id in c.routes {
      var q :| q in policies && c.routes[id] == BuildRoute(q);
      assert q in all;
    }
  }

  lemma AddClusterSound(read: DestinationReader, policies: seq<EndpointPolicy>, c: ProxyConfig, p: EndpointPolicy, id: string)
    requires Add(read, c, p).Some? && id in Add(read, c, p).value.clusters
    requires id in c.clusters ==> ClusterSound(read, policies, c, id)
    ensures ClusterSound(read, policies + [p], Add(read, c, p).value, id)
  {
    hide BuildRoute, BuildCluster, RouteId;
    BuiltFacts(read, p);
    var all, c' := policies + [p], Add(read, c, p).value;
    assert p in all;
    if id in c.clusters {
      var r :| r in c.routes && c.routes[r].clusterId == id;
      assert r in c'.routes && c'.routes[r] == c.routes[r];
      var q :| q in policies && BuildCluster(read, q.service) == Some(c.clusters[id]);
      assert q in all;
    } else {
      assert c'.routes[RouteId(p)].clusterId == id;
    }
  }

  // ---------- order ----------

  /** A listing of the dictionary: each key once. */
  ghost predicate Lists(order: seq<string>, snapshot: map<string, EndpointPolicy>) {
    NoRepeats(order) && forall k :: k in order <==> k in snapshot
  }

  ghost predicate NoRepeats(keys: seq<string>) {
    forall i, j :: 0 <= i < j < |keys| ==> keys[i] != keys[j]
  }

  function Values(order: seq<string>, snapshot: map<string, EndpointPolicy>): seq<EndpointPolicy>
    requires forall k :: k in order ==> k in snapshot
  {
    seq(|order|, i requires 0 <= i < |order| => snapshot[order[i]])
  }

  ghost predicate OrderIndependent(read: DestinationReader, snapshot: map<string, EndpointPolicy>) {
    forall a, b :: Lists(a, snapshot) && Lists(b, snapshot) ==>
      Compile(read, Values(a, snapshot)) == Compile(read, Values(b, snapshot))
  }

  ghost predicate SameRoute(p: EndpointPolicy, q: EndpointPolicy) {
    RouteId(p) == RouteId(q) ==> BuildRoute(p) == BuildRoute(q)
  }

  ghost predicate SameCluster(read: DestinationReader, p: EndpointPolicy, q: EndpointPolicy) {
    p.service.clusterId == q.service.clusterId ==> BuildCluster(read, p.service) == BuildCluster(read, q.service)
  }

  /** Policies that share a route id build the same route, and those that share a cluster id the same cluster. */
  ghost predicate Consistent(read: DestinationReader, policies: set<EndpointPolicy>) {
    forall p, q :: p in policies && q in policies ==> SameRoute(p, q) && SameCluster(read, p, q)
  }

  ghost predicate Builds(read: DestinationReader, p: EndpointPolicy) {
    BuildCluster(read, p.service).Some?
  }

  function Elements(policies: seq<EndpointPolicy>): set<EndpointPolicy> {
    set p | p in policies
  }

  /** A configuration serves a policy by its own route and its own cluster. */
  ghost predicate Serves(read: DestinationReader, c: ProxyConfig, p: EndpointPolicy) {
    && RouteId(p) in c.routes && c.routes[RouteId(p)] == BuildRoute(p)
    && p.service.clusterId in c.clusters && Some(c.clusters[p.service.clusterId]) == BuildCluster(read, p.service)
  }

  function RouteIds(policies: set<EndpointPolicy>): set<string> {
    set p | p in policies :: RouteId(p)
  }

  function ClusterIds(policies: set<EndpointPolicy>): set<string> {
    set p | p in policies :: p.service.clusterId
  }

  /** The result of consistent policies, with no mention of their order. */
  ghost predicate Canonical(read: DestinationReader, policies: set<EndpointPolicy>, r: Option<ProxyConfig>) {
    && (r.Some? <==> forall p :: p in policies ==> Builds(read, p))
    && (r.Some? ==>
      && r.value.routes.Keys == RouteIds(policies)
      && r.value.clusters.Keys == ClusterIds(policies)
      && forall p :: p in policies ==> Serves(read, r.value, p))
  }

  lemma {:induction false} CompileCanonical(read: DestinationReader, policies: seq<EndpointPolicy>)
    requires Consistent(read, Elements(policies))
    ensures Canonical(read, Elements(policies), Compile(read, policies))
    decreases |policies|
  {
    hide Add, Serves, Builds, SameRoute, SameCluster;
    if policies == [] {
      assert Elements(policies) == {};
    } else {
      var n := |policies| - 1;
      var before, p := policies[..n], policies[n];
      assert policies == before + [p];
      assert Elements(policies) == Elements(before) + {p};
      CompileCanonical(read, before);
      var r := Compile(read, before);
      if r.Some? {
        AddCanonical(read, Elements(before), r.value, p);
      } else {
        var q :| q in Elements(before) && !Builds(read, q);
        assert q in Elements(policies);
      }
    }
  }

  lemma AddCanonical(read: DestinationReader, policies: set<EndpointPolicy>, c: ProxyConfig, p: EndpointPolicy)
    requires Consistent(read, policies + {p})
    requires Canonical(read, policies, Some(c))
    ensures Canonical(read, policies + {p}, Add(read, c, p))
  {
    hide BuildRoute, BuildCluster, RouteId, Serves, SameRoute, SameCluster;
    var all := policies + {p};
    var r := Add(read, c, p);
    assert p in all;
    ConsistentAdd(read, policies, c, p);
    AddServes(read, policies, c, p);
    assert RouteIds(all) == RouteIds(policies) + {RouteId(p)};
    assert ClusterIds(all) == ClusterIds(policies) + {p.service.clusterId};
  }

  lemma AddServes(read: DestinationReader, policies: set<EndpointPolicy>, c: ProxyConfig, p: EndpointPolicy)
    requires Consistent(read, policies + {p})
    requires Canonical(read, policies, Some(c))
    ensures var r := Add(read, c, p);
      && (r.Some? <==> Builds(read, p))
      && (r.Some? ==> forall q :: q in policies + {p} ==> Serves(read, r.value, q))
      && (r.Some? ==> r.value.routes.Keys == c.routes.Keys + {RouteId(p)})
      && (r.Some? ==> r.value.clusters.Keys == c.clusters.Keys + {p.service.clusterId})
  {
    hide BuildRoute, BuildCluster, RouteId, Canonical, RouteIds, ClusterIds;
    ConsistentAdd(read, policies, c, p);
    CanonicalServes(read, policies, c);
    var r := Add(read, c, p);
    if r.Some? {
      forall q | q in policies + {p} ensures Serves(read, r.value, q) {
        assert SameRoute(q, p) && SameCluster(read, q, p);
      }
    }
  }

  lemma CanonicalServes(read: DestinationReader, policies: set<EndpointPolicy>, c: ProxyConfig)
    requires Canonical(read, policies, Some(c))
    ensures forall q :: q in policies ==> Serves(read, c, q)
  {
  }

  /** A policy whose route or cluster is there already is served by what is there. */
  lemma ConsistentAdd(read: DestinationReader, policies: set<EndpointPolicy>, c: ProxyConfig, p: EndpointPolicy)
    requires Consistent(read, policies + {p})
    requires Canonical(read, policies, Some(c))
    ensures RouteId(p) in c.routes ==> Serves(read, c, p)
    ensures p.service.clusterId in c.clusters ==> Some(c.clusters[p.service.clusterId]) == BuildCluster(read, p.service)
  {
    assert p in policies + {p};
    if RouteId(p) in c.routes {
      var q :| q in policies && RouteId(q) == RouteId(p);
      assert q in policies + {p};
      assert Serves(read, c, q) && SameRoute(q, p);
      assert BuildRoute(p).clusterId == BuildRoute(q).clusterId;
      assert SameCluster(read, q, p);
    }
    if p.service.clusterId in c.clusters {
      var q :| q in policies && q.service.clusterId == p.service.clusterId;
      assert q in policies + {p};
      assert Serves(read, c, q) && SameCluster(read, q, p);
    }
  }

  lemma CanonicalUnique(read: DestinationReader, policies: set<EndpointPolicy>, r: Option<ProxyConfig>, r': Option<ProxyConfig>)
    requires Canonical(read, policies, r) && Canonical(read, policies, r')
    ensures r == r'
  {
    hide BuildRoute, BuildCluster, RouteId, Serves, Builds;
    if r.Some? {
      var c, c' := r.value, r'.value;
      forall id | id in c.routes ensures c.routes[id] == c'.routes[id] {
        var p :| p in policies && RouteId(p) == id;
        ServedAlike(read, c, c', p);
      }
      assert c.routes == c'.routes;
      forall id | id in c.clusters ensures c.clusters[id] == c'.clusters[id] {
        var p :| p in policies && p.service.clusterId == id;
        ServedAlike(read, c, c', p);
      }
      assert c.clusters == c'.clusters;
    }
  }

  lemma ServedAlike(read: DestinationReader, c: ProxyConfig, c': ProxyConfig, p: EndpointPolicy)
    requires Serves(read, c, p) && Serves(read, c', p)
    ensures RouteId(p) in c.routes && RouteId(p) in c'.routes && c.routes[RouteId(p)] == c'.routes[RouteId(p)]
    ensures var id := p.service.clusterId;
      id in c.clusters && id in c'.clusters && c.clusters[id] == c'.clusters[id]
  {
    hide BuildRoute, BuildCluster, RouteId;
  }

  lemma ValuesElements(order: seq<string>, snapshot: map<string, EndpointPolicy>)
    requires Lists(order, snapshot)
    ensures Elements(Values(order, snapshot)) == snapshot.Values
  {
    var vs := Values(order, snapshot);
    forall p ensures p in vs <==> p in snapshot.Values {
      if p in vs {
        var i :| 0 <= i < |vs| && vs[i] == p;
        assert order[i] in snapshot && snapshot[order[i]] == p;
      }
      if p in snapshot.Values {
        var k :| k in snapshot && snapshot[k] == p;
        var i :| 0 <= i < |order| && order[i] == k;
        assert vs[i] == p;
      }
    }
  }

  lemma ConsistentIsOrderIndependent(read: DestinationReader, snapshot: map<string, EndpointPolicy>)
    requires Consistent(read, snapshot.Values)
    ensures OrderIndependent(read, snapshot)
  {
    forall a, b | Lists(a, snapshot) && Lists(b, snapshot)
      ensures Compile(read, Values(a, snapshot)) == Compile(read, Values(b, snapshot))
    {
      ValuesElements(a, snapshot);
      ValuesElements(b, snapshot);
      CompileCanonical(read, Values(a, snapshot));
      CompileCanonical(read, Values(b, snapshot));
      CanonicalUnique(read, snapshot.Values, Compile(read, Values(a, snapshot)), Compile(read, Values(b, snapshot)));
    }
  }

  /**
   * When a route id names one endpoint of one service and a cluster id belongs to one service, every enumeration
   * order of the dictionary gives the same routes and clusters.
   */
  lemma DistinctIdsOrderIndependent(read: DestinationReader, snapshot: map<string, EndpointPolicy>)
    requires RouteIdsInjective(snapshot)
    requires forall k, l ::
      (k in snapshot && l in snapshot && snapshot[k].service.clusterId == snapshot[l].service.clusterId) ==>
        snapshot[k].service == snapshot[l].service
    ensures OrderIndependent(read, snapshot)
  {
    forall p, q | p in snapshot.Values && q in snapshot.Values
      ensures SameRoute(p, q) && SameCluster(read, p, q)
    {
      var k :| k in snapshot && snapshot[k] == p;
      var l :| l in snapshot && snapshot[l] == q;
    }
    hide SameRoute, SameCluster;
    ConsistentIsOrderIndependent(read, snapshot);
  }

  /** Some listing of the keys begins with a given one. */
  lemma {:induction false} ListingFrom(keys: set<string>, first: string) returns (order: seq<string>)
    requires first in keys
    ensures |order| >= 1 && order[0] == first
    ensures NoRepeats(order) && forall k :: k in order <==> k in keys
    decreases keys
  {
    var rest := keys - {first};
    if rest == {} {
      order := [first];
    } else {
      var next :| next in rest;
      var tail := ListingFrom(rest, next);
      order := [first] + tail;
    }
  }

  /** The first policy compiled keeps its route and its cluster. */
  lemma {:induction false} FirstWins(read: DestinationReader, policies: seq<EndpointPolicy>)
    requires policies != [] && Compile(read, policies).Some?
    ensures var c, p := Compile(read, policies).value, policies[0];
      && RouteId(p) in c.routes && c.routes[RouteId(p)] == BuildRoute(p)
      && p.service.clusterId in c.clusters && Some(c.clusters[p.service.clusterId]) == BuildCluster(read, p.service)
    decreases |policies|
  {
    var before := policies[..|policies| - 1];
    if before == [] {
      assert Compile(read, before) == Some(ProxyConfig(map[], map[]));
    } else {
      FirstWins(read, before);
    }
  }

  lemma {:induction false} BuildsCompile(read: DestinationReader, policies: seq<EndpointPolicy>)
    requires forall p :: p in policies ==> Builds(read, p)
    ensures Compile(read, policies).Some?
    decreases |policies|
  {
    if policies != [] {
      BuildsCompile(read, policies[..|policies| - 1]);
      assert policies[|policies| - 1] in policies;
    }
  }

  lemma ReadableOrderIndependentIff(read: DestinationReader, snapshot: map<string, EndpointPolicy>)
    requires forall p :: p in snapshot.Values ==> Builds(read, p)
    ensures OrderIndependent(read, snapshot) <==> Consistent(read, snapshot.Values)
  {
    if OrderIndependent(read, snapshot) {
      forall p, q | p in snapshot.Values && q in snapshot.Values
        ensures SameRoute(p, q) && SameCluster(read, p, q)
      {
        var k :| k in snapshot && snapshot[k] == p;
        var l :| l in snapshot && snapshot[l] == q;
        var a := ListingFrom(snapshot.Keys, k);
        var b := ListingFrom(snapshot.Keys, l);
        var as_, bs := Values(a, snapshot), Values(b, snapshot);
        ValuesElements(a, snapshot);
        ValuesElements(b, snapshot);
        BuildsCompile(read, as_);
        BuildsCompile(read, bs);
        FirstWins(read, as_);
        FirstWins(read, bs);
        assert as_[0] == p && bs[0] == q;
        assert Compile(read, as_) == Compile(read, bs);
      }
    } else if Consistent(read, snapshot.Values) {
      ConsistentIsOrderIndependent(read, snapshot);
    }
  }

  // ---------- destination lists that cannot be read ----------

  /** The policies that come first under their route ids, by route id. */
  type Choice = map<string, EndpointPolicy>

  predicate IsChosen(first: Choice, p: EndpointPolicy) {
    RouteId(p) in first && first[RouteId(p)] == p
  }

  /** One of the chosen has a cluster id and a readable list. */
  ghost predicate Source(read: DestinationReader, first: Choice, clusterId: string) {
    exists j :: j in first && Builds(read, first[j]) && first[j].service.clusterId == clusterId
  }

  /**
   * One policy is chosen for each route id, and the cluster of each has a readable list among the chosen: the policies
   * that come first in an enumeration that does not fail.
   */
  ghost predicate Viable(read: DestinationReader, policies: set<EndpointPolicy>, first: Choice) {
    && (forall p :: p in policies ==> RouteId(p) in first)
    && (forall id :: id in first ==> Stands(read, policies, first, id))
  }

  ghost predicate Stands(read: DestinationReader, policies: set<EndpointPolicy>, first: Choice, id: string)
    requires id in first
  {
    first[id] in policies && RouteId(first[id]) == id && Source(read, first, first[id].service.clusterId)
  }

  function Firsts(policies: seq<EndpointPolicy>): Choice {
    if policies == [] then map[]
    else
      var before, p := Firsts(policies[..|policies| - 1]), policies[|policies| - 1];
      if RouteId(p) in before then before else before[RouteId(p) := p]
  }

  /** What one policy does to the ids, and when it fails. */
  lemma AddOutcome(read: DestinationReader, c: ProxyConfig, p: EndpointPolicy)
    ensures var r := Add(read, c, p);
      && (r.Some? <==> RouteId(p) in c.routes || p.service.clusterId in c.clusters || Builds(read, p))
      && (r.Some? ==>
        && r.value.routes == (if RouteId(p) in c.routes then c.routes else c.routes[RouteId(p) := BuildRoute(p)])
        && r.value.routes.Keys == c.routes.Keys + {RouteId(p)}
        && r.value.clusters.Keys == c.clusters.Keys + if RouteId(p) in c.routes then {} else {p.service.clusterId})
  {
    hide BuildRoute, BuildCluster;
  }

  /** The policies that came first in an enumeration that compiled are a viable choice. */
  lemma {:induction false} FirstsViable(read: DestinationReader, policies: seq<EndpointPolicy>)
    requires Compile(read, policies).Some?
    ensures Compile(read, policies).value.routes.Keys == Firsts(policies).Keys
    ensures forall id :: id in Firsts(policies) ==>
      Compile(read, policies).value.routes[id] == BuildRoute(Firsts(policies)[id])
    ensures forall k :: k in Compile(read, policies).value.clusters ==> Source(read, Firsts(policies), k)
    ensures Viable(read, Elements(policies), Firsts(policies))
    decreases |policies|
  {
    hide Viable, Source, RouteId, Add;
    if policies == [] {
      NoneViable(read);
    } else {
      var before, p := policies[..|policies| - 1], policies[|policies| - 1];
      FirstsViable(read, before);
      ElementsExtended(before, p);
      assert policies == before + [p];
      var c := Compile(read, before).value;
      AddOutcome(read, c, p);
      if RouteId(p) in c.routes {
        StillViable(read, Elements(before), Firsts(before), p);
      } else {
        NowViable(read, Elements(before), Firsts(before), p);
        forall k | k in c.clusters || k == p.service.clusterId ensures Source(read, Firsts(policies), k) {
          if k in c.clusters {
            SourceStays(read, Firsts(before), p, k);
          }
        }
      }
    }
  }

  lemma ElementsExtended(before: seq<EndpointPolicy>, p: EndpointPolicy)
    ensures Elements(before + [p]) == Elements(before) + {p}
  {
  }

  lemma NoneViable(read: DestinationReader)
    ensures Viable(read, Elements([]), map[])
  {
  }

  lemma StillViable(read: DestinationReader, policies: set<EndpointPolicy>, first: Choice, p: EndpointPolicy)
    requires Viable(read, policies, first) && RouteId(p) in first
    ensures Viable(read, policies + {p}, first)
  {
    hide RouteId, Source;
    forall id | id in first ensures Stands(read, policies + {p}, first, id) {
      assert Stands(read, policies, first, id);
    }
  }

  lemma SourceStays(read: DestinationReader, first: Choice, p: EndpointPolicy, k: string)
    requires Source(read, first, k) && RouteId(p) !in first
    ensures Source(read, first[RouteId(p) := p], k)
  {
    hide RouteId, Builds;
    var j :| j in first && Builds(read, first[j]) && first[j].service.clusterId == k;
    assert first[RouteId(p) := p][j] == first[j];
  }

  lemma NowViable(read: DestinationReader, policies: set<EndpointPolicy>, first: Choice, p: EndpointPolicy)
    requires Viable(read, policies, first) && RouteId(p) !in first
    requires Builds(read, p) || Source(read, first, p.service.clusterId)
    ensures Viable(read, policies + {p}, first[RouteId(p) := p])
    ensures Source(read, first[RouteId(p) := p], p.service.clusterId)
  {
    var first' := first[RouteId(p) := p];
    hide RouteId, Builds;
    if Builds(read, p) {
      assert first'[RouteId(p)] == p;
    } else {
      SourceStays(read, first, p, p.service.clusterId);
    }
    hide Source;
    forall id | id in first' ensures Stands(read, policies + {p}, first', id) {
      if id in first {
        assert Stands(read, policies, first, id);
        SourceStays(read, first, p, first[id].service.clusterId);
      }
    }
  }

  // ---------- an enumeration for a viable choice ----------

  ghost predicate Earlier(policies: seq<EndpointPolicy>, n: nat, id: string)
    requires n <= |policies|
  {
    exists i :: 0 <= i < n && RouteId(policies[i]) == id
  }

  ghost predicate Among(policies: seq<EndpointPolicy>, n: nat, p: EndpointPolicy)
    requires n <= |policies|
  {
    exists i :: 0 <= i < n && policies[i] == p
  }

  /** Where an enumeration that begins with the chosen policies has got to. */
  ghost predicate Got(policies: seq<EndpointPolicy>, n: nat, chosen: nat, r: Option<ProxyConfig>)
    requires n <= |policies|
  {
    && r.Some?
    && (forall i :: 0 <= i < n && i < chosen ==> InPlace(r.value, policies[i]))
    && (forall id :: id in r.value.routes ==> Earlier(policies, n, id))
  }

  predicate InPlace(c: ProxyConfig, p: EndpointPolicy) {
    RouteId(p) in c.routes && p.service.clusterId in c.clusters
  }

  /** The first `readable` policies are the chosen ones with readable lists, the first `chosen` all the chosen ones. */
  ghost predicate Phased(read: DestinationReader, policies: seq<EndpointPolicy>, first: Choice, readable: nat, chosen: nat) {
    && readable <= chosen <= |policies|
    && (forall i :: 0 <= i < chosen ==> IsChosen(first, policies[i]))
    && (forall i :: 0 <= i < readable ==> Builds(read, policies[i]))
    && (forall id :: id in first ==> Among(policies, chosen, first[id]))
    && (forall id :: id in first ==> Builds(read, first[id]) ==> Among(policies, readable, first[id]))
  }

  lemma {:induction false} PhasedCompiles(read: DestinationReader, policies: seq<EndpointPolicy>, first: Choice,
                                          readable: nat, chosen: nat, n: nat)
    requires Phased(read, policies, first, readable, chosen) && Viable(read, Elements(policies), first)
    requires n <= |policies|
    ensures Got(policies, n, chosen, Compile(read, policies[..n]))
  {
    hide Phased, Viable, Add, Earlier, InPlace;
    if n > 0 {
      PhasedCompiles(read, policies, first, readable, chosen, n - 1);
      assert policies[..n][..n - 1] == policies[..n - 1];
      var c := Compile(read, policies[..n - 1]).value;
      PhasedStep(read, policies, first, readable, chosen, n - 1, c);
      hide Got;
    }
  }

  lemma PhasedStep(read: DestinationReader, policies: seq<EndpointPolicy>, first: Choice,
                   readable: nat, chosen: nat, n: nat, c: ProxyConfig)
    requires Phased(read, policies, first, readable, chosen) && Viable(read, Elements(policies), first)
    requires n < |policies| && Got(policies, n, chosen, Some(c))
    ensures Got(policies, n + 1, chosen, Add(read, c, policies[n]))
  {
    AddOutcome(read, c, policies[n]);
    if n < chosen {
      ChosenAdds(read, policies, first, readable, chosen, n, c);
    } else {
      OtherSkipped(read, policies, first, readable, chosen, n, c);
    }
    hide Viable, Phased, Builds, Add, Got;
    GotOn(policies, n, chosen, c, Add(read, c, policies[n]).value);
  }

  lemma GotOn(policies: seq<EndpointPolicy>, n: nat, chosen: nat, c: ProxyConfig, c': ProxyConfig)
    requires n < |policies| && Got(policies, n, chosen, Some(c))
    requires c'.routes.Keys == c.routes.Keys + {RouteId(policies[n])} && c.clusters.Keys <= c'.clusters.Keys
    requires n < chosen ==> policies[n].service.clusterId in c'.clusters
    ensures Got(policies, n + 1, chosen, Some(c'))
  {
    EarlierExtends(policies, n, c);
    hide RouteId, Earlier;
    forall i | 0 <= i < n + 1 && i < chosen ensures InPlace(c', policies[i]) {
      if i < n {
        assert InPlace(c, policies[i]);
      }
    }
  }

  lemma EarlierExtends(policies: seq<EndpointPolicy>, n: nat, c: ProxyConfig)
    requires n < |policies| && forall id :: id in c.routes ==> Earlier(policies, n, id)
    ensures forall id :: id in c.routes || id == RouteId(policies[n]) ==> Earlier(policies, n + 1, id)
  {
    hide RouteId;
    forall id | id in c.routes ensures Earlier(policies, n + 1, id) {
      assert Earlier(policies, n, id);
    }
  }

  /** A policy that is not chosen finds the route of the chosen one with its id. */
  lemma OtherSkipped(read: DestinationReader, policies: seq<EndpointPolicy>, first: Choice,
                     readable: nat, chosen: nat, n: nat, c: ProxyConfig)
    requires Phased(read, policies, first, readable, chosen) && Viable(read, Elements(policies), first)
    requires chosen <= n < |policies| && Got(policies, n, chosen, Some(c))
    ensures RouteId(policies[n]) in c.routes
  {
    var id := RouteId(policies[n]);
    assert policies[n] in Elements(policies);
    assert Stands(read, Elements(policies), first, id);
    hide Builds, Source, RouteId, Viable;
    assert Among(policies, chosen, first[id]);
    var i :| 0 <= i < chosen && policies[i] == first[id];
    assert InPlace(c, policies[i]);
  }

  /** A chosen policy finds its cluster, or its own route and cluster, in place, or has a readable list. */
  lemma ChosenAdds(read: DestinationReader, policies: seq<EndpointPolicy>, first: Choice,
                   readable: nat, chosen: nat, n: nat, c: ProxyConfig)
    requires Phased(read, policies, first, readable, chosen) && Viable(read, Elements(policies), first)
    requires n < chosen && Got(policies, n, chosen, Some(c))
    ensures var p := policies[n];
      && (RouteId(p) in c.routes ==> p.service.clusterId in c.clusters)
      && (p.service.clusterId in c.clusters || Builds(read, p))
  {
    var p := policies[n];
    assert IsChosen(first, p);
    assert Stands(read, Elements(policies), first, RouteId(p));
    hide RouteId, Builds, Viable;
    if RouteId(p) in c.routes {
      assert Earlier(policies, n, RouteId(p));
      var i :| 0 <= i < n && RouteId(policies[i]) == RouteId(p);
      assert IsChosen(first, policies[i]) && InPlace(c, policies[i]);
    } else if n >= readable {
      hide Got, IsChosen, Earlier, InPlace;
      SourceInPlace(read, policies, first, readable, chosen, n, c, p.service.clusterId);
    }
  }

  /** Past the readable ones, every cluster id with a readable list among the chosen is in place. */
  lemma SourceInPlace(read: DestinationReader, policies: seq<EndpointPolicy>, first: Choice,
                      readable: nat, chosen: nat, n: nat, c: ProxyConfig, clusterId: string)
    requires Phased(read, policies, first, readable, chosen) && Source(read, first, clusterId)
    requires readable <= n < chosen && Got(policies, n, chosen, Some(c))
    ensures clusterId in c.clusters
  {
    hide RouteId, Builds, IsChosen, Earlier;
    var j :| j in first && Builds(read, first[j]) && first[j].service.clusterId == clusterId;
    assert Among(policies, readable, first[j]);
    var i :| 0 <= i < readable && policies[i] == first[j];
    assert InPlace(c, policies[i]);
  }

  /** A viable choice gives an enumeration that compiles. */
  lemma ViableCompiles(read: DestinationReader, snapshot: map<string, EndpointPolicy>, first: Choice)
    returns (order: seq<string>)
    requires Viable(read, snapshot.Values, first)
    ensures Lists(order, snapshot) && Compile(read, Values(order, snapshot)).Some?
    ensures Agree(Firsts(Values(order, snapshot)), first)
  {
    hide Viable, Elements, Builds, Phased, Compile, IsChosen, Got;
    var a := Listing(set k | k in snapshot && IsChosen(first, snapshot[k]) && Builds(read, snapshot[k]));
    var b := Listing(set k | k in snapshot && IsChosen(first, snapshot[k]) && !Builds(read, snapshot[k]));
    var c := Listing(set k | k in snapshot && !IsChosen(first, snapshot[k]));
    order := a + (b + c);
    Concatenated(b, c);
    Concatenated(a, b + c);
    hide NoRepeats;
    ValuesElements(order, snapshot);
    InPhases(read, snapshot, first, a, b, c);
    PhasesCompile(read, Values(order, snapshot), first, |a|, |a| + |b|);
  }

  lemma PhasesCompile(read: DestinationReader, policies: seq<EndpointPolicy>, first: Choice, readable: nat, chosen: nat)
    requires Phased(read, policies, first, readable, chosen) && Viable(read, Elements(policies), first)
    ensures Compile(read, policies).Some? && Agree(Firsts(policies), first)
  {
    PhasedCompiles(read, policies, first, readable, chosen, |policies|);
    assert policies[..|policies|] == policies;
    hide Compile, Got;
    PhasedFirsts(read, policies, first, readable, chosen, |policies|);
  }

  ghost predicate Agree(a: Choice, b: Choice) {
    forall id :: id in a ==> id in b && a[id] == b[id]
  }

  lemma {:induction false} FirstsHold(policies: seq<EndpointPolicy>, n: nat, i: nat)
    requires i < n <= |policies|
    ensures RouteId(policies[i]) in Firsts(policies[..n])
    decreases n
  {
    hide RouteId;
    assert policies[..n][..n - 1] == policies[..n - 1];
    if i < n - 1 {
      FirstsHold(policies, n - 1, i);
    }
  }

  /** In such an enumeration the chosen ones do come first. */
  lemma {:induction false} PhasedFirsts(read: DestinationReader, policies: seq<EndpointPolicy>, first: Choice,
                                        readable: nat, chosen: nat, n: nat)
    requires Phased(read, policies, first, readable, chosen) && Viable(read, Elements(policies), first)
    requires n <= |policies|
    ensures Agree(Firsts(policies[..n]), first)
  {
    hide Phased, Viable, Elements, Firsts, Agree;
    if n == 0 {
      NoneAgree(policies, first);
    } else {
      PhasedFirsts(read, policies, first, readable, chosen, n - 1);
      FirstOrKnown(read, policies, first, readable, chosen, n - 1);
      FirstsOn(policies, first, n - 1);
    }
  }

  lemma NoneAgree(policies: seq<EndpointPolicy>, first: Choice)
    ensures Agree(Firsts(policies[..0]), first)
  {
  }

  lemma FirstOrKnown(read: DestinationReader, policies: seq<EndpointPolicy>, first: Choice,
                     readable: nat, chosen: nat, n: nat)
    requires Phased(read, policies, first, readable, chosen) && Viable(read, Elements(policies), first)
    requires n < |policies|
    ensures RouteId(policies[n]) in Firsts(policies[..n]) || IsChosen(first, policies[n])
  {
    if n >= chosen {
      var id := RouteId(policies[n]);
      assert policies[n] in Elements(policies);
      assert Stands(read, Elements(policies), first, id);
      hide Builds, Source, RouteId, Viable, Firsts;
      assert Among(policies, chosen, first[id]);
      var i :| 0 <= i < chosen && policies[i] == first[id];
      FirstsHold(policies, n, i);
    }
  }

  lemma FirstsOn(policies: seq<EndpointPolicy>, first: Choice, n: nat)
    requires n < |policies| && Agree(Firsts(policies[..n]), first)
    requires RouteId(policies[n]) in Firsts(policies[..n]) || IsChosen(first, policies[n])
    ensures Agree(Firsts(policies[..n + 1]), first)
  {
    assert policies[..n + 1][..n] == policies[..n];
    hide RouteId;
  }

  lemma Concatenated(a: seq<string>, b: seq<string>)
    requires NoRepeats(a) && NoRepeats(b) && forall k :: k in a ==> k !in b
    ensures NoRepeats(a + b) && forall k :: k in a + b <==> k in a || k in b
  {
    forall i, j | 0 <= i < j < |a + b| ensures (a + b)[i] != (a + b)[j] {
      if i < |a| <= j {
        assert a[i] in a && b[j - |a|] in b;
      }
    }
  }

  lemma ChosenIs(read: DestinationReader, policies: set<EndpointPolicy>, first: Choice, id: string)
    requires Viable(read, policies, first) && id in first
    ensures first[id] in policies && IsChosen(first, first[id])
  {
    assert Stands(read, policies, first, id);
  }

  lemma InPhases(read: DestinationReader, snapshot: map<string, EndpointPolicy>, first: Choice,
                 a: seq<string>, b: seq<string>, c: seq<string>)
    requires Viable(read, snapshot.Values, first) && Lists(a + (b + c), snapshot)
    requires forall k :: k in a <==> k in snapshot && IsChosen(first, snapshot[k]) && Builds(read, snapshot[k])
    requires forall k :: k in b <==> k in snapshot && IsChosen(first, snapshot[k]) && !Builds(read, snapshot[k])
    ensures Phased(read, Values(a + (b + c), snapshot), first, |a|, |a| + |b|)
  {
    hide Builds, IsChosen, Viable;
    var order := a + (b + c);
    var vs := Values(order, snapshot);
    forall i | 0 <= i < |a| ensures vs[i] == snapshot[a[i]] && IsChosen(first, vs[i]) && Builds(read, vs[i]) {
      assert a[i] in a && order[i] == a[i];
    }
    forall i | 0 <= i < |b| ensures vs[|a| + i] == snapshot[b[i]] && IsChosen(first, vs[|a| + i]) {
      assert b[i] in b && order[|a| + i] == b[i];
    }
    forall i | 0 <= i < |a| + |b| ensures IsChosen(first, vs[i]) {
      assert i >= |a| ==> IsChosen(first, vs[|a| + (i - |a|)]);
    }
    forall id | id in first
      ensures Among(vs, |a| + |b|, first[id]) && (Builds(read, first[id]) ==> Among(vs, |a|, first[id]))
    {
      ChosenIs(read, snapshot.Values, first, id);
      var k :| k in snapshot && snapshot[k] == first[id];
      if Builds(read, first[id]) {
        var i :| 0 <= i < |a| && a[i] == k;
        assert vs[i] == first[id];
      } else {
        var i :| 0 <= i < |b| && b[i] == k;
        assert vs[|a| + i] == first[id];
      }
    }
  }

  lemma Listing(keys: set<string>) returns (order: seq<string>)
    ensures NoRepeats(order) && forall k :: k in order <==> k in keys
  {
    if keys == {} {
      order := [];
    } else {
      var k :| k in keys;
      order := ListingFrom(keys, k);
    }
  }

  /**
   * The compiled configuration does not depend on the order the dictionary is listed in exactly when, every list being
   * readable, policies agree: the same route id builds the same route, the same cluster id the same cluster; or when,
   * some list being unreadable, no choice of first policies is viable, so that every order fails.
   */
  lemma OrderIndependentIff(read: DestinationReader, snapshot: map<string, EndpointPolicy>)
    ensures OrderIndependent(read, snapshot) <==>
      if forall p :: p in snapshot.Values ==> Builds(read, p) then Consistent(read, snapshot.Values)
      else !exists first: Choice :: Viable(read, snapshot.Values, first)
  {
    if forall p :: p in snapshot.Values ==> Builds(read, p) {
      ReadableOrderIndependentIff(read, snapshot);
    } else {
      hide Viable, Builds, Consistent, Lists;
      var p :| p in snapshot.Values && !Builds(read, p);
      var failing := FailingOrder(read, snapshot, p);
      if first: Choice :| Viable(read, snapshot.Values, first) {
        var order := ViableCompiles(read, snapshot, first);
        assert Compile(read, Values(order, snapshot)) != Compile(read, Values(failing, snapshot));
      } else {
        forall order | Lists(order, snapshot) ensures Compile(read, Values(order, snapshot)).None? {
          NotViableFails(read, snapshot, order);
        }
      }
    }
  }

  lemma FailingOrder(read: DestinationReader, snapshot: map<string, EndpointPolicy>, p: EndpointPolicy)
    returns (order: seq<string>)
    requires p in snapshot.Values && !Builds(read, p)
    ensures Lists(order, snapshot) && Compile(read, Values(order, snapshot)).None?
  {
    var k :| k in snapshot && snapshot[k] == p;
    order := ListingFrom(snapshot.Keys, k);
    var vs := Values(order, snapshot);
    assert vs[..1] == [p];
    assert [p][..0] == [];
    assert Compile(read, []) == Some(ProxyConfig(map[], map[]));
    CompileFails(read, vs, 1);
  }

  lemma NotViableFails(read: DestinationReader, snapshot: map<string, EndpointPolicy>, order: seq<string>)
    requires Lists(order, snapshot) && !exists first: Choice :: Viable(read, snapshot.Values, first)
    ensures Compile(read, Values(order, snapshot)).None?
  {
    hide Viable;
    var vs := Values(order, snapshot);
    ValuesElements(order, snapshot);
    if Compile(read, vs).Some? {
      FirstsViable(read, vs);
    }
  }

  // ---------- coverage ----------

  /** Route ids tell endpoints apart. */
  ghost predicate RouteIdsInjective(snapshot: map<string, EndpointPolicy>) {
    forall k, l :: k in snapshot && l in snapshot && RouteId(snapshot[k]) == RouteId(snapshot[l]) ==>
      snapshot[k].endpoint == snapshot[l].endpoint && snapshot[k].service == snapshot[l].service
  }

  /** A route is the policy's endpoint's own, matches the key's path, and has the key's method, up to case. */
  ghost predicate ServesKey(route: RouteConfig, p: EndpointPolicy, key: string) {
    && route.endpointId == p.endpoint.id
    && exists i :: 0 <= i < |route.methods| && key == ToKey(Text.ToUpper(route.methods[i]), route.path)
  }

  /** The configuration routes a key of the snapshot to its endpoint. */
  ghost predicate Covers(c: ProxyConfig, snapshot: map<string, EndpointPolicy>, key: string)
    requires key in snapshot
  {
    var id := RouteId(snapshot[key]);
    id in c.routes && c.routes[id].clusterId in c.clusters && ServesKey(c.routes[id], snapshot[key], key)
  }

  ghost predicate CoveredIn(read: DestinationReader, snapshot: map<string, EndpointPolicy>, order: seq<string>)
    requires Lists(order, snapshot)
  {
    var r := Compile(read, Values(order, snapshot));
    r.Some? ==> forall key :: key in snapshot ==> Covers(r.value, snapshot, key)
  }

  /** In every order that compiles, every key is covered. */
  ghost predicate AlwaysCovered(read: DestinationReader, snapshot: map<string, EndpointPolicy>) {
    forall order :: Lists(order, snapshot) ==> CoveredIn(read, snapshot, order)
  }

  /** The first policies of the route ids serve every key. */
  ghost predicate ChoiceServes(first: Choice, snapshot: map<string, EndpointPolicy>) {
    forall key :: key in snapshot ==> ChoiceServesKey(first, snapshot, key)
  }

  ghost predicate ChoiceServesKey(first: Choice, snapshot: map<string, EndpointPolicy>, key: string)
    requires key in snapshot
  {
    var id := RouteId(snapshot[key]);
    id in first && ServesKey(BuildRoute(first[id]), snapshot[key], key)
  }

  /** In one order the keys are covered exactly when the policies that come first in it serve them. */
  lemma CoveredByFirsts(read: DestinationReader, snapshot: map<string, EndpointPolicy>, order: seq<string>)
    requires Lists(order, snapshot) && Compile(read, Values(order, snapshot)).Some?
    ensures CoveredIn(read, snapshot, order) <==> ChoiceServes(Firsts(Values(order, snapshot)), snapshot)
  {
    var vs := Values(order, snapshot);
    FirstsViable(read, vs);
    CompileSound(read, vs);
    hide Compile, ServesKey, BuildRoute, RouteId, Viable, Source;
    var c := Compile(read, vs).value;
    forall key | key in snapshot ensures Covers(c, snapshot, key) <==> ChoiceServesKey(Firsts(vs), snapshot, key) {
      var id := RouteId(snapshot[key]);
      if id in c.routes {
        assert RouteSound(vs, c, id);
      }
    }
    hide Covers, ChoiceServesKey;
  }

  /**
   * Every key is covered in every order that compiles exactly when every viable choice of first policies serves all
   * keys.
   */
  lemma CoverageIff(read: DestinationReader, snapshot: map<string, EndpointPolicy>)
    ensures AlwaysCovered(read, snapshot) <==>
      forall first: Choice :: Viable(read, snapshot.Values, first) ==> ChoiceServes(first, snapshot)
  {
    hide Viable, Compile, ChoiceServesKey, CoveredIn, NoRepeats;
    if AlwaysCovered(read, snapshot) {
      forall first: Choice | Viable(read, snapshot.Values, first) ensures ChoiceServes(first, snapshot) {
        var order := ViableCompiles(read, snapshot, first);
        CoveredByFirsts(read, snapshot, order);
        AgreeServes(Firsts(Values(order, snapshot)), first, snapshot);
      }
    }
    if forall first: Choice :: Viable(read, snapshot.Values, first) ==> ChoiceServes(first, snapshot) {
      forall order | Lists(order, snapshot) ensures CoveredIn(read, snapshot, order) {
        if Compile(read, Values(order, snapshot)).Some? {
          ValuesElements(order, snapshot);
          FirstsViable(read, Values(order, snapshot));
          CoveredByFirsts(read, snapshot, order);
        } else {
          NotCompiledIsCovered(read, snapshot, order);
        }
      }
    }
  }

  lemma NotCompiledIsCovered(read: DestinationReader, snapshot: map<string, EndpointPolicy>, order: seq<string>)
    requires Lists(order, snapshot) && Compile(read, Values(order, snapshot)).None?
    ensures CoveredIn(read, snapshot, order)
  {
  }

  lemma AgreeServes(a: Choice, b: Choice, snapshot: map<string, EndpointPolicy>)
    requires Agree(a, b) && ChoiceServes(a, snapshot)
    ensures ChoiceServes(b, snapshot)
  {
    hide RouteId, ServesKey, BuildRoute;
    forall key | key in snapshot ensures ChoiceServesKey(b, snapshot, key) {
      assert ChoiceServesKey(a, snapshot, key);
    }
  }

  /** Policies that share a route id: the route of one serves the key of the other. */
  ghost predicate Shares(snapshot: map<string, EndpointPolicy>, k: string, l: string)
    requires k in snapshot && l in snapshot
  {
    RouteId(snapshot[k]) == RouteId(snapshot[l]) ==> ServesKey(BuildRoute(snapshot[l]), snapshot[k], k)
  }

  /**
   * With readable destination lists, every key is covered in every order exactly when each of the policies that share a
   * route id builds a route that serves the keys of them all.
   */
  lemma ReadableCoverageIff(read: DestinationReader, snapshot: map<string, EndpointPolicy>)
    requires forall p :: p in snapshot.Values ==> Builds(read, p)
    ensures AlwaysCovered(read, snapshot) <==>
      forall k, l :: k in snapshot && l in snapshot ==> Shares(snapshot, k, l)
  {
    hide Builds, ServesKey, BuildRoute;
    if AlwaysCovered(read, snapshot) {
      forall k, l | k in snapshot && l in snapshot ensures Shares(snapshot, k, l) {
        CoveredShares(read, snapshot, k, l);
      }
    }
    if forall k, l :: k in snapshot && l in snapshot ==> Shares(snapshot, k, l) {
      forall order | Lists(order, snapshot) ensures CoveredIn(read, snapshot, order) {
        SharesCovered(read, snapshot, order);
      }
    }
  }

  /** By an order that puts one of the two first. */
  lemma CoveredShares(read: DestinationReader, snapshot: map<string, EndpointPolicy>, k: string, l: string)
    requires forall p :: p in snapshot.Values ==> Builds(read, p)
    requires AlwaysCovered(read, snapshot) && k in snapshot && l in snapshot
    ensures Shares(snapshot, k, l)
  {
    hide ServesKey, BuildRoute, RouteId, BuildCluster;
    var order := ListingFrom(snapshot.Keys, l);
    assert Lists(order, snapshot);
    var vs := Values(order, snapshot);
    ValuesElements(order, snapshot);
    BuildsCompile(read, vs);
    FirstWins(read, vs);
    assert vs[0] == snapshot[l];
    hide Compile;
    assert CoveredIn(read, snapshot, order);
    assert Covers(Compile(read, vs).value, snapshot, k);
  }

  lemma SharesCovered(read: DestinationReader, snapshot: map<string, EndpointPolicy>, order: seq<string>)
    requires Lists(order, snapshot) && forall k, l :: k in snapshot && l in snapshot ==> Shares(snapshot, k, l)
    ensures CoveredIn(read, snapshot, order)
  {
    hide Compile, Shares, Covers;
    if Compile(read, Values(order, snapshot)).Some? {
      forall key | key in snapshot ensures Covers(Compile(read, Values(order, snapshot)).value, snapshot, key) {
        KeyCovered(read, snapshot, order, key);
      }
    }
  }

  lemma KeyCovered(read: DestinationReader, snapshot: map<string, EndpointPolicy>, order: seq<string>, key: string)
    requires Lists(order, snapshot) && Compile(read, Values(order, snapshot)).Some?
    requires key in snapshot && forall l :: l in snapshot ==> Shares(snapshot, key, l)
    ensures Covers(Compile(read, Values(order, snapshot)).value, snapshot, key)
  {
    var vs, p := Values(order, snapshot), snapshot[key];
    CompileSound(read, vs);
    ValuesElements(order, snapshot);
    hide Compile, ServesKey, BuildRoute, RouteId, BuildCluster, Values;
    var c := Compile(read, vs).value;
    assert p in Elements(vs);
    assert RouteSound(vs, c, RouteId(p));
    var q :| q in vs && c.routes[RouteId(p)] == BuildRoute(q);
    RouteIdKept(q);
    assert q in Elements(vs);
    var l :| l in snapshot && snapshot[l] == q;
    assert Shares(snapshot, key, l);
  }

  lemma RouteIdKept(p: EndpointPolicy)
    ensures BuildRoute(p).routeId == RouteId(p)
  {
  }

  /**
   * Every key of the snapshot is served by its endpoint's own route when route ids tell endpoints apart: the route
   * matches the key's path, and the key's method is one of the route's, up to case.
   */
  lemma RouteCoversKey(read: DestinationReader, snapshot: map<string, EndpointPolicy>, order: seq<string>, key: string)
    requires Lists(order, snapshot) && Compile(read, Values(order, snapshot)).Some?
    requires RouteIdsInjective(snapshot)
    requires key in snapshot && KeyAgrees(key, snapshot[key])
    ensures Covers(Compile(read, Values(order, snapshot)).value, snapshot, key)
  {
    RouteHasMethod(snapshot[key], key);
    forall l | l in snapshot ensures Shares(snapshot, key, l) {
      if RouteId(snapshot[key]) == RouteId(snapshot[l]) {
        assert BuildRoute(snapshot[l]) == BuildRoute(snapshot[key]);
      }
    }
    hide Shares, Compile;
    KeyCovered(read, snapshot, order, key);
  }

  lemma RouteHasMethod(p: EndpointPolicy, key: string)
    requires key in RouteKeys(p.service, p.endpoint)
    ensures var route := BuildRoute(p);
      exists i :: 0 <= i < |route.methods| && key == ToKey(Text.ToUpper(route.methods[i]), route.path)
  {
    var keys := RouteKeys(p.service, p.endpoint);
    var k :| 0 <= k < |keys| && keys[k] == key;
    var parts := Text.Split(p.endpoint.httpMethod, ',');
    var part := NonEmpty(parts)[k];
    assert part in NonEmpty(parts);
    var i :| 0 <= i < |parts| && parts[i] == part;
    var route := BuildRoute(p);
    hide Text.Split, Text.Trim, Text.ToUpper, NonEmpty;
    assert route.methods[i] == Text.Trim(part);
    assert key == ToKey(Text.ToUpper(route.methods[i]), route.path);
  }
}
