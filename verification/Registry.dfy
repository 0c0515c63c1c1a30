/** Reading the registry tables, and turning one endpoint row into a policy and its route keys. */
module Registry {
  import opened Wrappers
  import opened Text
  import opened Entities

  const GATEWAY_PATH_PREFIX := "/gateway"

  // ---------- table reads ----------

  function Filter<T(!new)>(rows: seq<T>, keep: T -> bool): (r: seq<T>)
    ensures |r| <= |rows|
    ensures forall x :: x in r <==> x in rows && keep(x)
  {
    if rows == [] then []
    else
      assert rows == [rows[0]] + rows[1..];
      (if keep(rows[0]) then [rows[0]] else []) + Filter(rows[1..], keep)
  }

  predicate ProductEnabled(p: Product) { p.isEnabled }
  predicate ServiceEnabled(s: Service) { s.isEnabled }
  predicate EndpointEnabled(e: Endpoint) { e.isEnabled }
  predicate ClientEnabled(c: Client) { c.isEnabled }

  function EnabledProducts(db: Database): seq<Product> {
    Filter(db.products, ProductEnabled)
  }

  function EnabledServices(db: Database): seq<Service> {
    Filter(db.services, ServiceEnabled)
  }

  function EnabledEndpoints(db: Database): seq<Endpoint> {
    Filter(db.endpoints, EndpointEnabled)
  }

  function EnabledEndpointsOf(db: Database, serviceId: Guid): seq<Endpoint> {
    Filter(db.endpoints, (e: Endpoint) => e.serviceId == serviceId && e.isEnabled)
  }

  function EnabledClients(db: Database): seq<Client> {
    Filter(db.clients, ClientEnabled)
  }

  /** `WHERE client_id = @ClientId AND is_enabled = true LIMIT 1`. */
  function ClientByClientId(db: Database, clientId: string): (r: Option<Client>)
    ensures r.Some? ==> r.value in db.clients && r.value.isEnabled && r.value.clientId == clientId
  {
    var rows := Filter(db.clients, (c: Client) => c.clientId == clientId && c.isEnabled);
    if rows == [] then None else assert rows[0] in rows; Some(rows[0])
  }

  /** A permission row counts when it is enabled and, at the moment of the read, not expired. */
  predicate Grants(row: ClientPermission, client: Guid, now: nat) {
    row.clientId == client && row.isEnabled && (row.expiresAt.None? || row.expiresAt.value > now)
  }

  function AuthorizedEndpointIds(db: Database, client: Guid, now: nat): set<Guid> {
    set row | row in db.permissions && Grants(row, client, now) :: row.endpointId
  }

  ghost predicate HasPermission(db: Database, client: Guid, endpoint: Guid, now: nat) {
    exists row :: row in db.permissions && Grants(row, client, now) && row.endpointId == endpoint
  }

  // ---------- route keys ----------

  function ToKey(verb: string, path: string): string {
    verb + ":" + path
  }

  /** The key a request is looked up under: its method upper-cased, its path as it is. */
  function RequestKey(path: string, verb: string): string {
    ToKey(ToUpper(verb), path)
  }

  /** A request as the middleware sees it; `authenticated` is absent when there is no identity at all. */
  datatype Request = Request(path: string, verb: string, clientId: Option<string>, authenticated: Option<bool>)

  predicate Identified(req: Request) {
    req.clientId.Some? && req.clientId.value != ""
  }

  /** Health checks go straight through: the path starts with "/health", in any case. */
  predicate IsHealthPath(path: string) {
    |path| >= 7 && ToUpper(path[..7]) == "/HEALTH"
  }

  function FullPath(service: Service, endpoint: Endpoint): string {
    GATEWAY_PATH_PREFIX + service.basePath + endpoint.relativePath
  }

  function NonEmpty(parts: seq<string>): (r: seq<string>)
    ensures forall x :: x in r <==> x in parts && x != ""
  {
    Filter(parts, (p: string) => p != "")
  }

  /** The methods an endpoint registers, in order. An entry of blanks only is not removed: it becomes "". */
  function Methods(endpoint: Endpoint): seq<string> {
    var parts := NonEmpty(Split(endpoint.httpMethod, ','));
    seq(|parts|, i requires 0 <= i < |parts| => ToUpper(Trim(parts[i])))
  }

  function RouteKeys(service: Service, endpoint: Endpoint): (keys: seq<string>)
    ensures |keys| == |Methods(endpoint)|
    ensures forall i :: 0 <= i < |keys| ==> keys[i] == ToKey(Methods(endpoint)[i], FullPath(service, endpoint))
  {
    var methods := Methods(endpoint);
    seq(|methods|, i requires 0 <= i < |methods| => ToKey(methods[i], FullPath(service, endpoint)))
  }

  // ---------- policies ----------

  function OrElse<T>(o: Option<T>, default: T): T {
    if o.Some? then o.value else default
  }

  function EffectiveCrypto(overrides: CryptoOverrides, defaults: CryptoDefaults): CryptoConfig {
    CryptoConfig(
      OrElse(overrides.algorithm, defaults.algorithm),
      OrElse(overrides.keySource, defaults.keySource),
      OrElse(overrides.ivSource, defaults.ivSource),
      OrElse(overrides.encoding, defaults.encoding),
      OrElse(overrides.requireIv, defaults.requireIv))
  }

  function BuildEndpointPolicy(product: Product, service: Service, endpoint: Endpoint): EndpointPolicy {
    EndpointPolicy(
      product, service, endpoint, EffectiveCrypto(endpoint.crypto, service.defaults),
      endpoint.payloadExpectation, endpoint.timeoutMs, endpoint.maxRetries, service.requiresJwt,
      endpoint.encryptRequest, endpoint.encryptResponse)
  }

  /** What a policy stored under a route key must be: its three rows chain and regenerate the key. */
  ghost predicate KeyAgrees(key: string, policy: EndpointPolicy) {
    && policy.endpoint.serviceId == policy.service.id
    && policy.service.productId == policy.product.id
    && key in RouteKeys(policy.service, policy.endpoint)
    && policy == BuildEndpointPolicy(policy.product, policy.service, policy.endpoint)
  }

  // ---------- one whole refresh ----------

  /** One dictionary assignment of a refresh: the policy (or a stamped read of it) filed under a route key. */
  datatype Registration<V> = Registration(key: string, policy: V)

  function RegistrationsOfEndpoint(product: Product, service: Service, endpoint: Endpoint): (r: seq<Registration<EndpointPolicy>>)
    ensures forall x :: x in r ==>
      x.policy == BuildEndpointPolicy(product, service, endpoint) && x.key in RouteKeys(service, endpoint)
  {
    var keys := RouteKeys(service, endpoint);
    seq(|keys|, i requires 0 <= i < |keys| =>
      Registration(keys[i], BuildEndpointPolicy(product, service, endpoint)))
  }

  function RegistrationsOfService(product: Product, service: Service, endpoints: seq<Endpoint>): (r: seq<Registration<EndpointPolicy>>)
    ensures forall x :: x in r ==>
      exists e :: e in endpoints && x in RegistrationsOfEndpoint(product, service, e)
  {
    if endpoints == [] then []
    else
      var head := RegistrationsOfEndpoint(product, service, endpoints[0]);
      var tail := RegistrationsOfService(product, service, endpoints[1..]);
      assert forall x :: x in head ==> endpoints[0] in endpoints;
      head + tail
  }

  predicate DistinctIds(products: seq<Product>) {
    forall i, j :: 0 <= i < j < |products| ==> products[i].id != products[j].id
  }

  /** `ToDictionary(p => p.Id)` and a lookup in it. */
  function FindProduct(products: seq<Product>, id: Guid): (r: Option<Product>)
    ensures r.Some? ==> r.value in products && r.value.id == id
    ensures r.None? ==> forall p :: p in products ==> p.id != id
  {
    if products == [] then None
    else if products[0].id == id then Some(products[0])
    else FindProduct(products[1..], id)
  }

  /** Last registration of a key wins, as in a dictionary filled in order. */
  function SnapshotOf<V>(registrations: seq<Registration<V>>): (m: map<string, V>)
    ensures forall k :: k in m ==> Registration(k, m[k]) in registrations
    ensures forall x :: x in registrations ==> x.key in m
    decreases |registrations|
  {
    if registrations == [] then map[]
    else
      var last := registrations[|registrations| - 1];
      var before := registrations[..|registrations| - 1];
      assert registrations == before + [last];
      SnapshotOf(before)[last.key := last.policy]
  }

  // ---------- the same, in the rows' own fields ----------

  /** A permission row of the table lets a client use an endpoint at an instant. */
  ghost predicate Permits(db: Database, client: Guid, endpoint: Guid, now: nat) {
    exists row :: row in db.permissions && row.clientId == client && row.endpointId == endpoint
      && row.isEnabled && (row.expiresAt == None || now < row.expiresAt.value)
  }

  /** The authorized endpoints are those of the client's rows that are enabled and unexpired. */
  lemma AuthorizedIff(db: Database, client: Guid, endpoint: Guid, now: nat)
    ensures endpoint in AuthorizedEndpointIds(db, client, now) <==> Permits(db, client, endpoint, now)
    ensures HasPermission(db, client, endpoint, now) <==> Permits(db, client, endpoint, now)
  {
    if Permits(db, client, endpoint, now) {
      var row :| row in db.permissions && row.clientId == client && row.endpointId == endpoint
        && row.isEnabled && (row.expiresAt == None || now < row.expiresAt.value);
      assert Grants(row, client, now);
    }
  }

  /** The first enabled row of the table under a client id. */
  ghost predicate FirstClient(db: Database, clientId: string, i: nat) {
    && i < |db.clients| && db.clients[i].isEnabled && db.clients[i].clientId == clientId
    && forall j :: 0 <= j < i ==> !(db.clients[j].isEnabled && db.clients[j].clientId == clientId)
  }

  lemma {:induction false} FirstKept<T(!new)>(rows: seq<T>, keep: T -> bool, i: nat)
    requires i < |rows| && keep(rows[i]) && forall j :: 0 <= j < i ==> !keep(rows[j])
    ensures Filter(rows, keep) != [] && Filter(rows, keep)[0] == rows[i]
  {
    if i > 0 {
      FirstKept(rows[1..], keep, i - 1);
    }
  }

  lemma ClientFoundIff(db: Database, clientId: string)
    ensures ClientByClientId(db, clientId) == None <==>
      forall c :: c in db.clients && c.clientId == clientId ==> !c.isEnabled
    ensures forall i: nat :: FirstClient(db, clientId, i) ==> ClientByClientId(db, clientId) == Some(db.clients[i])
  {
    var keep := (c: Client) => c.clientId == clientId && c.isEnabled;
    var rows := Filter(db.clients, keep);
    forall i: nat | FirstClient(db, clientId, i) ensures ClientByClientId(db, clientId) == Some(db.clients[i]) {
      FirstKept(db.clients, keep, i);
    }
    forall c | c in db.clients && c.clientId == clientId && rows == [] ensures !c.isEnabled {
      assert c in rows <==> keep(c);
    }
  }

  /** The seven characters "/health", each in either case. */
  predicate LooksHealthy(path: string) {
    && |path| >= 7 && path[0] == '/' && path[1] in "hH" && path[2] in "eE" && path[3] in "aA" && path[4] in "lL"
    && path[5] in "tT" && path[6] in "hH"
  }

  lemma HealthIff(path: string)
    ensures IsHealthPath(path) <==> LooksHealthy(path)
  {
    if |path| >= 7 {
      var head := ToUpper(path[..7]);
      assert forall i :: 0 <= i < 7 ==> head[i] == ToUpperChar(path[i]);
      SevenLetters(head);
      hide ToUpper;
    }
  }

  lemma SevenLetters(s: string)
    requires |s| == 7
    ensures s == "/HEALTH" <==>
      s[0] == '/' && s[1] == 'H' && s[2] == 'E' && s[3] == 'A' && s[4] == 'L' && s[5] == 'T' && s[6] == 'H'
  {
    var t := "/HEALTH";
    assert t[0] == '/' && t[1] == 'H' && t[2] == 'E' && t[3] == 'A' && t[4] == 'L' && t[5] == 'T' && t[6] == 'H';
    if s[0] == t[0] && s[1] == t[1] && s[2] == t[2] && s[3] == t[3] && s[4] == t[4] && s[5] == t[5] && s[6] == t[6] {
      assert forall i :: 0 <= i < 7 ==> s[i] == t[i];
    }
  }

  // ---------- what a list of methods names ----------

  /** Two texts are alike up to the case of the first, and the second has no small letters. */
  ghost predicate Uppercase(s: string, upper: string) {
    && |s| == |upper|
    && forall x :: 0 <= x < |s| ==>
      upper[x] as int == if 97 <= s[x] as int <= 122 then s[x] as int - 32 else s[x] as int
  }

  lemma UppercaseIff(s: string, upper: string)
    ensures ToUpper(s) == upper <==> Uppercase(s, upper)
  {
    if Uppercase(s, upper) {
      forall x | 0 <= x < |s| ensures ToUpper(s)[x] == upper[x] {
        UpperExactly(s[x]);
      }
      assert ToUpper(s) == upper;
    }
  }

  /** In a comma-separated list, the part between two places, without its blanks and in capitals, is the method. */
  ghost predicate NamedAt(list: string, i: nat, l: nat, j: nat, k: nat, m: string) {
    PartAt(list, ',', i, l) && i < l && TrimmedAt(list[i..l], j, k) && Uppercase(list[i..l][j..k], m)
  }

  ghost predicate Names(list: string, m: string) {
    exists i: nat, l: nat, j: nat, k: nat :: NamedAt(list, i, l, j, k, m)
  }

  lemma MethodsIff(endpoint: Endpoint, m: string)
    ensures m in Methods(endpoint) <==> Names(endpoint.httpMethod, m)
  {
    var list := endpoint.httpMethod;
    var all := Split(list, ',');
    var parts := NonEmpty(all);
    hide Split, Trim, ToUpper;
    if m in Methods(endpoint) {
      var p :| 0 <= p < |parts| && m == ToUpper(Trim(parts[p]));
      assert parts[p] in parts;
      PartNamed(list, parts[p], m);
    }
    if Names(list, m) {
      var i: nat, l: nat, j: nat, k: nat :| NamedAt(list, i, l, j, k, m);
      var part := list[i..l];
      NamedPart(list, i, l, j, k, m);
      var p :| 0 <= p < |parts| && parts[p] == part;
      assert Methods(endpoint)[p] == m;
    }
  }

  lemma PartNamed(list: string, part: string, m: string)
    requires part in Split(list, ',') && part != "" && m == ToUpper(Trim(part))
    ensures Names(list, m)
  {
    PartsExactly(list, ',', part);
    TrimExactly(part, Trim(part));
    UppercaseIff(Trim(part), m);
    hide Split, Trim, ToUpper, Uppercase;
    var i: nat, l: nat :| PartAt(list, ',', i, l) && list[i..l] == part;
    var j: nat, k: nat :| TrimmedAt(part, j, k) && part[j..k] == Trim(part);
    assert NamedAt(list, i, l, j, k, m);
  }

  lemma NamedPart(list: string, i: nat, l: nat, j: nat, k: nat, m: string)
    requires NamedAt(list, i, l, j, k, m)
    ensures i < l <= |list| && list[i..l] in Split(list, ',') && list[i..l] != "" && ToUpper(Trim(list[i..l])) == m
  {
    var part := list[i..l];
    PartsExactly(list, ',', part);
    TrimExactly(part, part[j..k]);
    UppercaseIff(part[j..k], m);
    hide Split, Trim, ToUpper, Uppercase;
  }

  // ---------- what a policy and its route key are ----------

  /** A policy in the fields of the three rows it is built from: each override, or else the service's default. */
  ghost predicate BuiltFrom(p: EndpointPolicy, product: Product, s: Service, e: Endpoint) {
    var c, o, d := p.cryptoConfig, e.crypto, s.defaults;
    && p.product == product && p.service == s && p.endpoint == e
    && c.algorithm == (if o.algorithm.Some? then o.algorithm.value else d.algorithm)
    && c.keySource == (if o.keySource.Some? then o.keySource.value else d.keySource)
    && c.ivSource == (if o.ivSource.Some? then o.ivSource.value else d.ivSource)
    && c.encoding == (if o.encoding.Some? then o.encoding.value else d.encoding)
    && c.requireIv == (if o.requireIv.Some? then o.requireIv.value else d.requireIv)
    && p.payloadExpectation == e.payloadExpectation && p.timeoutMs == e.timeoutMs && p.maxRetries == e.maxRetries
    && p.encryptRequest == e.encryptRequest && p.encryptResponse == e.encryptResponse
    && p.requiresJwt == s.requiresJwt
  }

  lemma BuiltIff(p: EndpointPolicy, product: Product, s: Service, e: Endpoint)
    ensures p == BuildEndpointPolicy(product, s, e) <==> BuiltFrom(p, product, s, e)
  {
  }

  /** A route key: a method of the endpoint's list, a colon, and the path the gateway serves the endpoint under. */
  ghost predicate RoutesTo(key: string, s: Service, e: Endpoint) {
    exists m :: Names(e.httpMethod, m) && key == m + ":/gateway" + s.basePath + e.relativePath
  }

  lemma RouteKeysIff(s: Service, e: Endpoint, key: string)
    ensures key in RouteKeys(s, e) <==> RoutesTo(key, s, e)
  {
    hide Methods, Names;
    var keys := RouteKeys(s, e);
    if key in keys {
      var i :| 0 <= i < |keys| && keys[i] == key;
      var m := Methods(e)[i];
      MethodsIff(e, m);
      KeyWritten(s, e, m);
    }
    if RoutesTo(key, s, e) {
      var m :| Names(e.httpMethod, m) && key == m + ":/gateway" + s.basePath + e.relativePath;
      MethodsIff(e, m);
      KeyWritten(s, e, m);
      var i :| 0 <= i < |Methods(e)| && Methods(e)[i] == m;
      assert keys[i] == key;
    }
  }

  lemma KeyWritten(s: Service, e: Endpoint, m: string)
    ensures ToKey(m, FullPath(s, e)) == m + ":/gateway" + s.basePath + e.relativePath
  {
  }

  /** A policy filed under a key is one of the key's own service and endpoint, and of rows that chain. */
  ghost predicate Regenerates(key: string, p: EndpointPolicy) {
    && p.endpoint.serviceId == p.service.id && p.service.productId == p.product.id
    && RoutesTo(key, p.service, p.endpoint) && BuiltFrom(p, p.product, p.service, p.endpoint)
  }

  lemma KeyAgreesIff(key: string, p: EndpointPolicy)
    ensures KeyAgrees(key, p) <==> Regenerates(key, p)
  {
    RouteKeysIff(p.service, p.endpoint, key);
    BuiltIff(p, p.product, p.service, p.endpoint);
    hide RouteKeys, RoutesTo, BuildEndpointPolicy, BuiltFrom;
  }

  /** The registrations of an endpoint: under each of its route keys the policy built from its rows. */
  lemma RegistrationsIff(product: Product, s: Service, e: Endpoint, r: Registration<EndpointPolicy>)
    ensures r in RegistrationsOfEndpoint(product, s, e) <==> RoutesTo(r.key, s, e) && BuiltFrom(r.policy, product, s, e)
  {
    RouteKeysIff(s, e, r.key);
    BuiltIff(r.policy, product, s, e);
    hide RoutesTo, BuildEndpointPolicy, BuiltFrom, RouteKeys;
    var keys := RouteKeys(s, e);
    if r.key in keys && r.policy == BuildEndpointPolicy(product, s, e) {
      var i :| 0 <= i < |keys| && keys[i] == r.key;
      assert RegistrationsOfEndpoint(product, s, e)[i] == r;
    }
  }

  /**
   * Methods are tokens without a colon, so a policy found under a request's key serves exactly that method and that
   * path.
   */
  lemma KeyDeterminesRequest(path: string, verb: string, policy: EndpointPolicy)
    requires KeyAgrees(RequestKey(path, verb), policy)
    requires ':' !in verb
    requires forall m :: Names(policy.endpoint.httpMethod, m) ==> ':' !in m
    ensures path == "/gateway" + policy.service.basePath + policy.endpoint.relativePath
    ensures exists m :: Names(policy.endpoint.httpMethod, m) && Uppercase(verb, m)
  {
    var key, s, e := RequestKey(path, verb), policy.service, policy.endpoint;
    KeyAgreesIff(key, policy);
    var m :| Names(e.httpMethod, m) && key == m + ":/gateway" + s.basePath + e.relativePath;
    UppercaseIff(verb, ToUpper(verb));
    NoColon(verb);
    assert key == ToUpper(verb) + ":" + path;
    hide *;
    KeySplits(ToUpper(verb), path, m, s.basePath, e.relativePath);
  }

  lemma NoColon(verb: string)
    requires ':' !in verb
    ensures ':' !in ToUpper(verb)
  {
  }

  lemma KeySplits(verb: string, path: string, m: string, base: string, relative: string)
    requires ':' !in verb && ':' !in m && verb + ":" + path == m + ":/gateway" + base + relative
    ensures verb == m && path == "/gateway" + base + relative
  {
    var served := "/gateway" + base + relative;
    assert m + ":/gateway" + base + relative == m + [':'] + served;
    SplitAtFirst(verb, path, m, served, ':');
  }
}
