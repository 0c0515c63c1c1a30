/**
 * The authorization of one request and the timed warm-up of the permission caches, run to completion on one node, and
 * their agreement with deciding straight from the database.
 */
module GatewayRequestModel {
  import opened Wrappers
  import opened Entities
  import opened Registry
  import opened Tiers
  import opened PolicyCacheModel
  import opened PolicyResolverModel
  import Text

  datatype Verdict = Forwarded | Refused(status: nat)

  // ---------- deciding without caches ----------

  /** The decision on a request, given its policy, its client and the client's permissions. */
  function Decide(req: Request, policy: Option<EndpointPolicy>, client: Option<Client>, perms: Guid -> set<Guid>): Verdict {
    if IsHealthPath(req.path) then Forwarded
    else if policy.None? then Refused(404)
    else if policy.value.requiresJwt && (req.authenticated == Some(false) || !Identified(req)) then Refused(401)
    else if !Identified(req) then Forwarded
    else if client.None? then Refused(403)
    else if policy.value.endpoint.id in perms(client.value.id) then Forwarded
    else Refused(403)
  }

  /** The decision made from the snapshot and the database alone. */
  function Direct(req: Request, snapshot: map<string, EndpointPolicy>, db: Database, now: nat): Verdict {
    var route := RequestKey(req.path, req.verb);
    Decide(req,
      if route in snapshot then Some(snapshot[route]) else None,
      if req.clientId.Some? then ClientByClientId(db, req.clientId.value) else None,
      (id: Guid) => AuthorizedEndpointIds(db, id, now))
  }

  // ---------- the rules, in the request's, the policy's and the rows' own fields ----------

  /** What an identified request is answered, past the checks of its identity. */
  ghost predicate ClientRuled(v: Verdict, clientId: string, endpoint: Guid, db: Database, now: nat) {
    && ((forall c :: c in db.clients && c.clientId == clientId ==> !c.isEnabled) ==> v == Refused(403))
    && forall i: nat :: FirstClient(db, clientId, i) ==>
      (if Permits(db, db.clients[i].id, endpoint, now) then v == Forwarded else v == Refused(403))
  }

  ghost predicate Ruled(v: Verdict, req: Request, snapshot: map<string, EndpointPolicy>, db: Database, now: nat) {
    if LooksHealthy(req.path) then v == Forwarded
    else
      forall m :: Uppercase(req.verb, m) ==>
        var key := m + ":" + req.path;
        if key !in snapshot then v == Refused(404)
        else
          var anonymous := req.clientId == None || req.clientId == Some("");
          if snapshot[key].requiresJwt && (anonymous || req.authenticated == Some(false)) then v == Refused(401)
          else if anonymous then v == Forwarded
          else ClientRuled(v, req.clientId.value, snapshot[key].endpoint.id, db, now)
  }

  lemma ClientIsRuled(clientId: string, endpoint: Guid, db: Database, now: nat)
    ensures var client := ClientByClientId(db, clientId);
      var v := if client.Some? && endpoint in AuthorizedEndpointIds(db, client.value.id, now) then Forwarded else Refused(403);
      ClientRuled(v, clientId, endpoint, db, now)
  {
    ClientFoundIff(db, clientId);
    var client := ClientByClientId(db, clientId);
    if client.Some? {
      AuthorizedIff(db, client.value.id, endpoint, now);
    }
    hide Permits, AuthorizedEndpointIds;
  }

  /**
   * A request is decided by these rules: in particular one for an enabled client is refused with 403 when every row the
   * client has for the endpoint is disabled or expired, and let through when some row is neither.
   */
  lemma DirectIsRuled(req: Request, snapshot: map<string, EndpointPolicy>, db: Database, now: nat)
    ensures Ruled(Direct(req, snapshot, db, now), req, snapshot, db, now)
  {
    HealthIff(req.path);
    forall m ensures Uppercase(req.verb, m) <==> Text.ToUpper(req.verb) == m {
      UppercaseIff(req.verb, m);
    }
    var key := Text.ToUpper(req.verb) + ":" + req.path;
    assert RequestKey(req.path, req.verb) == key;
    if Identified(req) && key in snapshot {
      ClientIsRuled(req.clientId.value, snapshot[key].endpoint.id, db, now);
    }
    hide LooksHealthy, IsHealthPath, ClientRuled, Uppercase, RequestKey, Text.ToUpper, ClientByClientId, AuthorizedEndpointIds;
  }

  /** In particular a client all of whose rows for an endpoint are disabled or expired is refused. */
  lemma NoRowNoEntry(req: Request, snapshot: map<string, EndpointPolicy>, db: Database, now: nat, m: string, i: nat)
    requires !LooksHealthy(req.path) && Uppercase(req.verb, m) && m + ":" + req.path in snapshot
    requires req.clientId.Some? && req.clientId.value != "" && req.authenticated != Some(false)
    requires FirstClient(db, req.clientId.value, i)
    requires forall row ::
      (row in db.permissions && row.clientId == db.clients[i].id
       && row.endpointId == snapshot[m + ":" + req.path].endpoint.id) ==>
        !row.isEnabled || (row.expiresAt.Some? && row.expiresAt.value <= now)
    ensures Direct(req, snapshot, db, now) == Refused(403)
  {
    DirectIsRuled(req, snapshot, db, now);
    hide LooksHealthy, FirstClient, Uppercase, Direct;
  }

  // ---------- caches that tell the truth ----------

  /** What the snapshot and the database say about a cache key; profiles are not judged. */
  function Truth(k: CacheKey, snapshot: map<string, EndpointPolicy>, db: Database, now: nat): Option<CacheValue> {
    match k
    case ForPolicy(route) => if route in snapshot then Some(PolicyValue(snapshot[route])) else None
    case ForPermissions(id) => Some(PermissionsValue(AuthorizedEndpointIds(db, id, now)))
    case ForClient(clientId) =>
      (match ClientByClientId(db, clientId)
       case Some(client) => Some(ClientValue(client))
       case None => None)
    case ForProfile(_, _) => None
  }

  /** Nothing still live under a judged key contradicts the truth. */
  ghost predicate Coherent(t: Tiered, snapshot: map<string, EndpointPolicy>, db: Database, now: nat) {
    forall k: CacheKey :: k.ForProfile? || KeyCoherent(t, k, snapshot, db, now)
  }

  ghost predicate KeyCoherent(t: Tiered, k: CacheKey, snapshot: map<string, EndpointPolicy>, db: Database, now: nat) {
    && (L1Get(t.l1, Render(k), now).Some? ==> L1Get(t.l1, Render(k), now) == Truth(k, snapshot, db, now))
    && (L2Get(t.l2, Render(k), now).Some? ==> L2Get(t.l2, Render(k), now) == Truth(k, snapshot, db, now))
  }

  lemma GetStaysCoherent(t: Tiered, k: CacheKey, up: bool, kept: bool,
                         snapshot: map<string, EndpointPolicy>, db: Database, now: nat)
    requires Coherent(t, snapshot, db, now) && !k.ForProfile?
    ensures Coherent(Apply(t, Get(Render(k), now, up, kept)), snapshot, db, now)
    ensures Lookup(t, Render(k), now, up).Some? ==> Lookup(t, Render(k), now, up) == Truth(k, snapshot, db, now)
  {
    assert KeyCoherent(t, k, snapshot, db, now);
    hide Truth, Render;
    var t' := Apply(t, Get(Render(k), now, up, kept));
    forall j: CacheKey | !j.ForProfile? ensures KeyCoherent(t', j, snapshot, db, now) {
      assert KeyCoherent(t, j, snapshot, db, now);
      if Render(j) == Render(k) {
        RenderInjective(j, k);
      }
    }
  }

  lemma SetStaysCoherent(t: Tiered, k: CacheKey, v: CacheValue, up: bool, kept: bool,
                         snapshot: map<string, EndpointPolicy>, db: Database, now: nat)
    requires Coherent(t, snapshot, db, now) && !k.ForProfile? && Truth(k, snapshot, db, now) == Some(v)
    ensures Coherent(Apply(t, Set(Render(k), v, now, L2_TTL, up, kept)), snapshot, db, now)
  {
    hide Truth, Render;
    var t' := Apply(t, Set(Render(k), v, now, L2_TTL, up, kept));
    forall j: CacheKey | !j.ForProfile? ensures KeyCoherent(t', j, snapshot, db, now) {
      assert KeyCoherent(t, j, snapshot, db, now);
      if Render(j) == Render(k) {
        RenderInjective(j, k);
      }
    }
  }

  // ---------- the three lookups ----------

  /** The chances of one cache call: whether the shared store answers, and whether the own cache keeps the insertion. */
  datatype Luck = Luck(up: bool, kept: bool)

  /** What a lookup finds, and the cache after it. */
  datatype Found<+T> = Found(value: T, tiers: Tiered)

  function GetOp(k: CacheKey, now: nat, luck: Luck): Op {
    Get(Render(k), now, luck.up, luck.kept)
  }

  function SetOp(k: CacheKey, v: CacheValue, now: nat, luck: Luck): Op {
    Set(Render(k), v, now, L2_TTL, luck.up, luck.kept)
  }

  /** Cache first, then the snapshot, filing what it says. */
  function PolicyFound(t: Tiered, snapshot: map<string, EndpointPolicy>, route: string, now: nat, look: Luck, file: Luck)
    : Found<Option<EndpointPolicy>>
  {
    var hit := Lookup(t, Render(ForPolicy(route)), now, look.up);
    var t' := Apply(t, GetOp(ForPolicy(route), now, look));
    if hit.Some? && hit.value.PolicyValue? then Found(Some(hit.value.policy), t')
    else if route in snapshot then
      Found(Some(snapshot[route]), Apply(t', SetOp(ForPolicy(route), PolicyValue(snapshot[route]), now, file)))
    else Found(None, t')
  }

  /** What a lookup that may reach the database gives: its value, or the exception of a read that failed. */
  datatype Read<+T> = Threw | Given(value: T)

  /** Whether the two database reads of a request succeed, if they are made. */
  datatype Readable = Readable(client: bool, perms: bool)

  /** Cache first, then the database, filing what it says; an absent client is not filed. */
  function ClientFound(t: Tiered, db: Database, clientId: string, now: nat, readable: bool, look: Luck, file: Luck)
    : Found<Read<Option<Client>>>
  {
    var hit := Lookup(t, Render(ForClient(clientId)), now, look.up);
    var t' := Apply(t, GetOp(ForClient(clientId), now, look));
    if hit.Some? && hit.value.ClientValue? then Found(Given(Some(hit.value.client)), t')
    else if !readable then Found(Threw, t')
    else
      var read := ClientByClientId(db, clientId);
      Found(Given(read), if read.Some? then Apply(t', SetOp(ForClient(clientId), ClientValue(read.value), now, file)) else t')
  }

  function PermissionsFound(t: Tiered, db: Database, client: Guid, now: nat, readable: bool, look: Luck, file: Luck)
    : Found<Read<set<Guid>>>
  {
    var hit := Lookup(t, Render(ForPermissions(client)), now, look.up);
    var t' := Apply(t, GetOp(ForPermissions(client), now, look));
    if hit.Some? && hit.value.PermissionsValue? then Found(Given(hit.value.endpointIds), t')
    else if !readable then Found(Threw, t')
    else
      var read := AuthorizedEndpointIds(db, client, now);
      Found(Given(read), Apply(t', SetOp(ForPermissions(client), PermissionsValue(read), now, file)))
  }

  /** The whole middleware on one request: its verdict, and the cache it leaves. A read that throws is answered 500. */
  function Judged(t: Tiered, snapshot: map<string, EndpointPolicy>, db: Database, req: Request, now: nat, readable: Readable,
                  luck: nat -> Luck): Found<Verdict>
  {
    if IsHealthPath(req.path) then Found(Forwarded, t)
    else
      var policy := PolicyFound(t, snapshot, RequestKey(req.path, req.verb), now, luck(0), luck(1));
      if policy.value.None? then Found(Refused(404), policy.tiers)
      else JudgedUnder(policy.tiers, policy.value.value, db, req, now, readable, luck)
  }

  /** The same, once the policy is at hand. */
  function JudgedUnder(t: Tiered, policy: EndpointPolicy, db: Database, req: Request, now: nat, readable: Readable,
                       luck: nat -> Luck): Found<Verdict>
  {
    if policy.requiresJwt && (req.authenticated == Some(false) || !Identified(req)) then Found(Refused(401), t)
    else if !Identified(req) then Found(Forwarded, t)
    else
      var client := ClientFound(t, db, req.clientId.value, now, readable.client, luck(2), luck(3));
      if client.value.Threw? then Found(Refused(500), client.tiers)
      else if client.value.value.None? then Found(Refused(403), client.tiers)
      else
        var perms := PermissionsFound(client.tiers, db, client.value.value.value.id, now, readable.perms, luck(4), luck(5));
        if perms.value.Threw? then Found(Refused(500), perms.tiers)
        else Found(if policy.endpoint.id in perms.value.value then Forwarded else Refused(403), perms.tiers)
  }

  // ---------- coherence is kept, and decides ----------

  lemma PolicyCoherent(t: Tiered, snapshot: map<string, EndpointPolicy>, db: Database, route: string, now: nat,
                       look: Luck, file: Luck)
    requires Coherent(t, snapshot, db, now)
    ensures var r := PolicyFound(t, snapshot, route, now, look, file);
      && Coherent(r.tiers, snapshot, db, now)
      && r.value == if route in snapshot then Some(snapshot[route]) else None
  {
    hide Coherent, Apply, Lookup;
    var k := ForPolicy(route);
    GetStaysCoherent(t, k, look.up, look.kept, snapshot, db, now);
    if route in snapshot {
      var t' := Apply(t, GetOp(k, now, look));
      SetStaysCoherent(t', k, PolicyValue(snapshot[route]), file.up, file.kept, snapshot, db, now);
    }
  }

  lemma ClientCoherent(t: Tiered, snapshot: map<string, EndpointPolicy>, db: Database, clientId: string, now: nat,
                       readable: bool, look: Luck, file: Luck)
    requires Coherent(t, snapshot, db, now)
    ensures var r := ClientFound(t, db, clientId, now, readable, look, file);
      && Coherent(r.tiers, snapshot, db, now)
      && (r.value.Given? ==> r.value.value == ClientByClientId(db, clientId))
      && (r.value.Threw? ==> !readable)
  {
    hide Coherent, Apply, Lookup, ClientByClientId;
    var k := ForClient(clientId);
    GetStaysCoherent(t, k, look.up, look.kept, snapshot, db, now);
    var read := ClientByClientId(db, clientId);
    if read.Some? {
      var t' := Apply(t, GetOp(k, now, look));
      SetStaysCoherent(t', k, ClientValue(read.value), file.up, file.kept, snapshot, db, now);
    }
  }

  lemma PermissionsCoherent(t: Tiered, snapshot: map<string, EndpointPolicy>, db: Database, client: Guid, now: nat,
                            readable: bool, look: Luck, file: Luck)
    requires Coherent(t, snapshot, db, now)
    ensures var r := PermissionsFound(t, db, client, now, readable, look, file);
      && Coherent(r.tiers, snapshot, db, now)
      && (r.value.Given? ==> r.value.value == AuthorizedEndpointIds(db, client, now))
      && (r.value.Threw? ==> !readable)
  {
    hide Coherent, Apply, Lookup, AuthorizedEndpointIds;
    var k := ForPermissions(client);
    GetStaysCoherent(t, k, look.up, look.kept, snapshot, db, now);
    var t' := Apply(t, GetOp(k, now, look));
    var read := AuthorizedEndpointIds(db, client, now);
    SetStaysCoherent(t', k, PermissionsValue(read), file.up, file.kept, snapshot, db, now);
  }

  /**
   * With caches that contradict neither the snapshot nor the database, a request is decided as if there were no caches,
   * whatever was evicted or expired and whether or not the store can be reached; only a database read that fails can
   * make it a 500 instead, and the caches stay so in every case.
   */
  lemma JudgedAsDirect(t: Tiered, snapshot: map<string, EndpointPolicy>, db: Database, req: Request, now: nat,
                       readable: Readable, luck: nat -> Luck)
    requires Coherent(t, snapshot, db, now)
    ensures var r := Judged(t, snapshot, db, req, now, readable, luck);
      && (r.value == Direct(req, snapshot, db, now)
          || (r.value == Refused(500) && !(readable.client && readable.perms)))
      && Coherent(r.tiers, snapshot, db, now)
  {
    hide Coherent, PolicyFound, ClientFound, PermissionsFound, RequestKey, ClientByClientId, AuthorizedEndpointIds;
    var policy := PolicyFound(t, snapshot, RequestKey(req.path, req.verb), now, luck(0), luck(1));
    PolicyCoherent(t, snapshot, db, RequestKey(req.path, req.verb), now, luck(0), luck(1));
    if Identified(req) {
      var client := ClientFound(policy.tiers, db, req.clientId.value, now, readable.client, luck(2), luck(3));
      ClientCoherent(policy.tiers, snapshot, db, req.clientId.value, now, readable.client, luck(2), luck(3));
      if client.value.Given? && client.value.value.Some? {
        PermissionsCoherent(client.tiers, snapshot, db, client.value.value.value.id, now, readable.perms, luck(4), luck(5));
      }
    }
  }

  // ---------- the warm-up ----------

  /** One client filed: its permissions, then itself. */
  function WarmedOne(t: Tiered, client: Client, db: Database, now: nat, first: Luck, second: Luck): Tiered {
    var perms := PermissionsValue(AuthorizedEndpointIds(db, client.id, now));
    Apply(Apply(t, SetOp(ForPermissions(client.id), perms, now, first)),
          SetOp(ForClient(client.clientId), ClientValue(client), now, second))
  }

  /** The cache after the first n clients; one whose permissions cannot be read is passed over. */
  function Warmed(t: Tiered, clients: seq<Client>, n: nat, db: Database, readable: Guid -> bool, now: nat, luck: nat -> Luck)
    : Tiered
    requires n <= |clients|
  {
    if n == 0 then t
    else
      var before := Warmed(t, clients, n - 1, db, readable, now, luck);
      var client := clients[n - 1];
      if readable(client.id) then WarmedOne(before, client, db, now, luck(2 * (n - 1)), luck(2 * (n - 1) + 1)) else before
  }

  /** `client_id` is unique. */
  ghost predicate DistinctClientIds(clients: seq<Client>) {
    forall a, b :: a in clients && b in clients && a.clientId == b.clientId ==> a == b
  }

  /** An enabled client is the one found under its client id. */
  lemma ClientIsFound(db: Database, client: Client)
    requires DistinctClientIds(EnabledClients(db)) && client in EnabledClients(db)
    ensures ClientByClientId(db, client.clientId) == Some(client)
  {
    var rows := Filter(db.clients, (c: Client) => c.clientId == client.clientId && c.isEnabled);
    assert client in rows;
    assert rows[0] in rows;
    assert rows[0] in EnabledClients(db);
  }

  lemma {:induction false} WarmedStaysCoherent(t: Tiered, n: nat, db: Database, readable: Guid -> bool, now: nat,
                                               luck: nat -> Luck, snapshot: map<string, EndpointPolicy>)
    requires DistinctClientIds(EnabledClients(db)) && n <= |EnabledClients(db)|
    requires Coherent(t, snapshot, db, now)
    ensures Coherent(Warmed(t, EnabledClients(db), n, db, readable, now, luck), snapshot, db, now)
  {
    hide Coherent, Apply, ClientByClientId, AuthorizedEndpointIds, EnabledClients;
    if n > 0 {
      WarmedStaysCoherent(t, n - 1, db, readable, now, luck, snapshot);
      var client := EnabledClients(db)[n - 1];
      ClientIsFound(db, client);
      if readable(client.id) {
        var before := Warmed(t, EnabledClients(db), n - 1, db, readable, now, luck);
        var a, b := luck(2 * (n - 1)), luck(2 * (n - 1) + 1);
        var perms := PermissionsValue(AuthorizedEndpointIds(db, client.id, now));
        SetStaysCoherent(before, ForPermissions(client.id), perms, a.up, a.kept, snapshot, db, now);
        var middle := Apply(before, SetOp(ForPermissions(client.id), perms, now, a));
        SetStaysCoherent(middle, ForClient(client.clientId), ClientValue(client), b.up, b.kept, snapshot, db, now);
      }
    }
  }

  /** When the store answers, every client that could be read is in it, with its permissions, as the database has them. */
  lemma {:induction false} WarmedReachesStore(t: Tiered, n: nat, db: Database, readable: Guid -> bool, now: nat,
                                              luck: nat -> Luck, i: nat)
    requires DistinctClientIds(EnabledClients(db)) && i < n <= |EnabledClients(db)|
    requires forall k :: luck(k).up
    requires readable(EnabledClients(db)[i].id)
    ensures var client := EnabledClients(db)[i];
      var l2 := Warmed(t, EnabledClients(db), n, db, readable, now, luck).l2;
      && L2Get(l2, Render(ForClient(client.clientId)), now) == Some(ClientValue(client))
      && L2Get(l2, Render(ForPermissions(client.id)), now)
        == Some(PermissionsValue(AuthorizedEndpointIds(db, client.id, now)))
  {
    hide Render, AuthorizedEndpointIds, EnabledClients;
    var client, last := EnabledClients(db)[i], EnabledClients(db)[n - 1];
    KindsDiffer(client.clientId, client.id, last.clientId, last.id);
    if i < n - 1 {
      WarmedReachesStore(t, n - 1, db, readable, now, luck, i);
    }
  }

  /** The whole warm-up, for any enabled row: under its own client id the row, under its own id what the table permits it. */
  lemma WarmUpServes(t: Tiered, db: Database, readable: Guid -> bool, now: nat, luck: nat -> Luck, client: Client)
    requires DistinctClientIds(EnabledClients(db)) && client in db.clients && client.isEnabled && readable(client.id)
    requires forall k :: luck(k).up
    ensures var l2 := Warmed(t, EnabledClients(db), |EnabledClients(db)|, db, readable, now, luck).l2;
      && L2Get(l2, "client:" + client.clientId, now) == Some(ClientValue(client))
      && var perms := L2Get(l2, "perm:" + client.id, now);
        perms.Some? && perms.value.PermissionsValue?
        && forall id :: id in perms.value.endpointIds <==> Permits(db, client.id, id, now)
  {
    assert client in EnabledClients(db);
    var i :| 0 <= i < |EnabledClients(db)| && EnabledClients(db)[i] == client;
    WarmedReachesStore(t, |EnabledClients(db)|, db, readable, now, luck, i);
    forall id ensures id in AuthorizedEndpointIds(db, client.id, now) <==> Permits(db, client.id, id, now) {
      AuthorizedIff(db, client.id, id, now);
    }
    hide Warmed, Permits, AuthorizedEndpointIds, EnabledClients;
  }

  /** Client entries and permission entries are apart, and each belongs to one client. */
  lemma KindsDiffer(a: string, p: Guid, b: string, q: Guid)
    ensures Render(ForClient(a)) != Render(ForPermissions(q)) && Render(ForClient(b)) != Render(ForPermissions(p))
    ensures Render(ForClient(a)) == Render(ForClient(b)) ==> a == b
    ensures Render(ForPermissions(p)) == Render(ForPermissions(q)) ==> p == q
  {
    if Render(ForClient(a)) == Render(ForPermissions(q)) {
      RenderInjective(ForClient(a), ForPermissions(q));
    }
    if Render(ForClient(b)) == Render(ForPermissions(p)) {
      RenderInjective(ForClient(b), ForPermissions(p));
    }
    if Render(ForClient(a)) == Render(ForClient(b)) {
      RenderInjective(ForClient(a), ForClient(b));
    }
    if Render(ForPermissions(p)) == Render(ForPermissions(q)) {
      RenderInjective(ForPermissions(p), ForPermissions(q));
    }
  }

  // ---------- counting as one goes ----------

  lemma FilterCons<T(!new)>(x: T, rest: seq<T>, keep: T -> bool)
    ensures Filter([x] + rest, keep) == (if keep(x) then [x] else []) + Filter(rest, keep)
  {
    assert ([x] + rest)[1..] == rest;
  }

  lemma FilterStart<T(!new)>(rows: seq<T>, keep: T -> bool)
    ensures Filter(rows[..0], keep) == []
  {
  }

  lemma {:induction false} FilterStep<T(!new)>(rows: seq<T>, i: nat, keep: T -> bool)
    requires i < |rows|
    ensures Filter(rows[..i + 1], keep) == Filter(rows[..i], keep) + (if keep(rows[i]) then [rows[i]] else [])
    decreases i
  {
    hide Filter;
    FilterStart(rows, keep);
    if i > 0 {
      var rest := rows[1..];
      FilterStep(rest, i - 1, keep);
      FilterCons(rows[0], rest[..i], keep);
      FilterCons(rows[0], rest[..i - 1], keep);
      assert rows[..i + 1] == [rows[0]] + rest[..i] && rows[..i] == [rows[0]] + rest[..i - 1];
    } else {
      assert rows[..1] == [rows[0]] + [] && rows[..0] == [];
      FilterCons(rows[0], [], keep);
    }
  }

  // ---------- the objects ----------

  /** The cache does not have the client, or what it has is not one. */
  predicate ClientMissed(t: Tiered, clientId: string, now: nat, look: Luck) {
    var found := Lookup(t, "client:" + clientId, now, look.up);
    found == None || !found.value.ClientValue?
  }

  predicate PermissionsMissed(t: Tiered, client: Guid, now: nat, look: Luck) {
    var found := Lookup(t, "perm:" + client, now, look.up);
    found == None || !found.value.PermissionsValue?
  }

  class GatewayAuthorization {
    const resolver: PolicyResolver

    constructor (resolver: PolicyResolver)
      ensures this.resolver == resolver
    {
      this.resolver := resolver;
    }

    method FindPolicy(path: string, verb: string, now: nat, look: Luck, file: Luck) returns (r: Option<EndpointPolicy>)
      modifies resolver.cache`memory, resolver.cache.redis
      ensures Found(r, resolver.cache.State())
        == PolicyFound(old(resolver.cache.State()), resolver.snapshot, RequestKey(path, verb), now, look, file)
    {
      hide Apply, Lookup, RequestKey, Render;
      r := resolver.ResolvePolicy(path, verb, now, look.up, look.kept, file.up, file.kept);
    }

    method FindClient(clientId: string, db: Database, now: nat, readable: bool, look: Luck, file: Luck)
      returns (r: Read<Option<Client>>)
      modifies resolver.cache`memory, resolver.cache.redis
      ensures Found(r, resolver.cache.State())
        == ClientFound(old(resolver.cache.State()), db, clientId, now, readable, look, file)
      ensures ClientMissed(old(resolver.cache.State()), clientId, now, look) && r.Given? ==>
        && (r.value == None <==> forall c :: c in db.clients && c.clientId == clientId ==> !c.isEnabled)
        && forall i: nat :: FirstClient(db, clientId, i) ==> r.value == Some(db.clients[i])
    {
      ClientFoundIff(db, clientId);
      var found := resolver.cache.GetClient(clientId, now, look.up, look.kept);
      if found.Some? {
        return Given(found);
      }
      if !readable {
        return Threw;
      }
      var client := ClientByClientId(db, clientId);
      if client.Some? {
        resolver.cache.SetClient(clientId, client.value, now, L2_TTL, file.up, file.kept);
      }
      return Given(client);
    }

    method FindPermissions(client: Guid, db: Database, now: nat, readable: bool, look: Luck, file: Luck)
      returns (r: Read<set<Guid>>)
      modifies resolver.cache`memory, resolver.cache.redis
      ensures Found(r, resolver.cache.State())
        == PermissionsFound(old(resolver.cache.State()), db, client, now, readable, look, file)
      ensures PermissionsMissed(old(resolver.cache.State()), client, now, look) && r.Given? ==>
        forall id :: id in r.value <==> Permits(db, client, id, now)
    {
      forall id ensures id in AuthorizedEndpointIds(db, client, now) <==> Permits(db, client, id, now) {
        AuthorizedIff(db, client, id, now);
      }
      hide Permits, AuthorizedEndpointIds;
      var found := resolver.cache.GetPermissions(client, now, look.up, look.kept);
      if found.Some? {
        return Given(found.value);
      }
      if !readable {
        return Threw;
      }
      var ids := AuthorizedEndpointIds(db, client, now);
      resolver.cache.SetPermissions(client, ids, now, L2_TTL, file.up, file.kept);
      return Given(ids);
    }

    /** The middleware on one request. */
    method Invoke(req: Request, db: Database, now: nat, readable: Readable, luck: nat -> Luck) returns (v: Verdict)
      modifies resolver.cache`memory, resolver.cache.redis
      ensures Found(v, resolver.cache.State())
        == Judged(old(resolver.cache.State()), resolver.snapshot, db, req, now, readable, luck)
      ensures Coherent(old(resolver.cache.State()), resolver.snapshot, db, now) ==>
        && (v == Direct(req, resolver.snapshot, db, now)
            || (v == Refused(500) && !(readable.client && readable.perms)))
        && (Ruled(v, req, resolver.snapshot, db, now) || (v == Refused(500) && !(readable.client && readable.perms)))
        && Coherent(resolver.cache.State(), resolver.snapshot, db, now)
    {
      DirectIsRuled(req, resolver.snapshot, db, now);
      hide Ruled, Coherent, PolicyFound, ClientFound, PermissionsFound, Direct, RequestKey, IsHealthPath;
      if Coherent(resolver.cache.State(), resolver.snapshot, db, now) {
        JudgedAsDirect(resolver.cache.State(), resolver.snapshot, db, req, now, readable, luck);
      }
      if IsHealthPath(req.path) {
        return Forwarded;
      }
      var policy := FindPolicy(req.path, req.verb, now, luck(0), luck(1));
      if policy.None? {
        return Refused(404);
      }
      if policy.value.requiresJwt && req.authenticated == Some(false) {
        return Refused(401);
      }
      if !Identified(req) {
        return if policy.value.requiresJwt then Refused(401) else Forwarded;
      }
      var client := FindClient(req.clientId.value, db, now, readable.client, luck(2), luck(3));
      if client.Threw? {
        return Refused(500);
      }
      if client.value.None? {
        return Refused(403);
      }
      var perms := FindPermissions(client.value.value.id, db, now, readable.perms, luck(4), luck(5));
      if perms.Threw? {
        return Refused(500);
      }
      return if policy.value.endpoint.id in perms.value then Forwarded else Refused(403);
    }
  }

  class PolicyRefreshService {
    const cache: PolicyCache

    constructor (cache: PolicyCache)
      ensures this.cache == cache
    {
      this.cache := cache;
    }

    /**
     * The warm-up loop: file every enabled client's permissions and the client itself; a client whose permissions
     * cannot be read is counted and passed over. Every client is counted once.
     */
    method RefreshClientPermissions(db: Database, readable: Guid -> bool, now: nat, luck: nat -> Luck)
      returns (refreshed: nat, failed: nat)
      modifies cache`memory, cache.redis
      ensures var clients := EnabledClients(db);
        cache.State() == Warmed(old(cache.State()), clients, |clients|, db, readable, now, luck)
      ensures refreshed == |Filter(EnabledClients(db), (c: Client) => readable(c.id))|
      ensures refreshed + failed == |EnabledClients(db)|
    {
      hide Filter, Apply, Render;
      var clients := EnabledClients(db);
      refreshed, failed := 0, 0;
      FilterStart(clients, (c: Client) => readable(c.id));
      for i := 0 to |clients|
        invariant refreshed == |Filter(clients[..i], (c: Client) => readable(c.id))|
        invariant refreshed + failed == i
        invariant cache.State() == Warmed(old(cache.State()), clients, i, db, readable, now, luck)
      {
        FilterStep(clients, i, (c: Client) => readable(c.id));
        var client := clients[i];
        if readable(client.id) {
          var perms := AuthorizedEndpointIds(db, client.id, now);
          var first, second := luck(2 * i), luck(2 * i + 1);
          cache.SetPermissions(client.id, perms, now, L2_TTL, first.up, first.kept);
          cache.SetClient(client.clientId, client, now, L2_TTL, second.up, second.kept);
          refreshed := refreshed + 1;
        } else {
          failed := failed + 1;
        }
      }
      assert clients[..|clients|] == clients;
    }
  }
}
