/** The public catalogue of endpoints, and its agreement with the routing snapshot. */
module CatalogueModel {
  import opened Wrappers
  import opened Entities
  import opened Registry
  import opened PolicyResolverModel
  import opened EndpointUpdateModel

  /** One catalogue entry: an endpoint with the service and the product it is listed under. */
  datatype CatalogueEntry = CatalogueEntry(product: Product, service: Service, endpoint: Endpoint)

  // ---------- the nested join, flattened ----------

  function EndpointEntries(p: Product, s: Service, endpoints: seq<Endpoint>): seq<CatalogueEntry> {
    if endpoints == [] then []
    else
      (if endpoints[0].serviceId == s.id then [CatalogueEntry(p, s, endpoints[0])] else [])
        + EndpointEntries(p, s, endpoints[1..])
  }

  function ServiceEntries(p: Product, services: seq<Service>, endpoints: seq<Endpoint>): seq<CatalogueEntry> {
    if services == [] then []
    else
      (if services[0].productId == p.id then EndpointEntries(p, services[0], endpoints) else [])
        + ServiceEntries(p, services[1..], endpoints)
  }

  function ProductEntries(products: seq<Product>, services: seq<Service>, endpoints: seq<Endpoint>): seq<CatalogueEntry> {
    if products == [] then []
    else ServiceEntries(products[0], services, endpoints) + ProductEntries(products[1..], services, endpoints)
  }

  function Catalogue(db: Database): seq<CatalogueEntry> {
    ProductEntries(EnabledProducts(db), EnabledServices(db), EnabledEndpoints(db))
  }

  // ---------- it is the relational join ----------

  /** The join condition: three enabled rows that chain. */
  ghost predicate Joined(db: Database, x: CatalogueEntry) {
    && x.product in db.products && x.product.isEnabled
    && x.service in db.services && x.service.isEnabled && x.service.productId == x.product.id
    && x.endpoint in db.endpoints && x.endpoint.isEnabled && x.endpoint.serviceId == x.service.id
  }

  lemma {:induction false} InEndpointEntries(p: Product, s: Service, endpoints: seq<Endpoint>, x: CatalogueEntry)
    ensures x in EndpointEntries(p, s, endpoints) <==>
      x.product == p && x.service == s && x.endpoint in endpoints && x.endpoint.serviceId == s.id
  {
    if endpoints != [] {
      assert endpoints == [endpoints[0]] + endpoints[1..];
      InEndpointEntries(p, s, endpoints[1..], x);
    }
  }

  lemma {:induction false} InServiceEntries(p: Product, services: seq<Service>, endpoints: seq<Endpoint>, x: CatalogueEntry)
    ensures x in ServiceEntries(p, services, endpoints) <==>
      && x.product == p
      && x.service in services && x.service.productId == p.id
      && x.endpoint in endpoints && x.endpoint.serviceId == x.service.id
  {
    if services != [] {
      assert services == [services[0]] + services[1..];
      InEndpointEntries(p, services[0], endpoints, x);
      InServiceEntries(p, services[1..], endpoints, x);
    }
  }

  lemma {:induction false} InProductEntries(products: seq<Product>, services: seq<Service>, endpoints: seq<Endpoint>,
                                            x: CatalogueEntry)
    ensures x in ProductEntries(products, services, endpoints) <==>
      && x.product in products
      && x.service in services && x.service.productId == x.product.id
      && x.endpoint in endpoints && x.endpoint.serviceId == x.service.id
  {
    if products != [] {
      assert products == [products[0]] + products[1..];
      InServiceEntries(products[0], services, endpoints, x);
      InProductEntries(products[1..], services, endpoints, x);
    }
  }

  /** The catalogue lists exactly the join of the enabled products, services and endpoints. */
  lemma CatalogueIsJoin(db: Database, x: CatalogueEntry)
    ensures x in Catalogue(db) <==> Joined(db, x)
  {
    InProductEntries(EnabledProducts(db), EnabledServices(db), EnabledEndpoints(db), x);
  }

  // ---------- each endpoint once ----------

  function ProductId(p: Product): Guid { p.id }
  function ServiceId(s: Service): Guid { s.id }
  function EndpointId(e: Endpoint): Guid { e.id }

  ghost predicate DistinctBy<T>(rows: seq<T>, id: T -> Guid) {
    forall i, j :: 0 <= i < j < |rows| ==> id(rows[i]) != id(rows[j])
  }

  /** Ids are primary keys. */
  ghost predicate UniqueIds(db: Database) {
    && DistinctBy(db.products, ProductId)
    && DistinctBy(db.services, ServiceId)
    && DistinctBy(db.endpoints, EndpointId)
  }

  /** Rows with one id are one row. */
  lemma SameRow<T>(rows: seq<T>, id: T -> Guid, a: T, b: T)
    requires DistinctBy(rows, id) && a in rows && b in rows && id(a) == id(b)
    ensures a == b
  {
    var i :| 0 <= i < |rows| && rows[i] == a;
    var j :| 0 <= j < |rows| && rows[j] == b;
  }

  lemma DistinctTail<T>(rows: seq<T>, id: T -> Guid)
    requires rows != [] && DistinctBy(rows, id)
    ensures DistinctBy(rows[1..], id)
    ensures forall x :: x in rows[1..] ==> id(x) != id(rows[0])
  {
    forall x | x in rows[1..] ensures id(x) != id(rows[0]) {
      var k :| 0 <= k < |rows[1..]| && rows[1..][k] == x;
      assert rows[k + 1] == x;
    }
  }

  /** The rows a filter keeps have different ids if all rows have. */
  lemma {:induction false} FilterKeepsDistinct<T(!new)>(rows: seq<T>, keep: T -> bool, id: T -> Guid)
    requires DistinctBy(rows, id)
    ensures DistinctBy(Filter(rows, keep), id)
  {
    if rows != [] {
      DistinctTail(rows, id);
      FilterKeepsDistinct(rows[1..], keep, id);
      var tail := Filter(rows[1..], keep);
      var r := Filter(rows, keep);
      if keep(rows[0]) {
        assert r == [rows[0]] + tail;
        forall i, j | 0 <= i < j < |r| ensures id(r[i]) != id(r[j]) {
          assert r[j] == tail[j - 1] && tail[j - 1] in tail;
        }
      } else {
        assert r == tail;
      }
    }
  }

  /** No two entries are about the same endpoint id. */
  ghost predicate OncePerEndpoint(xs: seq<CatalogueEntry>) {
    forall i, j :: 0 <= i < j < |xs| ==> xs[i].endpoint.id != xs[j].endpoint.id
  }

  lemma OnceJoined(a: seq<CatalogueEntry>, b: seq<CatalogueEntry>)
    requires OncePerEndpoint(a) && OncePerEndpoint(b)
    requires forall x, y :: x in a && y in b ==> x.endpoint.id != y.endpoint.id
    ensures OncePerEndpoint(a + b)
  {
    var c := a + b;
    forall i, j | 0 <= i < j < |c| ensures c[i].endpoint.id != c[j].endpoint.id {
      if i < |a| <= j {
        assert c[i] in a && c[j] in b;
      }
    }
  }

  lemma {:induction false} EndpointEntriesOnce(p: Product, s: Service, endpoints: seq<Endpoint>)
    requires DistinctBy(endpoints, EndpointId)
    ensures OncePerEndpoint(EndpointEntries(p, s, endpoints))
  {
    if endpoints != [] {
      DistinctTail(endpoints, EndpointId);
      EndpointEntriesOnce(p, s, endpoints[1..]);
      var head := if endpoints[0].serviceId == s.id then [CatalogueEntry(p, s, endpoints[0])] else [];
      var tail := EndpointEntries(p, s, endpoints[1..]);
      forall x, y | x in head && y in tail ensures x.endpoint.id != y.endpoint.id {
        InEndpointEntries(p, s, endpoints[1..], y);
      }
      OnceJoined(head, tail);
    }
  }

  lemma {:induction false} ServiceEntriesOnce(p: Product, services: seq<Service>, endpoints: seq<Endpoint>)
    requires DistinctBy(services, ServiceId)
    requires DistinctBy(endpoints, EndpointId)
    ensures OncePerEndpoint(ServiceEntries(p, services, endpoints))
  {
    if services != [] {
      var s := services[0];
      DistinctTail(services, ServiceId);
      ServiceEntriesOnce(p, services[1..], endpoints);
      EndpointEntriesOnce(p, s, endpoints);
      var head := if s.productId == p.id then EndpointEntries(p, s, endpoints) else [];
      var tail := ServiceEntries(p, services[1..], endpoints);
      forall x, y | x in head && y in tail ensures x.endpoint.id != y.endpoint.id {
        InEndpointEntries(p, s, endpoints, x);
        InServiceEntries(p, services[1..], endpoints, y);
        assert ServiceId(y.service) != ServiceId(s);
        if x.endpoint.id == y.endpoint.id {
          SameRow(endpoints, EndpointId, x.endpoint, y.endpoint);
        }
      }
      OnceJoined(head, tail);
    }
  }

  lemma {:induction false} ProductEntriesOnce(products: seq<Product>, services: seq<Service>, endpoints: seq<Endpoint>)
    requires DistinctBy(products, ProductId)
    requires DistinctBy(services, ServiceId)
    requires DistinctBy(endpoints, EndpointId)
    ensures OncePerEndpoint(ProductEntries(products, services, endpoints))
  {
    if products != [] {
      var p := products[0];
      DistinctTail(products, ProductId);
      ProductEntriesOnce(products[1..], services, endpoints);
      ServiceEntriesOnce(p, services, endpoints);
      var head := ServiceEntries(p, services, endpoints);
      var tail := ProductEntries(products[1..], services, endpoints);
      forall x, y | x in head && y in tail ensures x.endpoint.id != y.endpoint.id {
        InServiceEntries(p, services, endpoints, x);
        InProductEntries(products[1..], services, endpoints, y);
        assert ProductId(y.product) != ProductId(p);
        if x.endpoint.id == y.endpoint.id {
          SameRow(endpoints, EndpointId, x.endpoint, y.endpoint);
          SameRow(services, ServiceId, x.service, y.service);
        }
      }
      OnceJoined(head, tail);
    }
  }

  /** With unique ids, each qualifying endpoint is listed exactly once. */
  lemma CatalogueListsOnce(db: Database)
    requires UniqueIds(db)
    ensures OncePerEndpoint(Catalogue(db))
  {
    FilterKeepsDistinct(db.products, ProductEnabled, ProductId);
    FilterKeepsDistinct(db.services, ServiceEnabled, ServiceId);
    FilterKeepsDistinct(db.endpoints, EndpointEnabled, EndpointId);
    ProductEntriesOnce(EnabledProducts(db), EnabledServices(db), EnabledEndpoints(db));
  }

  // ---------- agreement with the snapshot ----------

  /** A refresh whose reads all succeed on one state of the tables. */
  function ReadsOf(db: Database): RegistryReads {
    RegistryReads(Some(EnabledServices(db)), Some(EnabledProducts(db)), (s: Service) => Some(EnabledEndpointsOf(db, s.id)))
  }

  /** A registration comes from a catalogue entry, under one of its keys. */
  ghost predicate FromEntry(x: CatalogueEntry, r: Registration<EndpointPolicy>) {
    r in RegistrationsOfEndpoint(x.product, x.service, x.endpoint)
  }

  lemma {:induction false} PlanFromEntries(db: Database, n: nat, r: Registration<EndpointPolicy>)
    requires r in PlanFrom(EnabledProducts(db), EnabledServices(db), ReadsOf(db), n).registrations
    ensures exists x :: Joined(db, x) && FromEntry(x, r)
    decreases |EnabledServices(db)| - n
  {
    var services, products := EnabledServices(db), EnabledProducts(db);
    var product := FindProduct(products, services[n].productId);
    if product.None? {
      PlanFromEntries(db, n + 1, r);
    } else {
      var endpoints := EnabledEndpointsOf(db, services[n].id);
      if r in RegistrationsOfService(product.value, services[n], endpoints) {
        var e :| e in endpoints && r in RegistrationsOfEndpoint(product.value, services[n], e);
        var x := CatalogueEntry(product.value, services[n], e);
        assert services[n] in services;
        assert Joined(db, x) && FromEntry(x, r);
      } else {
        PlanFromEntries(db, n + 1, r);
      }
    }
  }

  /** Every endpoint the snapshot routes to is in the catalogue, with the same service and product. */
  lemma SnapshotInCatalogue(db: Database, key: string)
    requires key in SnapshotOf(RefreshPlan(ReadsOf(db)).registrations)
    ensures var p := SnapshotOf(RefreshPlan(ReadsOf(db)).registrations)[key];
      CatalogueEntry(p.product, p.service, p.endpoint) in Catalogue(db)
  {
    var regs := RefreshPlan(ReadsOf(db)).registrations;
    var p := SnapshotOf(regs)[key];
    var r := Registration(key, p);
    assert r in regs;
    PlanFromEntries(db, 0, r);
    var x :| Joined(db, x) && FromEntry(x, r);
    CatalogueIsJoin(db, x);
  }

  /** The endpoint rows a query sees are those of the table. */
  ghost predicate StoredIn(db: Database, rows: map<Guid, Endpoint>) {
    forall e :: e in db.endpoints ==> e.id in rows && rows[e.id] == e
  }

  /** A disabled endpoint is in no catalogue and in no snapshot built afterwards, under none of its keys. */
  lemma DisabledIsGone(db: Database, rows: map<Guid, Endpoint>, id: Guid)
    requires StoredIn(db, rows) && (id in rows ==> !rows[id].isEnabled)
    ensures forall x :: x in Catalogue(db) ==> x.endpoint.id != id
    ensures var snapshot := SnapshotOf(RefreshPlan(ReadsOf(db)).registrations);
      forall key :: key in snapshot ==> snapshot[key].endpoint.id != id
  {
    forall x | x in Catalogue(db) ensures x.endpoint.id != id {
      CatalogueIsJoin(db, x);
    }
    hide Catalogue, SnapshotOf, RefreshPlan;
    var snapshot := SnapshotOf(RefreshPlan(ReadsOf(db)).registrations);
    forall key | key in snapshot ensures snapshot[key].endpoint.id != id {
      SnapshotInCatalogue(db, key);
    }
  }

  /** `DisableAsync`, and what routing and discovery make of the table it leaves. */
  method DisableEndpoint(table: EndpointTable, db: Database, id: Guid) returns (found: bool)
    modifies table
    ensures found <==> id in old(table.rows)
    ensures forall other :: other in table.rows ==> other in old(table.rows)
    ensures forall other :: other in old(table.rows) && other != id ==>
      other in table.rows && table.rows[other] == old(table.rows)[other]
    ensures StoredIn(db, table.rows) ==>
      && (forall x :: x in Catalogue(db) ==> x.endpoint.id != id)
      && var snapshot := SnapshotOf(RefreshPlan(ReadsOf(db)).registrations);
        forall key :: key in snapshot ==> snapshot[key].endpoint.id != id
  {
    found := table.Disable(id);
    if StoredIn(db, table.rows) {
      DisabledIsGone(db, table.rows, id);
    }
  }

  predicate HasKey(x: CatalogueEntry, key: string) {
    key in RouteKeys(x.service, x.endpoint)
  }

  /** No two endpoints of the catalogue share a route key, and each has a method. */
  ghost predicate KeysDistinct(db: Database) {
    && (forall x, y, k ::
      (Joined(db, x) && Joined(db, y) && HasKey(x, k) && HasKey(y, k)) ==> x == y)
    && (forall x :: Joined(db, x) ==> |Methods(x.endpoint)| > 0)
  }

  lemma {:induction false} EndpointRegistered(product: Product, service: Service, endpoints: seq<Endpoint>, e: Endpoint,
                                              r: Registration<EndpointPolicy>)
    requires e in endpoints && r in RegistrationsOfEndpoint(product, service, e)
    ensures r in RegistrationsOfService(product, service, endpoints)
  {
    if endpoints[0] != e {
      assert endpoints == [endpoints[0]] + endpoints[1..];
      EndpointRegistered(product, service, endpoints[1..], e, r);
    }
  }

  lemma {:induction false} EntryRegistered(db: Database, n: nat, x: CatalogueEntry, r: Registration<EndpointPolicy>)
    requires UniqueIds(db) && Joined(db, x) && FromEntry(x, r)
    requires n <= |EnabledServices(db)| && x.service in EnabledServices(db)[n..]
    ensures r in PlanFrom(EnabledProducts(db), EnabledServices(db), ReadsOf(db), n).registrations
    decreases |EnabledServices(db)| - n
  {
    var services, products := EnabledServices(db), EnabledProducts(db);
    var s := services[n];
    assert services[n..] == [s] + services[n + 1..];
    var product := FindProduct(products, s.productId);
    if s == x.service {
      assert x.product in products;
      ProductFound(db, x.product);
      EndpointRegistered(x.product, s, EnabledEndpointsOf(db, s.id), x.endpoint, r);
    } else {
      EntryRegistered(db, n + 1, x, r);
    }
  }

  lemma ProductFound(db: Database, p: Product)
    requires UniqueIds(db) && p in EnabledProducts(db)
    ensures FindProduct(EnabledProducts(db), p.id) == Some(p)
  {
    var q := FindProduct(EnabledProducts(db), p.id);
    assert q.Some?;
    SameRow(db.products, ProductId, p, q.value);
  }

  /**
   * When route keys are distinct and no method list is empty, the snapshot routes to exactly the endpoints of the
   * catalogue.
   */
  lemma SnapshotIsCatalogue(db: Database, x: CatalogueEntry)
    requires UniqueIds(db) && KeysDistinct(db)
    ensures var snapshot := SnapshotOf(RefreshPlan(ReadsOf(db)).registrations);
      x in Catalogue(db) <==>
        exists k :: k in snapshot && snapshot[k] == BuildEndpointPolicy(x.product, x.service, x.endpoint)
  {
    if x in Catalogue(db) {
      CatalogueIsJoin(db, x);
      var key := EntryInSnapshot(db, x);
    }
    var snapshot := SnapshotOf(RefreshPlan(ReadsOf(db)).registrations);
    hide Catalogue, SnapshotOf, RefreshPlan;
    if k :| k in snapshot && snapshot[k] == BuildEndpointPolicy(x.product, x.service, x.endpoint) {
      SnapshotInCatalogue(db, k);
    }
  }

  lemma EntryInSnapshot(db: Database, x: CatalogueEntry) returns (key: string)
    requires UniqueIds(db) && KeysDistinct(db) && Joined(db, x)
    ensures var snapshot := SnapshotOf(RefreshPlan(ReadsOf(db)).registrations);
      key in snapshot && snapshot[key] == BuildEndpointPolicy(x.product, x.service, x.endpoint)
  {
    FilterKeepsDistinct(db.products, ProductEnabled, ProductId);
    assert DistinctIds(EnabledProducts(db));
    var regs := RefreshPlan(ReadsOf(db)).registrations;
    assert regs == PlanFrom(EnabledProducts(db), EnabledServices(db), ReadsOf(db), 0).registrations;
    var r := RegistrationsOfEndpoint(x.product, x.service, x.endpoint)[0];
    key := r.key;
    assert EnabledServices(db)[0..] == EnabledServices(db);
    hide RefreshPlan, PlanFrom, SnapshotOf, RouteKeys, BuildEndpointPolicy;
    EntryRegistered(db, 0, x, r);
    var r' := Registration(key, SnapshotOf(regs)[key]);
    assert r' in regs;
    OnlyEntry(db, x, r');
  }

  /** With distinct keys, a registration under one of an entry's keys is that entry's policy. */
  lemma OnlyEntry(db: Database, x: CatalogueEntry, r: Registration<EndpointPolicy>)
    requires KeysDistinct(db) && Joined(db, x) && HasKey(x, r.key)
    requires r in PlanFrom(EnabledProducts(db), EnabledServices(db), ReadsOf(db), 0).registrations
    ensures r.policy == BuildEndpointPolicy(x.product, x.service, x.endpoint)
  {
    PlanFromEntries(db, 0, r);
    var y :| Joined(db, y) && FromEntry(y, r);
    assert HasKey(y, r.key);
    assert x == y;
  }
}
