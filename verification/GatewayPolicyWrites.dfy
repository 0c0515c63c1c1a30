/**
 * The first half of a run that keeps a policy in use as long as can be: up to the write of the policy to the shared
 * store. It is posted either by a request that takes the policy from a snapshot at the snapshot's last instant, or, when
 * a refresh may take longer than that, by a refresh with all of its awaits as long as can be.
 */
module GatewayPolicyWrites {
  import opened Wrappers
  import opened Entities
  import opened Registry
  import opened GatewayProtocol
  import opened GatewayStaleness
  import opened GatewayTheorems
  import opened GatewayRuns

  // ---------- the environment ----------

  /** Services that register nothing: they have no endpoints. */
  ghost predicate NoneServing(idle: seq<Service>) {
    forall i :: 0 <= i < |idle| ==> idle[i].isEnabled && idle[i].productId == SOME_ID && idle[i].id != SOME_ID
  }

  /** Idle services and a last one with an endpoint are enabled at instant 0 only; nothing else ever changes. */
  function Db(idle: seq<Service>, t: Time): Database {
    Database([PRODUCT], if t == 0 then idle + [SERVICE] else [], [ENDPOINT], [], [])
  }

  function Env(d: nat, idle: seq<Service>): Config {
    Config((t: Time) => Db(idle, t), d)
  }

  lemma {:induction false} AllEnabled(services: seq<Service>)
    requires forall i :: 0 <= i < |services| ==> services[i].isEnabled
    ensures Filter(services, ServiceEnabled) == services
  {
    if services != [] {
      AllEnabled(services[1..]);
      assert services == [services[0]] + services[1..];
    }
  }

  lemma Reads(idle: seq<Service>, t: Time)
    requires NoneServing(idle)
    ensures EnabledProducts(Db(idle, t)) == [PRODUCT]
    ensures EnabledServices(Db(idle, t)) == if t == 0 then idle + [SERVICE] else []
    ensures EnabledEndpointsOf(Db(idle, t), SOME_ID) == [ENDPOINT]
    ensures forall i :: 0 <= i < |idle| ==> EnabledEndpointsOf(Db(idle, t), idle[i].id) == []
  {
    AllEnabled(idle + [SERVICE]);
  }

  // ---------- every refresh is small ----------

  lemma OneRegistration(product: Product)
    requires FindProduct([PRODUCT], SERVICE.productId) == Some(product)
    ensures RegistrationsOfService(product, SERVICE, [ENDPOINT]) == [Registration(ROUTE, POLICY)]
  {
    Routes();
  }

  ghost predicate RefreshOf(b: Bounded, idle: seq<Service>, now: Time, r: Refresh) {
    b.run.db == Env(b.run.delay, idle).db && NoneServing(idle) && RefreshOk(b, now, r)
  }

  lemma ServicesAre(b: Bounded, idle: seq<Service>, now: Time, r: Refresh)
    requires RefreshOf(b, idle, now, r)
    ensures r.services == [] || r.services == idle + [SERVICE]
    ensures r.products == [PRODUCT] && |r.loads| <= |r.services|
  {
    Reads(idle, r.servicesAt);
    Reads(idle, r.productsAt);
  }

  /** The idle services register nothing and the last one its policy. */
  lemma LoadRegisters(b: Bounded, idle: seq<Service>, now: Time, r: Refresh, i: nat)
    requires RefreshOf(b, idle, now, r) && i < |r.loads|
    ensures i < |r.services| && |ServiceRegistrations(r, i)| <= if i < |idle| then 0 else 1
  {
    ServicesAre(b, idle, now, r);
    assert LoadOk(b, now, r, i);
    hide EnabledProducts, EnabledEndpointsOf, RefreshOk;
    if r.loads[i].Loaded? {
      Reads(idle, r.loads[i].at);
      if i == |idle| {
        OneRegistration(FindProduct(r.products, SERVICE.productId).value);
      }
    }
  }

  lemma {:induction false} FewRegistrations(b: Bounded, idle: seq<Service>, now: Time, r: Refresh, n: nat)
    requires RefreshOf(b, idle, now, r) && n <= |r.loads| <= |r.services| <= |idle| + 1
    ensures |RefreshRegistrations(r, n)| <= if n <= |idle| then 0 else 1
  {
    hide RefreshOf, ServiceRegistrations;
    if n > 0 {
      FewRegistrations(b, idle, now, r, n - 1);
      LoadRegisters(b, idle, now, r, n - 1);
    }
  }

  lemma FilingIsSmall(b: Bounded, idle: seq<Service>, now: Time, r: Refresh, done: seq<PolicyRegistration>,
                      rows: Stamped<seq<Endpoint>>)
    requires RefreshOf(b, idle, now, r) && ReloadOk(b, now, EndpointList(r, done, Got(rows)))
    requires ServiceRegistrations(AddLoad(r, rows), |r.loads|) != []
    ensures Work(r, done) == |idle|
  {
    hide RefreshOk, ServiceRegistrations, FindProduct, EnabledEndpointsOf;
    ServicesAre(b, idle, now, r);
    StillBuilding(b, now, r, done, rows);
    LoadRegisters(b, idle, now, AddLoad(r, rows), |r.loads|);
    FewRegistrations(b, idle, now, r, |r.loads|);
  }

  lemma TaskIsSmall(b: Bounded, idle: seq<Service>, now: Time, t: Task)
    requires b.run.db == Env(b.run.delay, idle).db && NoneServing(idle) && TaskOk(b, now, t)
    ensures TaskSmall(|idle| + 2, t)
  {
    hide RequestOk, WarmOk, RefreshOk, RefreshRegistrations, ServiceRegistrations, NoneServing, FindProduct;
    if t.wait.Refreshing? && ToFile(t.wait.reload) != [] {
      assert RefreshOf(b, idle, now, t.wait.reload.refresh);
      match t.wait.reload
      case EndpointList(r, done, Got(rows)) => FilingIsSmall(b, idle, now, r, done, rows);
      case PolicyWritten(r, done, todo) =>
        ServicesAre(b, idle, now, r);
        FewRegistrations(b, idle, now, r, |r.loads|);
    }
  }

  lemma RefreshesAreSmall(d: nat, idle: seq<Service>, states: seq<State>, events: seq<Event>, j: nat)
    requires NoneServing(idle) && Run(Env(d, idle), states, events) && j < |states|
    ensures RefreshesSmall(|idle| + 2, states[j])
  {
    var b := SomeBounds(Env(d, idle), states, events, j);
    var s := states[j];
    hide Run, Inv, TaskOk, TaskSmall, NoneServing;
    forall n, id | n in s.nodes && id in s.nodes[n].tasks ensures TaskSmall(|idle| + 2, s.nodes[n].tasks[id]) {
      TaskIn(b, s, n, id);
      TaskIsSmall(b, idle, s.now, s.nodes[n].tasks[id]);
    }
  }

  // ---------- runs whose snapshots are young ----------

  ghost predicate Youthful(c: Config, age: nat, states: seq<State>, events: seq<Event>, s: State) {
    && Reaches(c, states, events, s)
    && forall j :: 0 <= j < |states| ==> SnapshotsYoung(age, states[j])
  }

  /** Reached by a run in which no snapshot is ever older than the age. */
  ghost predicate Youthfully(c: Config, age: nat, s: State) {
    exists states, events :: Youthful(c, age, states, events, s)
  }

  /** Up to that age no snapshot can be older. */
  lemma StillYoung(c: Config, age: nat, s: State)
    requires Reachable(c, s) && s.now <= age
    ensures Youthfully(c, age, s)
  {
    var states, events :| Reaches(c, states, events, s);
    forall j | 0 <= j < |states| ensures SnapshotsYoung(age, states[j]) {
      TimeGrows(c, states, events, j, |events|);
    }
    assert Youthful(c, age, states, events, s);
  }

  lemma StepYoung(c: Config, age: nat, s: State, e: Event, s': State)
    requires Youthfully(c, age, s) && Next(c, s, e, s') && SnapshotsYoung(age, s')
    ensures Youthfully(c, age, s')
  {
    var states, events :| Youthful(c, age, states, events, s);
    hide Next, Init, SnapshotsYoung;
    var states', events' := states + [s'], events + [e];
    forall i | 0 <= i < |events'| ensures Next(c, states'[i], events'[i], states'[i + 1]) {
      if i < |events| {
        assert Next(c, states[i], events[i], states[i + 1]);
      }
    }
    assert Youthful(c, age, states', events', s');
  }

  /** A node that has refreshed no policies stays young. */
  lemma StepOne(c: Config, age: nat, s: State, e: Event, now: Time, node: Node, l2: Tier, writes: seq<Write>,
                log: seq<Outcome>)
    requires Youthfully(c, age, s) && Next(c, s, e, One(now, node, l2, writes, log)) && node.origin.None?
    ensures Youthfully(c, age, One(now, node, l2, writes, log))
  {
    hide Youthfully, Next;
    StepYoung(c, age, s, e, One(now, node, l2, writes, log));
  }

  // ---------- a refresh, each of its awaits as long as can be ----------

  /** When the i-th service's endpoints are read. */
  function At(d: nat, i: nat): Time {
    if i == 0 then d + d else At(d, i - 1) + d
  }

  lemma {:induction false} AtIs(d: nat, i: nat)
    ensures At(d, i) == (i + 2) * d
  {
    if i > 0 {
      AtIs(d, i - 1);
      assert (i + 2) * d == (i + 1) * d + d;
    }
  }

  /** What the first i services, idle ones, bring. */
  function Loads(d: nat, i: nat): (r: seq<EndpointsLoad>)
    ensures |r| == i
  {
    if i == 0 then [] else Loads(d, i - 1) + [Loaded([], At(d, i - 1))]
  }

  /** The refresh with i services behind it. */
  function Partial(d: nat, idle: seq<Service>, i: nat): Refresh {
    Refresh(idle + [SERVICE], 0, [PRODUCT], d, Loads(d, i))
  }

  function Complete(d: nat, idle: seq<Service>): Refresh {
    AddLoad(Partial(d, idle, |idle|), Stamped([ENDPOINT], At(d, |idle|)))
  }

  /** The policy that the refresh builds, of a service that was enabled at instant 0. */
  function OldPolicy(d: nat, idle: seq<Service>): Stamped<PolicyRead> {
    Stamped(PolicyRead(POLICY, d, At(d, |idle|)), 0)
  }

  function OldReg(d: nat, idle: seq<Service>): PolicyRegistration {
    Registration(ROUTE, OldPolicy(d, idle))
  }

  /** The read of the i-th service's endpoints. */
  function Reading(d: nat, idle: seq<Service>, i: nat): RefreshWait {
    EndpointList(Partial(d, idle, i), [], Pending)
  }

  function Answer(d: nat, idle: seq<Service>, i: nat, rows: seq<Endpoint>): RefreshWait {
    EndpointList(Partial(d, idle, i), [], Got(Stamped(rows, At(d, i))))
  }

  /** The only task awaits something of a policy refresh. */
  function Reloading(now: Time, deadline: Time, w: RefreshWait): State {
    One(now, Busy(EMPTY_NODE, deadline, Refreshing(w)), map[], [], [])
  }

  /** A read is answered at once, and the answer takes a whole await. */
  lemma Slowly(c: Config, age: nat, now: Time, w: RefreshWait, w': RefreshWait)
    requires Youthfully(c, age, Reloading(now, now + c.delay, w))
    requires ServeRefresh(c, Reloading(now, now + c.delay, w), w) == Some(w')
    ensures Youthfully(c, age, Reloading(now + c.delay, now + c.delay, w'))
  {
    var later := now + c.delay;
    var busy := Busy(EMPTY_NODE, later, Refreshing(w'));
    hide Youthfully, ServeRefresh;
    var tasks := map[0 := Task(later, Refreshing(w))];
    assert tasks[0 := Task(later, Refreshing(w'))] == map[0 := Task(later, Refreshing(w'))];
    assert map[0 := Busy(EMPTY_NODE, later, Refreshing(w))][0 := busy] == map[0 := busy];
    StepOne(c, age, Reloading(now, later, w), Answered(0, 0), now, busy, map[], [], []);
    StepOne(c, age, Reloading(now, later, w'), Tick(later), later, busy, map[], [], []);
  }

  lemma ReturnYoung(c: Config, age: nat, now: Time, w: RefreshWait, s': State)
    requires Youthfully(c, age, Reloading(now, now, w)) && SnapshotsYoung(age, s')
    requires Resume(c, Reloading(now, now, w), 0, 0, Refreshing(w)) == Some(s')
    ensures Youthfully(c, age, s')
  {
    hide Youthfully, SnapshotsYoung, Resume;
    StepYoung(c, age, Reloading(now, now, w), Returned(0, 0), s');
  }

  /** The await returns and the refresh goes on to the next one. */
  lemma GoesOn(c: Config, age: nat, now: Time, w: RefreshWait, w': RefreshWait)
    requires Youthfully(c, age, Reloading(now, now, w))
    requires ResumeRefresh(c, Reloading(now, now, w), 0, 0, w) == Some(Await(c, Reloading(now, now, w), 0, 0, Refreshing(w')))
    ensures Youthfully(c, age, Reloading(now, now + c.delay, w'))
  {
    AwaitOne(c, now, Busy(EMPTY_NODE, now, Refreshing(w)), map[], [], [], Refreshing(w'));
    hide Youthfully, ResumeRefresh, Await;
    StepOne(c, age, Reloading(now, now, w), Returned(0, 0), now, Busy(EMPTY_NODE, now + c.delay, Refreshing(w')), map[], [], []);
  }

  /** A read that is answered at once and returns an await later takes the refresh to its next await. */
  ghost predicate Proceeds(c: Config, now: Time, w: RefreshWait, answered: RefreshWait, next: RefreshWait) {
    var later := now + c.delay;
    && ServeRefresh(c, Reloading(now, later, w), w) == Some(answered)
    && ResumeRefresh(c, Reloading(later, later, answered), 0, 0, answered)
      == Some(Await(c, Reloading(later, later, answered), 0, 0, Refreshing(next)))
  }

  lemma OneAwait(c: Config, age: nat, now: Time, w: RefreshWait, answered: RefreshWait, next: RefreshWait)
    requires Youthfully(c, age, Reloading(now, now + c.delay, w)) && Proceeds(c, now, w, answered, next)
    ensures Youthfully(c, age, Reloading(now + c.delay, now + c.delay + c.delay, next))
  {
    hide Youthfully, Reloading, ServeRefresh, ResumeRefresh, Await;
    Slowly(c, age, now, w, answered);
    GoesOn(c, age, now + c.delay, answered, next);
  }

  /** The refresh waits for its first answer; nothing has happened yet. */
  lemma Started(c: Config, age: nat)
    ensures Youthfully(c, age, Reloading(0, c.delay, ServiceList(Pending)))
  {
    var s0 := One(0, EMPTY_NODE, map[], [], []);
    assert Reaches(c, [s0], [], s0);
    assert Reachable(c, s0);
    StillYoung(c, age, s0);
    AwaitOne(c, 0, EMPTY_NODE, map[], [], [], Refreshing(ServiceList(Pending)));
    hide Youthfully, Reachable, Reaches;
    var busy := Busy(EMPTY_NODE, c.delay, Refreshing(ServiceList(Pending)));
    StepOne(c, age, s0, StartPolicyRefresh(0, 0), 0, busy, map[], [], []);
  }

  lemma PassesNone(r: Refresh)
    requires r.products == [PRODUCT] && |r.loads| <= |r.services|
    requires |r.loads| < |r.services| ==> r.services[|r.loads|].productId == SOME_ID
    ensures PassOver(r) == r
  {
  }

  lemma ServicesListed(d: nat, age: nat, idle: seq<Service>)
    requires NoneServing(idle)
    ensures Youthfully(Env(d, idle), age, Reloading(d, d + d, ProductList(Stamped(idle + [SERVICE], 0), Pending)))
  {
    var c, rows := Env(d, idle), Stamped(idle + [SERVICE], 0);
    Started(c, age);
    ServicesProceed(d, idle);
    hide Youthfully, Reloading, Proceeds;
    OneAwait(c, age, 0, ServiceList(Pending), ServiceList(Got(rows)), ProductList(rows, Pending));
  }

  lemma ServicesProceed(d: nat, idle: seq<Service>)
    requires NoneServing(idle)
    ensures var rows := Stamped(idle + [SERVICE], 0);
      Proceeds(Env(d, idle), 0, ServiceList(Pending), ServiceList(Got(rows)), ProductList(rows, Pending))
  {
    Reads(idle, 0);
    hide EnabledServices, Await;
  }

  lemma ProductsListed(d: nat, age: nat, idle: seq<Service>)
    requires NoneServing(idle)
    ensures Youthfully(Env(d, idle), age, Reloading(At(d, 0), At(d, 0) + d, Reading(d, idle, 0)))
  {
    var rows, products := Stamped(idle + [SERVICE], 0), Stamped([PRODUCT], d);
    ServicesListed(d, age, idle);
    ProductsProceed(d, idle);
    hide Youthfully, Reloading, Proceeds;
    OneAwait(Env(d, idle), age, d, ProductList(rows, Pending), ProductList(rows, Got(products)),
             Reading(d, idle, 0));
  }

  lemma ProductsProceed(d: nat, idle: seq<Service>)
    requires NoneServing(idle)
    ensures var rows, products := Stamped(idle + [SERVICE], 0), Stamped([PRODUCT], d);
      Proceeds(Env(d, idle), d, ProductList(rows, Pending), ProductList(rows, Got(products)),
               Reading(d, idle, 0))
  {
    Reads(idle, d);
    PassesNone(Partial(d, idle, 0));
    hide EnabledProducts, PassOver, Await;
  }

  lemma {:induction false} IdlePassed(d: nat, age: nat, idle: seq<Service>, i: nat)
    requires NoneServing(idle) && i <= |idle|
    ensures Youthfully(Env(d, idle), age, Reloading(At(d, i), At(d, i) + d, Reading(d, idle, i)))
  {
    hide Youthfully, Reloading, Proceeds, Reading, Answer, At;
    if i == 0 {
      ProductsListed(d, age, idle);
    } else {
      IdlePassed(d, age, idle, i - 1);
      IdleProceeds(d, idle, i - 1);
      OnePassed(Env(d, idle), d, age, idle, i - 1);
    }
  }

  lemma OnePassed(c: Config, d: nat, age: nat, idle: seq<Service>, i: nat)
    requires c.delay == d && Proceeds(c, At(d, i), Reading(d, idle, i), Answer(d, idle, i, []), Reading(d, idle, i + 1))
    requires Youthfully(c, age, Reloading(At(d, i), At(d, i) + d, Reading(d, idle, i)))
    ensures Youthfully(c, age, Reloading(At(d, i + 1), At(d, i + 1) + d, Reading(d, idle, i + 1)))
  {
    hide Youthfully, Reloading, Proceeds, Reading, Answer;
    OneAwait(c, age, At(d, i), Reading(d, idle, i), Answer(d, idle, i, []), Reading(d, idle, i + 1));
  }

  lemma IdleProceeds(d: nat, idle: seq<Service>, i: nat)
    requires NoneServing(idle) && i < |idle|
    ensures Proceeds(Env(d, idle), At(d, i), Reading(d, idle, i), Answer(d, idle, i, []), Reading(d, idle, i + 1))
  {
    assert Env(d, idle).delay == d;
    EndpointsRead(d, idle, At(d, i) + d, i);
    NoRowsReturned(Env(d, idle), At(d, i) + d, d, idle, i);
    hide *;
    ProceedsBy(Env(d, idle), d, At(d, i), Reading(d, idle, i), Answer(d, idle, i, []), Reading(d, idle, i + 1));
  }

  lemma ProceedsBy(c: Config, d: nat, now: Time, w: RefreshWait, answered: RefreshWait, next: RefreshWait)
    requires c.delay == d && ServeRefresh(c, Reloading(now, now + d, w), w) == Some(answered)
    requires var s := Reloading(now + d, now + d, answered);
      ResumeRefresh(c, s, 0, 0, answered) == Some(Await(c, s, 0, 0, Refreshing(next)))
    ensures Proceeds(c, now, w, answered, next)
  {
    hide ServeRefresh, ResumeRefresh, Reloading, Await;
  }

  lemma EndpointsRead(d: nat, idle: seq<Service>, deadline: Time, i: nat)
    requires NoneServing(idle) && i <= |idle|
    ensures var rows := if i < |idle| then [] else [ENDPOINT];
      ServeRefresh(Env(d, idle), Reloading(At(d, i), deadline, Reading(d, idle, i)), Reading(d, idle, i))
      == Some(Answer(d, idle, i, rows))
  {
    Reads(idle, At(d, i));
    hide EnabledEndpointsOf;
  }

  lemma NoRowsReturned(c: Config, now: Time, d: nat, idle: seq<Service>, i: nat)
    requires NoneServing(idle) && i < |idle|
    ensures var w := Answer(d, idle, i, []);
      var s := Reloading(now, now, w);
      ResumeRefresh(c, s, 0, 0, w) == Some(Await(c, s, 0, 0, Refreshing(Reading(d, idle, i + 1))))
  {
    IdleLoaded(d, idle, i);
    NothingRegistered(d, idle, i);
    hide Partial, ResumeRefresh, Await, PassOver, ServiceRegistrations, AddLoad, At, NoneServing;
    RowlessReturned(c, Reloading(now, now, Answer(d, idle, i, [])), Partial(d, idle, i), At(d, i), Partial(d, idle, i + 1));
  }

  lemma RowlessReturned(c: Config, s: State, r: Refresh, at: Time, r': Refresh)
    requires 0 in s.nodes && AddLoad(r, Stamped([], at)) == r' && PassOver(r') == r'
    requires |r.loads| < |r.services| && |r'.loads| < |r'.services| && ServiceRegistrations(r', |r.loads|) == []
    ensures ResumeRefresh(c, s, 0, 0, EndpointList(r, [], Got(Stamped([], at))))
      == Some(Await(c, s, 0, 0, Refreshing(EndpointList(r', [], Pending))))
  {
    TurnsToNext(c, s, r');
    hide PassOver, Await, RefreshOn, ServiceRegistrations;
  }

  lemma IdleLoaded(d: nat, idle: seq<Service>, i: nat)
    requires NoneServing(idle) && i < |idle|
    ensures var r, r' := Partial(d, idle, i), Partial(d, idle, i + 1);
      && |r.loads| == i && |r'.loads| < |r'.services| && |r.services| == |r'.services|
      && AddLoad(r, Stamped([], At(d, i))) == r' && PassOver(r') == r'
  {
    PassesNone(Partial(d, idle, i + 1));
    hide PassOver;
  }

  lemma TurnsToNext(c: Config, s: State, r: Refresh)
    requires 0 in s.nodes && PassOver(r) == r && |r.loads| < |r.services|
    ensures RefreshOn(c, s, 0, 0, r, [], []) == Await(c, s, 0, 0, Refreshing(EndpointList(r, [], Pending)))
  {
    hide PassOver, Await;
  }

  lemma NothingRegistered(d: nat, idle: seq<Service>, i: nat)
    requires NoneServing(idle) && i < |idle|
    ensures ServiceRegistrations(Partial(d, idle, i + 1), i) == []
  {
  }

  // ---------- the policy is filed ----------

  /** When the refresh files its policy. */
  function FiledAt(d: nat, idle: seq<Service>): Time {
    At(d, |idle|) + d
  }

  function PolicyWrite(now: Time, p: Stamped<PolicyRead>, d: nat): Write {
    Write(POLICY_KEY, PolicyItem(p), now + d)
  }

  /** The node after the refresh has filed its policy. */
  function FiledNode(d: nat, idle: seq<Service>): Node {
    WithEntry(EMPTY_NODE, POLICY_KEY, PolicyItem(OldPolicy(d, idle)), FiledAt(d, idle))
  }

  function LastWait(d: nat, idle: seq<Service>): Wait {
    Refreshing(PolicyWritten(Complete(d, idle), [OldReg(d, idle)], []))
  }

  /** The refresh awaits the write of its policy, which is under way. */
  function Filing(d: nat, idle: seq<Service>): State {
    var now := FiledAt(d, idle);
    One(now, Busy(FiledNode(d, idle), now + d, LastWait(d, idle)), map[], [PolicyWrite(now, OldPolicy(d, idle), d)], [])
  }

  lemma OneRegistered(d: nat, idle: seq<Service>)
    requires NoneServing(idle)
    ensures ServiceRegistrations(Complete(d, idle), |idle|) == [OldReg(d, idle)]
  {
    OneRegistration(FindProduct([PRODUCT], SOME_ID).value);
    hide RegistrationsOfService;
  }

  lemma PolicyIsFiled(d: nat, age: nat, idle: seq<Service>)
    requires NoneServing(idle)
    ensures Youthfully(Env(d, idle), age, Filing(d, idle))
  {
    var n := |idle|;
    var w := Answer(d, idle, n, [ENDPOINT]);
    IdlePassed(d, age, idle, n);
    EndpointsRead(d, idle, At(d, n) + d, n);
    hide Youthfully, ServeRefresh, Reading, Answer, Reloading;
    Slowly(Env(d, idle), age, At(d, n), Reading(d, idle, n), w);
    RowsFiled(Env(d, idle), d, age, idle);
  }

  lemma RowsFiled(c: Config, d: nat, age: nat, idle: seq<Service>)
    requires c.delay == d && NoneServing(idle)
    requires var now := FiledAt(d, idle); Youthfully(c, age, Reloading(now, now, Answer(d, idle, |idle|, [ENDPOINT])))
    ensures Youthfully(c, age, Filing(d, idle))
  {
    var now, w := FiledAt(d, idle), Answer(d, idle, |idle|, [ENDPOINT]);
    RowsReturned(c, d, idle);
    assert SnapshotsYoung(age, Filing(d, idle));
    hide Youthfully, SnapshotsYoung, Resume, Reloading, Answer, Filing;
    ReturnYoung(c, age, now, w, Filing(d, idle));
  }

  lemma RowsReturned(c: Config, d: nat, idle: seq<Service>)
    requires c.delay == d && NoneServing(idle)
    ensures var now, w := FiledAt(d, idle), Answer(d, idle, |idle|, [ENDPOINT]);
      Resume(c, Reloading(now, now, w), 0, 0, Refreshing(w)) == Some(Filing(d, idle))
  {
    var now, r := FiledAt(d, idle), Partial(d, idle, |idle|);
    var rows := Stamped([ENDPOINT], At(d, |idle|));
    OneRegistered(d, idle);
    PolicyFiled(c, d, idle, Answer(d, idle, |idle|, [ENDPOINT]));
    assert AddLoad(r, rows) == Complete(d, idle) && |r.loads| == |idle| < |r.services|;
    hide RefreshOn, ServiceRegistrations, Filing, NoneServing, FiledAt, Complete, Partial, AddLoad, OldReg, Resume;
    RegistersAnswer(c, Reloading(now, now, EndpointList(r, [], Got(rows))), r, rows);
  }

  lemma RegistersAnswer(c: Config, s: State, r: Refresh, rows: Stamped<seq<Endpoint>>)
    requires 0 in s.nodes && |r.loads| < |r.services|
    ensures var r' := AddLoad(r, rows);
      Resume(c, s, 0, 0, Refreshing(EndpointList(r, [], Got(rows))))
      == Some(RefreshOn(c, s, 0, 0, r', [], ServiceRegistrations(r', |r.loads|)))
  {
    hide RefreshOn, ServiceRegistrations;
  }

  /** The refresh's registration is filed and its write posted. */
  lemma PolicyFiled(c: Config, d: nat, idle: seq<Service>, w: RefreshWait)
    requires c.delay == d
    ensures var now := FiledAt(d, idle);
      RefreshOn(c, Reloading(now, now, w), 0, 0, Complete(d, idle), [], [OldReg(d, idle)]) == Filing(d, idle)
  {
    var now, reg := FiledAt(d, idle), OldReg(d, idle);
    assert [reg][1..] == [] && [] + [reg] == [reg];
    SetThenAwait(c, now, EMPTY_NODE, now, Refreshing(w), LastWait(d, idle), map[], [], POLICY_KEY, PolicyItem(reg.policy));
    hide CacheSet, Await, WithEntry, Complete, Busy, OldPolicy, FiledAt;
  }

  /** A write of the policy is under way, and the node has just restarted. */
  function Posted(now: Time, p: Stamped<PolicyRead>, d: nat): State {
    One(now, EMPTY_NODE, map[], [PolicyWrite(now, p, d)], [])
  }

  /** The refresh's own write, if a refresh takes longer than a snapshot may last. */
  lemma PostedByRefresh(d: nat, age: nat, idle: seq<Service>)
    requires NoneServing(idle)
    ensures Youthfully(Env(d, idle), age, Posted(FiledAt(d, idle), OldPolicy(d, idle), d))
  {
    PolicyIsFiled(d, age, idle);
    hide Youthfully;
    StepOne(Env(d, idle), age, Filing(d, idle), Restart(0), FiledAt(d, idle), EMPTY_NODE, map[], Filing(d, idle).writes, []);
  }

  // ---------- the policy is taken from the snapshot ----------

  const ASKER := Request("/gateway", "G", Some("client"), Some(true))

  /** The refresh is over, and its write lost. */
  function RefreshedNode(d: nat, idle: seq<Service>): Node {
    FiledNode(d, idle).(snapshot := map[ROUTE := OldPolicy(d, idle)], origin := Some(Complete(d, idle)))
  }

  lemma SwappedIn(c: Config, d: nat, idle: seq<Service>)
    ensures var now := FiledAt(d, idle);
      Resume(c, One(now, Busy(FiledNode(d, idle), now + d, LastWait(d, idle)), map[], [], []), 0, 0, LastWait(d, idle))
      == Some(One(now, RefreshedNode(d, idle), map[], [], []))
  {
    var r, now, p := Complete(d, idle), FiledAt(d, idle), OldPolicy(d, idle);
    PassesNone(r);
    assert SnapshotOf([OldReg(d, idle)]) == map[ROUTE := p] by {
      assert [OldReg(d, idle)][..0] == [];
      assert SnapshotOf<Stamped<PolicyRead>>([]) == map[];
    }
    var before := Busy(FiledNode(d, idle), now + d, LastWait(d, idle));
    hide PassOver, SnapshotOf, OldPolicy, Complete, FiledAt;
    var swapped := before.(snapshot := map[ROUTE := p], origin := Some(r));
    EndOne(now, swapped, map[], [], []);
    assert map[0 := before][0 := swapped] == map[0 := swapped];
    assert swapped.(tasks := map[]) == RefreshedNode(d, idle);
    hide End, RefreshedNode;
  }

  lemma RefreshEnds(c: Config, d: nat, age: nat, idle: seq<Service>)
    requires Youthfully(c, age, Filing(d, idle))
    ensures Reachable(c, One(FiledAt(d, idle), RefreshedNode(d, idle), map[], [], []))
  {
    var now := FiledAt(d, idle);
    YoungIsReachable(c, age, Filing(d, idle));
    hide Youthfully, Reachable, FiledNode, LastWait, FiledAt, Resume, RefreshedNode, Busy, OldPolicy;
    LoseWrite(c, Busy(FiledNode(d, idle), now + d, LastWait(d, idle)), map[], PolicyWrite(now, OldPolicy(d, idle), d), [], now);
    SwappedIn(c, d, idle);
    Return(c, now, FiledNode(d, idle), now + d, map[], [], [], LastWait(d, idle),
           One(now, RefreshedNode(d, idle), map[], [], []));
  }

  lemma YoungIsReachable(c: Config, age: nat, s: State)
    requires Youthfully(c, age, s)
    ensures Reachable(c, s)
  {
  }

  /** A request's write of the snapshot's policy, at the snapshot's last instant. */
  lemma PostedByRequest(d: nat, age: nat, idle: seq<Service>)
    requires NoneServing(idle) && FiledAt(d, idle) <= age
    ensures Youthfully(Env(d, idle), age, Posted(age, OldPolicy(d, idle), d))
  {
    PolicyIsFiled(d, age, idle);
    hide NoneServing, Youthfully, Filing, Posted, FiledAt;
    AskedAtTheEnd(Env(d, idle), d, age, idle);
  }

  lemma AskedAtTheEnd(c: Config, d: nat, age: nat, idle: seq<Service>)
    requires c.delay == d && FiledAt(d, idle) <= age && Youthfully(c, age, Filing(d, idle))
    ensures Youthfully(c, age, Posted(age, OldPolicy(d, idle), d))
  {
    var p, node := OldPolicy(d, idle), RefreshedNode(d, idle);
    RefreshEnds(c, d, age, idle);
    hide Youthfully, Reachable, OldPolicy, FiledAt, Complete, Filing;
    Pass(c, node, map[], [], FiledAt(d, idle), age);
    EvictOne(c, age, node, map[], [], POLICY_KEY);
    TakenFromSnapshot(c, age, node.(l1 := node.l1 - {POLICY_KEY}), p);
  }

  lemma TakenFromSnapshot(c: Config, age: nat, node: Node, p: Stamped<PolicyRead>)
    requires Idle(node) && POLICY_KEY !in node.l1 && ROUTE in node.snapshot && node.snapshot[ROUTE] == p
    requires Reachable(c, One(age, node, map[], [], []))
    ensures Youthfully(c, age, Posted(age, p, c.delay))
  {
    var busy := Busy(Refilled(node, p, age), age + c.delay, Requesting(PolicyStored(ASKER, p)));
    var write := PolicyWrite(age, p, c.delay);
    hide Youthfully, Reachable;
    PolicyPosted(c, age, node, map[], [], ASKER, p);
    hide Refilled;
    StillYoung(c, age, One(age, busy, map[], [write], []));
    StepOne(c, age, One(age, busy, map[], [write], []), Restart(0), age, EMPTY_NODE, map[], [write], []);
  }
}
