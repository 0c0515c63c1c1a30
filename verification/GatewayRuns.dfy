/**
 * Building runs of the gateway with one node and one task, step by step: the steps that runs share, the registry they
 * are over, a policy refresh, and a request that takes its policy from the snapshot.
 */
module GatewayRuns {
  import opened Wrappers
  import opened Entities
  import opened Registry
  import opened Tiers
  import opened GatewayProtocol

  // ---------- reaching a state ----------

  ghost predicate Reaches(c: Config, states: seq<State>, events: seq<Event>, s: State) {
    Run(c, states, events) && states[|events|] == s
  }

  ghost predicate Reachable(c: Config, s: State) {
    exists states, events :: Reaches(c, states, events, s)
  }

  lemma Step(c: Config, s: State, e: Event, s': State)
    requires Reachable(c, s) && Next(c, s, e, s')
    ensures Reachable(c, s')
  {
    var states, events :| Reaches(c, states, events, s);
    hide Next, Init;
    var states', events' := states + [s'], events + [e];
    forall i | 0 <= i < |events'| ensures Next(c, states'[i], events'[i], states'[i + 1]) {
      if i < |events| {
        assert Next(c, states[i], events[i], states[i + 1]);
      }
    }
    assert Reaches(c, states', events', s');
  }

  // ---------- one product, one service, one endpoint ----------

  const SOME_ID: Guid := "00000000-0000-0000-0000-000000000000"
  const PRODUCT := Product(SOME_ID, "p", true)
  const DEFAULTS := CryptoDefaults(AES_256_GCM, UserProfileKey, UserProfileIv, Base64, true)
  const SERVICE := Service(SOME_ID, SOME_ID, "s", "", true, "c", "[]", ClusterTuning("RoundRobin", 60), true, DEFAULTS)
  const NO_OVERRIDES := CryptoOverrides(None, None, None, None, None)
  const ENDPOINT :=
    Endpoint(SOME_ID, SOME_ID, "e", "G", "", None, true, Encrypted, 0, 0, NO_OVERRIDES, false, false)
  const ROUTE := "G:/gateway"
  const POLICY := BuildEndpointPolicy(PRODUCT, SERVICE, ENDPOINT)
  const POLICY_KEY := PolicyKey(ROUTE)

  /** At this instant the registry holds just these. */
  ghost predicate RegisteredAt(c: Config, t: Time) {
    && EnabledProducts(c.db(t)) == [PRODUCT]
    && EnabledServices(c.db(t)) == [SERVICE]
    && EnabledEndpointsOf(c.db(t), SOME_ID) == [ENDPOINT]
  }

  lemma Routes()
    ensures RequestKey("/gateway", "G") == ROUTE && !IsHealthPath("/gateway")
    ensures RegistrationsOfService(PRODUCT, SERVICE, [ENDPOINT]) == [Registration(ROUTE, POLICY)]
  {
    Text.SplitNone("G", ',');
    assert Text.ToUpper("/gateway"[..7])[1] == 'G';
    assert NonEmpty(["G"]) == ["G"] by {
      assert ["G"][1..] == [];
    }
    assert Text.Trim("G") == "G";
    assert Text.ToUpper("G") == "G";
    assert Methods(ENDPOINT) == ["G"];
    assert FullPath(SERVICE, ENDPOINT) == "/gateway";
    assert RequestKey("/gateway", "G") == ROUTE;
    assert RouteKeys(SERVICE, ENDPOINT)[0] == ROUTE;
    assert [ENDPOINT][1..] == [];
  }

  // ---------- one node, one task ----------

  /** One node, and what its only task awaits. */
  function One(now: Time, node: Node, l2: Tier, writes: seq<Write>, log: seq<Outcome>): State {
    State(now, map[0 := node], l2, writes, log)
  }

  function Busy(idle: Node, deadline: Time, wait: Wait): Node {
    idle.(tasks := map[0 := Task(deadline, wait)])
  }

  ghost predicate Idle(node: Node) {
    node.tasks == map[]
  }

  /** An idle node lets time pass freely when no write is under way. */
  lemma Pass(c: Config, node: Node, l2: Tier, log: seq<Outcome>, now: Time, later: Time)
    requires Idle(node) && now <= later
    requires Reachable(c, One(now, node, l2, [], log))
    ensures Reachable(c, One(later, node, l2, [], log))
  {
    Step(c, One(now, node, l2, [], log), Tick(later), One(later, node, l2, [], log));
  }

  /** A task may use up its await, when no write is under way. */
  lemma WaitBusy(c: Config, node: Node, deadline: Time, w: Wait, l2: Tier, log: seq<Outcome>, now: Time, later: Time)
    requires now <= later <= deadline
    requires Reachable(c, One(now, Busy(node, deadline, w), l2, [], log))
    ensures Reachable(c, One(later, Busy(node, deadline, w), l2, [], log))
  {
    hide Reachable;
    var s := One(now, Busy(node, deadline, w), l2, [], log);
    Step(c, s, Tick(later), One(later, Busy(node, deadline, w), l2, [], log));
  }

  lemma LoseWrite(c: Config, node: Node, l2: Tier, w: Write, log: seq<Outcome>, now: Time)
    requires Reachable(c, One(now, node, l2, [w], log))
    ensures Reachable(c, One(now, node, l2, [], log))
  {
    var s := One(now, node, l2, [w], log);
    assert WithoutWrite(s, 0) == [];
    Step(c, s, Lost(0), One(now, node, l2, [], log));
  }

  // ---------- one step of the one task ----------

  lemma AwaitOne(c: Config, now: Time, node: Node, l2: Tier, writes: seq<Write>, log: seq<Outcome>, w: Wait)
    requires node.tasks.Keys <= {0}
    ensures Await(c, One(now, node, l2, writes, log), 0, 0, w) == One(now, Busy(node, now + c.delay, w), l2, writes, log)
  {
    assert node.tasks[0 := Task(now + c.delay, w)] == map[0 := Task(now + c.delay, w)];
    assert map[0 := node][0 := Busy(node, now + c.delay, w)] == map[0 := Busy(node, now + c.delay, w)];
  }

  lemma EndOne(now: Time, node: Node, l2: Tier, writes: seq<Write>, log: seq<Outcome>)
    requires node.tasks.Keys <= {0}
    ensures End(One(now, node, l2, writes, log), 0, 0) == One(now, node.(tasks := map[]), l2, writes, log)
  {
    assert node.tasks - {0} == map[];
  }

  lemma FillOne(now: Time, node: Node, l2: Tier, writes: seq<Write>, log: seq<Outcome>, k: Key, item: Item)
    ensures FillL1(One(now, node, l2, writes, log), 0, k, item)
      == One(now, node.(l1 := Put(node.l1, k, item, now, L1_TTL)), l2, writes, log)
  {
  }

  lemma SetOne(c: Config, now: Time, node: Node, l2: Tier, writes: seq<Write>, log: seq<Outcome>, k: Key, item: Item)
    ensures CacheSet(c, One(now, node, l2, writes, log), 0, k, item)
      == One(now, node.(l1 := Put(node.l1, k, item, now, L1_TTL)), l2, writes + [Write(k, item, now + c.delay)], log)
  {
    FillOne(now, node, l2, writes, log, k, item);
  }

  /** A node with one more entry in its own cache. */
  function WithEntry(node: Node, k: Key, item: Item, now: Time): Node {
    node.(l1 := Put(node.l1, k, item, now, L1_TTL))
  }

  /** A cache `Set` whose write is posted, and the next await. */
  lemma SetThenAwait(c: Config, now: Time, node: Node, deadline: Time, w: Wait, w': Wait, l2: Tier, log: seq<Outcome>,
                     k: Key, item: Item)
    ensures var write := Write(k, item, now + c.delay);
      Await(c, CacheSet(c, One(now, Busy(node, deadline, w), l2, [], log), 0, k, item), 0, 0, w')
      == One(now, Busy(WithEntry(node, k, item, now), now + c.delay, w'), l2, [write], log)
  {
    var asked := Busy(node, deadline, w);
    var filled := asked.(l1 := Put(asked.l1, k, item, now, L1_TTL));
    var write := Write(k, item, now + c.delay);
    SetOne(c, now, asked, l2, [], log, k, item);
    assert [] + [write] == [write];
    AwaitOne(c, now, filled, l2, [write], log, w');
    assert Busy(filled, now + c.delay, w') == Busy(WithEntry(node, k, item, now), now + c.delay, w');
    hide CacheSet, Await;
  }

  /** The remote store answers the awaited read. */
  lemma Answers(c: Config, now: Time, node: Node, deadline: Time, l2: Tier, writes: seq<Write>, log: seq<Outcome>,
               w: Wait, w': Wait)
    requires Reachable(c, One(now, Busy(node, deadline, w), l2, writes, log))
    requires Serve(c, One(now, Busy(node, deadline, w), l2, writes, log), w) == Some(w')
    ensures Reachable(c, One(now, Busy(node, deadline, w'), l2, writes, log))
  {
    hide Serve;
    var s := One(now, Busy(node, deadline, w), l2, writes, log);
    var s' := One(now, Busy(node, deadline, w'), l2, writes, log);
    assert map[0 := Task(deadline, w)][0 := Task(deadline, w')] == map[0 := Task(deadline, w')];
    assert s'.nodes == s.nodes[0 := Busy(node, deadline, w')];
    Step(c, s, Answered(0, 0), s');
  }

  lemma Return(c: Config, now: Time, node: Node, deadline: Time, l2: Tier, writes: seq<Write>, log: seq<Outcome>,
               w: Wait, s': State)
    requires var s := One(now, Busy(node, deadline, w), l2, writes, log);
      Reachable(c, s) && Resume(c, s, 0, 0, w) == Some(s')
    ensures Reachable(c, s')
  {
    hide Resume;
    Step(c, One(now, Busy(node, deadline, w), l2, writes, log), Returned(0, 0), s');
  }

  /** The await returns and a write is posted, but it does not arrive. */
  lemma ReturnAndLose(c: Config, now: Time, node: Node, deadline: Time, l2: Tier, log: seq<Outcome>, w: Wait,
                      node': Node, w': Wait, write: Write)
    requires Reachable(c, One(now, Busy(node, deadline, w), l2, [], log))
    requires Resume(c, One(now, Busy(node, deadline, w), l2, [], log), 0, 0, w)
      == Some(One(now, Busy(node', now + c.delay, w'), l2, [write], log))
    ensures Reachable(c, One(now, Busy(node', now + c.delay, w'), l2, [], log))
  {
    hide Reachable, Busy, Resume, One;
    Return(c, now, node, deadline, l2, [], log, w, One(now, Busy(node', now + c.delay, w'), l2, [write], log));
    LoseWrite(c, Busy(node', now + c.delay, w'), l2, write, log, now);
  }

  lemma Throw(c: Config, now: Time, node: Node, deadline: Time, l2: Tier, writes: seq<Write>, log: seq<Outcome>,
              w: Wait, s': State)
    requires var s := One(now, Busy(node, deadline, w), l2, writes, log);
      Reachable(c, s) && Fail(c, s, 0, 0, w) == Some(s')
    ensures Reachable(c, s')
  {
    hide Fail;
    Step(c, One(now, Busy(node, deadline, w), l2, writes, log), Threw(0, 0), s');
  }

  lemma EvictOne(c: Config, now: Time, node: Node, l2: Tier, log: seq<Outcome>, k: Key)
    requires Reachable(c, One(now, node, l2, [], log))
    ensures Reachable(c, One(now, node.(l1 := node.l1 - {k}), l2, [], log))
  {
    hide Reachable;
    Step(c, One(now, node, l2, [], log), EvictL1(0, k), One(now, node.(l1 := node.l1 - {k}), l2, [], log));
  }

  // ---------- the policies are loaded ----------

  function Policy(t: Time): Stamped<PolicyRead> {
    Stamped(PolicyRead(POLICY, t, t), t)
  }

  function Begun(t: Time): Refresh {
    Refresh([SERVICE], t, [PRODUCT], t, [])
  }

  function Done(t: Time): Refresh {
    Begun(t).(loads := [Loaded([ENDPOINT], t)])
  }

  function PolicyReg(t: Time): PolicyRegistration {
    Registration(ROUTE, Policy(t))
  }

  function Ready(t: Time): Node {
    Node(map[POLICY_KEY := Entry(PolicyItem(Policy(t)), t + L1_TTL)], map[ROUTE := Policy(t)], Some(Done(t)), map[])
  }

  lemma RefreshFacts(t: Time)
    ensures DistinctIds([PRODUCT])
    ensures FindProduct([PRODUCT], SOME_ID) == Some(PRODUCT)
    ensures PassOver(Begun(t)) == Begun(t) && PassOver(Done(t)) == Done(t)
    ensures ServiceRegistrations(Done(t), 0) == [PolicyReg(t)]
    ensures SnapshotOf([PolicyReg(t)]) == map[ROUTE := Policy(t)]
    ensures AddLoad(Begun(t), Stamped([ENDPOINT], t)) == Done(t)
  {
    Routes();
    assert [PolicyReg(t)][..0] == [];
    assert SnapshotOf<Stamped<PolicyRead>>([]) == map[];
  }

  /** A policy refresh, all at one instant. */
  lemma Refreshed(c: Config, l2: Tier, t: Time)
    requires RegisteredAt(c, t)
    requires Reachable(c, One(t, EMPTY_NODE, l2, [], []))
    ensures Reachable(c, One(t, Ready(t), l2, [], []))
  {
    RefreshBegun(c, l2, t);
    ProductsRead(c, l2, t);
    EndpointsRead(c, l2, t);
    RefreshedSwap(c, l2, t);
  }

  lemma RefreshBegun(c: Config, l2: Tier, t: Time)
    requires RegisteredAt(c, t)
    requires Reachable(c, One(t, EMPTY_NODE, l2, [], []))
    ensures Reachable(c, One(t, Busy(EMPTY_NODE, t + c.delay,
      Refreshing(ProductList(Stamped([SERVICE], t), Pending))), l2, [], []))
  {
    var rows := Stamped([SERVICE], t);
    hide Reachable, EnabledServices, Await;
    var w0, w1 := Refreshing(ServiceList(Pending)), Refreshing(ServiceList(Got(rows)));
    AwaitOne(c, t, EMPTY_NODE, l2, [], [], w0);
    Step(c, One(t, EMPTY_NODE, l2, [], []), StartPolicyRefresh(0, 0), One(t, Busy(EMPTY_NODE, t + c.delay, w0), l2, [], []));
    Answers(c, t, EMPTY_NODE, t + c.delay, l2, [], [], w0, w1);
    var w2 := Refreshing(ProductList(rows, Pending));
    AwaitOne(c, t, Busy(EMPTY_NODE, t + c.delay, w1), l2, [], [], w2);
    Return(c, t, EMPTY_NODE, t + c.delay, l2, [], [], w1, One(t, Busy(EMPTY_NODE, t + c.delay, w2), l2, [], []));
  }

  lemma ProductsRead(c: Config, l2: Tier, t: Time)
    requires RegisteredAt(c, t)
    requires Reachable(c, One(t, Busy(EMPTY_NODE, t + c.delay,
      Refreshing(ProductList(Stamped([SERVICE], t), Pending))), l2, [], []))
    ensures Reachable(c, One(t, Busy(EMPTY_NODE, t + c.delay,
      Refreshing(EndpointList(Begun(t), [], Pending))), l2, [], []))
  {
    RefreshFacts(t);
    var rows, products := Stamped([SERVICE], t), Stamped([PRODUCT], t);
    var w2, w3 := Refreshing(ProductList(rows, Pending)), Refreshing(ProductList(rows, Got(products)));
    var w4 := Refreshing(EndpointList(Begun(t), [], Pending));
    hide Reachable, Busy, PassOver, FindProduct, DistinctIds, EnabledProducts, Resume;
    Answers(c, t, EMPTY_NODE, t + c.delay, l2, [], [], w2, w3);
    ProductsReturned(c, l2, t);
    Return(c, t, EMPTY_NODE, t + c.delay, l2, [], [], w3, One(t, Busy(EMPTY_NODE, t + c.delay, w4), l2, [], []));
  }

  lemma ProductsReturned(c: Config, l2: Tier, t: Time)
    ensures var w3 := Refreshing(ProductList(Stamped([SERVICE], t), Got(Stamped([PRODUCT], t))));
      Resume(c, One(t, Busy(EMPTY_NODE, t + c.delay, w3), l2, [], []), 0, 0, w3)
      == Some(One(t, Busy(EMPTY_NODE, t + c.delay, Refreshing(EndpointList(Begun(t), [], Pending))), l2, [], []))
  {
    RefreshFacts(t);
    var w3 := Refreshing(ProductList(Stamped([SERVICE], t), Got(Stamped([PRODUCT], t))));
    AwaitOne(c, t, Busy(EMPTY_NODE, t + c.delay, w3), l2, [], [], Refreshing(EndpointList(Begun(t), [], Pending)));
    hide Await, PassOver, FindProduct, DistinctIds;
  }

  /** The own cache once the policy is filed, before the swap. */
  function Filed(t: Time): Node {
    EMPTY_NODE.(l1 := map[POLICY_KEY := Entry(PolicyItem(Policy(t)), t + L1_TTL)])
  }

  lemma EndpointsRead(c: Config, l2: Tier, t: Time)
    requires RegisteredAt(c, t)
    requires Reachable(c, One(t, Busy(EMPTY_NODE, t + c.delay,
      Refreshing(EndpointList(Begun(t), [], Pending))), l2, [], []))
    ensures Reachable(c, One(t, Busy(Filed(t), t + c.delay,
      Refreshing(PolicyWritten(Done(t), [PolicyReg(t)], []))), l2, [Write(POLICY_KEY, PolicyItem(Policy(t)), t + c.delay)], []))
  {
    hide Reachable, Resume, Busy, Policy, PolicyReg, Filed;
    EndpointsAnswered(c, l2, t);
    EndpointsReturned(c, l2, t);
    var w5 := Refreshing(EndpointList(Begun(t), [], Got(Stamped([ENDPOINT], t))));
    var w6 := Refreshing(PolicyWritten(Done(t), [PolicyReg(t)], []));
    Return(c, t, EMPTY_NODE, t + c.delay, l2, [], [], w5,
           One(t, Busy(Filed(t), t + c.delay, w6), l2, [Write(POLICY_KEY, PolicyItem(Policy(t)), t + c.delay)], []));
  }

  lemma EndpointsReturned(c: Config, l2: Tier, t: Time)
    ensures var w5 := Refreshing(EndpointList(Begun(t), [], Got(Stamped([ENDPOINT], t))));
      Resume(c, One(t, Busy(EMPTY_NODE, t + c.delay, w5), l2, [], []), 0, 0, w5)
      == Some(One(t, Busy(Filed(t), t + c.delay, Refreshing(PolicyWritten(Done(t), [PolicyReg(t)], []))), l2,
                  [Write(POLICY_KEY, PolicyItem(Policy(t)), t + c.delay)], []))
  {
    RefreshFacts(t);
    PolicyFiled(c, l2, t);
    hide RefreshOn, ServiceRegistrations, PassOver, SnapshotOf, FindProduct, Busy, Policy, PolicyReg, Filed, AddLoad;
  }

  lemma EndpointsAnswered(c: Config, l2: Tier, t: Time)
    requires RegisteredAt(c, t)
    requires Reachable(c, One(t, Busy(EMPTY_NODE, t + c.delay,
      Refreshing(EndpointList(Begun(t), [], Pending))), l2, [], []))
    ensures Reachable(c, One(t, Busy(EMPTY_NODE, t + c.delay,
      Refreshing(EndpointList(Begun(t), [], Got(Stamped([ENDPOINT], t))))), l2, [], []))
  {
    hide Reachable, EnabledEndpointsOf;
    Answers(c, t, EMPTY_NODE, t + c.delay, l2, [], [], Refreshing(EndpointList(Begun(t), [], Pending)),
           Refreshing(EndpointList(Begun(t), [], Got(Stamped([ENDPOINT], t)))));
  }

  lemma PolicyFiled(c: Config, l2: Tier, t: Time)
    ensures var w5 := Refreshing(EndpointList(Begun(t), [], Got(Stamped([ENDPOINT], t))));
      RefreshOn(c, One(t, Busy(EMPTY_NODE, t + c.delay, w5), l2, [], []), 0, 0, Done(t), [], [PolicyReg(t)])
      == One(t, Busy(Filed(t), t + c.delay, Refreshing(PolicyWritten(Done(t), [PolicyReg(t)], []))), l2,
             [Write(POLICY_KEY, PolicyItem(Policy(t)), t + c.delay)], [])
  {
    var w5 := Refreshing(EndpointList(Begun(t), [], Got(Stamped([ENDPOINT], t))));
    var w6 := Refreshing(PolicyWritten(Done(t), [PolicyReg(t)], []));
    var item := PolicyItem(Policy(t));
    var asked := Busy(EMPTY_NODE, t + c.delay, w5);
    var filled := asked.(l1 := Put(asked.l1, POLICY_KEY, item, t, L1_TTL));
    SetOne(c, t, asked, l2, [], [], POLICY_KEY, item);
    assert [] + [Write(POLICY_KEY, item, t + c.delay)] == [Write(POLICY_KEY, item, t + c.delay)];
    AwaitOne(c, t, filled, l2, [Write(POLICY_KEY, item, t + c.delay)], [], w6);
    assert Busy(filled, t + c.delay, w6) == Busy(Filed(t), t + c.delay, w6);
    assert [PolicyReg(t)][1..] == [] && [] + [PolicyReg(t)] == [PolicyReg(t)];
    hide CacheSet, Await;
  }

  lemma RefreshedSwap(c: Config, l2: Tier, t: Time)
    requires RegisteredAt(c, t)
    requires Reachable(c, One(t, Busy(Filed(t), t + c.delay,
      Refreshing(PolicyWritten(Done(t), [PolicyReg(t)], []))), l2, [Write(POLICY_KEY, PolicyItem(Policy(t)), t + c.delay)], []))
    ensures Reachable(c, One(t, Ready(t), l2, [], []))
  {
    hide Reachable, Ready, Busy, Filed, Done, PolicyReg, Policy, Resume;
    var w6 := Refreshing(PolicyWritten(Done(t), [PolicyReg(t)], []));
    var write := Write(POLICY_KEY, PolicyItem(Policy(t)), t + c.delay);
    Swapped(c, l2, t, [write]);
    Return(c, t, Filed(t), t + c.delay, l2, [write], [], w6, One(t, Ready(t), l2, [write], []));
    LoseWrite(c, Ready(t), l2, write, [], t);
  }

  lemma Swapped(c: Config, l2: Tier, t: Time, writes: seq<Write>)
    ensures var w6 := Refreshing(PolicyWritten(Done(t), [PolicyReg(t)], []));
      Resume(c, One(t, Busy(Filed(t), t + c.delay, w6), l2, writes, []), 0, 0, w6) == Some(One(t, Ready(t), l2, writes, []))
  {
    SwappedIn(c, l2, t, Busy(Filed(t), t + c.delay, Refreshing(PolicyWritten(Done(t), [PolicyReg(t)], []))), writes);
    hide RefreshOn, Ready, Done, PolicyReg;
  }

  lemma SwappedIn(c: Config, l2: Tier, t: Time, before: Node, writes: seq<Write>)
    requires before.l1 == Filed(t).l1 && before.tasks.Keys <= {0}
    ensures RefreshOn(c, One(t, before, l2, writes, []), 0, 0, Done(t), [PolicyReg(t)], []) == One(t, Ready(t), l2, writes, [])
  {
    RefreshFacts(t);
    hide PassOver, SnapshotOf, PolicyReg, Policy;
    var swapped := before.(snapshot := map[ROUTE := Policy(t)], origin := Some(Done(t)));
    EndOne(t, swapped, l2, writes, []);
    assert map[0 := before][0 := swapped] == map[0 := swapped];
    assert swapped.(tasks := map[]) == Ready(t);
    hide End, Ready;
  }

  // ---------- a request takes its policy from the snapshot ----------

  /** A request for the endpoint, by someone. */
  ghost predicate Asks(req: Request) {
    req.path == "/gateway" && req.verb == "G" && req.authenticated == Some(true) && Identified(req)
  }

  lemma RouteOfAsker(req: Request)
    requires Asks(req)
    ensures RouteOf(req) == ROUTE && !IsHealthPath(req.path)
  {
    Routes();
  }

  /** The node with the snapshot's policy filed again. */
  function Refilled(node: Node, p: Stamped<PolicyRead>, now: Time): Node {
    WithEntry(node, POLICY_KEY, PolicyItem(p), now)
  }

  lemma PolicyAsked(c: Config, now: Time, node: Node, l2: Tier, log: seq<Outcome>, req: Request)
    requires Idle(node) && Asks(req) && POLICY_KEY !in node.l1
    requires Reachable(c, One(now, node, l2, [], log))
    ensures Reachable(c, One(now, Busy(node, now + c.delay, Requesting(PolicyFromL2(req, Pending))), l2, [], log))
  {
    RouteOfAsker(req);
    hide RouteOf, GotPolicy, Quiet, Reachable, IsHealthPath, Asks;
    var w := Requesting(PolicyFromL2(req, Pending));
    AwaitOne(c, now, node, l2, [], log, w);
    assert L1Get(node.l1, POLICY_KEY, now) == None;
    Step(c, One(now, node, l2, [], log), StartRequest(0, 0, req), One(now, Busy(node, now + c.delay, w), l2, [], log));
  }

  lemma PolicyTaken(c: Config, now: Time, node: Node, l2: Tier, log: seq<Outcome>, req: Request, p: Stamped<PolicyRead>)
    requires Asks(req) && ROUTE in node.snapshot && node.snapshot[ROUTE] == p
    ensures var w := Requesting(PolicyFromL2(req, Pending));
      AfterPolicyL2(c, One(now, Busy(node, now + c.delay, w), l2, [], log), 0, 0, req, None)
      == One(now, Busy(Refilled(node, p, now), now + c.delay, Requesting(PolicyStored(req, p))), l2,
             [Write(POLICY_KEY, PolicyItem(p), now + c.delay)], log)
  {
    RouteOfAsker(req);
    hide RouteOf, GotPolicy, Quiet, Asks;
    SetThenAwait(c, now, node, now + c.delay, Requesting(PolicyFromL2(req, Pending)), Requesting(PolicyStored(req, p)),
                 l2, log, POLICY_KEY, PolicyItem(p));
    hide CacheSet, Await, WithEntry;
  }

  /** The request finds its policy nowhere but in the snapshot, and files it; the write is under way. */
  lemma PolicyPosted(c: Config, now: Time, node: Node, l2: Tier, log: seq<Outcome>, req: Request, p: Stamped<PolicyRead>)
    requires Idle(node) && Asks(req) && POLICY_KEY !in node.l1 && ROUTE in node.snapshot && node.snapshot[ROUTE] == p
    requires Reachable(c, One(now, node, l2, [], log))
    ensures Reachable(c, One(now, Busy(Refilled(node, p, now), now + c.delay, Requesting(PolicyStored(req, p))), l2,
                             [Write(POLICY_KEY, PolicyItem(p), now + c.delay)], log))
  {
    PolicyAsked(c, now, node, l2, log, req);
    PolicyTaken(c, now, node, l2, log, req, p);
    hide Reachable, AfterPolicyL2, Refilled, Busy, PolicyItem, Asks;
    var w0, w1 := Requesting(PolicyFromL2(req, Pending)), Requesting(PolicyStored(req, p));
    var write := Write(POLICY_KEY, PolicyItem(p), now + c.delay);
    Throw(c, now, node, now + c.delay, l2, [], log, w0,
          One(now, Busy(Refilled(node, p, now), now + c.delay, w1), l2, [write], log));
  }

  /** The same, when the write does not arrive. */
  lemma PolicyRefilled(c: Config, now: Time, node: Node, l2: Tier, log: seq<Outcome>, req: Request, p: Stamped<PolicyRead>)
    requires Idle(node) && Asks(req) && POLICY_KEY !in node.l1 && ROUTE in node.snapshot && node.snapshot[ROUTE] == p
    requires Reachable(c, One(now, node, l2, [], log))
    ensures Reachable(c,
      One(now, Busy(Refilled(node, p, now), now + c.delay, Requesting(PolicyStored(req, p))), l2, [], log))
  {
    PolicyPosted(c, now, node, l2, log, req, p);
    hide Reachable, Refilled, Busy, PolicyItem, Asks;
    LoseWrite(c, Busy(Refilled(node, p, now), now + c.delay, Requesting(PolicyStored(req, p))), l2,
              Write(POLICY_KEY, PolicyItem(p), now + c.delay), log, now);
  }

  /** The policy is at hand, the client is not: the request turns to the shared store for the client. */
  lemma PolicyAtHand(c: Config, now: Time, node: Node, l2: Tier, log: seq<Outcome>, req: Request, p: Stamped<PolicyRead>)
    requires node.tasks.Keys <= {0} && Asks(req) && ClientKey(req.clientId.value) !in node.l1
    ensures GotPolicy(c, One(now, node, l2, [], log), 0, 0, req, p)
      == One(now, Busy(node, now + c.delay, Requesting(ClientFromL2(req, p, Pending))), l2, [], log + [Resolved(now, req, p)])
  {
    AwaitOne(c, now, node, l2, [], log + [Resolved(now, req, p)], Requesting(ClientFromL2(req, p, Pending)));
  }

  /** A request whose policy and its stamp are those of the refresh, with the policy in the own cache. */
  lemma BegunAtHand(c: Config, t: Time, l2: Tier, req: Request)
    requires Asks(req)
    ensures Idle(Ready(t))
    ensures BeginRequest(c, One(t, Ready(t), l2, [], []), 0, 0, req)
      == One(t, Busy(Ready(t), t + c.delay, Requesting(ClientFromL2(req, Policy(t), Pending))), l2, [],
             [Resolved(t, req, Policy(t))])
  {
    RouteOfAsker(req);
    PolicyAtHand(c, t, Ready(t), l2, [], req, Policy(t));
    assert [] + [Resolved(t, req, Policy(t))] == [Resolved(t, req, Policy(t))];
    hide GotPolicy, RouteOf, IsHealthPath, Quiet, Asks;
  }
}
