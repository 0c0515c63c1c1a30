/**
 * A request of the protocol that nothing disturbs, neither time nor eviction nor another task, ends with the verdict of
 * the middleware class and leaves the tiers as the class does.
 */
module GatewayUndisturbed {
  import opened Wrappers
  import opened Entities
  import opened Registry
  import opened Tiers
  import opened PolicyCacheModel
  import opened GatewayProtocol
  import opened GatewayBridge
  import Q = GatewayRequestModel
  import S = GatewayStaleness
  import T = GatewayTheorems

  // ---------- paths ----------

  ghost predicate Path(c: Config, states: seq<State>, events: seq<Event>) {
    |states| == |events| + 1 && forall i :: 0 <= i < |events| ==> Next(c, states[i], events[i], states[i + 1])
  }

  ghost predicate PathTo(c: Config, states: seq<State>, events: seq<Event>, s: State, s': State) {
    Path(c, states, events) && states[0] == s && states[|events|] == s'
  }

  /** Some steps lead from one state to another. */
  ghost predicate Leads(c: Config, s: State, s': State) {
    exists states, events :: PathTo(c, states, events, s, s')
  }

  lemma Stays(c: Config, s: State)
    ensures Leads(c, s, s)
  {
    assert PathTo(c, [s], [], s, s);
  }

  lemma Onwards(c: Config, s: State, s1: State, e: Event, s2: State)
    requires Leads(c, s, s1) && Next(c, s1, e, s2)
    ensures Leads(c, s, s2)
  {
    var states, events :| PathTo(c, states, events, s, s1);
    hide Next;
    var states', events' := states + [s2], events + [e];
    forall i | 0 <= i < |events'| ensures Next(c, states'[i], events'[i], states'[i + 1]) {
      if i < |events| {
        assert Next(c, states[i], events[i], states[i + 1]);
      }
    }
    assert PathTo(c, states', events', s, s2);
  }

  // ---------- the states on the way ----------

  /** What a request changes on its way: the own cache, the store, the log. */
  datatype Mid = Mid(l1: Tier, l2: Tier, log: seq<Outcome>)

  /** The state on the way from a start, with what the request awaits and a write under way. */
  function At(s: State, n: NodeId, id: TaskId, m: Mid, task: Option<Task>, writes: seq<Write>): State
    requires n in s.nodes
  {
    var node := s.nodes[n];
    var tasks := if task.Some? then node.tasks[id := task.value] else node.tasks;
    State(s.now, s.nodes[n := Node(m.l1, node.snapshot, node.origin, tasks)], m.l2, writes, m.log)
  }

  ghost predicate SameMid(m: Mid, t: Tiered) {
    Same(m.l1, t.l1) && Same(m.l2, t.l2)
  }

  /** Under each key there is a fact of its kind. */
  ghost predicate Typed(tier: Tier) {
    forall k :: k in tier ==> RightKind(k, tier[k].value)
  }

  predicate RightKind(k: Key, item: Item) {
    match k
    case PolicyKey(_) => item.value.PolicyFact?
    case PermissionKey(_) => item.value.PermissionFact?
    case ClientKey(_) => item.value.ClientFact?
  }

  ghost predicate Good(m: Mid, t: Tiered) {
    SameMid(m, t) && Typed(m.l1) && Typed(m.l2)
  }

  function Waits(c: Config, s: State, w: RequestWait): Option<Task> {
    Some(Task(s.now + c.delay, Requesting(w)))
  }

  lemma AwaitAt(c: Config, s: State, n: NodeId, id: TaskId, m: Mid, task: Option<Task>, writes: seq<Write>, w: RequestWait)
    requires Free(s, n, id)
    ensures Await(c, At(s, n, id, m, task, writes), n, id, Requesting(w)) == At(s, n, id, m, Waits(c, s, w), writes)
  {
    TaskAgain(s.nodes[n].tasks, id, task, Waits(c, s, w).value);
    hide Waits;
    NodeAgain(s.nodes, n, At(s, n, id, m, task, writes).nodes[n], At(s, n, id, m, Waits(c, s, w), writes).nodes[n]);
  }

  lemma TaskAgain(tasks: map<TaskId, Task>, id: TaskId, task: Option<Task>, task': Task)
    ensures (if task.Some? then tasks[id := task.value] else tasks)[id := task'] == tasks[id := task']
  {
  }

  lemma NodeAgain(nodes: map<NodeId, Node>, n: NodeId, node: Node, node': Node)
    ensures nodes[n := node][n := node'] == nodes[n := node']
  {
  }

  lemma EndAt(s: State, n: NodeId, id: TaskId, m: Mid, task: Option<Task>, writes: seq<Write>)
    requires Free(s, n, id)
    ensures End(At(s, n, id, m, task, writes), n, id) == At(s, n, id, m, None, writes)
  {
    var node := s.nodes[n];
    var tasks := if task.Some? then node.tasks[id := task.value] else node.tasks;
    assert tasks - {id} == node.tasks;
  }

  lemma LogAt(s: State, n: NodeId, id: TaskId, m: Mid, task: Option<Task>, writes: seq<Write>, o: Outcome)
    requires n in s.nodes
    ensures Log(At(s, n, id, m, task, writes), o) == At(s, n, id, m.(log := m.log + [o]), task, writes)
  {
  }

  lemma RejectAt(s: State, n: NodeId, id: TaskId, m: Mid, task: Option<Task>, req: Request, status: nat)
    requires Free(s, n, id)
    ensures Reject(At(s, n, id, m, task, []), n, id, req, status)
      == At(s, n, id, m.(log := m.log + [Rejected(s.now, req, status)]), None, [])
  {
    LogAt(s, n, id, m, task, [], Rejected(s.now, req, status));
    EndAt(s, n, id, m.(log := m.log + [Rejected(s.now, req, status)]), task, []);
    hide Log, End;
  }

  function Filled(s: State, m: Mid, k: Key, item: Item): Mid {
    m.(l1 := Put(m.l1, k, item, s.now, L1_TTL))
  }

  lemma FillAt(s: State, n: NodeId, id: TaskId, m: Mid, task: Option<Task>, writes: seq<Write>, k: Key, item: Item)
    requires n in s.nodes
    ensures FillL1(At(s, n, id, m, task, writes), n, k, item) == At(s, n, id, Filled(s, m, k, item), task, writes)
  {
  }

  lemma SetAt(c: Config, s: State, n: NodeId, id: TaskId, m: Mid, task: Option<Task>, k: Key, item: Item, w: RequestWait)
    requires Free(s, n, id)
    ensures Await(c, CacheSet(c, At(s, n, id, m, task, []), n, k, item), n, id, Requesting(w))
      == At(s, n, id, Filled(s, m, k, item), Waits(c, s, w), [Write(k, item, s.now + c.delay)])
  {
    CacheSetAt(c, s, n, id, m, task, k, item);
    hide CacheSet, At, Await, Filled;
    AwaitAt(c, s, n, id, Filled(s, m, k, item), task, [Write(k, item, s.now + c.delay)], w);
  }

  lemma CacheSetAt(c: Config, s: State, n: NodeId, id: TaskId, m: Mid, task: Option<Task>, k: Key, item: Item)
    requires n in s.nodes
    ensures CacheSet(c, At(s, n, id, m, task, []), n, k, item)
      == At(s, n, id, Filled(s, m, k, item), task, [Write(k, item, s.now + c.delay)])
  {
    FillAt(s, n, id, m, task, [], k, item);
    hide FillL1, Put;
    assert [] + [Write(k, item, s.now + c.delay)] == [Write(k, item, s.now + c.delay)];
  }

  lemma StartIsAt(s: State, n: NodeId, id: TaskId)
    requires Free(s, n, id) && s.writes == []
    ensures s == At(s, n, id, Mid(s.nodes[n].l1, s.l2, s.log), None, [])
  {
    assert s.nodes[n := s.nodes[n]] == s.nodes;
  }

  // ---------- the steps of the request ----------

  lemma AnswerAt(c: Config, s: State, n: NodeId, id: TaskId, m: Mid, w: RequestWait, w': RequestWait)
    requires Free(s, n, id) && Leads(c, s, At(s, n, id, m, Waits(c, s, w), []))
    requires ServeRequest(c, At(s, n, id, m, Waits(c, s, w), []), w) == Some(w')
    ensures Leads(c, s, At(s, n, id, m, Waits(c, s, w'), []))
  {
    hide Leads, ServeRequest;
    var before, after := At(s, n, id, m, Waits(c, s, w), []), At(s, n, id, m, Waits(c, s, w'), []);
    var tasks: map<TaskId, Task> := s.nodes[n].tasks;
    assert tasks[id := Waits(c, s, w).value][id := Waits(c, s, w').value] == tasks[id := Waits(c, s, w').value];
    assert after.nodes == before.nodes[n := before.nodes[n].(tasks := tasks[id := Waits(c, s, w').value])];
    Onwards(c, s, before, Answered(n, id), after);
  }

  lemma ReturnAt(c: Config, s: State, n: NodeId, id: TaskId, m: Mid, w: RequestWait, s': State)
    requires Free(s, n, id) && Leads(c, s, At(s, n, id, m, Waits(c, s, w), []))
    requires ResumeRequest(c, At(s, n, id, m, Waits(c, s, w), []), n, id, w) == Some(s')
    ensures Leads(c, s, s')
  {
    hide Leads, ResumeRequest;
    Onwards(c, s, At(s, n, id, m, Waits(c, s, w), []), Returned(n, id), s');
  }

  lemma ThrowAt(c: Config, s: State, n: NodeId, id: TaskId, m: Mid, w: RequestWait, s': State)
    requires Free(s, n, id) && Leads(c, s, At(s, n, id, m, Waits(c, s, w), []))
    requires FailRequest(c, At(s, n, id, m, Waits(c, s, w), []), n, id, w) == Some(s')
    ensures Leads(c, s, s')
  {
    hide Leads, FailRequest;
    Onwards(c, s, At(s, n, id, m, Waits(c, s, w), []), Threw(n, id), s');
  }

  /** The posted write reaches the store, or is lost. */
  lemma WriteAt(c: Config, s: State, n: NodeId, id: TaskId, m: Mid, task: Option<Task>, w: Write, up: bool)
    requires Free(s, n, id) && Leads(c, s, At(s, n, id, m, task, [w]))
    ensures Leads(c, s, At(s, n, id, if up then m.(l2 := Put(m.l2, w.key, w.item, s.now, L2_TTL)) else m, task, []))
  {
    hide Leads;
    var before := At(s, n, id, m, task, [w]);
    assert WithoutWrite(before, 0) == [];
    Onwards(c, s, before, if up then Applied(0) else Lost(0),
            At(s, n, id, if up then m.(l2 := Put(m.l2, w.key, w.item, s.now, L2_TTL)) else m, task, []));
  }

  // ---------- the two models of the tiers, along the way ----------

  lemma TypedPut(tier: Tier, k: Key, item: Item, now: nat, ttl: nat)
    requires Typed(tier) && RightKind(k, item)
    ensures Typed(Put(tier, k, item, now, ttl))
  {
    hide RightKind;
  }

  lemma TypedGet(tier: Tier, k: Key, now: nat)
    requires Typed(tier)
    ensures L1Get(tier, k, now).Some? ==> RightKind(k, L1Get(tier, k, now).value)
    ensures L2Get(tier, k, now).Some? ==> RightKind(k, L2Get(tier, k, now).value)
  {
    hide RightKind;
  }

  function Hit(m: Mid, k: Key, now: nat): Option<Item> {
    L1Get(m.l1, k, now)
  }

  function StoreHit(m: Mid, k: Key, now: nat): Option<Item> {
    L2Get(m.l2, k, now)
  }

  /** An own hit is what the class finds, and changes nothing. */
  lemma OwnHit(s: State, m: Mid, t: Tiered, k: Key, up: bool)
    requires Good(m, t) && Hit(m, k, s.now).Some?
    ensures RightKind(k, Hit(m, k, s.now).value)
    ensures Lookup(t, Render(KeyOf(k)), s.now, up) == Some(ValueOf(Hit(m, k, s.now).value))
    ensures Apply(t, Get(Render(KeyOf(k)), s.now, up, true)) == t
  {
    SameGet(m.l1, t.l1, k, s.now);
    TypedGet(m.l1, k, s.now);
    hide Same, Typed, RightKind, ValueOf, Render;
  }

  /** A store hit is what the class finds, and is filed alike. */
  lemma StoreFilled(s: State, m: Mid, t: Tiered, k: Key)
    requires Good(m, t) && Hit(m, k, s.now).None? && StoreHit(m, k, s.now).Some?
    ensures RightKind(k, StoreHit(m, k, s.now).value)
    ensures Lookup(t, Render(KeyOf(k)), s.now, true) == Some(ValueOf(StoreHit(m, k, s.now).value))
    ensures Good(Filled(s, m, k, StoreHit(m, k, s.now).value), Apply(t, Get(Render(KeyOf(k)), s.now, true, true)))
  {
    var item := StoreHit(m, k, s.now).value;
    SameGet(m.l1, t.l1, k, s.now);
    SameGet(m.l2, t.l2, k, s.now);
    TypedGet(m.l2, k, s.now);
    SamePut(m.l1, t.l1, k, item, s.now, L1_TTL);
    TypedPut(m.l1, k, item, s.now, L1_TTL);
    hide Same, Typed, RightKind, ValueOf, Render;
    assert L2Get(t.l2, Render(KeyOf(k)), s.now) == Some(t.l2[Render(KeyOf(k))].value);
  }

  /** Neither finds anything, and nothing changes. */
  lemma NoHit(s: State, m: Mid, t: Tiered, k: Key, up: bool)
    requires Good(m, t) && Hit(m, k, s.now).None? && (up ==> StoreHit(m, k, s.now).None?)
    ensures Lookup(t, Render(KeyOf(k)), s.now, up) == None
    ensures Apply(t, Get(Render(KeyOf(k)), s.now, up, true)) == t
  {
    SameGet(m.l1, t.l1, k, s.now);
    SameGet(m.l2, t.l2, k, s.now);
    hide Same, Typed, ValueOf, Render;
  }

  function Written(s: State, m: Mid, k: Key, item: Item, up: bool): Mid {
    var filled := Filled(s, m, k, item);
    if up then filled.(l2 := Put(filled.l2, k, item, s.now, L2_TTL)) else filled
  }

  lemma SetSame(s: State, m: Mid, t: Tiered, k: Key, item: Item, up: bool)
    requires Good(m, t) && RightKind(k, item)
    ensures Good(Written(s, m, k, item, up), Apply(t, Set(Render(KeyOf(k)), ValueOf(item), s.now, L2_TTL, up, true)))
  {
    SamePut(m.l1, t.l1, k, item, s.now, L1_TTL);
    SamePut(m.l2, t.l2, k, item, s.now, L2_TTL);
    TypedPut(m.l1, k, item, s.now, L1_TTL);
    TypedPut(m.l2, k, item, s.now, L2_TTL);
    hide Same, Typed, RightKind, ValueOf, Render;
  }

  // ---------- the policy ----------

  /** Where the request has got to with its policy: it has one, or is answered 404. */
  ghost predicate PolicyGot(c: Config, s: State, n: NodeId, id: TaskId, req: Request, m: Mid, task: Option<Task>,
                            p: Option<Stamped<PolicyRead>>)
    requires n in s.nodes
  {
    if p.Some? then m.log == s.log && Leads(c, s, GotPolicy(c, At(s, n, id, m, task, []), n, id, req, p.value))
    else m.log == s.log + [Rejected(s.now, req, 404)] && task.None? && Leads(c, s, At(s, n, id, m, None, []))
  }

  function PolicyIn(p: Option<Stamped<PolicyRead>>): Option<EndpointPolicy> {
    if p.Some? then Some(p.value.value.policy) else None
  }

  ghost predicate Starts(s: State, n: NodeId, id: TaskId, req: Request) {
    Free(s, n, id) && s.writes == [] && !IsHealthPath(req.path)
  }

  lemma PolicyStage(c: Config, s: State, n: NodeId, id: TaskId, req: Request, t: Tiered,
                    snapshot: map<string, EndpointPolicy>, look: Q.Luck, file: Q.Luck)
    returns (m: Mid, task: Option<Task>, p: Option<Stamped<PolicyRead>>)
    requires Starts(s, n, id, req) && Good(Mid(s.nodes[n].l1, s.l2, s.log), t)
    requires SamePolicies(s.nodes[n].snapshot, snapshot) && look.kept && file.kept
    ensures PolicyGot(c, s, n, id, req, m, task, p)
    ensures var f := Q.PolicyFound(t, snapshot, RouteOf(req), s.now, look, file);
      Good(m, f.tiers) && f.value == PolicyIn(p)
  {
    var m0, k := Mid(s.nodes[n].l1, s.l2, s.log), PolicyKey(RouteOf(req));
    StartIsAt(s, n, id);
    hide Leads, Good, At, GotPolicy, AfterPolicyL2, Lookup, Apply, Render, RouteOf, IsHealthPath, RightKind;
    if Hit(m0, k, s.now).Some? {
      OwnHit(s, m0, t, k, look.up);
      p := PolicyByHit(c, s, n, id, req, m0);
      m, task := m0, None;
    } else {
      PolicyAsked(c, s, n, id, req, m0);
      if look.up && StoreHit(m0, k, s.now).Some? {
        StoreFilled(s, m0, t, k);
        m, task, p := PolicyByStore(c, s, n, id, req, m0);
      } else {
        NoHit(s, m0, t, k, look.up);
        PolicyMissed(c, s, n, id, req, m0, look.up);
        m, task, p := PolicyBySnapshot(c, s, n, id, req, m0, t, snapshot, file);
      }
    }
  }

  lemma PolicyByHit(c: Config, s: State, n: NodeId, id: TaskId, req: Request, m: Mid)
    returns (p: Option<Stamped<PolicyRead>>)
    requires Starts(s, n, id, req) && m == Mid(s.nodes[n].l1, s.l2, s.log)
    requires s == At(s, n, id, m, None, [])
    requires var hit := Hit(m, PolicyKey(RouteOf(req)), s.now); hit.Some? && RightKind(PolicyKey(RouteOf(req)), hit.value)
    ensures p.Some? && PolicyGot(c, s, n, id, req, m, None, p)
    ensures ValueOf(Hit(m, PolicyKey(RouteOf(req)), s.now).value) == PolicyValue(p.value.value.policy)
  {
    hide Leads, GotPolicy, RouteOf, IsHealthPath;
    Stays(c, s);
    p := AsPolicy(Hit(m, PolicyKey(RouteOf(req)), s.now));
    Onwards(c, s, s, StartRequest(n, id, req), GotPolicy(c, s, n, id, req, p.value));
  }

  lemma PolicyAsked(c: Config, s: State, n: NodeId, id: TaskId, req: Request, m: Mid)
    requires Starts(s, n, id, req) && m == Mid(s.nodes[n].l1, s.l2, s.log) && s == At(s, n, id, m, None, [])
    requires Hit(m, PolicyKey(RouteOf(req)), s.now).None?
    ensures Leads(c, s, At(s, n, id, m, Waits(c, s, PolicyFromL2(req, Pending)), []))
  {
    Stays(c, s);
    AwaitAt(c, s, n, id, m, None, [], PolicyFromL2(req, Pending));
    hide Leads, Await, At, RouteOf, IsHealthPath, GotPolicy;
    Onwards(c, s, s, StartRequest(n, id, req), At(s, n, id, m, Waits(c, s, PolicyFromL2(req, Pending)), []));
  }

  lemma PolicyByStore(c: Config, s: State, n: NodeId, id: TaskId, req: Request, m: Mid)
    returns (m': Mid, task: Option<Task>, p: Option<Stamped<PolicyRead>>)
    requires Free(s, n, id) && m.log == s.log && Leads(c, s, At(s, n, id, m, Waits(c, s, PolicyFromL2(req, Pending)), []))
    requires var k := PolicyKey(RouteOf(req)); StoreHit(m, k, s.now).Some? && RightKind(k, StoreHit(m, k, s.now).value)
    ensures p.Some? && PolicyGot(c, s, n, id, req, m', task, p)
    ensures var item := StoreHit(m, PolicyKey(RouteOf(req)), s.now).value;
      m' == Filled(s, m, PolicyKey(RouteOf(req)), item) && ValueOf(item) == PolicyValue(p.value.value.policy)
  {
    hide Leads, GotPolicy, RouteOf;
    var k := PolicyKey(RouteOf(req));
    p := AsPolicy(StoreHit(m, k, s.now));
    var item := StoreHit(m, k, s.now).value;
    var w := PolicyFromL2(req, Got(p));
    AnswerAt(c, s, n, id, m, PolicyFromL2(req, Pending), w);
    m', task := Filled(s, m, k, item), Waits(c, s, w);
    assert PolicyItem(p.value) == item;
    FillAt(s, n, id, m, task, [], k, item);
    hide At, FillL1;
    ReturnAt(c, s, n, id, m, w, GotPolicy(c, At(s, n, id, m', task, []), n, id, req, p.value));
  }

  /** The store has nothing, or cannot be read: the request goes on with the snapshot. */
  lemma PolicyMissed(c: Config, s: State, n: NodeId, id: TaskId, req: Request, m: Mid, up: bool)
    requires Free(s, n, id) && Leads(c, s, At(s, n, id, m, Waits(c, s, PolicyFromL2(req, Pending)), []))
    requires up ==> StoreHit(m, PolicyKey(RouteOf(req)), s.now).None?
    ensures exists task :: Leads(c, s, AfterPolicyL2(c, At(s, n, id, m, task, []), n, id, req, None))
  {
    hide Leads, AfterPolicyL2, RouteOf;
    if up {
      var w := PolicyFromL2(req, Got(None));
      AnswerAt(c, s, n, id, m, PolicyFromL2(req, Pending), w);
      hide At;
      ReturnAt(c, s, n, id, m, w, AfterPolicyL2(c, At(s, n, id, m, Waits(c, s, w), []), n, id, req, None));
    } else {
      hide At;
      var w := PolicyFromL2(req, Pending);
      ThrowAt(c, s, n, id, m, w, AfterPolicyL2(c, At(s, n, id, m, Waits(c, s, w), []), n, id, req, None));
    }
  }

  lemma PolicyBySnapshot(c: Config, s: State, n: NodeId, id: TaskId, req: Request, m: Mid, t: Tiered,
                         snapshot: map<string, EndpointPolicy>, file: Q.Luck)
    returns (m': Mid, task: Option<Task>, p: Option<Stamped<PolicyRead>>)
    requires Free(s, n, id) && m.log == s.log && Good(m, t) && SamePolicies(s.nodes[n].snapshot, snapshot) && file.kept
    requires exists task :: Leads(c, s, AfterPolicyL2(c, At(s, n, id, m, task, []), n, id, req, None))
    ensures PolicyGot(c, s, n, id, req, m', task, p)
    ensures var route := RouteOf(req);
      if route in snapshot then
        && PolicyIn(p) == Some(snapshot[route])
        && Good(m', Apply(t, Q.SetOp(ForPolicy(route), PolicyValue(snapshot[route]), s.now, file)))
      else p.None? && Good(m', t)
  {
    var task0 :| Leads(c, s, AfterPolicyL2(c, At(s, n, id, m, task0, []), n, id, req, None));
    var route := RouteOf(req);
    hide Leads, GotPolicy, RouteOf, Good, Apply, Render;
    if route in snapshot {
      p := Some(s.nodes[n].snapshot[route]);
      m', task := PolicyStoredAt(c, s, n, id, req, m, task0, t, p.value, file);
    } else {
      assert route !in At(s, n, id, m, task0, []).nodes[n].snapshot;
      RejectAt(s, n, id, m, task0, req, 404);
      hide Reject, At;
      m', task, p := m.(log := m.log + [Rejected(s.now, req, 404)]), None, None;
      SameTiersLogged(m, m', t);
    }
  }

  lemma PolicyStoredAt(c: Config, s: State, n: NodeId, id: TaskId, req: Request, m: Mid, task0: Option<Task>, t: Tiered,
                       p: Stamped<PolicyRead>, file: Q.Luck) returns (m': Mid, task: Option<Task>)
    requires Free(s, n, id) && Good(m, t) && file.kept
    requires RouteOf(req) in s.nodes[n].snapshot && s.nodes[n].snapshot[RouteOf(req)] == p
    requires Leads(c, s, AfterPolicyL2(c, At(s, n, id, m, task0, []), n, id, req, None))
    ensures m'.log == m.log && Leads(c, s, GotPolicy(c, At(s, n, id, m', task, []), n, id, req, p))
    ensures Good(m', Apply(t, Q.SetOp(ForPolicy(RouteOf(req)), PolicyValue(p.value.policy), s.now, file)))
  {
    hide Leads, GotPolicy, RouteOf, Good, Apply, Render;
    var k, item, w := PolicyKey(RouteOf(req)), PolicyItem(p), PolicyStored(req, p);
    assert At(s, n, id, m, task0, []).nodes[n].snapshot == s.nodes[n].snapshot;
    SetAt(c, s, n, id, m, task0, k, item, w);
    hide At, Await, CacheSet;
    m', task := Written(s, m, k, item, file.up), Waits(c, s, w);
    WriteAt(c, s, n, id, Filled(s, m, k, item), task, Write(k, item, s.now + c.delay), file.up);
    ReturnAt(c, s, n, id, m', w, GotPolicy(c, At(s, n, id, m', task, []), n, id, req, p));
    SetSame(s, m, t, k, item, file.up);
  }

  lemma SameTiersLogged(m: Mid, m': Mid, t: Tiered)
    requires Good(m, t) && m' == m.(log := m'.log)
    ensures Good(m', t)
  {
  }

  // ---------- the client ----------

  /** Where the request has got to with its client: it has one, or is answered. */
  ghost predicate ClientGot(c: Config, s: State, n: NodeId, id: TaskId, req: Request, p: Stamped<PolicyRead>, log: seq<Outcome>,
                            m: Mid, task: Option<Task>, client: Q.Read<Option<Stamped<Client>>>)
    requires n in s.nodes
  {
    match client
    case Given(Some(x)) => m.log == log && Leads(c, s, GotClient(c, At(s, n, id, m, task, []), n, id, req, p, x))
    case Given(None) => m.log == log + [Rejected(s.now, req, 403)] && Leads(c, s, At(s, n, id, m, None, []))
    case Threw => m.log == log + [Rejected(s.now, req, 500)] && Leads(c, s, At(s, n, id, m, None, []))
  }

  function ClientIn(client: Q.Read<Option<Stamped<Client>>>): Q.Read<Option<Client>> {
    match client
    case Threw => Q.Threw
    case Given(None) => Q.Given(None)
    case Given(Some(x)) => Q.Given(Some(x.value))
  }

  lemma ClientStage(c: Config, s: State, n: NodeId, id: TaskId, req: Request, p: Stamped<PolicyRead>, m: Mid,
                    task: Option<Task>, t: Tiered, readable: bool, look: Q.Luck, file: Q.Luck)
    returns (m': Mid, task': Option<Task>, client: Q.Read<Option<Stamped<Client>>>)
    requires Free(s, n, id) && Identified(req) && Good(m, t) && look.kept && file.kept
    requires Leads(c, s, LookUpClient(c, At(s, n, id, m, task, []), n, id, req, p))
    ensures ClientGot(c, s, n, id, req, p, m.log, m', task', client)
    ensures var f := Q.ClientFound(t, c.db(s.now), req.clientId.value, s.now, readable, look, file);
      Good(m', f.tiers) && f.value == ClientIn(client)
  {
    var k := ClientKey(req.clientId.value);
    hide Leads, Good, GotClient, Lookup, Apply, Render, RightKind, ClientByClientId;
    if Hit(m, k, s.now).Some? {
      OwnHit(s, m, t, k, look.up);
      client := ClientByHit(c, s, n, id, req, p, m, task);
      m', task' := m, task;
    } else {
      ClientAsked(c, s, n, id, req, p, m, task);
      if look.up && StoreHit(m, k, s.now).Some? {
        StoreFilled(s, m, t, k);
        m', task', client := ClientByStore(c, s, n, id, req, p, m);
      } else {
        NoHit(s, m, t, k, look.up);
        ClientMissed(c, s, n, id, req, p, m, look.up);
        m', task', client := ClientByDb(c, s, n, id, req, p, m, t, readable, file);
      }
    }
  }

  lemma ClientByHit(c: Config, s: State, n: NodeId, id: TaskId, req: Request, p: Stamped<PolicyRead>, m: Mid,
                    task: Option<Task>) returns (client: Q.Read<Option<Stamped<Client>>>)
    requires Free(s, n, id) && Identified(req) && Leads(c, s, LookUpClient(c, At(s, n, id, m, task, []), n, id, req, p))
    requires var hit := Hit(m, ClientKey(req.clientId.value), s.now); hit.Some? && RightKind(ClientKey(req.clientId.value), hit.value)
    ensures client.Given? && client.value.Some? && ClientGot(c, s, n, id, req, p, m.log, m, task, client)
    ensures ValueOf(Hit(m, ClientKey(req.clientId.value), s.now).value) == ClientValue(client.value.value.value)
  {
    hide Leads, GotClient;
    client := Q.Given(AsClient(Hit(m, ClientKey(req.clientId.value), s.now)));
    assert At(s, n, id, m, task, []).nodes[n].l1 == m.l1;
  }

  lemma ClientAsked(c: Config, s: State, n: NodeId, id: TaskId, req: Request, p: Stamped<PolicyRead>, m: Mid,
                    task: Option<Task>)
    requires Free(s, n, id) && Identified(req) && Leads(c, s, LookUpClient(c, At(s, n, id, m, task, []), n, id, req, p))
    requires Hit(m, ClientKey(req.clientId.value), s.now).None?
    ensures Leads(c, s, At(s, n, id, m, Waits(c, s, ClientFromL2(req, p, Pending)), []))
  {
    hide Leads, GotClient;
    assert At(s, n, id, m, task, []).nodes[n].l1 == m.l1;
    AwaitAt(c, s, n, id, m, task, [], ClientFromL2(req, p, Pending));
    hide Await;
  }

  lemma ClientByStore(c: Config, s: State, n: NodeId, id: TaskId, req: Request, p: Stamped<PolicyRead>, m: Mid)
    returns (m': Mid, task: Option<Task>, client: Q.Read<Option<Stamped<Client>>>)
    requires Free(s, n, id) && Identified(req)
    requires Leads(c, s, At(s, n, id, m, Waits(c, s, ClientFromL2(req, p, Pending)), []))
    requires var k := ClientKey(req.clientId.value); StoreHit(m, k, s.now).Some? && RightKind(k, StoreHit(m, k, s.now).value)
    ensures client.Given? && client.value.Some? && ClientGot(c, s, n, id, req, p, m.log, m', task, client)
    ensures var item := StoreHit(m, ClientKey(req.clientId.value), s.now).value;
      m' == Filled(s, m, ClientKey(req.clientId.value), item) && ValueOf(item) == ClientValue(client.value.value.value)
  {
    hide Leads, GotClient;
    var k := ClientKey(req.clientId.value);
    var found := AsClient(StoreHit(m, k, s.now));
    client := Q.Given(found);
    var item := StoreHit(m, k, s.now).value;
    var w := ClientFromL2(req, p, Got(found));
    AnswerAt(c, s, n, id, m, ClientFromL2(req, p, Pending), w);
    m', task := Filled(s, m, k, item), Waits(c, s, w);
    assert ClientItem(found.value) == item;
    FillAt(s, n, id, m, task, [], k, item);
    hide At, FillL1;
    ReturnAt(c, s, n, id, m, w, GotClient(c, At(s, n, id, m', task, []), n, id, req, p, found.value));
  }

  lemma ClientMissed(c: Config, s: State, n: NodeId, id: TaskId, req: Request, p: Stamped<PolicyRead>, m: Mid, up: bool)
    requires Free(s, n, id) && Identified(req)
    requires Leads(c, s, At(s, n, id, m, Waits(c, s, ClientFromL2(req, p, Pending)), []))
    requires up ==> StoreHit(m, ClientKey(req.clientId.value), s.now).None?
    ensures Leads(c, s, At(s, n, id, m, Waits(c, s, ClientFromDb(req, p, Pending)), []))
  {
    hide Leads;
    var w', asked := ClientFromDb(req, p, Pending), ClientFromL2(req, p, Pending);
    if up {
      var w := ClientFromL2(req, p, Got(None));
      AnswerAt(c, s, n, id, m, asked, w);
      AwaitAt(c, s, n, id, m, Waits(c, s, w), [], w');
      hide At, Await;
      ReturnAt(c, s, n, id, m, w, At(s, n, id, m, Waits(c, s, w'), []));
    } else {
      AwaitAt(c, s, n, id, m, Waits(c, s, asked), [], w');
      hide At, Await;
      ThrowAt(c, s, n, id, m, asked, At(s, n, id, m, Waits(c, s, w'), []));
    }
  }

  function ClientFiled(t: Tiered, clientId: string, read: Option<Client>, now: nat, file: Q.Luck): Tiered {
    if read.Some? then Apply(t, Q.SetOp(ForClient(clientId), ClientValue(read.value), now, file)) else t
  }

  lemma ClientByDb(c: Config, s: State, n: NodeId, id: TaskId, req: Request, p: Stamped<PolicyRead>, m: Mid, t: Tiered,
                   readable: bool, file: Q.Luck)
    returns (m': Mid, task: Option<Task>, client: Q.Read<Option<Stamped<Client>>>)
    requires Free(s, n, id) && Identified(req) && Good(m, t) && file.kept
    requires Leads(c, s, At(s, n, id, m, Waits(c, s, ClientFromDb(req, p, Pending)), []))
    ensures ClientGot(c, s, n, id, req, p, m.log, m', task, client)
    ensures var read := ClientByClientId(c.db(s.now), req.clientId.value);
      if !readable then client.Threw? && Good(m', t)
      else (&& ClientIn(client) == Q.Given(read)
            && Good(m', ClientFiled(t, req.clientId.value, read, s.now, file)))
  {
    hide Leads, Good, GotClient, Apply, Render, ClientByClientId;
    var asked := ClientFromDb(req, p, Pending);
    task := None;
    if !readable {
      RejectAt(s, n, id, m, Waits(c, s, asked), req, 500);
      m', client := m.(log := m.log + [Rejected(s.now, req, 500)]), Q.Threw;
      hide At, Reject;
      ThrowAt(c, s, n, id, m, asked, At(s, n, id, m', None, []));
      SameTiersLogged(m, m', t);
    } else {
      var read := ClientByClientId(c.db(s.now), req.clientId.value);
      var found := if read.Some? then Some(Stamped(read.value, s.now)) else None;
      var w := ClientFromDb(req, p, Got(found));
      AnswerAt(c, s, n, id, m, asked, w);
      client := Q.Given(found);
      if read.None? {
        RejectAt(s, n, id, m, Waits(c, s, w), req, 403);
        m' := m.(log := m.log + [Rejected(s.now, req, 403)]);
        hide At, Reject;
        ReturnAt(c, s, n, id, m, w, At(s, n, id, m', None, []));
        SameTiersLogged(m, m', t);
      } else {
        m', task := ClientStoredAt(c, s, n, id, req, p, m, t, found.value, file);
      }
    }
  }

  lemma ClientStoredAt(c: Config, s: State, n: NodeId, id: TaskId, req: Request, p: Stamped<PolicyRead>, m: Mid, t: Tiered,
                       x: Stamped<Client>, file: Q.Luck) returns (m': Mid, task: Option<Task>)
    requires Free(s, n, id) && Identified(req) && Good(m, t) && file.kept
    requires Leads(c, s, At(s, n, id, m, Waits(c, s, ClientFromDb(req, p, Got(Some(x)))), []))
    ensures m'.log == m.log && Leads(c, s, GotClient(c, At(s, n, id, m', task, []), n, id, req, p, x))
    ensures Good(m', Apply(t, Q.SetOp(ForClient(req.clientId.value), ClientValue(x.value), s.now, file)))
  {
    hide Leads, Good, GotClient, Apply, Render;
    var w, w', k, item := ClientFromDb(req, p, Got(Some(x))), ClientStored(req, p, x), ClientKey(req.clientId.value), ClientItem(x);
    SetAt(c, s, n, id, m, Waits(c, s, w), k, item, w');
    hide At, Await, CacheSet;
    task := Waits(c, s, w');
    var write := Write(k, item, s.now + c.delay);
    ReturnAt(c, s, n, id, m, w, At(s, n, id, Filled(s, m, k, item), task, [write]));
    WriteAt(c, s, n, id, Filled(s, m, k, item), task, write, file.up);
    m' := Written(s, m, k, item, file.up);
    ReturnAt(c, s, n, id, m', w', GotClient(c, At(s, n, id, m', task, []), n, id, req, p, x));
    SetSame(s, m, t, k, item, file.up);
  }

  // ---------- the permissions ----------

  ghost predicate PermsGot(c: Config, s: State, n: NodeId, id: TaskId, req: Request, p: Stamped<PolicyRead>,
                           client: Stamped<Client>, log: seq<Outcome>, m: Mid, task: Option<Task>,
                           perms: Q.Read<Stamped<set<Guid>>>)
    requires n in s.nodes
  {
    match perms
    case Given(x) => m.log == log && Leads(c, s, GotPerms(At(s, n, id, m, task, []), n, id, req, p, client, x))
    case Threw => m.log == log + [Rejected(s.now, req, 500)] && Leads(c, s, At(s, n, id, m, None, []))
  }

  function PermsIn(perms: Q.Read<Stamped<set<Guid>>>): Q.Read<set<Guid>> {
    match perms
    case Threw => Q.Threw
    case Given(x) => Q.Given(x.value)
  }

  lemma PermsStage(c: Config, s: State, n: NodeId, id: TaskId, req: Request, p: Stamped<PolicyRead>, client: Stamped<Client>,
                   m: Mid, task: Option<Task>, t: Tiered, readable: bool, look: Q.Luck, file: Q.Luck)
    returns (m': Mid, task': Option<Task>, perms: Q.Read<Stamped<set<Guid>>>)
    requires Free(s, n, id) && Good(m, t) && look.kept && file.kept
    requires Leads(c, s, GotClient(c, At(s, n, id, m, task, []), n, id, req, p, client))
    ensures PermsGot(c, s, n, id, req, p, client, m.log, m', task', perms)
    ensures var f := Q.PermissionsFound(t, c.db(s.now), client.value.id, s.now, readable, look, file);
      Good(m', f.tiers) && f.value == PermsIn(perms)
  {
    var k := PermissionKey(client.value.id);
    hide Leads, Good, GotPerms, Lookup, Apply, Render, RightKind, AuthorizedEndpointIds;
    if Hit(m, k, s.now).Some? {
      OwnHit(s, m, t, k, look.up);
      perms := PermsByHit(c, s, n, id, req, p, client, m, task);
      m', task' := m, task;
    } else {
      PermsAsked(c, s, n, id, req, p, client, m, task);
      if look.up && StoreHit(m, k, s.now).Some? {
        StoreFilled(s, m, t, k);
        m', task', perms := PermsByStore(c, s, n, id, req, p, client, m);
      } else {
        NoHit(s, m, t, k, look.up);
        PermsMissed(c, s, n, id, req, p, client, m, look.up);
        m', task', perms := PermsByDb(c, s, n, id, req, p, client, m, t, readable, file);
      }
    }
  }

  lemma PermsByHit(c: Config, s: State, n: NodeId, id: TaskId, req: Request, p: Stamped<PolicyRead>, client: Stamped<Client>,
                   m: Mid, task: Option<Task>) returns (perms: Q.Read<Stamped<set<Guid>>>)
    requires Free(s, n, id) && Leads(c, s, GotClient(c, At(s, n, id, m, task, []), n, id, req, p, client))
    requires var k := PermissionKey(client.value.id); Hit(m, k, s.now).Some? && RightKind(k, Hit(m, k, s.now).value)
    ensures perms.Given? && PermsGot(c, s, n, id, req, p, client, m.log, m, task, perms)
    ensures ValueOf(Hit(m, PermissionKey(client.value.id), s.now).value) == PermissionsValue(perms.value.value)
  {
    hide Leads, GotPerms;
    perms := Q.Given(AsPerms(Hit(m, PermissionKey(client.value.id), s.now)).value);
    assert At(s, n, id, m, task, []).nodes[n].l1 == m.l1;
  }

  lemma PermsAsked(c: Config, s: State, n: NodeId, id: TaskId, req: Request, p: Stamped<PolicyRead>, client: Stamped<Client>,
                   m: Mid, task: Option<Task>)
    requires Free(s, n, id) && Leads(c, s, GotClient(c, At(s, n, id, m, task, []), n, id, req, p, client))
    requires Hit(m, PermissionKey(client.value.id), s.now).None?
    ensures Leads(c, s, At(s, n, id, m, Waits(c, s, PermsFromL2(req, p, client, Pending)), []))
  {
    hide Leads, GotPerms;
    assert At(s, n, id, m, task, []).nodes[n].l1 == m.l1;
    AwaitAt(c, s, n, id, m, task, [], PermsFromL2(req, p, client, Pending));
    hide Await;
  }

  lemma PermsByStore(c: Config, s: State, n: NodeId, id: TaskId, req: Request, p: Stamped<PolicyRead>, client: Stamped<Client>,
                     m: Mid) returns (m': Mid, task: Option<Task>, perms: Q.Read<Stamped<set<Guid>>>)
    requires Free(s, n, id) && Leads(c, s, At(s, n, id, m, Waits(c, s, PermsFromL2(req, p, client, Pending)), []))
    requires var k := PermissionKey(client.value.id); StoreHit(m, k, s.now).Some? && RightKind(k, StoreHit(m, k, s.now).value)
    ensures perms.Given? && PermsGot(c, s, n, id, req, p, client, m.log, m', task, perms)
    ensures var item := StoreHit(m, PermissionKey(client.value.id), s.now).value;
      m' == Filled(s, m, PermissionKey(client.value.id), item) && ValueOf(item) == PermissionsValue(perms.value.value)
  {
    hide Leads, GotPerms;
    var k := PermissionKey(client.value.id);
    var found := AsPerms(StoreHit(m, k, s.now));
    perms := Q.Given(found.value);
    var item := StoreHit(m, k, s.now).value;
    var w := PermsFromL2(req, p, client, Got(found));
    AnswerAt(c, s, n, id, m, PermsFromL2(req, p, client, Pending), w);
    m', task := Filled(s, m, k, item), Waits(c, s, w);
    assert PermsItem(found.value) == item;
    FillAt(s, n, id, m, task, [], k, item);
    hide At, FillL1;
    ReturnAt(c, s, n, id, m, w, GotPerms(At(s, n, id, m', task, []), n, id, req, p, client, found.value));
  }

  lemma PermsMissed(c: Config, s: State, n: NodeId, id: TaskId, req: Request, p: Stamped<PolicyRead>, client: Stamped<Client>,
                    m: Mid, up: bool)
    requires Free(s, n, id) && Leads(c, s, At(s, n, id, m, Waits(c, s, PermsFromL2(req, p, client, Pending)), []))
    requires up ==> StoreHit(m, PermissionKey(client.value.id), s.now).None?
    ensures Leads(c, s, At(s, n, id, m, Waits(c, s, PermsFromDb(req, p, client, Pending)), []))
  {
    hide Leads;
    var w', asked := PermsFromDb(req, p, client, Pending), PermsFromL2(req, p, client, Pending);
    if up {
      var w := PermsFromL2(req, p, client, Got(None));
      AnswerAt(c, s, n, id, m, asked, w);
      AwaitAt(c, s, n, id, m, Waits(c, s, w), [], w');
      hide At, Await;
      ReturnAt(c, s, n, id, m, w, At(s, n, id, m, Waits(c, s, w'), []));
    } else {
      AwaitAt(c, s, n, id, m, Waits(c, s, asked), [], w');
      hide At, Await;
      ThrowAt(c, s, n, id, m, asked, At(s, n, id, m, Waits(c, s, w'), []));
    }
  }

  lemma PermsByDb(c: Config, s: State, n: NodeId, id: TaskId, req: Request, p: Stamped<PolicyRead>, client: Stamped<Client>,
                  m: Mid, t: Tiered, readable: bool, file: Q.Luck)
    returns (m': Mid, task: Option<Task>, perms: Q.Read<Stamped<set<Guid>>>)
    requires Free(s, n, id) && Good(m, t) && file.kept
    requires Leads(c, s, At(s, n, id, m, Waits(c, s, PermsFromDb(req, p, client, Pending)), []))
    ensures PermsGot(c, s, n, id, req, p, client, m.log, m', task, perms)
    ensures var read := AuthorizedEndpointIds(c.db(s.now), client.value.id, s.now);
      if !readable then perms.Threw? && Good(m', t)
      else (&& PermsIn(perms) == Q.Given(read)
            && Good(m', Apply(t, Q.SetOp(ForPermissions(client.value.id), PermissionsValue(read), s.now, file))))
  {
    hide Leads, Good, GotPerms, Apply, Render, AuthorizedEndpointIds;
    var asked := PermsFromDb(req, p, client, Pending);
    if !readable {
      RejectAt(s, n, id, m, Waits(c, s, asked), req, 500);
      m', task, perms := m.(log := m.log + [Rejected(s.now, req, 500)]), None, Q.Threw;
      hide At, Reject;
      ThrowAt(c, s, n, id, m, asked, At(s, n, id, m', None, []));
      SameTiersLogged(m, m', t);
    } else {
      var found := Stamped(AuthorizedEndpointIds(c.db(s.now), client.value.id, s.now), s.now);
      perms := Q.Given(found);
      hide At;
      AnswerAt(c, s, n, id, m, asked, PermsFromDb(req, p, client, Got(found))) by {
        PermsServed(c, s, n, id, req, p, client, m);
      }
      m', task := PermsStoredAt(c, s, n, id, req, p, client, m, t, found, file);
    }
  }

  lemma PermsServed(c: Config, s: State, n: NodeId, id: TaskId, req: Request, p: Stamped<PolicyRead>, client: Stamped<Client>,
                    m: Mid)
    requires n in s.nodes
    ensures var found := Stamped(AuthorizedEndpointIds(c.db(s.now), client.value.id, s.now), s.now);
      var w := PermsFromDb(req, p, client, Pending);
      ServeRequest(c, At(s, n, id, m, Waits(c, s, w), []), w) == Some(PermsFromDb(req, p, client, Got(found)))
  {
    hide AuthorizedEndpointIds;
  }

  lemma PermsStoredAt(c: Config, s: State, n: NodeId, id: TaskId, req: Request, p: Stamped<PolicyRead>, client: Stamped<Client>,
                      m: Mid, t: Tiered, found: Stamped<set<Guid>>, file: Q.Luck) returns (m': Mid, task: Option<Task>)
    requires Free(s, n, id) && Good(m, t) && file.kept
    requires Leads(c, s, At(s, n, id, m, Waits(c, s, PermsFromDb(req, p, client, Got(found))), []))
    ensures m'.log == m.log && Leads(c, s, GotPerms(At(s, n, id, m', task, []), n, id, req, p, client, found))
    ensures Good(m', Apply(t, Q.SetOp(ForPermissions(client.value.id), PermissionsValue(found.value), s.now, file)))
  {
    hide Leads, Good, GotPerms, Apply, Render;
    var w, w' := PermsFromDb(req, p, client, Got(found)), PermsStored(req, p, client, found);
    var k, item := PermissionKey(client.value.id), PermsItem(found);
    SetAt(c, s, n, id, m, Waits(c, s, w), k, item, w');
    hide At, Await, CacheSet;
    task := Waits(c, s, w');
    var write := Write(k, item, s.now + c.delay);
    ReturnAt(c, s, n, id, m, w, At(s, n, id, Filled(s, m, k, item), task, [write]));
    WriteAt(c, s, n, id, Filled(s, m, k, item), task, write, file.up);
    m' := Written(s, m, k, item, file.up);
    ReturnAt(c, s, n, id, m', w', GotPerms(At(s, n, id, m', task, []), n, id, req, p, client, found));
    SetSame(s, m, t, k, item, file.up);
  }

  // ---------- in every run the tiers are typed ----------

  lemma OkIsTyped(b: S.Bounded, now: Time, k: Key, item: Item)
    requires S.ItemOk(b, now, k, item)
    ensures RightKind(k, item)
  {
  }

  /** In every state of every run there is a fact of its kind under each key, in each tier. */
  lemma RunIsTyped(c: Config, states: seq<State>, events: seq<Event>, i: nat, n: NodeId)
    requires Run(c, states, events) && i < |states| && n in states[i].nodes
    ensures Typed(states[i].nodes[n].l1) && Typed(states[i].l2)
  {
    var b := T.SomeBounds(c, states, events, i);
    hide Run, S.ItemOk, RightKind, S.SnapshotOk, S.TaskOk;
    var s := states[i];
    assert S.NodeOk(b, s.now, s.nodes[n]);
    forall k | k in s.nodes[n].l1 ensures RightKind(k, s.nodes[n].l1[k].value) {
      OkIsTyped(b, s.now, k, s.nodes[n].l1[k].value);
    }
    forall k | k in s.l2 ensures RightKind(k, s.l2[k].value) {
      OkIsTyped(b, s.now, k, s.l2[k].value);
    }
  }

  // ---------- from start to end ----------

  /** The request is over: it has its answer, the tiers are the class's, and nothing else is changed. */
  ghost predicate Over(s: State, n: NodeId, s': State, r: Q.Found<Q.Verdict>) {
    && n in s.nodes && n in s'.nodes
    && SameTiers(s', n, r.tiers)
    && Last(s').Some? && VerdictOf(Last(s').value) == Some(r.value) && s.log <= s'.log
    && s' == s.(nodes := s.nodes[n := s.nodes[n].(l1 := s'.nodes[n].l1)], l2 := s'.l2, log := s'.log)
  }

  /**
   * From any state with no write under way, a request that nothing disturbs leads to a state with the verdict and the
   * tiers of the class, whichever of its calls of the shared store and of its reads of the database fail.
   */
  lemma UndisturbedIsJudged(c: Config, s: State, n: NodeId, id: TaskId, req: Request, t: Tiered,
                            snapshot: map<string, EndpointPolicy>, readable: Q.Readable, luck: nat -> Q.Luck)
    requires Free(s, n, id) && s.writes == [] && SameTiers(s, n, t) && Typed(s.nodes[n].l1) && Typed(s.l2)
    requires SamePolicies(s.nodes[n].snapshot, snapshot) && forall k :: luck(k).kept
    ensures exists s': State ::
      Leads(c, s, s') && Over(s, n, s', Q.Judged(t, snapshot, c.db(s.now), req, s.now, readable, luck))
  {
    if IsHealthPath(req.path) {
      HealthBypasses(c, s, n, id, req, t);
      hide IsHealthPath, Leads, Over;
    } else {
      hide IsHealthPath, Leads, Over, SamePolicies;
      var m, task, p := PolicyStage(c, s, n, id, req, t, snapshot, luck(0), luck(1));
      hide Q.PolicyFound;
      var f := Q.PolicyFound(t, snapshot, RouteOf(req), s.now, luck(0), luck(1));
      if p.None? {
        AnsweredIsOver(c, s, n, id, m, f.tiers, Q.Refused(404));
      } else {
        AfterPolicy(c, s, n, id, req, p.value, m, task, f.tiers, readable, luck);
      }
      hide Q.JudgedUnder;
    }
  }

  lemma HealthBypasses(c: Config, s: State, n: NodeId, id: TaskId, req: Request, t: Tiered)
    requires Free(s, n, id) && SameTiers(s, n, t) && IsHealthPath(req.path)
    ensures exists s': State :: Leads(c, s, s') && Over(s, n, s', Q.Found(Q.Forwarded, t))
  {
    hide IsHealthPath, Same;
    Stays(c, s);
    var s' := Log(s, Bypassed(s.now, req));
    hide Leads;
    Onwards(c, s, s, StartRequest(n, id, req), s');
    assert s.nodes[n := s.nodes[n]] == s.nodes;
    assert Over(s, n, s', Q.Found(Q.Forwarded, t));
  }

  lemma AnsweredIsOver(c: Config, s: State, n: NodeId, id: TaskId, m: Mid, t: Tiered, v: Q.Verdict)
    requires Free(s, n, id) && s.writes == [] && Good(m, t) && Leads(c, s, At(s, n, id, m, None, []))
    requires m.log != [] && VerdictOf(m.log[|m.log| - 1]) == Some(v) && s.log <= m.log
    ensures exists s': State :: Leads(c, s, s') && Over(s, n, s', Q.Found(v, t))
  {
    hide Leads, Same;
    assert Over(s, n, At(s, n, id, m, None, []), Q.Found(v, t));
  }

  lemma AfterPolicy(c: Config, s: State, n: NodeId, id: TaskId, req: Request, p: Stamped<PolicyRead>, m: Mid,
                    task: Option<Task>, t: Tiered, readable: Q.Readable, luck: nat -> Q.Luck)
    requires Free(s, n, id) && s.writes == [] && Good(m, t) && m.log == s.log && forall k :: luck(k).kept
    requires Leads(c, s, GotPolicy(c, At(s, n, id, m, task, []), n, id, req, p))
    ensures exists s': State ::
      Leads(c, s, s') && Over(s, n, s', Q.JudgedUnder(t, p.value.policy, c.db(s.now), req, s.now, readable, luck))
  {
    var m1 := m.(log := m.log + [Resolved(s.now, req, p)]);
    SameTiersLogged(m, m1, t);
    PolicyAt(c, s, n, id, req, p, m, task);
    hide Good, Leads, Over, At, LookUpClient, GotPolicy, Q.ClientFound, Q.PermissionsFound;
    if S.Passed(req, p) {
      AfterPassing(c, s, n, id, req, p, m1, task, t, readable, luck);
    } else if p.value.policy.requiresJwt {
      RejectedIsOver(c, s, n, id, req, m1, t, 401);
    } else {
      var m2 := m1.(log := m1.log + [AdmittedAnonymously(s.now, req, p)]);
      SameTiersLogged(m1, m2, t);
      AnsweredIsOver(c, s, n, id, m2, t, Q.Forwarded);
    }
  }

  /** What having its policy means for the request. */
  lemma PolicyAt(c: Config, s: State, n: NodeId, id: TaskId, req: Request, p: Stamped<PolicyRead>, m: Mid, task: Option<Task>)
    requires Free(s, n, id)
    ensures var m1 := m.(log := m.log + [Resolved(s.now, req, p)]);
      GotPolicy(c, At(s, n, id, m, task, []), n, id, req, p) ==
        if S.Passed(req, p) then LookUpClient(c, At(s, n, id, m1, task, []), n, id, req, p)
        else if p.value.policy.requiresJwt
        then At(s, n, id, m1.(log := m1.log + [Rejected(s.now, req, 401)]), None, [])
        else At(s, n, id, m1.(log := m1.log + [AdmittedAnonymously(s.now, req, p)]), None, [])
  {
    var m1 := m.(log := m.log + [Resolved(s.now, req, p)]);
    LogAt(s, n, id, m, task, [], Resolved(s.now, req, p));
    RejectAt(s, n, id, m1, task, req, 401);
    LogAt(s, n, id, m1, task, [], AdmittedAnonymously(s.now, req, p));
    EndAt(s, n, id, m1.(log := m1.log + [AdmittedAnonymously(s.now, req, p)]), task, []);
    assert At(s, n, id, m, task, []).now == s.now && At(s, n, id, m1, task, []).now == s.now;
    hide At, Log, End, Reject, LookUpClient;
  }

  lemma AfterPassing(c: Config, s: State, n: NodeId, id: TaskId, req: Request, p: Stamped<PolicyRead>, m: Mid,
                     task: Option<Task>, t: Tiered, readable: Q.Readable, luck: nat -> Q.Luck)
    requires Free(s, n, id) && s.writes == [] && Good(m, t) && s.log <= m.log && forall k :: luck(k).kept
    requires S.Passed(req, p) && Leads(c, s, LookUpClient(c, At(s, n, id, m, task, []), n, id, req, p))
    ensures exists s': State ::
      Leads(c, s, s') && Over(s, n, s', Q.JudgedUnder(t, p.value.policy, c.db(s.now), req, s.now, readable, luck))
  {
    hide Good, Leads, Over, At, LookUpClient, Q.ClientFound, Q.PermissionsFound;
    var m2, task2, client := ClientStage(c, s, n, id, req, p, m, task, t, readable.client, luck(2), luck(3));
    var f := Q.ClientFound(t, c.db(s.now), req.clientId.value, s.now, readable.client, luck(2), luck(3));
    match client {
      case Threw => AnsweredIsOver(c, s, n, id, m2, f.tiers, Q.Refused(500));
      case Given(None) => AnsweredIsOver(c, s, n, id, m2, f.tiers, Q.Refused(403));
      case Given(Some(x)) => AfterClient(c, s, n, id, req, p, x, m2, task2, f.tiers, readable.perms, luck(4), luck(5));
    }
  }

  lemma RejectedIsOver(c: Config, s: State, n: NodeId, id: TaskId, req: Request, m: Mid, t: Tiered, status: nat)
    requires Free(s, n, id) && s.writes == [] && Good(m, t) && s.log <= m.log
    requires Leads(c, s, At(s, n, id, m.(log := m.log + [Rejected(s.now, req, status)]), None, []))
    ensures exists s': State :: Leads(c, s, s') && Over(s, n, s', Q.Found(Q.Refused(status), t))
  {
    hide Good, Leads, Over, At;
    var m' := m.(log := m.log + [Rejected(s.now, req, status)]);
    SameTiersLogged(m, m', t);
    AnsweredIsOver(c, s, n, id, m', t, Q.Refused(status));
  }

  lemma AfterClient(c: Config, s: State, n: NodeId, id: TaskId, req: Request, p: Stamped<PolicyRead>, client: Stamped<Client>,
                    m: Mid, task: Option<Task>, t: Tiered, readable: bool, look: Q.Luck, file: Q.Luck)
    requires Free(s, n, id) && s.writes == [] && Good(m, t) && s.log <= m.log && look.kept && file.kept
    requires Leads(c, s, GotClient(c, At(s, n, id, m, task, []), n, id, req, p, client))
    ensures var perms := Q.PermissionsFound(t, c.db(s.now), client.value.id, s.now, readable, look, file);
      var v := if perms.value.Threw? then Q.Refused(500)
               else if p.value.policy.endpoint.id in perms.value.value then Q.Forwarded else Q.Refused(403);
      exists s': State :: Leads(c, s, s') && Over(s, n, s', Q.Found(v, perms.tiers))
  {
    hide Good, Leads, Over, At, Q.PermissionsFound;
    var m', task', perms := PermsStage(c, s, n, id, req, p, client, m, task, t, readable, look, file);
    var t' := Q.PermissionsFound(t, c.db(s.now), client.value.id, s.now, readable, look, file).tiers;
    match perms {
      case Threw => AnsweredIsOver(c, s, n, id, m', t', Q.Refused(500));
      case Given(x) =>
        PermsAt(s, n, id, req, p, client, m', task', x);
        hide GotPerms;
        if p.value.policy.endpoint.id in x.value {
          var m2 := m'.(log := m'.log + [Admitted(s.now, req, p, client, x)]);
          SameTiersLogged(m', m2, t');
          AnsweredIsOver(c, s, n, id, m2, t', Q.Forwarded);
        } else {
          RejectedIsOver(c, s, n, id, req, m', t', 403);
        }
    }
  }

  /** What having its permissions means for the request. */
  lemma PermsAt(s: State, n: NodeId, id: TaskId, req: Request, p: Stamped<PolicyRead>, client: Stamped<Client>, m: Mid,
                task: Option<Task>, perms: Stamped<set<Guid>>)
    requires Free(s, n, id)
    ensures GotPerms(At(s, n, id, m, task, []), n, id, req, p, client, perms) ==
      if p.value.policy.endpoint.id in perms.value
      then At(s, n, id, m.(log := m.log + [Admitted(s.now, req, p, client, perms)]), None, [])
      else At(s, n, id, m.(log := m.log + [Rejected(s.now, req, 403)]), None, [])
  {
    var o := Admitted(s.now, req, p, client, perms);
    LogAt(s, n, id, m, task, [], o);
    EndAt(s, n, id, m.(log := m.log + [o]), task, []);
    RejectAt(s, n, id, m, task, req, 403);
    assert At(s, n, id, m, task, []).now == s.now;
    hide At, Log, End, Reject;
  }
}
