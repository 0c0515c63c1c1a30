/**
 * The freshness bound of policies is the best there is: for every longest await, every age that snapshots may have and
 * every amount of work that a refresh may do, some run attains it.
 *
 * One node. A service is enabled only at instant 0, when a refresh reads it. Its policy is handed to the cache as late as
 * the bounds allow; the write arrives as late as it can, though the node has restarted. The shared store keeps the policy
 * for its lifetime; a request reads it there at the last instant, and that answer takes an await; the node keeps it for
 * its own lifetime; and another request is given it one instant before that ends.
 */
module GatewayPolicyTightness {
  import opened Wrappers
  import opened Entities
  import opened Registry
  import opened Tiers
  import opened GatewayProtocol
  import opened GatewayTheorems
  import opened GatewayRuns
  import opened GatewayPolicyWrites

  // ---------- the policy reaches the shared store ----------

  /** The last instant at which the shared store answers with a policy whose write was posted at some instant. */
  function LastServed(d: nat, posted: Time): Time {
    posted + d + L2_TTL
  }

  function StoredPolicy(d: nat, posted: Time, p: Stamped<PolicyRead>): Tier {
    map[POLICY_KEY := Entry(PolicyItem(p), LastServed(d, posted))]
  }

  /** The write arrives as late as it can, and time passes. */
  lemma Arrived(c: Config, age: nat, posted: Time, p: Stamped<PolicyRead>)
    requires Youthfully(c, age, Posted(posted, p, c.delay))
    ensures var t := LastServed(c.delay, posted);
      Youthfully(c, age, One(t, EMPTY_NODE, StoredPolicy(c.delay, posted, p), [], []))
  {
    var l2, t := StoredPolicy(c.delay, posted, p), LastServed(c.delay, posted);
    var write, arrival := PolicyWrite(posted, p, c.delay), posted + c.delay;
    var s1, s2 := One(arrival, EMPTY_NODE, map[], [write], []), One(arrival, EMPTY_NODE, l2, [], []);
    assert WithoutWrite(s1, 0) == [];
    hide Youthfully;
    StepOne(c, age, Posted(posted, p, c.delay), Tick(arrival), arrival, EMPTY_NODE, map[], [write], []);
    StepOne(c, age, s1, Applied(0), arrival, EMPTY_NODE, l2, [], []);
    StepOne(c, age, s2, Tick(t), t, EMPTY_NODE, l2, [], []);
  }

  // ---------- the requests ----------

  const REQUEST := Request("/gateway", "G", None, Some(true))

  lemma RouteOfRequest()
    ensures RouteOf(REQUEST) == ROUTE && !IsHealthPath(REQUEST.path)
  {
    Routes();
  }

  /** What a request without a client adds to the log once it has its policy. */
  function Told(now: Time, p: Stamped<PolicyRead>): (r: seq<Outcome>)
    ensures |r| == 2
  {
    [Resolved(now, REQUEST, p),
     if p.value.policy.requiresJwt then Rejected(now, REQUEST, 401) else AdmittedAnonymously(now, REQUEST, p)]
  }

  lemma GotPolicyOne(c: Config, now: Time, node: Node, l2: Tier, log: seq<Outcome>, p: Stamped<PolicyRead>)
    requires node.tasks.Keys <= {0}
    ensures GotPolicy(c, One(now, node, l2, [], log), 0, 0, REQUEST, p)
      == One(now, node.(tasks := map[]), l2, [], log + Told(now, p))
  {
    assert log + [Told(now, p)[0]] + [Told(now, p)[1]] == log + Told(now, p);
    EndOne(now, node, l2, [], log + Told(now, p));
    hide End;
  }

  /** The own cache once the store has answered. */
  function Cached(now: Time, p: Stamped<PolicyRead>): Node {
    WithEntry(EMPTY_NODE, POLICY_KEY, PolicyItem(p), now)
  }

  function AskingStore(now: Time, deadline: Time, l2: Tier, answer: Answer<Option<Stamped<PolicyRead>>>): State {
    One(now, Busy(EMPTY_NODE, deadline, Requesting(PolicyFromL2(REQUEST, answer))), l2, [], [])
  }

  /** A request turns to the store for its policy, which is not in the own cache. */
  lemma Asked(c: Config, age: nat, now: Time, l2: Tier)
    requires Youthfully(c, age, One(now, EMPTY_NODE, l2, [], []))
    ensures Youthfully(c, age, AskingStore(now, now + c.delay, l2, Pending))
  {
    var w := Requesting(PolicyFromL2(REQUEST, Pending));
    RouteOfRequest();
    AwaitOne(c, now, EMPTY_NODE, l2, [], [], w);
    hide Youthfully, RouteOf, Await, IsHealthPath;
    StepOne(c, age, One(now, EMPTY_NODE, l2, [], []), StartRequest(0, 0, REQUEST), now, Busy(EMPTY_NODE, now + c.delay, w),
            l2, [], []);
  }

  /** The store answers at once, and the answer takes a whole await. */
  lemma StoreAnswers(c: Config, age: nat, now: Time, l2: Tier, p: Stamped<PolicyRead>)
    requires Youthfully(c, age, AskingStore(now, now + c.delay, l2, Pending))
    requires AsPolicy(L2Get(l2, POLICY_KEY, now)) == Some(p)
    ensures Youthfully(c, age, AskingStore(now + c.delay, now + c.delay, l2, Got(Some(p))))
  {
    var later := now + c.delay;
    var w, w' := Requesting(PolicyFromL2(REQUEST, Pending)), Requesting(PolicyFromL2(REQUEST, Got(Some(p))));
    var busy := Busy(EMPTY_NODE, later, w');
    RouteOfRequest();
    hide Youthfully, RouteOf, AsPolicy, L2Get;
    assert map[0 := Task(later, w)][0 := Task(later, w')] == map[0 := Task(later, w')];
    assert map[0 := Busy(EMPTY_NODE, later, w)][0 := busy] == map[0 := busy];
    StepOne(c, age, AskingStore(now, later, l2, Pending), Answered(0, 0), now, busy, l2, [], []);
    StepOne(c, age, AskingStore(now, later, l2, Got(Some(p))), Tick(later), later, busy, l2, [], []);
  }

  /** The policy comes in and is in the own cache. */
  lemma ComesIn(c: Config, age: nat, now: Time, l2: Tier, p: Stamped<PolicyRead>)
    requires Youthfully(c, age, AskingStore(now, now, l2, Got(Some(p))))
    ensures Youthfully(c, age, One(now, Cached(now, p), l2, [], Told(now, p)))
  {
    PolicyReturned(c, now, l2, p);
    hide Youthfully, Resume, Told;
    StepOne(c, age, AskingStore(now, now, l2, Got(Some(p))), Returned(0, 0), now, Cached(now, p), l2, [], Told(now, p));
  }

  lemma PolicyReturned(c: Config, now: Time, l2: Tier, p: Stamped<PolicyRead>)
    ensures Resume(c, AskingStore(now, now, l2, Got(Some(p))), 0, 0, Requesting(PolicyFromL2(REQUEST, Got(Some(p)))))
      == Some(One(now, Cached(now, p), l2, [], Told(now, p)))
  {
    var busy := Busy(EMPTY_NODE, now, Requesting(PolicyFromL2(REQUEST, Got(Some(p)))));
    var filled := busy.(l1 := Put(busy.l1, POLICY_KEY, PolicyItem(p), now, L1_TTL));
    RouteOfRequest();
    FillOne(now, busy, l2, [], [], POLICY_KEY, PolicyItem(p));
    GotPolicyOne(c, now, filled, l2, [], p);
    assert filled.(tasks := map[]) == Cached(now, p);
    assert [] + Told(now, p) == Told(now, p);
    hide GotPolicy, FillL1, RouteOf, Told, Cached;
  }

  /** The second request finds the policy in the own cache. */
  lemma AskedAgain(c: Config, age: nat, now: Time, later: Time, l2: Tier, p: Stamped<PolicyRead>)
    requires now <= later < now + L1_TTL
    requires Youthfully(c, age, One(now, Cached(now, p), l2, [], Told(now, p)))
    ensures Youthfully(c, age, One(later, Cached(now, p), l2, [], Told(now, p) + Told(later, p)))
  {
    var node, log := Cached(now, p), Told(now, p);
    FoundAgain(c, now, later, l2, p);
    assert node.tasks == map[] && node.origin.None?;
    hide Youthfully, Told, Cached, BeginRequest;
    StepOne(c, age, One(now, node, l2, [], log), Tick(later), later, node, l2, [], log);
    StepOne(c, age, One(later, node, l2, [], log), StartRequest(0, 0, REQUEST), later, node, l2, [], log + Told(later, p));
  }

  lemma FoundAgain(c: Config, now: Time, later: Time, l2: Tier, p: Stamped<PolicyRead>)
    requires now <= later < now + L1_TTL
    ensures BeginRequest(c, One(later, Cached(now, p), l2, [], Told(now, p)), 0, 0, REQUEST)
      == One(later, Cached(now, p), l2, [], Told(now, p) + Told(later, p))
  {
    var node := Cached(now, p);
    RouteOfRequest();
    assert AsPolicy(L1Get(node.l1, POLICY_KEY, later)) == Some(p);
    GotPolicyOne(c, later, node, l2, Told(now, p), p);
    assert node.(tasks := map[]) == node;
    hide RouteOf, GotPolicy, Told, Cached, IsHealthPath, AsPolicy, L1Get;
  }

  /** The last instant at which the policy is in the own cache. */
  function LastHeld(d: nat, posted: Time): Time {
    LastServed(d, posted) + d + L1_TTL - 1
  }

  /** From the write on its way to the second request. */
  lemma GivenAtLast(c: Config, age: nat, posted: Time, p: Stamped<PolicyRead>) returns (s: State)
    requires Youthfully(c, age, Posted(posted, p, c.delay))
    ensures Youthfully(c, age, s) && Resolved(LastHeld(c.delay, posted), REQUEST, p) in s.log
  {
    var t, l2 := LastServed(c.delay, posted), StoredPolicy(c.delay, posted, p);
    var now, later := t + c.delay, LastHeld(c.delay, posted);
    assert AsPolicy(L2Get(l2, POLICY_KEY, t)) == Some(p);
    assert now <= later < now + L1_TTL;
    Arrived(c, age, posted, p);
    hide Youthfully, Posted, AskingStore, Cached, StoredPolicy, LastServed, LastHeld, AsPolicy, L2Get;
    Asked(c, age, t, l2);
    StoreAnswers(c, age, t, l2, p);
    ComesIn(c, age, now, l2, p);
    AskedAgain(c, age, now, later, l2, p);
    s := One(later, Cached(now, p), l2, [], Told(now, p) + Told(later, p));
    assert s.log[2] == Resolved(later, REQUEST, p);
  }

  // ---------- the bound is attained ----------

  /** Given a policy whose service was enabled at one instant only, and that instant is so long ago, less one instant. */
  ghost predicate OldestResolved(ago: nat, c: Config, o: Outcome) {
    && o.Resolved?
    && o.policy.value.policy.service.isEnabled
    && forall u: Time :: (o.policy.value.policy.service in c.db(u).services) == (o.at + 1 == u + ago)
  }

  /** Some run within both bounds gives a request a policy as old as that. */
  ghost predicate Attained(c: Config, age: nat, work: nat, ago: nat) {
    exists states: seq<State>, events: seq<Event>, o: Outcome ::
      && Run(c, states, events) && o in states[|events|].log
      && (forall j :: 0 <= j < |states| ==> SnapshotsYoung(age, states[j]) && RefreshesSmall(work, states[j]))
      && OldestResolved(ago, c, o)
  }

  function Bound(d: nat, age: nat, work: nat): nat {
    PolicyAge(age, work, d) + 7_200_000 + 2 * d
  }

  /**
   * For every longest await, every age of snapshots and every list of services that register nothing, which a refresh
   * gets through before the one that does, there is a run within both bounds that gives a request a policy exactly the
   * bound, less one instant, after the only instant its service was enabled: the bound cannot be lowered, whichever of
   * the snapshots and the refreshes makes it, and it does grow with either.
   */
  lemma PolicyBoundAttained(d: nat, age: nat, idle: seq<Service>)
    requires NoneServing(idle)
    ensures Attained(Env(d, idle), age, |idle| + 2, Bound(d, age, |idle| + 2))
  {
    var posted := PolicyAge(age, |idle| + 2, d);
    var p := OldPolicy(d, idle);
    PostedInTime(d, age, idle);
    hide Youthfully, Posted, OldPolicy, PolicyAge, Env, NoneServing;
    assert Env(d, idle).delay == d by { DelayIs(d, idle); }
    var s := GivenAtLast(Env(d, idle), age, posted, p);
    var o := Resolved(LastHeld(d, posted), REQUEST, p);
    IsOldest(d, age, idle, o);
    Within(d, age, idle, s, o);
  }

  lemma DelayIs(d: nat, idle: seq<Service>)
    ensures Env(d, idle).delay == d
  {
  }

  /** Whichever takes longer, the refresh or the snapshot, posts the write. */
  lemma PostedInTime(d: nat, age: nat, idle: seq<Service>)
    requires NoneServing(idle)
    ensures Youthfully(Env(d, idle), age, Posted(PolicyAge(age, |idle| + 2, d), OldPolicy(d, idle), d))
  {
    AtIs(d, |idle|);
    assert (|idle| + 2 + 1) * d == (|idle| + 2) * d + d;
    assert FiledAt(d, idle) == (|idle| + 2 + 1) * d;
    hide Youthfully, Posted, OldPolicy, Env, NoneServing, FiledAt;
    if age < (|idle| + 2 + 1) * d {
      PostedByRefresh(d, age, idle);
    } else {
      PostedByRequest(d, age, idle);
    }
  }

  lemma IsOldest(d: nat, age: nat, idle: seq<Service>, o: Outcome)
    requires NoneServing(idle)
    requires o == Resolved(LastHeld(d, PolicyAge(age, |idle| + 2, d)), REQUEST, OldPolicy(d, idle))
    ensures OldestResolved(Bound(d, age, |idle| + 2), Env(d, idle), o)
  {
    var ago := Bound(d, age, |idle| + 2);
    hide PolicyAge;
    assert o.at + 1 == ago;
    assert o.policy.value.policy.service == SERVICE;
    forall u: Time ensures (SERVICE in Env(d, idle).db(u).services) == (o.at + 1 == u + ago) {
    }
  }

  lemma Within(d: nat, age: nat, idle: seq<Service>, s: State, o: Outcome)
    requires NoneServing(idle) && Youthfully(Env(d, idle), age, s) && o in s.log
    requires OldestResolved(Bound(d, age, |idle| + 2), Env(d, idle), o)
    ensures Attained(Env(d, idle), age, |idle| + 2, Bound(d, age, |idle| + 2))
  {
    var c := Env(d, idle);
    var states: seq<State>, events: seq<Event> :| Youthful(c, age, states, events, s);
    assert Run(c, states, events) && states[|events|] == s;
    hide Run, Env, OldestResolved, SnapshotsYoung, RefreshesSmall, Bound, NoneServing, Attained;
    forall j | 0 <= j < |states| ensures RefreshesSmall(|idle| + 2, states[j]) {
      RefreshesAreSmall(d, idle, states, events, j);
    }
    RunAttains(c, age, |idle| + 2, Bound(d, age, |idle| + 2), states, events, o);
  }

  lemma RunAttains(c: Config, age: nat, work: nat, ago: nat, states: seq<State>, events: seq<Event>, o: Outcome)
    requires Run(c, states, events) && o in states[|events|].log && OldestResolved(ago, c, o)
    requires forall j :: 0 <= j < |states| ==> SnapshotsYoung(age, states[j]) && RefreshesSmall(work, states[j])
    ensures Attained(c, age, work, ago)
  {
    hide OldestResolved, SnapshotsYoung, RefreshesSmall, Next, Init;
  }
}
