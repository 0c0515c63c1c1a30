/**
 * The freshness bound of permissions is the best there is: for every longest await, some run attains it.
 *
 * One node. A permission is true only at instant 0, when a refresh reads it; the answer takes one whole await to
 * return and the write to the shared store another; the store keeps it for its lifetime; a request reads it there at
 * the last instant, and that answer takes a third await; the node keeps it for its own lifetime; and a second request
 * is admitted by it one instant before that ends.
 */
module GatewayTightness {
  import opened Wrappers
  import opened Entities
  import opened Registry
  import opened Tiers
  import opened GatewayProtocol
  import opened GatewayRuns

  // ---------- the environment ----------

  const CLIENT := Client(SOME_ID, "client", true)
  const PERMISSION := ClientPermission(SOME_ID, SOME_ID, true, None)

  /** The permission is there at instant 0 only; nothing else ever changes. */
  function Db(t: Time): Database {
    Database([PRODUCT], [SERVICE], [ENDPOINT], [CLIENT], if t == 0 then [PERMISSION] else [])
  }

  function Env(d: nat): Config {
    Config(Db, d)
  }

  const REQUEST := Request("/gateway", "G", Some("client"), Some(true))

  lemma Reads(t: Time)
    ensures EnabledProducts(Db(t)) == [PRODUCT]
    ensures EnabledServices(Db(t)) == [SERVICE]
    ensures EnabledEndpointsOf(Db(t), SOME_ID) == [ENDPOINT]
    ensures EnabledClients(Db(t)) == [CLIENT]
    ensures ClientByClientId(Db(t), "client") == Some(CLIENT)
    ensures AuthorizedEndpointIds(Db(t), SOME_ID, t) == if t == 0 then {SOME_ID} else {}
    ensures HasPermission(Db(t), SOME_ID, SOME_ID, t) <==> t == 0
  {
    if t == 0 {
      assert PERMISSION in Db(t).permissions;
      assert Grants(PERMISSION, SOME_ID, t);
    }
  }

  lemma IsRegistered(d: nat, t: Time)
    ensures RegisteredAt(Env(d), t)
  {
    Reads(t);
  }

  // ---------- the run ----------

  const PERMISSION_KEY := PermissionKey(SOME_ID)
  const CLIENT_KEY := ClientKey("client")
  const PERMS := Stamped({SOME_ID}, 0)

  /** The shared store once the first write has arrived, as late as it can. */
  function StoredPerms(d: nat): Tier {
    map[PERMISSION_KEY := Entry(PermsItem(PERMS), d + d + L2_TTL)]
  }

  /** The permission is read at instant 0, filed at d, stored at 2d; then the node restarts. */
  lemma Warmed(d: nat)
    ensures Reachable(Env(d), One(d + d, EMPTY_NODE, StoredPerms(d), [], []))
  {
    var c := Env(d);
    var clients := Stamped([CLIENT], 0);
    Reads(0);
    var s0 := One(0, EMPTY_NODE, map[], [], []);
    assert Reaches(c, [s0], [], s0);
    AwaitOne(c, 0, EMPTY_NODE, map[], [], [], Warming(ClientList(Pending)));
    Step(c, s0, StartPermissionRefresh(0, 0), One(0, Busy(EMPTY_NODE, d, Warming(ClientList(Pending))), map[], [], []));
    Answers(c, 0, EMPTY_NODE, d, map[], [], [], Warming(ClientList(Pending)), Warming(ClientList(Got(clients))));
    WarmedFiled(d, clients);
  }

  lemma WarmedFiled(d: nat, clients: Stamped<seq<Client>>)
    requires clients == Stamped([CLIENT], 0)
    requires Reachable(Env(d), One(0, Busy(EMPTY_NODE, d, Warming(ClientList(Got(clients)))), map[], [], []))
    ensures Reachable(Env(d), One(d + d, EMPTY_NODE, StoredPerms(d), [], []))
  {
    var c := Env(d);
    Reads(0);
    var listed := Busy(EMPTY_NODE, d, Warming(ClientList(Got(clients))));
    var w := Warming(WarmPerms(clients, 0, Pending));
    AwaitOne(c, 0, listed, map[], [], [], w);
    assert Busy(listed, d, w) == Busy(EMPTY_NODE, d, w);
    Return(c, 0, EMPTY_NODE, d, map[], [], [], Warming(ClientList(Got(clients))),
           One(0, Busy(EMPTY_NODE, d, w), map[], [], []));
    var w' := Warming(WarmPerms(clients, 0, Got(PERMS)));
    Answers(c, 0, EMPTY_NODE, d, map[], [], [], w, w');
    WaitBusy(c, EMPTY_NODE, d, w', map[], [], 0, d);
    WarmedStored(d, clients);
  }

  lemma WarmedStored(d: nat, clients: Stamped<seq<Client>>)
    requires clients == Stamped([CLIENT], 0)
    requires Reachable(Env(d), One(d, Busy(EMPTY_NODE, d, Warming(WarmPerms(clients, 0, Got(PERMS)))), map[], [], []))
    ensures Reachable(Env(d), One(d + d, EMPTY_NODE, StoredPerms(d), [], []))
  {
    var c := Env(d);
    var w := Warming(WarmPerms(clients, 0, Got(PERMS)));
    var w' := Warming(WarmPermsStored(clients, 0));
    var stored := WithEntry(EMPTY_NODE, PERMISSION_KEY, PermsItem(PERMS), d);
    SetThenAwait(c, d, EMPTY_NODE, d, w, w', map[], [], PERMISSION_KEY, PermsItem(PERMS));
    hide Reachable, CacheSet, Await, Busy;
    Return(c, d, EMPTY_NODE, d, map[], [], [], w,
           One(d, Busy(stored, d + d, w'), map[], [Write(PERMISSION_KEY, PermsItem(PERMS), d + d)], []));
    Arrived(d, stored, w');
  }

  /** The write arrives as late as it can. */
  lemma Arrived(d: nat, node: Node, w: Wait)
    requires Reachable(Env(d),
      One(d, Busy(node, d + d, w), map[], [Write(PERMISSION_KEY, PermsItem(PERMS), d + d)], []))
    ensures Reachable(Env(d), One(d + d, EMPTY_NODE, StoredPerms(d), [], []))
  {
    var c := Env(d);
    var s := One(d, Busy(node, d + d, w), map[], [Write(PERMISSION_KEY, PermsItem(PERMS), d + d)], []);
    var s1 := s.(now := d + d);
    var s2 := One(d + d, s.nodes[0], StoredPerms(d), [], []);
    hide Reachable;
    Step(c, s, Tick(d + d), s1);
    assert WithoutWrite(s1, 0) == [];
    Step(c, s1, Applied(0), s2);
    Step(c, s2, Restart(0), One(d + d, EMPTY_NODE, StoredPerms(d), [], []));
  }

  /** The last instant at which the shared store answers. */
  function LastServed(d: nat): Time {
    d + d + L2_TTL
  }

  // ---------- the requests ----------

  /** A request whose client is not in the own cache and cannot be read from the store: the database supplies it. */
  lemma ClientLoaded(d: nat, now: Time, node: Node, deadline: Time, l2: Tier, log: seq<Outcome>, p: Stamped<PolicyRead>)
    requires Idle(node)
    requires Reachable(Env(d), One(now, Busy(node, deadline, Requesting(ClientFromL2(REQUEST, p, Pending))), l2, [], log))
    ensures var client := Stamped(CLIENT, now);
      var node' := WithEntry(node, CLIENT_KEY, ClientItem(client), now);
      Reachable(Env(d), One(now, Busy(node', now + d, Requesting(ClientStored(REQUEST, p, client))), l2, [], log))
  {
    ClientAsked(d, now, node, deadline, l2, log, p);
    ClientFiled(Env(d), now, node, l2, log, p, Stamped(CLIENT, now));
  }

  lemma ClientAsked(d: nat, now: Time, node: Node, deadline: Time, l2: Tier, log: seq<Outcome>, p: Stamped<PolicyRead>)
    requires Idle(node)
    requires Reachable(Env(d), One(now, Busy(node, deadline, Requesting(ClientFromL2(REQUEST, p, Pending))), l2, [], log))
    ensures Reachable(Env(d), One(now, Busy(node, now + d,
      Requesting(ClientFromDb(REQUEST, p, Got(Some(Stamped(CLIENT, now)))))), l2, [], log))
  {
    var c := Env(d);
    Reads(now);
    hide Reachable, ClientByClientId;
    var w0, w1 := Requesting(ClientFromL2(REQUEST, p, Pending)), Requesting(ClientFromDb(REQUEST, p, Pending));
    AwaitOne(c, now, Busy(node, deadline, w0), l2, [], log, w1);
    Throw(c, now, node, deadline, l2, [], log, w0, One(now, Busy(node, now + d, w1), l2, [], log));
    Answers(c, now, node, now + d, l2, [], log, w1, Requesting(ClientFromDb(REQUEST, p, Got(Some(Stamped(CLIENT, now))))));
  }

  lemma ClientFiled(c: Config, now: Time, node: Node, l2: Tier, log: seq<Outcome>, p: Stamped<PolicyRead>,
                    client: Stamped<Client>)
    requires Reachable(c,
      One(now, Busy(node, now + c.delay, Requesting(ClientFromDb(REQUEST, p, Got(Some(client))))), l2, [], log))
    ensures var node' := WithEntry(node, CLIENT_KEY, ClientItem(client), now);
      Reachable(c, One(now, Busy(node', now + c.delay, Requesting(ClientStored(REQUEST, p, client))), l2, [], log))
  {
    hide Reachable, Busy, Resume, WithEntry, One;
    ClientReturned(c, now, node, now + c.delay, l2, log, p, client);
    ReturnAndLose(c, now, node, now + c.delay, l2, log, Requesting(ClientFromDb(REQUEST, p, Got(Some(client)))),
                  WithEntry(node, CLIENT_KEY, ClientItem(client), now), Requesting(ClientStored(REQUEST, p, client)),
                  Write(CLIENT_KEY, ClientItem(client), now + c.delay));
  }

  lemma ClientReturned(c: Config, now: Time, node: Node, deadline: Time, l2: Tier, log: seq<Outcome>,
                       p: Stamped<PolicyRead>, client: Stamped<Client>)
    ensures var w2 := Requesting(ClientFromDb(REQUEST, p, Got(Some(client))));
      var w3 := Requesting(ClientStored(REQUEST, p, client));
      Resume(c, One(now, Busy(node, deadline, w2), l2, [], log), 0, 0, w2)
      == Some(One(now, Busy(WithEntry(node, CLIENT_KEY, ClientItem(client), now), now + c.delay, w3), l2,
                  [Write(CLIENT_KEY, ClientItem(client), now + c.delay)], log))
  {
    SetThenAwait(c, now, node, deadline, Requesting(ClientFromDb(REQUEST, p, Got(Some(client)))),
                 Requesting(ClientStored(REQUEST, p, client)), l2, log, CLIENT_KEY, ClientItem(client));
    hide CacheSet, Await, Busy, WithEntry;
  }

  /** The own cache after the first request: the permission came in at the end of its await. */
  function AfterFirst(d: nat): Node {
    var t := LastServed(d);
    Ready(t).(l1 := map[
      POLICY_KEY := Entry(PolicyItem(Policy(t)), t + L1_TTL),
      CLIENT_KEY := Entry(ClientItem(Stamped(CLIENT, t)), t + L1_TTL),
      PERMISSION_KEY := Entry(PermsItem(PERMS), t + d + L1_TTL)])
  }

  /** The first request reads the permission in the store at the last instant, and is answered d later. */
  lemma FirstRequest(d: nat) returns (log': seq<Outcome>)
    requires Reachable(Env(d), One(LastServed(d), Ready(LastServed(d)), StoredPerms(d), [], []))
    ensures Reachable(Env(d), One(LastServed(d) + d, AfterFirst(d), StoredPerms(d), [], log'))
  {
    var c, t, l2 := Env(d), LastServed(d), StoredPerms(d);
    hide Reachable, BeginRequest, StoredPerms, LastServed, Policy, Ready, Busy;
    var p, node := Policy(t), Ready(t);
    var log := [Resolved(t, REQUEST, p)];
    var w0 := Requesting(ClientFromL2(REQUEST, p, Pending));
    BegunAtHand(c, t, l2, REQUEST);
    Step(c, One(t, node, l2, [], []), StartRequest(0, 0, REQUEST), One(t, Busy(node, t + d, w0), l2, [], log));
    ClientLoaded(d, t, node, t + d, l2, log, p);
    log' := FirstServed(d, log);
  }

  /** The own cache while the first request waits for its permission. */
  function WithClient(d: nat): Node {
    var t := LastServed(d);
    WithEntry(Ready(t), CLIENT_KEY, ClientItem(Stamped(CLIENT, t)), t)
  }

  lemma LacksPerms(d: nat)
    ensures PERMISSION_KEY !in WithClient(d).l1
  {
  }

  lemma FirstServed(d: nat, log: seq<Outcome>) returns (log': seq<Outcome>)
    requires var t := LastServed(d);
      Reachable(Env(d), One(t, Busy(WithClient(d), t + d,
        Requesting(ClientStored(REQUEST, Policy(t), Stamped(CLIENT, t)))), StoredPerms(d), [], log))
    ensures Reachable(Env(d), One(LastServed(d) + d, AfterFirst(d), StoredPerms(d), [], log'))
  {
    hide Reachable, StoredPerms, Policy, LastServed, Busy, WithClient, AfterFirst;
    var t := LastServed(d);
    LacksPerms(d);
    PermsAskedFor(d, t, WithClient(d), StoredPerms(d), log, Policy(t), Stamped(CLIENT, t));
    FirstPermsServed(d, log);
    log' := FirstAdmitted(d, log);
  }

  lemma PermsAskedFor(d: nat, t: Time, node: Node, l2: Tier, log: seq<Outcome>, p: Stamped<PolicyRead>,
                      client: Stamped<Client>)
    requires PERMISSION_KEY !in node.l1 && client.value == CLIENT
    requires Reachable(Env(d), One(t, Busy(node, t + d, Requesting(ClientStored(REQUEST, p, client))), l2, [], log))
    ensures Reachable(Env(d), One(t, Busy(node, t + d, Requesting(PermsFromL2(REQUEST, p, client, Pending))), l2, [], log))
  {
    hide Reachable, Busy, Resume;
    PermsAsked(Env(d), t, node, t + d, l2, log, p, client);
    Return(Env(d), t, node, t + d, l2, [], log, Requesting(ClientStored(REQUEST, p, client)),
           One(t, Busy(node, t + d, Requesting(PermsFromL2(REQUEST, p, client, Pending))), l2, [], log));
  }

  lemma PermsAsked(c: Config, now: Time, node: Node, deadline: Time, l2: Tier, log: seq<Outcome>, p: Stamped<PolicyRead>,
                   client: Stamped<Client>)
    requires PERMISSION_KEY !in node.l1 && client.value == CLIENT
    ensures var w := Requesting(ClientStored(REQUEST, p, client));
      Resume(c, One(now, Busy(node, deadline, w), l2, [], log), 0, 0, w)
      == Some(One(now, Busy(node, now + c.delay, Requesting(PermsFromL2(REQUEST, p, client, Pending))), l2, [], log))
  {
    AwaitOne(c, now, Busy(node, deadline, Requesting(ClientStored(REQUEST, p, client))), l2, [], log,
             Requesting(PermsFromL2(REQUEST, p, client, Pending)));
    hide Await;
  }

  lemma FirstPermsServed(d: nat, log: seq<Outcome>)
    requires var t := LastServed(d);
      Reachable(Env(d), One(t, Busy(WithClient(d), t + d,
        Requesting(PermsFromL2(REQUEST, Policy(t), Stamped(CLIENT, t), Pending))), StoredPerms(d), [], log))
    ensures var t := LastServed(d);
      Reachable(Env(d), One(t, Busy(WithClient(d), t + d,
        Requesting(PermsFromL2(REQUEST, Policy(t), Stamped(CLIENT, t), Got(Some(PERMS))))), StoredPerms(d), [], log))
  {
    var c, t, l2, node := Env(d), LastServed(d), StoredPerms(d), WithClient(d);
    var p, client := Policy(t), Stamped(CLIENT, t);
    assert AsPerms(L2Get(l2, PERMISSION_KEY, t)) == Some(PERMS);
    hide Reachable, WithClient, StoredPerms, Policy, L2Get, AsPerms;
    Answers(c, t, node, t + d, l2, [], log, Requesting(PermsFromL2(REQUEST, p, client, Pending)),
           Requesting(PermsFromL2(REQUEST, p, client, Got(Some(PERMS)))));
  }

  lemma FirstAdmitted(d: nat, log: seq<Outcome>) returns (log': seq<Outcome>)
    requires var t := LastServed(d);
      Reachable(Env(d), One(t, Busy(WithClient(d), t + d,
        Requesting(PermsFromL2(REQUEST, Policy(t), Stamped(CLIENT, t), Got(Some(PERMS))))), StoredPerms(d), [], log))
    ensures Reachable(Env(d), One(LastServed(d) + d, AfterFirst(d), StoredPerms(d), [], log'))
  {
    hide Reachable, AfterFirst, WithClient, LastServed, StoredPerms, Policy, Busy, Resume;
    var c, t, l2, node := Env(d), LastServed(d), StoredPerms(d), WithClient(d);
    var p, client := Policy(t), Stamped(CLIENT, t);
    var w := Requesting(PermsFromL2(REQUEST, p, client, Got(Some(PERMS))));
    log' := log + [Admitted(t + d, REQUEST, p, client, PERMS)];
    WaitBusy(c, node, t + d, w, l2, log, t, t + d);
    HasPerms(d);
    PermsReturned(c, t + d, node, l2, log, p, client);
    Return(c, t + d, node, t + d, l2, [], log, w, One(t + d, AfterFirst(d), l2, [], log'));
  }

  /** The own cache with the permission filed. */
  function WithPerms(node: Node, now: Time): Node {
    Node(Put(node.l1, PERMISSION_KEY, PermsItem(PERMS), now, L1_TTL), node.snapshot, node.origin, map[])
  }

  lemma HasPerms(d: nat)
    ensures WithPerms(WithClient(d), LastServed(d) + d) == AfterFirst(d)
    ensures Policy(LastServed(d)).value.policy == POLICY
  {
  }

  lemma PermsReturned(c: Config, now: Time, node: Node, l2: Tier, log: seq<Outcome>, p: Stamped<PolicyRead>,
                      client: Stamped<Client>)
    requires p.value.policy == POLICY && client.value == CLIENT
    ensures var w := Requesting(PermsFromL2(REQUEST, p, client, Got(Some(PERMS))));
      Resume(c, One(now, Busy(node, now, w), l2, [], log), 0, 0, w)
      == Some(One(now, WithPerms(node, now), l2, [], log + [Admitted(now, REQUEST, p, client, PERMS)]))
  {
    var asked := Busy(node, now, Requesting(PermsFromL2(REQUEST, p, client, Got(Some(PERMS)))));
    var filled := asked.(l1 := Put(asked.l1, PERMISSION_KEY, PermsItem(PERMS), now, L1_TTL));
    FillOne(now, asked, l2, [], log, PERMISSION_KEY, PermsItem(PERMS));
    EndOne(now, filled, l2, [], log + [Admitted(now, REQUEST, p, client, PERMS)]);
    hide End, FillL1, Put;
  }

  /** Only the permission is left in the own cache. */
  function Bare(d: nat): Node {
    var t := LastServed(d);
    Ready(t).(l1 := map[PERMISSION_KEY := Entry(PermsItem(PERMS), t + d + L1_TTL)])
  }

  lemma Evicted(d: nat, now: Time, log: seq<Outcome>)
    requires Reachable(Env(d), One(now, AfterFirst(d), StoredPerms(d), [], log))
    ensures Reachable(Env(d), One(now, Bare(d), StoredPerms(d), [], log))
  {
    var mid := AfterFirst(d).(l1 := AfterFirst(d).l1 - {POLICY_KEY});
    assert mid.l1 - {CLIENT_KEY} == Bare(d).l1;
    hide Reachable, StoredPerms;
    EvictOne(Env(d), now, AfterFirst(d), StoredPerms(d), log, POLICY_KEY);
    EvictOne(Env(d), now, mid, StoredPerms(d), log, CLIENT_KEY);
  }

  /** The second request, one instant before the permission leaves the own cache. */
  lemma SecondRequest(d: nat, now: Time, log: seq<Outcome>)
    requires now + 1 == LastServed(d) + d + L1_TTL
    requires Reachable(Env(d), One(now, Bare(d), StoredPerms(d), [], log))
    ensures exists s, o :: Reachable(Env(d), s) && o in s.log && Last(o, now)
  {
    var p := Policy(LastServed(d));
    PolicyRefilled(Env(d), now, Bare(d), StoredPerms(d), log, REQUEST, p);
    SecondAsksClient(d, now, log);
    var stored := Again(d, now);
    var log' := log + [Resolved(now, REQUEST, p)];
    ClientLoaded(d, now, stored, now + d, StoredPerms(d), log', p);
    var client := Stamped(CLIENT, now);
    SecondAdmitted(d, now, WithEntry(stored, CLIENT_KEY, ClientItem(client), now), p, client, log');
  }

  /** The own cache with the snapshot's policy filed again. */
  function Again(d: nat, now: Time): Node {
    Refilled(Bare(d), Policy(LastServed(d)), now)
  }

  lemma SecondAsksClient(d: nat, now: Time, log: seq<Outcome>)
    requires Reachable(Env(d), One(now, Busy(Again(d, now), now + d,
      Requesting(PolicyStored(REQUEST, Policy(LastServed(d))))), StoredPerms(d), [], log))
    ensures Reachable(Env(d), One(now, Busy(Again(d, now), now + d,
      Requesting(ClientFromL2(REQUEST, Policy(LastServed(d)), Pending))), StoredPerms(d), [],
      log + [Resolved(now, REQUEST, Policy(LastServed(d)))]))
  {
    var c, l2, p, node := Env(d), StoredPerms(d), Policy(LastServed(d)), Again(d, now);
    var w1, w2 := Requesting(PolicyStored(REQUEST, p)), Requesting(ClientFromL2(REQUEST, p, Pending));
    assert CLIENT_KEY !in node.l1;
    hide Reachable, GotPolicy, StoredPerms, LastServed, Again, Policy;
    PolicyAtHand(c, now, Busy(node, now + d, w1), l2, log, REQUEST, p);
    Return(c, now, node, now + d, l2, [], log, w1,
           One(now, Busy(node, now + d, w2), l2, [], log + [Resolved(now, REQUEST, p)]));
  }

  ghost predicate Last(o: Outcome, now: Time) {
    && o.Admitted? && o.at == now
    && o.client.value.id == SOME_ID && o.policy.value.policy.endpoint.id == SOME_ID
  }

  lemma SecondAdmitted(d: nat, now: Time, node: Node, p: Stamped<PolicyRead>, client: Stamped<Client>, log: seq<Outcome>)
    requires now + 1 == LastServed(d) + d + L1_TTL
    requires PERMISSION_KEY in node.l1 && node.l1[PERMISSION_KEY] == Entry(PermsItem(PERMS), LastServed(d) + d + L1_TTL)
    requires p.value.policy == POLICY && client.value == CLIENT
    requires Reachable(Env(d),
      One(now, Busy(node, now + d, Requesting(ClientStored(REQUEST, p, client))), StoredPerms(d), [], log))
    ensures exists s, o :: Reachable(Env(d), s) && o in s.log && Last(o, now)
  {
    var c, l2 := Env(d), StoredPerms(d);
    var w := Requesting(ClientStored(REQUEST, p, client));
    var o := Admitted(now, REQUEST, p, client, PERMS);
    EndOne(now, Busy(node, now + d, w), l2, [], log + [o]);
    var s := One(now, node.(tasks := map[]), l2, [], log + [o]);
    assert Busy(node, now + d, w).(tasks := map[]) == node.(tasks := map[]);
    Return(c, now, node, now + d, l2, [], log, w, s);
    assert o in s.log && Last(o, now);
  }

  /** Admitted by a permission that was true at one instant only, and that instant is the bound away. */
  ghost predicate OldestAdmission(d: nat, o: Outcome) {
    && o.Admitted?
    && forall u: Time ::
      Permits(Db(u), o.client.value.id, o.policy.value.policy.endpoint.id, u)
      == (o.at + 1 == u + 7_200_000 + 3 * d)
  }

  /**
   * For every longest await there is a run that admits a request by a permission exactly both lifetimes and three
   * waits, less one instant, after the only instant it was true: the bound cannot be lowered.
   */
  lemma PermissionBoundAttained(d: nat)
    ensures exists states: seq<State>, events: seq<Event>, o: Outcome ::
      && Run(Env(d), states, events) && o in states[|events|].log
      && OldestAdmission(d, o)
  {
    var c, t := Env(d), LastServed(d);
    Warmed(d);
    Pass(c, EMPTY_NODE, StoredPerms(d), [], d + d, t);
    IsRegistered(d, t);
    Refreshed(c, StoredPerms(d), t);
    var log := FirstRequest(d);
    var now: Time := t + d + L1_TTL - 1;
    Pass(c, AfterFirst(d), StoredPerms(d), log, t + d, now);
    Evicted(d, now, log);
    SecondRequest(d, now, log);
    var s, o :| Reachable(c, s) && o in s.log && Last(o, now);
    var states: seq<State>, events: seq<Event> :| Reaches(c, states, events, s);
    forall u: Time
      ensures Permits(Db(u), o.client.value.id, o.policy.value.policy.endpoint.id, u)
        == (o.at + 1 == u + 7_200_000 + 3 * d)
    {
      Reads(u);
      AuthorizedIff(Db(u), SOME_ID, SOME_ID, u);
    }
    assert Run(c, states, events) && o in states[|events|].log && OldestAdmission(d, o);
  }
}
