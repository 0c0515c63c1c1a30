/**
 * The second half of a run that keeps a client's row in use as long as can be: a request brings it in from the shared
 * store at the last instant, and another, one instant before it leaves the own cache, waits three times for its
 * permissions.
 */
module GatewayClientRequests {
  import opened Wrappers
  import opened Entities
  import opened Registry
  import opened Tiers
  import opened GatewayProtocol
  import opened GatewayRuns
  import opened GatewayClientWarmUp

  // ---------- the first request brings the row in ----------

  /** The last instant at which the store answers with the row. */
  function LastServed(d: nat, clients: seq<Client>): Time
    requires |clients| >= 1
  {
    Arrival(d, clients) + L2_TTL
  }

  function ClientOf(clients: seq<Client>): Stamped<Client>
    requires |clients| >= 1
  {
    Stamped(LastOf(clients), 0)
  }

  /** A node with the policy of a refresh, and the row brought in an await later. */
  function WithRow(d: nat, clients: seq<Client>): Node
    requires |clients| >= 1
  {
    var t := LastServed(d, clients);
    WithEntry(Ready(t), CLIENT_KEY(clients), ClientItem(ClientOf(clients)), t + d)
  }

  lemma RowServed(d: nat, clients: seq<Client>)
    requires Listed(clients)
    requires var t := LastServed(d, clients); Reachable(Env(d, clients), One(t, Ready(t), StoredRow(d, clients), [], []))
    ensures var t, req := LastServed(d, clients), RequestOf(clients);
      Reachable(Env(d, clients), One(t, Busy(Ready(t), t + d,
        Requesting(ClientFromL2(req, Policy(t), Got(Some(ClientOf(clients)))))), StoredRow(d, clients), [],
        [Resolved(t, req, Policy(t))]))
  {
    var c, t, req, l2 := Env(d, clients), LastServed(d, clients), RequestOf(clients), StoredRow(d, clients);
    assert AsClient(L2Get(l2, CLIENT_KEY(clients), t)) == Some(ClientOf(clients));
    hide Reachable, StoredRow, LastServed, Policy, Ready, AsClient, L2Get;
    ClientAskedFor(c, t, l2, req);
    Answers(c, t, Ready(t), t + d, l2, [], [Resolved(t, req, Policy(t))],
            Requesting(ClientFromL2(req, Policy(t), Pending)),
            Requesting(ClientFromL2(req, Policy(t), Got(Some(ClientOf(clients))))));
  }

  /** A request right after a policy refresh turns to the store for its client. */
  lemma ClientAskedFor(c: Config, t: Time, l2: Tier, req: Request)
    requires Asks(req) && Reachable(c, One(t, Ready(t), l2, [], []))
    ensures Reachable(c, One(t, Busy(Ready(t), t + c.delay, Requesting(ClientFromL2(req, Policy(t), Pending))), l2, [],
      [Resolved(t, req, Policy(t))]))
  {
    BegunAtHand(c, t, l2, req);
    hide Reachable, BeginRequest, Policy, Ready, Asks;
    Step(c, One(t, Ready(t), l2, [], []), StartRequest(0, 0, req),
         One(t, Busy(Ready(t), t + c.delay, Requesting(ClientFromL2(req, Policy(t), Pending))), l2, [],
             [Resolved(t, req, Policy(t))]));
  }

  /** The row comes in and is filed; the request turns to the permissions. */
  lemma RowReturned(c: Config, now: Time, node: Node, l2: Tier, log: seq<Outcome>, req: Request, p: Stamped<PolicyRead>,
                    client: Stamped<Client>)
    requires PermissionKey(client.value.id) !in node.l1 && req.clientId.Some?
    ensures var k := ClientKey(req.clientId.value);
      var w, w' := Requesting(ClientFromL2(req, p, Got(Some(client)))), Requesting(PermsFromL2(req, p, client, Pending));
      Resume(c, One(now, Busy(node, now, w), l2, [], log), 0, 0, w)
      == Some(One(now, Busy(WithEntry(node, k, ClientItem(client), now), now + c.delay, w'), l2, [], log))
  {
    var k := ClientKey(req.clientId.value);
    var w, w' := Requesting(ClientFromL2(req, p, Got(Some(client)))), Requesting(PermsFromL2(req, p, client, Pending));
    var asked := Busy(node, now, w);
    var filled := asked.(l1 := Put(asked.l1, k, ClientItem(client), now, L1_TTL));
    FillOne(now, asked, l2, [], log, k, ClientItem(client));
    AwaitOne(c, now, filled, l2, [], log, w');
    assert Busy(filled, now + c.delay, w') == Busy(WithEntry(node, k, ClientItem(client), now), now + c.delay, w');
    hide FillL1, Await;
  }

  /** A request that can read its permissions neither from the store nor from the database is answered 500. */
  lemma Refused(c: Config, now: Time, node: Node, deadline: Time, l2: Tier, log: seq<Outcome>, req: Request,
                p: Stamped<PolicyRead>, client: Stamped<Client>)
    requires Idle(node)
    requires Reachable(c, One(now, Busy(node, deadline, Requesting(PermsFromL2(req, p, client, Pending))), l2, [], log))
    ensures Reachable(c, One(now, node, l2, [], log + [Rejected(now, req, 500)]))
  {
    var w0, w1 := Requesting(PermsFromL2(req, p, client, Pending)), Requesting(PermsFromDb(req, p, client, Pending));
    AwaitOne(c, now, Busy(node, deadline, w0), l2, [], log, w1);
    EndOne(now, Busy(node, now + c.delay, w1), l2, [], log + [Rejected(now, req, 500)]);
    assert Busy(node, now + c.delay, w1).(tasks := map[]) == node;
    hide Reachable, End, Await;
    Throw(c, now, node, deadline, l2, [], log, w0, One(now, Busy(node, now + c.delay, w1), l2, [], log));
    Throw(c, now, node, now + c.delay, l2, [], log, w1, One(now, node, l2, [], log + [Rejected(now, req, 500)]));
  }

  lemma FirstRequest(d: nat, clients: seq<Client>) returns (log: seq<Outcome>)
    requires Listed(clients)
    requires var t := LastServed(d, clients); Reachable(Env(d, clients), One(t, Ready(t), StoredRow(d, clients), [], []))
    ensures Reachable(Env(d, clients),
      One(LastServed(d, clients) + d, WithRow(d, clients), StoredRow(d, clients), [], log))
  {
    RowServed(d, clients);
    RowIdle(d, clients);
    ReadyHasNoPerms(LastServed(d, clients), LastOf(clients).id);
    hide Reachable, StoredRow, LastServed, Policy, Ready;
    var t, req := LastServed(d, clients), RequestOf(clients);
    log := RowTaken(Env(d, clients), t, Ready(t), StoredRow(d, clients), [Resolved(t, req, Policy(t))], req, Policy(t),
                    ClientOf(clients));
  }

  lemma ReadyHasNoPerms(t: Time, id: Guid)
    ensures PermissionKey(id) !in Ready(t).l1 && Idle(Ready(t))
  {
  }

  lemma RowIdle(d: nat, clients: seq<Client>)
    requires |clients| >= 1
    ensures Idle(WithRow(d, clients))
  {
  }

  /** The answer takes a whole await; then the row is in the own cache, and the request comes to nothing. */
  lemma RowTaken(c: Config, now: Time, node: Node, l2: Tier, log: seq<Outcome>, req: Request, p: Stamped<PolicyRead>,
                 client: Stamped<Client>) returns (log': seq<Outcome>)
    requires Idle(node) && PermissionKey(client.value.id) !in node.l1 && req.clientId.Some?
    requires Reachable(c,
      One(now, Busy(node, now + c.delay, Requesting(ClientFromL2(req, p, Got(Some(client))))), l2, [], log))
    ensures var later := now + c.delay;
      Reachable(c, One(later, WithEntry(node, ClientKey(req.clientId.value), ClientItem(client), later), l2, [], log'))
  {
    var later := now + c.delay;
    var filled := WithEntry(node, ClientKey(req.clientId.value), ClientItem(client), later);
    var w0, w1 := Requesting(ClientFromL2(req, p, Got(Some(client)))), Requesting(PermsFromL2(req, p, client, Pending));
    hide Reachable, Busy, Resume;
    assert Idle(filled);
    WaitBusy(c, node, later, w0, l2, log, now, later);
    RowReturned(c, later, node, l2, log, req, p, client);
    hide WithEntry;
    Return(c, later, node, later, l2, [], log, w0, One(later, Busy(filled, later + c.delay, w1), l2, [], log));
    Refused(c, later, filled, later + c.delay, l2, log, req, p, client);
    log' := log + [Rejected(later, req, 500)];
  }

  // ---------- the second request is admitted three awaits later ----------

  /** Only the row is left in the own cache. */
  function Bare(d: nat, clients: seq<Client>): Node
    requires |clients| >= 1
  {
    var t := LastServed(d, clients);
    Ready(t).(l1 := map[CLIENT_KEY(clients) := Entry(ClientItem(ClientOf(clients)), t + d + L1_TTL)])
  }

  lemma Evicted(d: nat, clients: seq<Client>, now: Time, log: seq<Outcome>)
    requires |clients| >= 1
    requires Reachable(Env(d, clients), One(now, WithRow(d, clients), StoredRow(d, clients), [], log))
    ensures Reachable(Env(d, clients), One(now, Bare(d, clients), StoredRow(d, clients), [], log))
  {
    assert WithRow(d, clients).l1 - {POLICY_KEY} == Bare(d, clients).l1;
    hide Reachable, StoredRow;
    EvictOne(Env(d, clients), now, WithRow(d, clients), StoredRow(d, clients), log, POLICY_KEY);
  }

  /** Policy and client are at hand, the permissions are not. */
  lemma ClientAtHand(c: Config, now: Time, node: Node, deadline: Time, l2: Tier, log: seq<Outcome>, req: Request,
                     p: Stamped<PolicyRead>, client: Stamped<Client>)
    requires Asks(req) && AsClient(L1Get(node.l1, ClientKey(req.clientId.value), now)) == Some(client)
    requires PermissionKey(client.value.id) !in node.l1
    ensures var w := Requesting(PolicyStored(req, p));
      Resume(c, One(now, Busy(node, deadline, w), l2, [], log), 0, 0, w)
      == Some(One(now, Busy(node, now + c.delay, Requesting(PermsFromL2(req, p, client, Pending))), l2, [],
                  log + [Resolved(now, req, p)]))
  {
    AwaitOne(c, now, Busy(node, deadline, Requesting(PolicyStored(req, p))), l2, [], log + [Resolved(now, req, p)],
             Requesting(PermsFromL2(req, p, client, Pending)));
    hide Await, AsClient, L1Get;
  }

  /** Some run admits a request at an instant, as a client. */
  ghost predicate AdmittedAt(c: Config, at: Time, client: Stamped<Client>) {
    exists s: State, o: Outcome :: Shows(c, s, o, at, client)
  }

  ghost predicate Shows(c: Config, s: State, o: Outcome, at: Time, client: Stamped<Client>) {
    Reachable(c, s) && o in s.log && o.Admitted? && o.at == at && o.client == client
  }

  /** Three whole awaits: the store fails at the end of the first, the database answers at the end of the second. */
  lemma AdmittedLate(c: Config, now: Time, node: Node, l2: Tier, log: seq<Outcome>, req: Request,
                     p: Stamped<PolicyRead>, client: Stamped<Client>)
    requires Idle(node)
    requires var t := now + c.delay + c.delay; p.value.policy.endpoint.id in AuthorizedEndpointIds(c.db(t), client.value.id, t)
    requires Reachable(c, One(now, Busy(node, now + c.delay, Requesting(PermsFromL2(req, p, client, Pending))), l2, [], log))
    ensures AdmittedAt(c, now + c.delay + c.delay + c.delay, client)
  {
    var t1, t2 := now + c.delay, now + c.delay + c.delay;
    var perms := Stamped(AuthorizedEndpointIds(c.db(t2), client.value.id, t2), t2);
    var w0, w1 := Requesting(PermsFromL2(req, p, client, Pending)), Requesting(PermsFromDb(req, p, client, Pending));
    var w2 := Requesting(PermsFromDb(req, p, client, Got(perms)));
    hide Reachable, AuthorizedEndpointIds, Busy;
    WaitBusy(c, node, t1, w0, l2, log, now, t1);
    AwaitOne(c, t1, Busy(node, t1, w0), l2, [], log, w1);
    BusyAgain(node, t1, w0, t2, w1);
    Throw(c, t1, node, t1, l2, [], log, w0, One(t1, Busy(node, t2, w1), l2, [], log));
    WaitBusy(c, node, t2, w1, l2, log, t1, t2);
    Answers(c, t2, node, t2, l2, [], log, w1, w2);
    PermsAdmit(c, t2, node, l2, log, req, p, client, perms);
  }

  lemma BusyAgain(node: Node, deadline: Time, w: Wait, deadline': Time, w': Wait)
    ensures Busy(Busy(node, deadline, w), deadline', w') == Busy(node, deadline', w')
    ensures Busy(node, deadline, w).tasks.Keys == {0}
  {
  }

  lemma PermsAdmit(c: Config, now: Time, node: Node, l2: Tier, log: seq<Outcome>, req: Request, p: Stamped<PolicyRead>,
                   client: Stamped<Client>, perms: Stamped<set<Guid>>)
    requires p.value.policy.endpoint.id in perms.value
    requires Reachable(c, One(now, Busy(node, now, Requesting(PermsFromDb(req, p, client, Got(perms)))), l2, [], log))
    ensures AdmittedAt(c, now + c.delay, client)
  {
    var k, item := PermissionKey(client.value.id), PermsItem(perms);
    var w0, w1 := Requesting(PermsFromDb(req, p, client, Got(perms))), Requesting(PermsStored(req, p, client, perms));
    var filed, later := WithEntry(node, k, item, now), now + c.delay;
    SetThenAwait(c, now, node, now, w0, w1, l2, log, k, item);
    hide Reachable, Await, CacheSet, WithEntry, Busy, End;
    ReturnAndLose(c, now, node, now, l2, log, w0, filed, w1, Write(k, item, later));
    WaitBusy(c, filed, later, w1, l2, log, now, later);
    var o := Admitted(later, req, p, client, perms);
    BusyAgain(filed, later, w1, later, w1);
    EndOne(later, Busy(filed, later, w1), l2, [], log + [o]);
    var s := One(later, Busy(filed, later, w1).(tasks := map[]), l2, [], log + [o]);
    Return(c, later, filed, later, l2, [], log, w1, s);
    assert Shows(c, s, o, later, client);
  }

  lemma SecondRequest(d: nat, clients: seq<Client>, now: Time, log: seq<Outcome>)
    requires Listed(clients) && now + 1 == LastServed(d, clients) + d + L1_TTL
    requires Reachable(Env(d, clients), One(now, Bare(d, clients), StoredRow(d, clients), [], log))
    ensures AdmittedAt(Env(d, clients), now + d + d + d, ClientOf(clients))
  {
    var c, t, req, l2 := Env(d, clients), LastServed(d, clients), RequestOf(clients), StoredRow(d, clients);
    var p, client, bare := Policy(t), ClientOf(clients), Bare(d, clients);
    var node := Refilled(bare, p, now);
    BareHasRow(d, clients, now);
    Reads(clients, now + d + d);
    hide Reachable, StoredRow, LastServed, AsClient, L1Get, AuthorizedEndpointIds, Bare, Refilled, Policy, Db;
    PolicyRefilled(c, now, bare, l2, log, req, p);
    RowAtHand(c, now, node, l2, log, req, p, client);
    AdmittedLate(c, now, node, l2, log + [Resolved(now, req, p)], req, p, client);
  }

  lemma BareHasRow(d: nat, clients: seq<Client>, now: Time)
    requires Listed(clients) && now + 1 == LastServed(d, clients) + d + L1_TTL
    ensures var bare, p := Bare(d, clients), Policy(LastServed(d, clients));
      var node := Refilled(bare, p, now);
      && Idle(bare) && POLICY_KEY !in bare.l1 && ROUTE in bare.snapshot && bare.snapshot[ROUTE] == p
      && Idle(node) && PermissionKey(LastOf(clients).id) !in node.l1
      && AsClient(L1Get(node.l1, CLIENT_KEY(clients), now)) == Some(ClientOf(clients))
      && p.value.policy.endpoint.id == SOME_ID
  {
    hide Arrival;
  }

  lemma RowAtHand(c: Config, now: Time, node: Node, l2: Tier, log: seq<Outcome>, req: Request, p: Stamped<PolicyRead>,
                  client: Stamped<Client>)
    requires Asks(req) && AsClient(L1Get(node.l1, ClientKey(req.clientId.value), now)) == Some(client)
    requires PermissionKey(client.value.id) !in node.l1
    requires Reachable(c, One(now, Busy(node, now + c.delay, Requesting(PolicyStored(req, p))), l2, [], log))
    ensures Reachable(c, One(now, Busy(node, now + c.delay, Requesting(PermsFromL2(req, p, client, Pending))), l2, [],
      log + [Resolved(now, req, p)]))
  {
    hide Reachable, Resume, Busy, AsClient, L1Get;
    ClientAtHand(c, now, node, now + c.delay, l2, log, req, p, client);
    Return(c, now, node, now + c.delay, l2, [], log, Requesting(PolicyStored(req, p)),
           One(now, Busy(node, now + c.delay, Requesting(PermsFromL2(req, p, client, Pending))), l2, [],
               log + [Resolved(now, req, p)]));
  }
}
