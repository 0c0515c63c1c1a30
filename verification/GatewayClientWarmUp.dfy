/**
 * The first half of a run that keeps a client's row in use as long as can be: a permission refresh over any list of
 * clients, each of its awaits as long as can be, up to the last client's row in the shared store.
 */
module GatewayClientWarmUp {
  import opened Wrappers
  import opened Entities
  import opened Registry
  import opened Tiers
  import opened GatewayProtocol
  import opened GatewayRuns

  // ---------- the environment ----------

  /** The clients listed at instant 0; the last is the one the run is about. */
  ghost predicate Listed(clients: seq<Client>) {
    && |clients| >= 1
    && (forall i :: 0 <= i < |clients| ==> clients[i].isEnabled)
    && LastOf(clients).clientId != ""
  }

  function LastOf(clients: seq<Client>): Client
    requires |clients| >= 1
  {
    clients[|clients| - 1]
  }

  /** The clients are there at instant 0 only; the last one's permission always; nothing else ever changes. */
  function Db(clients: seq<Client>, t: Time): Database
    requires |clients| >= 1
  {
    Database([PRODUCT], [SERVICE], [ENDPOINT], if t == 0 then clients else [],
             [ClientPermission(LastOf(clients).id, SOME_ID, true, None)])
  }

  function Env(d: nat, clients: seq<Client>): Config
    requires |clients| >= 1
  {
    Config((t: Time) => Db(clients, t), d)
  }

  function RequestOf(clients: seq<Client>): Request
    requires |clients| >= 1
  {
    Request("/gateway", "G", Some(LastOf(clients).clientId), Some(true))
  }

  lemma {:induction false} AllKept(clients: seq<Client>)
    requires forall i :: 0 <= i < |clients| ==> clients[i].isEnabled
    ensures Filter(clients, ClientEnabled) == clients
  {
    if clients != [] {
      AllKept(clients[1..]);
      assert clients == [clients[0]] + clients[1..];
    }
  }

  lemma Reads(clients: seq<Client>, t: Time)
    requires Listed(clients)
    ensures EnabledClients(Db(clients, t)) == if t == 0 then clients else []
    ensures SOME_ID in AuthorizedEndpointIds(Db(clients, t), LastOf(clients).id, t)
  {
    if t == 0 {
      AllKept(clients);
    }
    var row := ClientPermission(LastOf(clients).id, SOME_ID, true, None);
    assert row in Db(clients, t).permissions && Grants(row, LastOf(clients).id, t);
  }

  lemma IsRegistered(d: nat, clients: seq<Client>, t: Time)
    requires Listed(clients)
    ensures RegisteredAt(Env(d, clients), t)
  {
  }

  // ---------- the refresh, client by client ----------

  /** When the i-th client's turn comes. */
  function Turn(d: nat, i: nat): Time {
    if i == 0 then d else Turn(d, i - 1) + d + d + d
  }

  lemma {:induction false} TurnIs(d: nat, i: nat)
    ensures Turn(d, i) == (3 * i + 1) * d
  {
    if i > 0 {
      TurnIs(d, i - 1);
      assert (3 * i + 1) * d == (3 * (i - 1) + 1) * d + 3 * d;
    }
  }

  function Rows(clients: seq<Client>): Stamped<seq<Client>> {
    Stamped(clients, 0)
  }

  /** The refresh has just asked for the i-th client's permissions. */
  ghost predicate AtTurn(d: nat, clients: seq<Client>, i: nat, now: Time, node: Node)
    requires |clients| >= 1
  {
    Reachable(Env(d, clients), One(now, Busy(node, now + d, Warming(WarmPerms(Rows(clients), i, Pending))), map[], [], []))
  }

  lemma FirstTurn(d: nat, clients: seq<Client>)
    requires Listed(clients)
    ensures AtTurn(d, clients, 0, d, EMPTY_NODE)
  {
    var w1, w2 := Warming(ClientList(Got(Rows(clients)))), Warming(WarmPerms(Rows(clients), 0, Pending));
    ClientsListed(d, clients);
    ListReturned(Env(d, clients), d, Rows(clients));
    hide Reachable, Resume, Busy;
    Pass1(Env(d, clients), EMPTY_NODE, w1, 0);
    Return(Env(d, clients), d, EMPTY_NODE, d, map[], [], [], w1, One(d, Busy(EMPTY_NODE, d + d, w2), map[], [], []));
  }

  lemma ClientsListed(d: nat, clients: seq<Client>)
    requires Listed(clients)
    ensures Reachable(Env(d, clients), One(0, Busy(EMPTY_NODE, d, Warming(ClientList(Got(Rows(clients))))), map[], [], []))
  {
    var c := Env(d, clients);
    var w0, w1 := Warming(ClientList(Pending)), Warming(ClientList(Got(Rows(clients))));
    var s0 := One(0, EMPTY_NODE, map[], [], []);
    assert Reaches(c, [s0], [], s0);
    Reads(clients, 0);
    hide Reachable, EnabledClients;
    AwaitOne(c, 0, EMPTY_NODE, map[], [], [], w0);
    Step(c, s0, StartPermissionRefresh(0, 0), One(0, Busy(EMPTY_NODE, d, w0), map[], [], []));
    Answers(c, 0, EMPTY_NODE, d, map[], [], [], w0, w1);
  }

  /** The refresh turns to its first client. */
  lemma ListReturned(c: Config, now: Time, rows: Stamped<seq<Client>>)
    requires |rows.value| >= 1
    ensures var w1, w2 := Warming(ClientList(Got(rows))), Warming(WarmPerms(rows, 0, Pending));
      Resume(c, One(now, Busy(EMPTY_NODE, now, w1), map[], [], []), 0, 0, w1)
      == Some(One(now, Busy(EMPTY_NODE, now + c.delay, w2), map[], [], []))
  {
    AwaitOne(c, now, Busy(EMPTY_NODE, now, Warming(ClientList(Got(rows)))), map[], [], [], Warming(WarmPerms(rows, 0, Pending)));
    hide Await;
  }

  /** A task uses up its await while the store is empty. */
  lemma Pass1(c: Config, node: Node, w: Wait, now: Time)
    requires Reachable(c, One(now, Busy(node, now + c.delay, w), map[], [], []))
    ensures Reachable(c, One(now + c.delay, Busy(node, now + c.delay, w), map[], [], []))
  {
    WaitBusy(c, node, now + c.delay, w, map[], [], now, now + c.delay);
  }

  /** The i-th client's permissions are read. */
  lemma TurnRead(d: nat, clients: seq<Client>, i: nat, now: Time, node: Node, perms: Stamped<set<Guid>>)
    requires |clients| >= 1 && i < |clients| && AtTurn(d, clients, i, now, node)
    requires perms == Stamped(AuthorizedEndpointIds(Db(clients, now), clients[i].id, now), now)
    ensures Reachable(Env(d, clients),
      One(now + d, Busy(node, now + d, Warming(WarmPerms(Rows(clients), i, Got(perms)))), map[], [], []))
  {
    hide Reachable, AuthorizedEndpointIds, Db, Busy;
    var c, w := Env(d, clients), Warming(WarmPerms(Rows(clients), i, Got(perms)));
    Answers(c, now, node, now + d, map[], [], [], Warming(WarmPerms(Rows(clients), i, Pending)), w);
    Pass1(c, node, w, now);
  }

  /** They are filed; the write does not arrive. */
  lemma PermsFiled(c: Config, now: Time, node: Node, rows: Stamped<seq<Client>>, i: nat, perms: Stamped<set<Guid>>)
    requires i < |rows.value|
    requires Reachable(c, One(now, Busy(node, now, Warming(WarmPerms(rows, i, Got(perms)))), map[], [], []))
    ensures var filed := WithEntry(node, PermissionKey(rows.value[i].id), PermsItem(perms), now);
      Reachable(c, One(now + c.delay, Busy(filed, now + c.delay, Warming(WarmPermsStored(rows, i))), map[], [], []))
  {
    var k, item := PermissionKey(rows.value[i].id), PermsItem(perms);
    var w0, w1 := Warming(WarmPerms(rows, i, Got(perms))), Warming(WarmPermsStored(rows, i));
    var filed, write := WithEntry(node, k, item, now), Write(k, item, now + c.delay);
    SetThenAwait(c, now, node, now, w0, w1, map[], [], k, item);
    hide Reachable, Await, CacheSet, WithEntry, Busy;
    ReturnAndLose(c, now, node, now, map[], [], w0, filed, w1, write);
    Pass1(c, filed, w1, now);
  }

  /** The i-th client's permissions are read and filed, and its row is filed next: its write is under way. */
  lemma TurnFiled(d: nat, clients: seq<Client>, i: nat, now: Time, node: Node) returns (node': Node)
    requires |clients| >= 1 && i < |clients| && AtTurn(d, clients, i, now, node)
    ensures Reachable(Env(d, clients), Filing(d, clients, i, now + d + d, node'))
  {
    hide Reachable, AuthorizedEndpointIds, Busy, Filing, AtTurn, WithEntry;
    var perms := Stamped(AuthorizedEndpointIds(Db(clients, now), clients[i].id, now), now);
    TurnRead(d, clients, i, now, node, perms);
    PermsFiled(Env(d, clients), now + d, node, Rows(clients), i, perms);
    var filed := WithEntry(node, PermissionKey(clients[i].id), PermsItem(perms), now + d);
    node' := RowFiled(d, clients, i, now + d + d, filed);
  }

  function Row(clients: seq<Client>, i: nat): Item
    requires i < |clients|
  {
    ClientItem(Stamped(clients[i], 0))
  }

  /** The i-th client's row has just been filed. */
  function Filing(d: nat, clients: seq<Client>, i: nat, now: Time, node: Node): State
    requires i < |clients|
  {
    One(now, Busy(node, now + d, Warming(WarmClientStored(Rows(clients), i))), map[],
        [Write(ClientKey(clients[i].clientId), Row(clients, i), now + d)], [])
  }

  lemma RowFiled(d: nat, clients: seq<Client>, i: nat, now: Time, node: Node) returns (node': Node)
    requires |clients| >= 1 && i < |clients|
    requires Reachable(Env(d, clients), One(now, Busy(node, now, Warming(WarmPermsStored(Rows(clients), i))), map[], [], []))
    ensures Reachable(Env(d, clients), Filing(d, clients, i, now, node'))
  {
    var c, k, item := Env(d, clients), ClientKey(clients[i].clientId), Row(clients, i);
    var w0, w1 := Warming(WarmPermsStored(Rows(clients), i)), Warming(WarmClientStored(Rows(clients), i));
    node' := WithEntry(node, k, item, now);
    SetThenAwait(c, now, node, now, w0, w1, map[], [], k, item);
    hide Reachable, Await, CacheSet, WithEntry, Busy;
    Return(c, now, node, now, map[], [], [], w0, Filing(d, clients, i, now, node'));
  }

  /** The write of a row that is not the last is lost, and the next client's turn comes. */
  lemma NextTurn(d: nat, clients: seq<Client>, i: nat, now: Time, node: Node)
    requires |clients| >= 1 && i + 1 < |clients| && Reachable(Env(d, clients), Filing(d, clients, i, now, node))
    ensures AtTurn(d, clients, i + 1, now + d, node)
  {
    var c := Env(d, clients);
    var w0, w1 := Warming(WarmClientStored(Rows(clients), i)), Warming(WarmPerms(Rows(clients), i + 1, Pending));
    hide Reachable;
    LoseWrite(c, Busy(node, now + d, w0), map[], Write(ClientKey(clients[i].clientId), Row(clients, i), now + d), [], now);
    Pass1(c, node, w0, now);
    AwaitOne(c, now + d, Busy(node, now + d, w0), map[], [], [], w1);
    hide Await;
    Return(c, now + d, node, now + d, map[], [], [], w0, One(now + d, Busy(node, now + d + d, w1), map[], [], []));
  }

  lemma {:induction false} TurnComes(d: nat, clients: seq<Client>, i: nat) returns (node: Node)
    requires Listed(clients) && i < |clients|
    ensures AtTurn(d, clients, i, Turn(d, i), node)
  {
    if i == 0 {
      FirstTurn(d, clients);
      node := EMPTY_NODE;
    } else {
      hide AtTurn, Reachable;
      var before := TurnComes(d, clients, i - 1);
      node := TurnFiled(d, clients, i - 1, Turn(d, i - 1), before);
      NextTurn(d, clients, i - 1, Turn(d, i - 1) + d + d, node);
    }
  }

  // ---------- the last row reaches the store ----------

  /** When the last row arrives in the store. */
  function Arrival(d: nat, clients: seq<Client>): Time
    requires |clients| >= 1
  {
    Turn(d, |clients| - 1) + d + d + d
  }

  function CLIENT_KEY(clients: seq<Client>): Key
    requires |clients| >= 1
  {
    ClientKey(LastOf(clients).clientId)
  }

  function StoredRow(d: nat, clients: seq<Client>): Tier
    requires |clients| >= 1
  {
    map[CLIENT_KEY(clients) := Entry(Row(clients, |clients| - 1), Arrival(d, clients) + L2_TTL)]
  }

  lemma RowArrives(d: nat, clients: seq<Client>)
    requires Listed(clients)
    ensures Reachable(Env(d, clients), One(Arrival(d, clients), EMPTY_NODE, StoredRow(d, clients), [], []))
  {
    hide Reachable, Turn, AtTurn;
    var n := |clients| - 1;
    var node := TurnComes(d, clients, n);
    var node' := TurnFiled(d, clients, n, Turn(d, n), node);
    RowApplied(d, clients, Turn(d, n) + d + d, node');
  }

  lemma RowApplied(d: nat, clients: seq<Client>, now: Time, node: Node)
    requires |clients| >= 1 && now + d == Arrival(d, clients)
    requires Reachable(Env(d, clients), Filing(d, clients, |clients| - 1, now, node))
    ensures Reachable(Env(d, clients), One(now + d, EMPTY_NODE, StoredRow(d, clients), [], []))
  {
    hide Reachable, Row, Arrival, Rows;
    var c := Env(d, clients);
    var s := Filing(d, clients, |clients| - 1, now, node);
    var s1 := s.(now := now + d);
    var s2 := One(now + d, s.nodes[0], StoredRow(d, clients), [], []);
    Step(c, s, Tick(now + d), s1);
    assert WithoutWrite(s1, 0) == [];
    Step(c, s1, Applied(0), s2);
    Step(c, s2, Restart(0), One(now + d, EMPTY_NODE, StoredRow(d, clients), [], []));
  }
}
