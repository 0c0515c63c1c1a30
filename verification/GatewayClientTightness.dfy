/**
 * The freshness bound of clients is the best there is: for every longest await and every list of clients, some run
 * attains it.
 *
 * One node. The clients are enabled only at instant 0, when the permission refresh lists them; the list takes one
 * whole await to return, and each client's permission read and two writes one each. The last client's row arrives in
 * the shared store as late as it can and stays for its lifetime; a request reads it there at the last instant, and that
 * answer takes an await; the node keeps it for its own lifetime; and a request that finds it there one instant before
 * the end waits three times for its permissions before it is admitted.
 */
module GatewayClientTightness {
  import opened Entities
  import opened Tiers
  import opened GatewayProtocol
  import opened GatewayRuns
  import opened GatewayClientWarmUp
  import opened GatewayClientRequests

  // ---------- the bound is attained ----------

  /** Admitted as a client that was enabled at one instant only, and that instant is so long ago, less one instant. */
  ghost predicate OldestAdmission(ago: nat, clients: seq<Client>, o: Outcome)
    requires |clients| >= 1
  {
    && o.Admitted? && o.client.value == LastOf(clients)
    && o.client.value.isEnabled
    && forall u: Time :: (o.client.value in Db(clients, u).clients) == (o.at + 1 == u + ago)
  }

  ghost predicate Attained(c: Config, ago: nat, clients: seq<Client>)
    requires |clients| >= 1
  {
    exists states: seq<State>, events: seq<Event>, o: Outcome ::
      Run(c, states, events) && o in states[|events|].log && OldestAdmission(ago, clients, o)
  }

  function Bound(d: nat, n: nat): nat {
    7_200_000 + (3 * n + 5) * d
  }

  /**
   * For every longest await and every list of clients there is a run that admits a request by a client row exactly both
   * lifetimes and 3n + 5 waits, less one instant, after the only instant the client was enabled: the bound cannot be
   * lowered, and it does grow with the number n of clients.
   */
  lemma ClientBoundAttained(d: nat, clients: seq<Client>)
    requires Listed(clients)
    ensures Attained(Env(d, clients), Bound(d, |clients|), clients)
  {
    hide Reachable, Bare, WithRow, StoredRow, Turn, Db, Run, Ready, OldestAdmission, Bound, Attained;
    var c, t, l2 := Env(d, clients), LastServed(d, clients), StoredRow(d, clients);
    RowArrives(d, clients);
    Pass(c, EMPTY_NODE, l2, [], Arrival(d, clients), t);
    IsRegistered(d, clients, t);
    Refreshed(c, l2, t);
    var log := FirstRequest(d, clients);
    var now: Time := t + d + L1_TTL - 1;
    RowIdle(d, clients);
    Pass(c, WithRow(d, clients), l2, log, t + d, now);
    Evicted(d, clients, now, log);
    SecondRequest(d, clients, now, log);
    var s: State, o: Outcome :| Shows(c, s, o, now + d + d + d, ClientOf(clients));
    OldestByThen(d, clients, o, now);
    RunTo(c, Bound(d, |clients|), clients, s, o);
  }

  lemma RunTo(c: Config, ago: nat, clients: seq<Client>, s: State, o: Outcome)
    requires |clients| >= 1 && Reachable(c, s) && o in s.log && OldestAdmission(ago, clients, o)
    ensures Attained(c, ago, clients)
  {
    hide OldestAdmission, Next, Init;
    var states: seq<State>, events: seq<Event> :| Reaches(c, states, events, s);
    assert Run(c, states, events) && o in states[|events|].log;
  }

  lemma OldestByThen(d: nat, clients: seq<Client>, o: Outcome, now: Time)
    requires Listed(clients) && now + 1 == LastServed(d, clients) + d + L1_TTL
    requires o.Admitted? && o.at == now + d + d + d && o.client.value == LastOf(clients)
    ensures OldestAdmission(Bound(d, |clients|), clients, o)
  {
    BoundIs(d, |clients|);
    hide Bound;
    assert o.at + 1 == Bound(d, |clients|);
    forall u: Time
      ensures (o.client.value in Db(clients, u).clients) == (o.at + 1 == u + Bound(d, |clients|))
    {
    }
  }

  lemma BoundIs(d: nat, n: nat)
    requires n >= 1
    ensures Bound(d, n) == Turn(d, n - 1) + d + d + d + L2_TTL + d + L1_TTL + d + d + d
  {
    TurnIs(d, n - 1);
    assert (3 * n + 5) * d == (3 * (n - 1) + 1) * d + 7 * d;
  }

  /** For one thing, with a single client: eight awaits. */
  lemma OneClientBoundAttained(d: nat)
    ensures Attained(Env(d, [ONLY_CLIENT]), 7_200_000 + 8 * d, [ONLY_CLIENT])
  {
    ClientBoundAttained(d, [ONLY_CLIENT]);
  }

  const ONLY_CLIENT := Client(SOME_ID, "client", true)
}
