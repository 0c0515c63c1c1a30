/**
 * The two-tier cache of one node: an in-process cache over a store shared by all nodes.
 *
 * The in-process cache is lossy: it has a size limit, so an insertion stores the new value or leaves no entry, and
 * entries may be evicted at any time. Calls to the shared store may fail; a failure is swallowed.
 */
module PolicyCacheModel {
  import opened Wrappers
  import opened Entities
  import opened Tiers
  import Text

  datatype CacheValue =
    | PolicyValue(policy: EndpointPolicy)
    | PermissionsValue(endpointIds: set<Guid>)
    | ClientValue(client: Client)
    | ProfileValue(profile: UserProfile)

  type Store = map<string, Entry<CacheValue>>

  // ---------- full cache keys ----------

  const POLICY_PREFIX := "policy:"
  const PERMISSION_PREFIX := "perm:"
  const CLIENT_PREFIX := "client:"
  const PROFILE_PREFIX := "user-profile:"

  datatype CacheKey =
    | ForPolicy(route: string)
    | ForPermissions(client: Guid)
    | ForClient(clientId: string)
    | ForProfile(userId: string, serviceId: Option<Guid>)

  function Scope(serviceId: Option<Guid>): string {
    if serviceId.Some? then serviceId.value else "global"
  }

  function Render(k: CacheKey): string {
    match k
    case ForPolicy(route) => POLICY_PREFIX + route
    case ForPermissions(client) => PERMISSION_PREFIX + client
    case ForClient(clientId) => CLIENT_PREFIX + clientId
    case ForProfile(userId, serviceId) => PROFILE_PREFIX + (userId + ":" + Scope(serviceId))
  }

  function Prefix(k: CacheKey): string {
    match k
    case ForPolicy(_) => POLICY_PREFIX
    case ForPermissions(_) => PERMISSION_PREFIX
    case ForClient(_) => CLIENT_PREFIX
    case ForProfile(_, _) => PROFILE_PREFIX
  }

  lemma PrefixStripped(p: string, a: string, b: string)
    requires p + a == p + b
    ensures a == b
  {
    assert a == (p + a)[|p|..] && b == (p + b)[|p|..];
  }

  /** The first letter tells policies, clients and profiles apart; the second, policies and permissions. */
  lemma PrefixesDisjoint(k: CacheKey, k': CacheKey)
    requires Render(k) == Render(k')
    ensures Prefix(k) == Prefix(k')
  {
    var r, r' := Render(k), Render(k');
    assert r[0] == Prefix(k)[0] && r[1] == Prefix(k)[1];
    assert r'[0] == Prefix(k')[0] && r'[1] == Prefix(k')[1];
  }

  /**
   * No operation on one entry touches another: distinct keys, of whatever kinds, are distinct texts. User ids may
   * contain colons; the scope after the last one cannot.
   */
  lemma RenderInjective(k: CacheKey, k': CacheKey)
    requires Render(k) == Render(k')
    ensures k == k'
  {
    PrefixesDisjoint(k, k');
    match k {
      case ForPolicy(route) => PrefixStripped(POLICY_PREFIX, route, k'.route);
      case ForPermissions(client) => PrefixStripped(PERMISSION_PREFIX, client, k'.client);
      case ForClient(clientId) => PrefixStripped(CLIENT_PREFIX, clientId, k'.clientId);
      case ForProfile(userId, serviceId) =>
        var a := userId + ":" + Scope(serviceId);
        var b := k'.userId + ":" + Scope(k'.serviceId);
        PrefixStripped(PROFILE_PREFIX, a, b);
        Text.SplitAtLast(userId, Scope(serviceId), k'.userId, Scope(k'.serviceId), ':');
    }
  }

  // ---------- the tiers as a value ----------

  datatype Tiered = Tiered(l1: Store, l2: Store)

  /**
   * One thing that happens to the tiers, with what chance decided: `up` the shared call's success, `kept` the insertion,
   * `missed` the shared keys that a failing `InvalidateAll` leaves.
   */
  datatype Op =
    | Get(key: string, now: nat, up: bool, kept: bool)
    | Set(key: string, value: CacheValue, now: nat, ttl: nat, up: bool, kept: bool)
    | Invalidate(key: string, up: bool)
    | InvalidateAll(missed: set<string>)
    | LoseL1(key: string)
    | LoseL2(key: string)

  function Lookup(t: Tiered, key: string, now: nat, up: bool): Option<CacheValue> {
    var hit := L1Get(t.l1, key, now);
    if hit.Some? then hit
    else if up then L2Get(t.l2, key, now)
    else None
  }

  function Insert(l1: Store, key: string, v: CacheValue, now: nat, kept: bool): Store {
    if kept then Put(l1, key, v, now, L1_TTL) else l1 - {key}
  }

  predicate Managed(key: string) {
    || Text.StartsWith(key, POLICY_PREFIX)
    || Text.StartsWith(key, PERMISSION_PREFIX)
    || Text.StartsWith(key, CLIENT_PREFIX)
    || Text.StartsWith(key, PROFILE_PREFIX)
  }

  function Left(l2: Store, missed: set<string>): Store {
    map k | k in l2 && (Managed(k) ==> k in missed) :: l2[k]
  }

  function Apply(t: Tiered, op: Op): Tiered {
    match op
    case Get(key, now, up, kept) =>
      if L1Get(t.l1, key, now).None? && up && L2Get(t.l2, key, now).Some?
      then t.(l1 := Insert(t.l1, key, t.l2[key].value, now, kept))
      else t
    case Set(key, v, now, ttl, up, kept) =>
      Tiered(Insert(t.l1, key, v, now, kept), if up then Put(t.l2, key, v, now, ttl) else t.l2)
    case Invalidate(key, up) => Tiered(t.l1 - {key}, if up then t.l2 - {key} else t.l2)
    case InvalidateAll(missed) => Tiered(map[], Left(t.l2, missed))
    case LoseL1(key) => t.(l1 := t.l1 - {key})
    case LoseL2(key) => t.(l2 := t.l2 - {key})
  }

  function ApplyAll(t: Tiered, ops: seq<Op>): Tiered {
    if ops == [] then t else Apply(ApplyAll(t, ops[..|ops| - 1]), ops[|ops| - 1])
  }

  // ---------- the map it refines ----------

  /** The value last set under a key and not invalidated since. */
  function LastSet(ops: seq<Op>, key: string): Option<CacheValue> {
    if ops == [] then None
    else
      match ops[|ops| - 1]
      case Set(k, v, _, _, _, _) => if k == key then Some(v) else LastSet(ops[..|ops| - 1], key)
      case Invalidate(k, _) => if k == key then None else LastSet(ops[..|ops| - 1], key)
      case InvalidateAll(_) => None
      case _ => LastSet(ops[..|ops| - 1], key)
  }

  /** The clock of the calls, which alone is read. */
  function TimeOf(op: Op, before: nat): nat {
    if op.Get? || op.Set? then op.now else before
  }

  function EndTime(ops: seq<Op>): nat {
    if ops == [] then 0 else TimeOf(ops[|ops| - 1], EndTime(ops[..|ops| - 1]))
  }

  /** The clock does not run backwards. */
  ghost predicate InOrder(ops: seq<Op>) {
    forall i :: 0 <= i < |ops| ==> EndTime(ops[..i]) <= TimeOf(ops[i], EndTime(ops[..i]))
  }

  function After(ops: seq<Op>): Tiered {
    ApplyAll(Tiered(map[], map[]), ops)
  }

  /** What is still live under a key, in either tier, is the given value. */
  ghost predicate Holds(t: Tiered, key: string, v: Option<CacheValue>, now: nat) {
    L1Get(t.l1, key, now) in {None, v} && L2Get(t.l2, key, now) in {None, v}
  }

  /**
   * Of one key: a call that reaches the store, or that the store may as well miss, being a write of the value it still
   * has, or a write or an invalidation where it has nothing live.
   */
  predicate HarmlessFor(t: Tiered, op: Op, before: nat, key: string) {
    match op
    case Set(k, v, now, _, up, _) => k == key && !up ==> L2Get(t.l2, key, now) in {None, Some(v)}
    case Invalidate(k, up) => k == key && !up ==> L2Get(t.l2, key, before) == None
    case InvalidateAll(missed) => key in missed ==> L2Get(t.l2, key, before) == None
    case _ => true
  }

  ghost predicate Harmless(t: Tiered, op: Op, before: nat) {
    forall key :: Managed(key) ==> HarmlessFor(t, op, before, key)
  }

  ghost predicate HarmlessAt(ops: seq<Op>, i: nat)
    requires i < |ops|
  {
    Harmless(After(ops[..i]), ops[i], EndTime(ops[..i]))
  }

  lemma StepHolds(t: Tiered, op: Op, before: nat, key: string, v: Option<CacheValue>, v': Option<CacheValue>)
    requires Managed(key) && Holds(t, key, v, before) && before <= TimeOf(op, before) && Harmless(t, op, before)
    requires v' == match op
      case Set(k, x, _, _, _, _) => if k == key then Some(x) else v
      case Invalidate(k, _) => if k == key then None else v
      case InvalidateAll(_) => None
      case _ => v
    ensures Holds(Apply(t, op), key, v', TimeOf(op, before))
  {
    hide Managed;
  }

  lemma {:induction false} TiersHoldLastSet(ops: seq<Op>, key: string)
    requires InOrder(ops) && Managed(key)
    requires forall i :: 0 <= i < |ops| ==> HarmlessAt(ops, i)
    ensures Holds(After(ops), key, LastSet(ops, key), EndTime(ops))
  {
    hide Managed, Holds, Harmless, Apply;
    if ops != [] {
      var before, n := ops[..|ops| - 1], |ops| - 1;
      assert forall i :: 0 <= i < n ==> before[..i] == ops[..i];
      assert forall i :: 0 <= i < n ==> HarmlessAt(ops, i) ==> HarmlessAt(before, i);
      TiersHoldLastSet(before, key);
      assert HarmlessAt(ops, n);
      StepHolds(After(before), ops[n], EndTime(before), key, LastSet(before, key), LastSet(ops, key));
    } else {
      EmptyHolds(key);
    }
  }

  lemma EmptyHolds(key: string)
    ensures Holds(Tiered(map[], map[]), key, None, 0)
  {
  }

  /**
   * With no call missed that matters, the two tiers are a lossy map: over any sequence of calls, evictions and
   * expiries, a lookup gives the value last set since the last invalidation, or nothing.
   */
  lemma RefinesLossyMap(ops: seq<Op>, key: string, now: nat, up: bool)
    requires InOrder(ops) && EndTime(ops) <= now && Managed(key)
    requires forall i :: 0 <= i < |ops| ==> HarmlessAt(ops, i)
    ensures var r := Lookup(After(ops), key, now, up);
      r == None || r == LastSet(ops, key)
  {
    TiersHoldLastSet(ops, key);
  }

  /** With the own entry evicted or not, a lookup gives the value last set, or nothing. */
  predicate ServedFor(ops: seq<Op>, key: string, evicted: bool, now: nat, up: bool) {
    var t := if evicted then Apply(After(ops), LoseL1(key)) else After(ops);
    Lookup(t, key, now, up) in {None, LastSet(ops, key)}
  }

  ghost predicate Served(ops: seq<Op>) {
    forall key: string, evicted: bool, now: nat, up: bool ::
      (Managed(key) && EndTime(ops) <= now) ==> ServedFor(ops, key, evicted, now, up)
  }

  /**
   * A history serves the last value set, or nothing, at every point of it, exactly when none of its missed calls left
   * another live value in the store: one that did leaves it to be served as soon as the own entry is evicted.
   */
  lemma MissedWritesHarmlessIff(ops: seq<Op>)
    requires InOrder(ops)
    ensures (forall i :: 0 <= i < |ops| ==> HarmlessAt(ops, i)) <==> (forall n :: 0 <= n <= |ops| ==> Served(ops[..n]))
  {
    if forall i :: 0 <= i < |ops| ==> HarmlessAt(ops, i) {
      forall n | 0 <= n <= |ops| ensures Served(ops[..n]) {
        ServesLast(ops, n);
      }
    }
    if forall n :: 0 <= n <= |ops| ==> Served(ops[..n]) {
      forall i | 0 <= i < |ops| ensures HarmlessAt(ops, i) {
        if !HarmlessAt(ops, i) {
          HarmShows(ops, i);
        }
      }
    }
  }

  /** A harmful history: a write that is missed after one that was not, and the own entry evicted. */
  function MissedHistory(key: string, v: CacheValue, w: CacheValue): seq<Op> {
    [Set(key, v, 0, L2_TTL, true, true), Set(key, w, 0, L2_TTL, false, true), LoseL1(key)]
  }

  /** The older value is then what a lookup finds. */
  lemma MissedHistoryHarms(key: string, v: CacheValue, w: CacheValue)
    requires Managed(key) && v != w
    ensures InOrder(MissedHistory(key, v, w)) && LastSet(MissedHistory(key, v, w), key) == Some(w)
    ensures Lookup(After(MissedHistory(key, v, w)), key, 0, true) == Some(v)
    ensures !HarmlessAt(MissedHistory(key, v, w), 1)
  {
    hide Managed;
    var ops := MissedHistory(key, v, w);
    assert ops[..2][..1] == ops[..1] && ops[..1][..0] == [] && ops[..0] == [];
    assert ops[..2][1] == ops[1] && ops[..1][0] == ops[0];
    assert After([]) == Tiered(map[], map[]);
    assert After(ops[..1]) == Apply(Tiered(map[], map[]), ops[0]);
    assert After(ops[..2]) == Apply(After(ops[..1]), ops[1]);
    assert After(ops) == Apply(After(ops[..2]), ops[2]);
    assert LastSet(ops[..2], key) == Some(w);
    assert !HarmlessFor(After(ops[..1]), ops[1], 0, key);
  }

  lemma ServesLast(ops: seq<Op>, n: nat)
    requires InOrder(ops) && n <= |ops|
    requires forall i :: 0 <= i < |ops| ==> HarmlessAt(ops, i)
    ensures Served(ops[..n])
  {
    var head := ops[..n];
    assert forall i :: 0 <= i < n ==> head[..i] == ops[..i];
    assert forall i :: 0 <= i < n ==> HarmlessAt(ops, i) ==> HarmlessAt(head, i);
    hide HarmlessAt, Managed;
    forall key: string, evicted: bool, now: nat, up: bool | Managed(key) && EndTime(head) <= now
      ensures ServedFor(head, key, evicted, now, up)
    {
      TiersHoldLastSet(head, key);
    }
  }

  /** After a harmful miss the store's other value is what a lookup finds. */
  lemma HarmShows(ops: seq<Op>, i: nat)
    requires InOrder(ops) && i < |ops| && !HarmlessAt(ops, i)
    ensures !Served(ops[..i + 1])
  {
    var t, op, before := After(ops[..i]), ops[i], EndTime(ops[..i]);
    var head := ops[..i + 1];
    assert head[..i] == ops[..i];
    hide Managed;
    var key :| Managed(key) && !HarmlessFor(t, op, before, key);
    assert !ServedFor(head, key, true, EndTime(head), true);
  }

  /** An operation on one key leaves what is found under every other key as it was. */
  lemma OtherKeysUntouched(t: Tiered, op: Op, other: CacheKey, own: CacheKey, now: nat, up: bool)
    requires other != own
    requires match op
      case Get(key, _, _, _) => key == Render(own)
      case Set(key, _, _, _, _, _) => key == Render(own)
      case Invalidate(key, _) => key == Render(own)
      case LoseL1(key) => key == Render(own)
      case LoseL2(key) => key == Render(own)
      case InvalidateAll(_) => false
    ensures Lookup(Apply(t, op), Render(other), now, up) == Lookup(t, Render(other), now, up)
  {
    if Render(other) == Render(own) {
      RenderInjective(other, own);
    }
  }

  // ---------- the objects ----------

  /**
   * A value filed under a key: in the own cache for an hour, or the key gone from it when the insertion is dropped; in
   * the store for the lifetime given, if it answers; and nothing else changed.
   */
  ghost predicate FiledUnder(before: Tiered, after: Tiered, key: string, v: CacheValue, now: nat, ttl: nat, up: bool,
                             kept: bool) {
    && after.l1 == (if kept then before.l1[key := Entry(v, now + 3_600_000)] else before.l1 - {key})
    && after.l2 == (if up then before.l2[key := Entry(v, now + ttl)] else before.l2)
  }

  /** The store every node shares. */
  class SharedStore {
    var store: Store

    constructor ()
      ensures store == map[]
    {
      store := map[];
    }
  }

  /** What deletion by prefixes leaves, and what it leaves when nothing managed is left. */
  lemma LeftIs(before: Store, after: Store)
    requires forall k :: k in after ==> k in before && after[k] == before[k]
    requires forall k :: k in before && k !in after ==> Managed(k)
    ensures after == Left(before, after.Keys)
    ensures (forall k :: k in after ==> !Managed(k)) ==> after == Left(before, {})
  {
    hide Managed;
  }

  lemma PrefixesManaged(rest: string)
    ensures Managed("policy:" + rest) && Managed("perm:" + rest)
    ensures Managed("client:" + rest) && Managed("user-profile:" + rest)
  {
    assert ("policy:" + rest)[..7] == "policy:" && ("perm:" + rest)[..5] == "perm:";
    assert ("client:" + rest)[..7] == "client:" && ("user-profile:" + rest)[..13] == "user-profile:";
  }

  class PolicyCache {
    var memory: Store
    const redis: SharedStore

    constructor (redis: SharedStore)
      ensures memory == map[] && this.redis == redis
    {
      memory := map[];
      this.redis := redis;
    }

    function State(): Tiered
      reads this, redis
    {
      Tiered(memory, redis.store)
    }

    /** The common part of the four `Get…Async`: own cache, then shared store, copying a hit inwards. */
    method GetEntry(key: string, now: nat, up: bool, kept: bool) returns (r: Option<CacheValue>)
      modifies this`memory
      ensures r == Lookup(old(State()), key, now, up)
      ensures State() == Apply(old(State()), Get(key, now, up, kept))
      ensures r == if key in old(memory) && now < old(memory)[key].expiresAt then Some(old(memory)[key].value)
                   else if up && key in redis.store && now <= redis.store[key].expiresAt then Some(redis.store[key].value)
                   else None
      ensures memory == if r == None || (key in old(memory) && now < old(memory)[key].expiresAt) then old(memory)
                        else if kept then old(memory)[key := Entry(r.value, now + 3_600_000)] else old(memory) - {key}
    {
      r := L1Get(memory, key, now);
      if r.None? && up {
        r := L2Get(redis.store, key, now);
        if r.Some? {
          memory := Insert(memory, key, r.value, now, kept);
        }
      }
    }

    /** The common part of the four `Set…Async`. */
    method SetEntry(key: string, v: CacheValue, now: nat, ttl: nat, up: bool, kept: bool)
      modifies this`memory, redis
      ensures State() == Apply(old(State()), Set(key, v, now, ttl, up, kept))
      ensures FiledUnder(old(State()), State(), key, v, now, ttl, up, kept)
    {
      memory := Insert(memory, key, v, now, kept);
      if up {
        redis.store := Put(redis.store, key, v, now, ttl);
      }
    }

    method GetPolicy(route: string, now: nat, up: bool, kept: bool) returns (r: Option<EndpointPolicy>)
      modifies this`memory
      ensures var found := Lookup(old(State()), Render(ForPolicy(route)), now, up);
        r == if found.Some? && found.value.PolicyValue? then Some(found.value.policy) else None
      ensures State() == Apply(old(State()), Get(Render(ForPolicy(route)), now, up, kept))
    {
      var found := GetEntry(Render(ForPolicy(route)), now, up, kept);
      r := if found.Some? && found.value.PolicyValue? then Some(found.value.policy) else None;
    }

    method SetPolicy(route: string, policy: EndpointPolicy, now: nat, ttl: nat, up: bool, kept: bool)
      modifies this`memory, redis
      ensures State() == Apply(old(State()), Set(Render(ForPolicy(route)), PolicyValue(policy), now, ttl, up, kept))
      ensures FiledUnder(old(State()), State(), "policy:" + route, PolicyValue(policy), now, ttl, up, kept)
    {
      SetEntry(Render(ForPolicy(route)), PolicyValue(policy), now, ttl, up, kept);
    }

    method GetClient(clientId: string, now: nat, up: bool, kept: bool) returns (r: Option<Client>)
      modifies this`memory
      ensures var found := Lookup(old(State()), Render(ForClient(clientId)), now, up);
        r == if found.Some? && found.value.ClientValue? then Some(found.value.client) else None
      ensures State() == Apply(old(State()), Get(Render(ForClient(clientId)), now, up, kept))
    {
      var found := GetEntry(Render(ForClient(clientId)), now, up, kept);
      r := if found.Some? && found.value.ClientValue? then Some(found.value.client) else None;
    }

    method SetClient(clientId: string, client: Client, now: nat, ttl: nat, up: bool, kept: bool)
      modifies this`memory, redis
      ensures State() == Apply(old(State()), Set(Render(ForClient(clientId)), ClientValue(client), now, ttl, up, kept))
      ensures FiledUnder(old(State()), State(), "client:" + clientId, ClientValue(client), now, ttl, up, kept)
    {
      SetEntry(Render(ForClient(clientId)), ClientValue(client), now, ttl, up, kept);
    }

    method GetPermissions(client: Guid, now: nat, up: bool, kept: bool) returns (r: Option<set<Guid>>)
      modifies this`memory
      ensures var found := Lookup(old(State()), Render(ForPermissions(client)), now, up);
        r == if found.Some? && found.value.PermissionsValue? then Some(found.value.endpointIds) else None
      ensures State() == Apply(old(State()), Get(Render(ForPermissions(client)), now, up, kept))
    {
      var found := GetEntry(Render(ForPermissions(client)), now, up, kept);
      r := if found.Some? && found.value.PermissionsValue? then Some(found.value.endpointIds) else None;
    }

    method SetPermissions(client: Guid, endpointIds: set<Guid>, now: nat, ttl: nat, up: bool, kept: bool)
      modifies this`memory, redis
      ensures State()
        == Apply(old(State()), Set(Render(ForPermissions(client)), PermissionsValue(endpointIds), now, ttl, up, kept))
      ensures FiledUnder(old(State()), State(), "perm:" + client, PermissionsValue(endpointIds), now, ttl, up, kept)
    {
      SetEntry(Render(ForPermissions(client)), PermissionsValue(endpointIds), now, ttl, up, kept);
    }

    method GetProfile(userId: string, serviceId: Option<Guid>, now: nat, up: bool, kept: bool)
      returns (r: Option<UserProfile>)
      modifies this`memory
      ensures var found := Lookup(old(State()), Render(ForProfile(userId, serviceId)), now, up);
        r == if found.Some? && found.value.ProfileValue? then Some(found.value.profile) else None
      ensures State() == Apply(old(State()), Get(Render(ForProfile(userId, serviceId)), now, up, kept))
    {
      var found := GetEntry(Render(ForProfile(userId, serviceId)), now, up, kept);
      r := if found.Some? && found.value.ProfileValue? then Some(found.value.profile) else None;
    }

    method SetProfile(userId: string, serviceId: Option<Guid>, profile: UserProfile, now: nat, ttl: nat, up: bool,
                      kept: bool)
      modifies this`memory, redis
      ensures State()
        == Apply(old(State()), Set(Render(ForProfile(userId, serviceId)), ProfileValue(profile), now, ttl, up, kept))
      ensures var scope := if serviceId.Some? then serviceId.value else "global";
        FiledUnder(old(State()), State(), "user-profile:" + (userId + ":" + scope), ProfileValue(profile), now, ttl, up, kept)
    {
      SetEntry(Render(ForProfile(userId, serviceId)), ProfileValue(profile), now, ttl, up, kept);
    }

    /** `InvalidateAsync` takes a full cache key. */
    method InvalidateEntry(key: string, up: bool)
      modifies this`memory, redis
      ensures State() == Apply(old(State()), Invalidate(key, up))
      ensures memory == old(memory) - {key} && redis.store == if up then old(redis.store) - {key} else old(redis.store)
    {
      memory := memory - {key};
      if up {
        redis.store := redis.store - {key};
      }
    }

    /** Delete, one by one, the shared keys under a prefix; stop when the budget of successful calls is used up. */
    method DeletePrefix(prefix: string, budget: nat) returns (left: nat, failed: bool)
      modifies redis
      ensures failed ==> left == 0
      ensures redis.store.Keys <= old(redis.store).Keys
      ensures forall k :: k in redis.store ==> redis.store[k] == old(redis.store)[k]
      ensures forall k :: k in old(redis.store) && k !in redis.store ==> Text.StartsWith(k, prefix)
      ensures !failed ==> forall k :: k in redis.store ==> !Text.StartsWith(k, prefix)
      ensures |old(redis.store)| <= budget ==> !failed && |redis.store| <= left
    {
      left, failed := budget, false;
      var keys := set k | k in redis.store && Text.StartsWith(k, prefix);
      while keys != {} && !failed
        invariant failed ==> left == 0
        invariant keys <= redis.store.Keys
        invariant forall k :: k in keys ==> Text.StartsWith(k, prefix)
        invariant redis.store.Keys <= old(redis.store).Keys
        invariant forall k :: k in redis.store ==> redis.store[k] == old(redis.store)[k]
        invariant forall k :: k in old(redis.store) && k !in redis.store ==> Text.StartsWith(k, prefix)
        invariant forall k :: k in redis.store && Text.StartsWith(k, prefix) ==> k in keys
        invariant |old(redis.store)| <= budget ==> !failed && |redis.store| <= left
        decreases |keys|, !failed
      {
        if left == 0 {
          assert |redis.store| > 0 by { var k :| k in keys; assert k in redis.store; }
          failed := true;
        } else {
          var key :| key in keys;
          assert |redis.store - {key}| == |redis.store| - 1 by {
            assert redis.store == (redis.store - {key})[key := redis.store[key]];
          }
          redis.store := redis.store - {key};
          keys := keys - {key};
          left := left - 1;
        }
      }
    }

    /**
     * `InvalidateAllAsync`: the own cache is emptied; the shared keys go prefix by prefix until a call fails, which
     * ends the whole loop. A call budget of at least the store's size is a run without failure.
     */
    method InvalidateEverything(budget: nat)
      modifies this`memory, redis
      ensures memory == map[]
      ensures redis.store.Keys <= old(redis.store).Keys
      ensures forall k :: k in redis.store ==> redis.store[k] == old(redis.store)[k]
      ensures forall k :: k in old(redis.store) && !Managed(k) ==> k in redis.store
      ensures State() == Apply(old(State()), InvalidateAll(redis.store.Keys))
      ensures |old(redis.store)| <= budget ==> State() == Apply(old(State()), InvalidateAll({}))
      ensures |old(redis.store)| <= budget ==> forall rest: string ::
        && "policy:" + rest !in redis.store && "perm:" + rest !in redis.store
        && "client:" + rest !in redis.store && "user-profile:" + rest !in redis.store
    {
      hide Text.StartsWith;
      memory := map[];
      ghost var before := redis.store;
      var left, failed := DeletePrefix(POLICY_PREFIX, budget);
      if !failed {
        left, failed := DeletePrefix(PERMISSION_PREFIX, left);
        if !failed {
          left, failed := DeletePrefix(CLIENT_PREFIX, left);
          if !failed {
            left, failed := DeletePrefix(PROFILE_PREFIX, left);
          }
        }
      }
      LeftIs(before, redis.store);
      if |before| <= budget {
        forall rest: string
          ensures "policy:" + rest !in redis.store && "perm:" + rest !in redis.store
          ensures "client:" + rest !in redis.store && "user-profile:" + rest !in redis.store
        {
          PrefixesManaged(rest);
        }
      }
    }
  }
}
