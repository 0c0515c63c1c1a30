/** Header values with placeholders, and the headers a proxied request ends up with. */
module HeaderTransformModel {
  import opened Wrappers
  import opened Substitution

  // ---------- the header values ----------

  datatype Caller = Caller(clientIdClaim: Option<string>, subClaim: Option<string>, traceId: string, timestamp: string)

  function OrUnknown(o: Option<string>): string {
    if o.Some? then o.value else "unknown"
  }

  const NAMES := ["ClientId", "UserId", "CorrelationId", "Timestamp"]

  function Placeholders(c: Caller): seq<Placeholder> {
    Paired(NAMES, [OrUnknown(c.clientIdClaim), OrUnknown(c.subClaim), c.traceId, c.timestamp])
  }

  lemma NamesNamed()
    ensures Named(NAMES)
  {
    assert |NAMES[0]| == 8 && |NAMES[1]| == 6 && |NAMES[2]| == 13 && |NAMES[3]| == 9;
  }

  /** An unsafe template, and a user id for which the two differ: a client id placeholder begun by "{". */
  lemma UnsafeTemplate()
    ensures !Safe("{{ClientId}", NAMES) && !Agrees(NAMES, "{{ClientId}")
  {
    NamesNamed();
    var template := "{{ClientId}";
    assert template[0..] == template == "{" + NAMES[1][..0] + Braced(NAMES[0]);
    assert PrimedAt(template, 0, NAMES[0], NAMES[1], 0);
    assert !SafeFor(template, NAMES[0], NAMES[1]);
    TemplateSafeIff(NAMES, template);
  }

  /** A trace id is harmless unless it holds, or ends in the beginning of, a timestamp placeholder; a timestamp always. */
  lemma LateValuesHarmless(v: string)
    ensures Harmless(NAMES, 2, v) <==> Inert(v, "{Timestamp}")
    ensures Harmless(NAMES, 3, v)
  {
    NamesNamed();
    HarmlessIff(NAMES, 2, v);
    HarmlessIff(NAMES, 3, v);
    assert "{" + NAMES[3] + "}" == "{Timestamp}";
  }

  lemma {:induction false} BracelessUnchanged(s: string, ps: seq<Placeholder>)
    requires '{' !in s
    ensures Sequential(s, ps) == s
  {
    if ps != [] {
      BracelessUnchanged(s, ps[..|ps| - 1]);
      BracelessIsInert(s, ps[|ps| - 1]);
      ReplacePasses(s, "", ps[|ps| - 1]);
      assert s + "" == s;
    }
  }

  /** Between texts without an opening brace, the placeholder gives way to its filling. */
  ghost predicate Fills(template: string, value: string, placeholder: string, filling: string) {
    forall a, b :: template == a + placeholder + b && '{' !in a && '{' !in b && '{' !in filling ==> value == a + filling + b
  }

  /** Each placeholder with the caller's own value; a claim that is absent is "unknown". */
  ghost predicate FilledFor(template: string, value: string, c: Caller) {
    && Fills(template, value, "{ClientId}", if c.clientIdClaim.Some? then c.clientIdClaim.value else "unknown")
    && Fills(template, value, "{UserId}", if c.subClaim.Some? then c.subClaim.value else "unknown")
    && Fills(template, value, "{CorrelationId}", c.traceId)
    && Fills(template, value, "{Timestamp}", c.timestamp)
    && ('{' !in template ==> value == template)
  }

  lemma PlaceholderFills(template: string, c: Caller, k: nat, placeholder: string, filling: string)
    requires k < 4 && Pattern(Placeholders(c)[k]) == placeholder && Placeholders(c)[k].value == filling
    ensures Fills(template, Sequential(template, Placeholders(c)), placeholder, filling)
  {
    var ps := Placeholders(c);
    NamesNamed();
    assert NamesOf(ps) == NAMES;
    hide Placeholders, Sequential, Pattern;
    forall a, b | template == a + placeholder + b && '{' !in a && '{' !in b && '{' !in filling
      ensures Sequential(template, ps) == a + filling + b
    {
      OneFilled(a, b, ps, k);
    }
  }

  lemma PlaceholdersAre(c: Caller)
    ensures var ps := Placeholders(c);
      && |ps| == 4
      && Pattern(ps[0]) == "{ClientId}" && Pattern(ps[1]) == "{UserId}"
      && Pattern(ps[2]) == "{CorrelationId}" && Pattern(ps[3]) == "{Timestamp}"
      && ps[0].value == (if c.clientIdClaim.Some? then c.clientIdClaim.value else "unknown")
      && ps[1].value == (if c.subClaim.Some? then c.subClaim.value else "unknown")
      && ps[2].value == c.traceId && ps[3].value == c.timestamp
  {
  }

  lemma AllFilled(template: string, c: Caller)
    ensures FilledFor(template, Sequential(template, Placeholders(c)), c)
  {
    PlaceholdersAre(c);
    hide Placeholders, Pattern, Fills, Sequential;
    PlaceholderFills(template, c, 0, "{ClientId}", if c.clientIdClaim.Some? then c.clientIdClaim.value else "unknown");
    PlaceholderFills(template, c, 1, "{UserId}", if c.subClaim.Some? then c.subClaim.value else "unknown");
    PlaceholderFills(template, c, 2, "{CorrelationId}", c.traceId);
    PlaceholderFills(template, c, 3, "{Timestamp}", c.timestamp);
    if '{' !in template {
      BracelessUnchanged(template, Placeholders(c));
    }
  }

  method ResolveHeaderValue(template: string, c: Caller) returns (value: string)
    ensures value == Sequential(template, Placeholders(c))
    ensures Safe(template, NAMES) && Settled(Placeholders(c)) ==> value == Simultaneous(template, Placeholders(c))
    ensures FilledFor(template, value, c)
  {
    AllFilled(template, c);
    hide FilledFor;
    var ps := Placeholders(c);
    NamesNamed();
    assert forall p :: p in ps ==> Plain(p);
    assert NamesOf(ps) == NAMES;
    hide Placeholders, Replace, Simultaneous, Safe, Pattern, Settled, FilledFor;
    if Safe(template, NAMES) && Settled(ps) {
      SequentialIsSimultaneous(template, ps);
    }
    if template == "" || '{' !in template {
      BracelessUnchanged(template, ps);
      return template;
    }
    value := template;
    for i := 0 to |ps|
      invariant value == Sequential(template, ps[..i])
    {
      assert ps[..i + 1][..i] == ps[..i];
      value := Replace(value, Pattern(ps[i]), ps[i].value);
    }
    assert ps[..|ps|] == ps;
  }

  // ---------- the headers of the proxied request ----------

  /** Values by lower-cased header name, in the order they were added. */
  type Headers = map<string, seq<string>>
  datatype Header = Header(name: string, value: string)

  function ToLowerChar(ch: char): char {
    if 'A' <= ch <= 'Z' then ch - 'A' + 'a' else ch
  }

  function ToLower(s: string): string {
    seq(|s|, i requires 0 <= i < |s| => ToLowerChar(s[i]))
  }

  function ValuesOf(h: Headers, name: string): seq<string> {
    if ToLower(name) in h then h[ToLower(name)] else []
  }

  /** `TryAddWithoutValidation`: a refused name is ignored, an accepted one gets one more value. */
  function TryAdd(h: Headers, accepts: string -> bool, x: Header): Headers {
    if accepts(x.name) then h[ToLower(x.name) := ValuesOf(h, x.name) + [x.value]] else h
  }

  /** The values a list of additions gives to a name, in order. */
  function Additions(xs: seq<Header>, accepts: string -> bool, name: string): seq<string> {
    if xs == [] then []
    else
      Additions(xs[..|xs| - 1], accepts, name) + Addition(xs[|xs| - 1], accepts, name)
  }

  predicate Removed(names: seq<string>, name: string) {
    if names == [] then false
    else ToLower(names[|names| - 1]) == ToLower(name) || Removed(names[..|names| - 1], name)
  }

  /** How many of the names come before the first the collection refuses; all of them when it refuses none. */
  function Accepted(names: seq<string>, accepts: string -> bool): (n: nat)
    ensures n <= |names| && forall i :: 0 <= i < n ==> accepts(names[i])
    ensures n < |names| ==> !accepts(names[n])
  {
    if names == [] || !accepts(names[0]) then 0 else 1 + Accepted(names[1..], accepts)
  }

  /** Whether a header is removed: some removed name is its own, up to case. */
  lemma {:induction false} RemovedIff(names: seq<string>, name: string)
    ensures Removed(names, name) <==> exists x :: x in names && ToLower(x) == ToLower(name)
    decreases |names|
  {
    if names != [] {
      var before, last := names[..|names| - 1], names[|names| - 1];
      assert names == before + [last];
      RemovedIff(before, name);
    }
  }

  lemma NothingRemoved()
    ensures forall name :: !Removed([], name)
  {
  }

  /** What one addition gives to a name: its value, if accepted and the name is its own. */
  function Addition(x: Header, accepts: string -> bool, name: string): seq<string> {
    if accepts(x.name) && ToLower(x.name) == ToLower(name) then [x.value] else []
  }

  lemma TryAddValues(h: Headers, accepts: string -> bool, x: Header, name: string)
    ensures ValuesOf(TryAdd(h, accepts, x), name) == ValuesOf(h, name) + Addition(x, accepts, name)
  {
    hide ToLower;
  }

  lemma NoAdditions(accepts: string -> bool)
    ensures forall name :: Additions([], accepts, name) == []
  {
  }

  lemma AdditionsExtended(xs: seq<Header>, i: nat, accepts: string -> bool, name: string)
    requires i < |xs|
    ensures Additions(xs[..i + 1], accepts, name) == Additions(xs[..i], accepts, name) + Addition(xs[i], accepts, name)
  {
    hide ToLower;
    assert xs[..i + 1][..i] == xs[..i];
  }

  method AddHeaders(original: Headers, accepts: string -> bool, additions: seq<Header>) returns (h: Headers)
    ensures forall name :: ValuesOf(h, name) == ValuesOf(original, name) + Additions(additions, accepts, name)
  {
    hide ToLower, ValuesOf, TryAdd, Additions, Addition;
    h := original;
    assert forall name :: Additions(additions[..0], accepts, name) == [] by {
      NoAdditions(accepts);
      assert additions[..0] == [];
    }
    for i := 0 to |additions|
      invariant forall name :: ValuesOf(h, name) == ValuesOf(original, name) + Additions(additions[..i], accepts, name)
    {
      ghost var before := h;
      h := TryAdd(h, accepts, additions[i]);
      forall name ensures ValuesOf(h, name) == ValuesOf(original, name) + Additions(additions[..i + 1], accepts, name) {
        TryAddValues(before, accepts, additions[i], name);
        AdditionsExtended(additions, i, accepts, name);
      }
    }
    assert additions[..|additions|] == additions;
  }

  /** `Remove` throws for a name the collection refuses, which leaves the later names in place. */
  method RemoveHeaders(original: Headers, accepts: string -> bool, removals: seq<string>) returns (h: Headers, ok: bool)
    ensures ok <==> forall x :: x in removals ==> accepts(x)
    ensures var reached := removals[..Accepted(removals, accepts)];
      forall name :: ValuesOf(h, name) == (if Removed(reached, name) then [] else ValuesOf(original, name))
  {
    hide ToLower;
    h := original;
    var n := Accepted(removals, accepts);
    for i := 0 to n
      invariant forall name ::
        ValuesOf(h, name) == (if Removed(removals[..i], name) then [] else ValuesOf(original, name))
    {
      assert removals[..i + 1][..i] == removals[..i];
      h := h - {ToLower(removals[i])};
    }
    ok := n == |removals|;
  }

  /**
   * Add, in order, then remove. A header named for removal is gone whoever added it; any other has its original
   * values followed by the accepted additions. A refused removal ends the transform there.
   */
  method ApplyHeaders(original: Headers, accepts: string -> bool, additions: seq<Header>, removals: seq<string>)
    returns (h: Headers, ok: bool)
    ensures ok <==> forall x :: x in removals ==> accepts(x)
    ensures var reached := removals[..Accepted(removals, accepts)];
      forall name ::
        ValuesOf(h, name) ==
          (if Removed(reached, name) then [] else ValuesOf(original, name) + Additions(additions, accepts, name))
  {
    hide ToLower, Removed, Additions;
    h := AddHeaders(original, accepts, additions);
    h, ok := RemoveHeaders(h, accepts, removals);
  }

  /** What the gateway adds to every request; the subject claim comes before the client id claim. */
  function GatewayHeaders(c: Caller, requestId: string, now: string): seq<Header> {
    var clientId := if c.subClaim.Some? then c.subClaim else c.clientIdClaim;
    [Header("X-Correlation-Id", c.traceId), Header("X-Gateway-Request-Id", requestId), Header("X-Gateway-Timestamp", now)]
      + if clientId.Some? && clientId.value != "" then [Header("X-Client-Id", clientId.value)] else []
  }

  /** A policy's additions with their templates filled in; the clock is read once for each. */
  function Filled(templates: seq<Header>, c: Caller, clock: nat -> string): seq<Header> {
    seq(|templates|, i requires 0 <= i < |templates| =>
      Header(templates[i].name, Sequential(templates[i].value, Placeholders(c.(timestamp := clock(i))))))
  }

  // ---------- the same, under the lower-cased names themselves ----------

  /** A text and the same with small letters for its capitals. */
  ghost predicate Lowercase(s: string, lower: string) {
    && |s| == |lower|
    && forall x :: 0 <= x < |s| ==> lower[x] as int == if 65 <= s[x] as int <= 90 then s[x] as int + 32 else s[x] as int
  }

  lemma LowercaseIff(s: string, lower: string)
    ensures ToLower(s) == lower <==> Lowercase(s, lower)
  {
    if Lowercase(s, lower) {
      assert forall x :: 0 <= x < |s| ==> ToLower(s)[x] == lower[x];
    }
  }

  function Under(h: Headers, key: string): seq<string> {
    if key in h then h[key] else []
  }

  /** The client a request is from: the subject claim before the client id claim, if it is not empty. */
  function ClientOf(c: Caller): Option<string> {
    var claim := if c.subClaim.Some? then c.subClaim else c.clientIdClaim;
    if claim == Some("") then None else claim
  }

  /** A value, if there is one, comes after those a name had, if the name is accepted. */
  ghost predicate Added(h: Headers, original: Headers, accepts: string -> bool, name: string, key: string, v: Option<string>) {
    Under(h, key) == Under(original, key) + (if accepts(name) && v.Some? then [v.value] else [])
  }

  predicate IsOwn(key: string) {
    key in {"x-correlation-id", "x-gateway-request-id", "x-gateway-timestamp", "x-client-id"}
  }

  /** The gateway's own headers, and nothing else, come to the original ones. */
  ghost predicate OwnAdded(h: Headers, original: Headers, accepts: string -> bool, c: Caller, requestId: string) {
    && Added(h, original, accepts, "X-Correlation-Id", "x-correlation-id", Some(c.traceId))
    && Added(h, original, accepts, "X-Gateway-Request-Id", "x-gateway-request-id", Some(requestId))
    && Added(h, original, accepts, "X-Gateway-Timestamp", "x-gateway-timestamp", Some(c.timestamp))
    && Added(h, original, accepts, "X-Client-Id", "x-client-id", ClientOf(c))
    && forall name, key :: Lowercase(name, key) && !IsOwn(key) ==> Under(h, key) == Under(original, key)
  }

  lemma LongNames()
    ensures ToLower("X-Gateway-Request-Id") == "x-gateway-request-id"
    ensures ToLower("X-Gateway-Timestamp") == "x-gateway-timestamp"
  {
    LowercaseIff("X-Gateway-Request-Id", "x-gateway-request-id");
    LowercaseIff("X-Gateway-Timestamp", "x-gateway-timestamp");
    hide ToLower;
  }

  lemma OwnNames()
    ensures ToLower("X-Correlation-Id") == "x-correlation-id" && ToLower("X-Client-Id") == "x-client-id"
    ensures ToLower("X-Gateway-Request-Id") == "x-gateway-request-id"
    ensures ToLower("X-Gateway-Timestamp") == "x-gateway-timestamp"
  {
    LongNames();
    LowercaseIff("X-Correlation-Id", "x-correlation-id");
    LowercaseIff("X-Client-Id", "x-client-id");
    hide ToLower;
  }

  /** What the gateway's own headers give to a name, in order. */
  lemma OwnGives(c: Caller, requestId: string, now: string, accepts: string -> bool, name: string)
    ensures var own := GatewayHeaders(c, requestId, now);
      Additions(own, accepts, name) ==
        Addition(own[0], accepts, name) + Addition(own[1], accepts, name) + Addition(own[2], accepts, name)
        + (if ClientOf(c).Some? then Addition(Header("X-Client-Id", ClientOf(c).value), accepts, name) else [])
  {
    var own := GatewayHeaders(c, requestId, now);
    hide Addition, ToLower;
    NoAdditions(accepts);
    assert own[..0] == [];
    AdditionsExtended(own, 0, accepts, name);
    AdditionsExtended(own, 1, accepts, name);
    AdditionsExtended(own, 2, accepts, name);
    if ClientOf(c).Some? {
      AdditionsExtended(own, 3, accepts, name);
      assert own[..4] == own;
    } else {
      assert own[..3] == own;
    }
  }

  /** Names of different lengths are different in any case. */
  lemma AdditionIs(x: Header, accepts: string -> bool, name: string)
    ensures |x.name| != |name| ==> Addition(x, accepts, name) == []
    ensures x.name == name ==> Addition(x, accepts, name) == if accepts(name) then [x.value] else []
  {
    assert |ToLower(x.name)| == |x.name| && |ToLower(name)| == |name|;
    hide ToLower;
  }

  lemma OneOfOwn(c: Caller, requestId: string, accepts: string -> bool, name: string)
    requires name in {"X-Correlation-Id", "X-Gateway-Request-Id", "X-Gateway-Timestamp", "X-Client-Id"}
    ensures Additions(GatewayHeaders(c, requestId, c.timestamp), accepts, name) ==
      if !accepts(name) then []
      else if |name| == 16 then [c.traceId]
      else if |name| == 20 then [requestId]
      else if |name| == 19 then [c.timestamp]
      else if ClientOf(c).Some? then [ClientOf(c).value] else []
  {
    var own := GatewayHeaders(c, requestId, c.timestamp);
    OwnGives(c, requestId, c.timestamp, accepts, name);
    AdditionIs(own[0], accepts, name);
    AdditionIs(own[1], accepts, name);
    AdditionIs(own[2], accepts, name);
    if ClientOf(c).Some? {
      AdditionIs(Header("X-Client-Id", ClientOf(c).value), accepts, name);
    }
    hide ToLower, Additions, Addition;
  }

  lemma OwnIsAdded(c: Caller, requestId: string, accepts: string -> bool, h: Headers, original: Headers, name: string,
                   key: string, v: Option<string>)
    requires name in {"X-Correlation-Id", "X-Gateway-Request-Id", "X-Gateway-Timestamp", "X-Client-Id"}
    requires ToLower(name) == key
    requires v == if |name| == 16 then Some(c.traceId)
                  else if |name| == 20 then Some(requestId)
                  else if |name| == 19 then Some(c.timestamp) else ClientOf(c)
    requires ValuesOf(h, name) ==
      ValuesOf(original, name) + Additions(GatewayHeaders(c, requestId, c.timestamp), accepts, name)
    ensures Added(h, original, accepts, name, key, v)
  {
    OneOfOwn(c, requestId, accepts, name);
    hide ToLower, Additions, GatewayHeaders, ClientOf;
  }

  lemma OwnAreAdded(c: Caller, requestId: string, accepts: string -> bool, h: Headers, original: Headers)
    requires forall name ::
      ValuesOf(h, name)
      == ValuesOf(original, name) + Additions(GatewayHeaders(c, requestId, c.timestamp), accepts, name)
    ensures OwnAdded(h, original, accepts, c, requestId)
  {
    OwnNames();
    hide Added, Additions, GatewayHeaders, ToLower, ClientOf, ValuesOf;
    OwnIsAdded(c, requestId, accepts, h, original, "X-Correlation-Id", "x-correlation-id", Some(c.traceId));
    OwnIsAdded(c, requestId, accepts, h, original, "X-Gateway-Request-Id", "x-gateway-request-id", Some(requestId));
    OwnIsAdded(c, requestId, accepts, h, original, "X-Gateway-Timestamp", "x-gateway-timestamp", Some(c.timestamp));
    OwnIsAdded(c, requestId, accepts, h, original, "X-Client-Id", "x-client-id", ClientOf(c));
    forall name, key | Lowercase(name, key) && !IsOwn(key) ensures Under(h, key) == Under(original, key)
    {
      OtherName(c, requestId, accepts, name, key);
      assert ValuesOf(h, name) == ValuesOf(original, name) + Additions(GatewayHeaders(c, requestId, c.timestamp), accepts, name);
      LowercaseIff(name, key);
      UnderIs(h, name, key);
      UnderIs(original, name, key);
    }
  }

  lemma UnderIs(h: Headers, name: string, key: string)
    requires ToLower(name) == key
    ensures ValuesOf(h, name) == Under(h, key)
  {
  }

  lemma OtherName(c: Caller, requestId: string, accepts: string -> bool, name: string, key: string)
    requires Lowercase(name, key)
    requires !IsOwn(key)
    ensures Additions(GatewayHeaders(c, requestId, c.timestamp), accepts, name) == []
  {
    OwnNames();
    LowercaseIff(name, key);
    OwnGives(c, requestId, c.timestamp, accepts, name);
    hide ToLower, Additions;
  }

  /** A header that is added is among the values of its name. */
  lemma {:induction false} AddedIsThere(xs: seq<Header>, accepts: string -> bool, i: nat)
    requires i < |xs| && accepts(xs[i].name)
    ensures xs[i].value in Additions(xs, accepts, xs[i].name)
    decreases |xs|
  {
    if i < |xs| - 1 {
      AddedIsThere(xs[..|xs| - 1], accepts, i);
    }
  }

  datatype HeaderRules = HeaderRules(toAdd: seq<Header>, toRemove: seq<string>)

  /** No name to be removed is this one, in whatever case. */
  ghost predicate NotRemoved(removals: seq<string>, key: string) {
    forall x :: x in removals ==> !Lowercase(x, key)
  }

  ghost predicate Among(h: Headers, key: string, v: string) {
    v in Under(h, key)
  }

  /** A policy leaves the gateway's own headers in place, except those it removes. */
  ghost predicate OwnKept(h: Headers, accepts: string -> bool, c: Caller, requestId: string, removals: seq<string>) {
    && (accepts("X-Correlation-Id") && NotRemoved(removals, "x-correlation-id") ==> Among(h, "x-correlation-id", c.traceId))
    && (accepts("X-Gateway-Request-Id") && NotRemoved(removals, "x-gateway-request-id") ==>
      Among(h, "x-gateway-request-id", requestId))
    && (accepts("X-Gateway-Timestamp") && NotRemoved(removals, "x-gateway-timestamp") ==>
      Among(h, "x-gateway-timestamp", c.timestamp))
    && (accepts("X-Client-Id") && NotRemoved(removals, "x-client-id") && ClientOf(c).Some? ==>
      Among(h, "x-client-id", ClientOf(c).value))
  }

  /** A policy's header is among the values of its name, its template filled in, unless the policy removes it too. */
  ghost predicate TemplateAdded(h: Headers, accepts: string -> bool, c: Caller, rules: HeaderRules, i: nat)
    requires i < |rules.toAdd|
  {
    var x := rules.toAdd[i];
    forall key :: accepts(x.name) && Lowercase(x.name, key) && NotRemoved(rules.toRemove, key) ==>
      exists v :: Among(h, key, v) && FilledFor(x.value, v, c)
  }

  lemma OneKept(h: Headers, original: Headers, accepts: string -> bool, added: seq<Header>, rules: HeaderRules, i: nat,
                key: string)
    requires var reached := rules.toRemove[..Accepted(rules.toRemove, accepts)];
      forall name ::
        ValuesOf(h, name) ==
          (if Removed(reached, name) then [] else ValuesOf(original, name) + Additions(added, accepts, name))
    requires i < |added| && accepts(added[i].name) && Lowercase(added[i].name, key) && NotRemoved(rules.toRemove, key)
    ensures Among(h, key, added[i].value)
  {
    var name := added[i].name;
    var reached := rules.toRemove[..Accepted(rules.toRemove, accepts)];
    LowercaseIff(name, key);
    AddedIsThere(added, accepts, i);
    RemovedIff(reached, name);
    forall x | x in reached ensures ToLower(x) != key {
      LowercaseIff(x, key);
      assert x in rules.toRemove;
    }
    hide ToLower, Removed, Additions, Lowercase;
    assert ValuesOf(h, name) == ValuesOf(original, name) + Additions(added, accepts, name);
  }

  lemma KeptOrRemoved(h: Headers, original: Headers, accepts: string -> bool, c: Caller, requestId: string,
                      clock: nat -> string, rules: HeaderRules)
    requires var added := GatewayHeaders(c, requestId, c.timestamp) + Filled(rules.toAdd, c, clock);
      var reached := rules.toRemove[..Accepted(rules.toRemove, accepts)];
      forall name ::
        ValuesOf(h, name) ==
          (if Removed(reached, name) then [] else ValuesOf(original, name) + Additions(added, accepts, name))
    ensures OwnKept(h, accepts, c, requestId, rules.toRemove)
    ensures forall i :: 0 <= i < |rules.toAdd| ==> TemplateAdded(h, accepts, c.(timestamp := clock(i)), rules, i)
  {
    OwnStay(h, original, accepts, c, requestId, clock, rules);
    hide OwnKept;
    forall i | 0 <= i < |rules.toAdd| ensures TemplateAdded(h, accepts, c.(timestamp := clock(i)), rules, i) {
      TemplateStays(h, original, accepts, c, requestId, clock, rules, i);
    }
  }

  lemma OwnStay(h: Headers, original: Headers, accepts: string -> bool, c: Caller, requestId: string,
                clock: nat -> string, rules: HeaderRules)
    requires var added := GatewayHeaders(c, requestId, c.timestamp) + Filled(rules.toAdd, c, clock);
      var reached := rules.toRemove[..Accepted(rules.toRemove, accepts)];
      forall name ::
        ValuesOf(h, name) ==
          (if Removed(reached, name) then [] else ValuesOf(original, name) + Additions(added, accepts, name))
    ensures OwnKept(h, accepts, c, requestId, rules.toRemove)
  {
    var own := GatewayHeaders(c, requestId, c.timestamp);
    var added := own + Filled(rules.toAdd, c, clock);
    OwnNames();
    LowercaseIff("X-Correlation-Id", "x-correlation-id");
    LowercaseIff("X-Gateway-Request-Id", "x-gateway-request-id");
    LowercaseIff("X-Gateway-Timestamp", "x-gateway-timestamp");
    LowercaseIff("X-Client-Id", "x-client-id");
    assert forall i :: 0 <= i < |own| ==> added[i] == own[i];
    hide ToLower, Removed, Additions, Lowercase, NotRemoved, Among, Filled;
    if accepts("X-Correlation-Id") && NotRemoved(rules.toRemove, "x-correlation-id") {
      OneKept(h, original, accepts, added, rules, 0, "x-correlation-id");
    }
    if accepts("X-Gateway-Request-Id") && NotRemoved(rules.toRemove, "x-gateway-request-id") {
      OneKept(h, original, accepts, added, rules, 1, "x-gateway-request-id");
    }
    if accepts("X-Gateway-Timestamp") && NotRemoved(rules.toRemove, "x-gateway-timestamp") {
      OneKept(h, original, accepts, added, rules, 2, "x-gateway-timestamp");
    }
    if accepts("X-Client-Id") && NotRemoved(rules.toRemove, "x-client-id") && ClientOf(c).Some? {
      OneKept(h, original, accepts, added, rules, 3, "x-client-id");
    }
  }

  lemma TemplateStays(h: Headers, original: Headers, accepts: string -> bool, c: Caller, requestId: string,
                      clock: nat -> string, rules: HeaderRules, i: nat)
    requires i < |rules.toAdd|
    requires var added := GatewayHeaders(c, requestId, c.timestamp) + Filled(rules.toAdd, c, clock);
      var reached := rules.toRemove[..Accepted(rules.toRemove, accepts)];
      forall name ::
        ValuesOf(h, name) ==
          (if Removed(reached, name) then [] else ValuesOf(original, name) + Additions(added, accepts, name))
    ensures TemplateAdded(h, accepts, c.(timestamp := clock(i)), rules, i)
  {
    var own, caller, x := GatewayHeaders(c, requestId, c.timestamp), c.(timestamp := clock(i)), rules.toAdd[i];
    var added := own + Filled(rules.toAdd, c, clock);
    var v := Sequential(x.value, Placeholders(caller));
    AllFilled(x.value, caller);
    assert added[|own| + i] == Header(x.name, v);
    hide ToLower, Removed, Additions, Lowercase, NotRemoved, Among, Filled, Sequential, FilledFor, GatewayHeaders, Placeholders;
    forall key | accepts(x.name) && Lowercase(x.name, key) && NotRemoved(rules.toRemove, key)
      ensures exists v :: Among(h, key, v) && FilledFor(x.value, v, caller)
    {
      OneKept(h, original, accepts, added, rules, |own| + i, key);
    }
  }

  /**
   * The whole transform. Without a policy only the gateway's own headers are added; with one, a header it removes is
   * gone even if it is one of the gateway's own or the policy's. It throws exactly when the policy removes a name the
   * request's headers refuse.
   */
  method TransformHeaders(original: Headers, accepts: string -> bool, c: Caller, requestId: string, clock: nat -> string,
                          policy: Option<HeaderRules>) returns (h: Headers, ok: bool)
    ensures ok <==> (policy.Some? ==> forall x :: x in policy.value.toRemove ==> accepts(x))
    ensures var rules := if policy.Some? then policy.value else HeaderRules([], []);
      var added := GatewayHeaders(c, requestId, c.timestamp) + Filled(rules.toAdd, c, clock);
      var reached := rules.toRemove[..Accepted(rules.toRemove, accepts)];
      forall name ::
        ValuesOf(h, name) ==
          (if Removed(reached, name) then [] else ValuesOf(original, name) + Additions(added, accepts, name))
    ensures policy.None? ==> OwnAdded(h, original, accepts, c, requestId)
    ensures policy.Some? ==> OwnKept(h, accepts, c, requestId, policy.value.toRemove)
    ensures policy.Some? ==>
      forall i :: 0 <= i < |policy.value.toAdd| ==> TemplateAdded(h, accepts, c.(timestamp := clock(i)), policy.value, i)
  {
    hide ToLower, Removed, Additions, ValuesOf, Sequential, Placeholders;
    var own := GatewayHeaders(c, requestId, c.timestamp);
    if policy.None? {
      assert own + Filled([], c, clock) == own;
      NothingRemoved();
      h := AddHeaders(original, accepts, own);
      ok := true;
      OwnAreAdded(c, requestId, accepts, h, original);
      return;
    }
    var filled: seq<Header> := [];
    for i := 0 to |policy.value.toAdd|
      invariant filled == Filled(policy.value.toAdd, c, clock)[..i]
    {
      var value := ResolveHeaderValue(policy.value.toAdd[i].value, c.(timestamp := clock(i)));
      filled := filled + [Header(policy.value.toAdd[i].name, value)];
    }
    assert filled == Filled(policy.value.toAdd, c, clock);
    h, ok := ApplyHeaders(original, accepts, own + filled, policy.value.toRemove);
    KeptOrRemoved(h, original, accepts, c, requestId, clock, policy.value);
  }
}
