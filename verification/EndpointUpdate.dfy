/** Partial updates of an endpoint row, and what a run of them leaves of its crypto settings. */
module EndpointUpdateModel {
  import opened Wrappers
  import opened Entities
  import Registry

  /** A PUT body; an absent field is not updated. The enumerations arrive as text. */
  datatype UpdateRequest = UpdateRequest(
    serviceId: Option<Guid>, endpointName: Option<string>, httpMethod: Option<string>, relativePath: Option<string>,
    upstreamPathTemplate: Option<string>, isEnabled: Option<bool>, timeoutMs: Option<int>, maxRetries: Option<int>,
    payloadExpectation: Option<string>,
    algorithm: Option<string>, keySource: Option<string>, ivSource: Option<string>, encoding: Option<string>,
    requireIv: Option<bool>, encryptRequest: Option<bool>, encryptResponse: Option<bool>)

  /** `Enum.TryParse` for each enumeration. */
  datatype Parsers = Parsers(
    payload: string -> Option<PayloadExpectation>, algorithm: string -> Option<CryptoAlgorithm>,
    keySource: string -> Option<KeySource>, ivSource: string -> Option<IvSource>, encoding: string -> Option<Encoding>)

  /** `request is null ? existing : ParseEnumOrNull(request)`: a text that does not parse becomes null. */
  function MergedEnum<T>(existing: Option<T>, requested: Option<string>, parse: string -> Option<T>): Option<T> {
    if requested.None? then existing else parse(requested.value)
  }

  /** `COALESCE(@new, column)` and `new ?? existing`. */
  function Coalesce<T>(new_: Option<T>, existing: Option<T>): Option<T> {
    if new_.Some? then new_ else existing
  }

  function Parsed<T>(requested: Option<string>, parse: string -> Option<T>): Option<T> {
    if requested.None? then None else parse(requested.value)
  }

  /** The entity the handler builds from the row it read and the request. */
  function Merge(e: Endpoint, q: UpdateRequest, ps: Parsers): Endpoint {
    Endpoint(
      e.id,
      Registry.OrElse(q.serviceId, e.serviceId),
      Registry.OrElse(q.endpointName, e.endpointName),
      Registry.OrElse(q.httpMethod, e.httpMethod),
      Registry.OrElse(q.relativePath, e.relativePath),
      Coalesce(q.upstreamPathTemplate, e.upstreamPathTemplate),
      Registry.OrElse(q.isEnabled, e.isEnabled),
      Registry.OrElse(Parsed(q.payloadExpectation, ps.payload), e.payloadExpectation),
      Registry.OrElse(q.timeoutMs, e.timeoutMs),
      Registry.OrElse(q.maxRetries, e.maxRetries),
      CryptoOverrides(
        MergedEnum(e.crypto.algorithm, q.algorithm, ps.algorithm),
        MergedEnum(e.crypto.keySource, q.keySource, ps.keySource),
        MergedEnum(e.crypto.ivSource, q.ivSource, ps.ivSource),
        MergedEnum(e.crypto.encoding, q.encoding, ps.encoding),
        Coalesce(q.requireIv, e.crypto.requireIv)),
      Registry.OrElse(q.encryptRequest, e.encryptRequest),
      Registry.OrElse(q.encryptResponse, e.encryptResponse))
  }

  /** The row after the UPDATE statement: its nullable columns keep their value where the entity has null. */
  function Written(row: Endpoint, entity: Endpoint): Endpoint {
    entity.(
      id := row.id,
      upstreamPathTemplate := Coalesce(entity.upstreamPathTemplate, row.upstreamPathTemplate),
      crypto := CryptoOverrides(
        Coalesce(entity.crypto.algorithm, row.crypto.algorithm),
        Coalesce(entity.crypto.keySource, row.crypto.keySource),
        Coalesce(entity.crypto.ivSource, row.crypto.ivSource),
        Coalesce(entity.crypto.encoding, row.crypto.encoding),
        Coalesce(entity.crypto.requireIv, row.crypto.requireIv)))
  }

  function Updated(row: Endpoint, q: UpdateRequest, ps: Parsers): Endpoint {
    Written(row, Merge(row, q, ps))
  }

  // ---------- the same, column by column ----------

  /** A column that is never null: the value given, or what it was. */
  ghost predicate Column<T>(now: T, was: T, given: Option<T>) {
    now == if given.Some? then given.value else was
  }

  /** A column given as text: the value it parses to, or what it was, when it is absent or does not parse. */
  ghost predicate ParsedColumn<T>(now: T, was: T, given: Option<string>, parse: string -> Option<T>) {
    if given.Some? && parse(given.value).Some? then Some(now) == parse(given.value) else now == was
  }

  /** A column that may be null: the value given, or what it was. */
  ghost predicate Nullable<T>(now: Option<T>, was: Option<T>, given: Option<T>) {
    now == if given.Some? then given else was
  }

  ghost predicate ParsedNullable<T>(now: Option<T>, was: Option<T>, given: Option<string>, parse: string -> Option<T>) {
    now == if given.Some? && parse(given.value).Some? then parse(given.value) else was
  }

  /** What a PUT makes of a row: each column from its own field of the request. */
  ghost predicate PutTo(now: Endpoint, was: Endpoint, q: UpdateRequest, ps: Parsers) {
    && now.id == was.id
    && Column(now.serviceId, was.serviceId, q.serviceId)
    && Column(now.endpointName, was.endpointName, q.endpointName)
    && Column(now.httpMethod, was.httpMethod, q.httpMethod)
    && Column(now.relativePath, was.relativePath, q.relativePath)
    && Nullable(now.upstreamPathTemplate, was.upstreamPathTemplate, q.upstreamPathTemplate)
    && Column(now.isEnabled, was.isEnabled, q.isEnabled)
    && ParsedColumn(now.payloadExpectation, was.payloadExpectation, q.payloadExpectation, ps.payload)
    && Column(now.timeoutMs, was.timeoutMs, q.timeoutMs)
    && Column(now.maxRetries, was.maxRetries, q.maxRetries)
    && ParsedNullable(now.crypto.algorithm, was.crypto.algorithm, q.algorithm, ps.algorithm)
    && ParsedNullable(now.crypto.keySource, was.crypto.keySource, q.keySource, ps.keySource)
    && ParsedNullable(now.crypto.ivSource, was.crypto.ivSource, q.ivSource, ps.ivSource)
    && ParsedNullable(now.crypto.encoding, was.crypto.encoding, q.encoding, ps.encoding)
    && Nullable(now.crypto.requireIv, was.crypto.requireIv, q.requireIv)
    && Column(now.encryptRequest, was.encryptRequest, q.encryptRequest)
    && Column(now.encryptResponse, was.encryptResponse, q.encryptResponse)
  }

  /** What the UPDATE statement makes of a row: the entity's columns, but what may be null keeps its value where it is null. */
  ghost predicate WrittenTo(now: Endpoint, was: Endpoint, entity: Endpoint) {
    && now.id == was.id && now.serviceId == entity.serviceId && now.endpointName == entity.endpointName
    && now.httpMethod == entity.httpMethod && now.relativePath == entity.relativePath
    && now.isEnabled == entity.isEnabled && now.payloadExpectation == entity.payloadExpectation
    && now.timeoutMs == entity.timeoutMs && now.maxRetries == entity.maxRetries
    && now.encryptRequest == entity.encryptRequest && now.encryptResponse == entity.encryptResponse
    && Nullable(now.upstreamPathTemplate, was.upstreamPathTemplate, entity.upstreamPathTemplate)
    && Nullable(now.crypto.algorithm, was.crypto.algorithm, entity.crypto.algorithm)
    && Nullable(now.crypto.keySource, was.crypto.keySource, entity.crypto.keySource)
    && Nullable(now.crypto.ivSource, was.crypto.ivSource, entity.crypto.ivSource)
    && Nullable(now.crypto.encoding, was.crypto.encoding, entity.crypto.encoding)
    && Nullable(now.crypto.requireIv, was.crypto.requireIv, entity.crypto.requireIv)
  }

  lemma UpdatedIs(row: Endpoint, q: UpdateRequest, ps: Parsers)
    ensures PutTo(Updated(row, q, ps), row, q, ps)
  {
  }

  class EndpointTable {
    var rows: map<Guid, Endpoint>

    constructor ()
      ensures rows == map[]
    {
      rows := map[];
    }

    method UpdateRow(id: Guid, entity: Endpoint) returns (r: Option<Endpoint>)
      modifies this
      ensures id !in old(rows) ==> r == None && rows == old(rows)
      ensures id in old(rows) ==> r == Some(Written(old(rows)[id], entity)) && rows == old(rows)[id := r.value]
      ensures id in old(rows) ==> WrittenTo(rows[id], old(rows)[id], entity)
    {
      if id !in rows {
        return None;
      }
      rows := rows[id := Written(rows[id], entity)];
      return Some(rows[id]);
    }

    /** The PUT handler; `None` is its 404. No other row changes. */
    method Put(id: Guid, q: UpdateRequest, ps: Parsers) returns (r: Option<Endpoint>)
      modifies this
      ensures id !in old(rows) ==> r == None && rows == old(rows)
      ensures id in old(rows) ==> r == Some(Updated(old(rows)[id], q, ps)) && rows == old(rows)[id := r.value]
      ensures id in old(rows) ==> PutTo(rows[id], old(rows)[id], q, ps)
    {
      if id in rows {
        UpdatedIs(rows[id], q, ps);
      }
      if id !in rows {
        return None;
      }
      r := UpdateRow(id, Merge(rows[id], q, ps));
    }

    method Disable(id: Guid) returns (found: bool)
      modifies this
      ensures found <==> id in old(rows)
      ensures rows == if found then old(rows)[id := old(rows)[id].(isEnabled := false)] else old(rows)
    {
      found := id in rows;
      if found {
        rows := rows[id := rows[id].(isEnabled := false)];
      }
    }
  }

  // ---------- runs of updates ----------

  function Run(row: Endpoint, qs: seq<UpdateRequest>, ps: Parsers): Endpoint {
    if qs == [] then row else Updated(Run(row, qs[..|qs| - 1], ps), qs[|qs| - 1], ps)
  }

  /** The last value a run of requests gives to a setting, else what it was. */
  function LastGiven<T>(initial: Option<T>, qs: seq<UpdateRequest>, given: UpdateRequest -> Option<T>): Option<T> {
    if qs == [] then initial
    else Coalesce(given(qs[|qs| - 1]), LastGiven(initial, qs[..|qs| - 1], given))
  }

  /**
   * After any run of updates each crypto override is the last value given that parsed, else what it was: a text that
   * does not parse, like an absent field, changes nothing.
   */
  lemma {:induction false} OverridesAreLastGiven(row: Endpoint, qs: seq<UpdateRequest>, ps: Parsers)
    ensures Run(row, qs, ps).crypto == CryptoOverrides(
      LastGiven(row.crypto.algorithm, qs, (q: UpdateRequest) => Parsed(q.algorithm, ps.algorithm)),
      LastGiven(row.crypto.keySource, qs, (q: UpdateRequest) => Parsed(q.keySource, ps.keySource)),
      LastGiven(row.crypto.ivSource, qs, (q: UpdateRequest) => Parsed(q.ivSource, ps.ivSource)),
      LastGiven(row.crypto.encoding, qs, (q: UpdateRequest) => Parsed(q.encoding, ps.encoding)),
      LastGiven(row.crypto.requireIv, qs, (q: UpdateRequest) => q.requireIv))
  {
    if qs != [] {
      OverridesAreLastGiven(row, qs[..|qs| - 1], ps);
    }
  }

  /** So is every other column, by the request's field of its own. */
  lemma {:induction false} ColumnsAreLastGiven(row: Endpoint, qs: seq<UpdateRequest>, ps: Parsers)
    ensures var e := Run(row, qs, ps);
      && e.id == row.id
      && Some(e.serviceId) == LastGiven(Some(row.serviceId), qs, (q: UpdateRequest) => q.serviceId)
      && Some(e.endpointName) == LastGiven(Some(row.endpointName), qs, (q: UpdateRequest) => q.endpointName)
      && Some(e.httpMethod) == LastGiven(Some(row.httpMethod), qs, (q: UpdateRequest) => q.httpMethod)
      && Some(e.relativePath) == LastGiven(Some(row.relativePath), qs, (q: UpdateRequest) => q.relativePath)
      && e.upstreamPathTemplate == LastGiven(row.upstreamPathTemplate, qs, (q: UpdateRequest) => q.upstreamPathTemplate)
      && Some(e.payloadExpectation)
        == LastGiven(Some(row.payloadExpectation), qs, (q: UpdateRequest) => Parsed(q.payloadExpectation, ps.payload))
      && Some(e.timeoutMs) == LastGiven(Some(row.timeoutMs), qs, (q: UpdateRequest) => q.timeoutMs)
      && Some(e.maxRetries) == LastGiven(Some(row.maxRetries), qs, (q: UpdateRequest) => q.maxRetries)
      && Some(e.encryptRequest) == LastGiven(Some(row.encryptRequest), qs, (q: UpdateRequest) => q.encryptRequest)
      && Some(e.encryptResponse) == LastGiven(Some(row.encryptResponse), qs, (q: UpdateRequest) => q.encryptResponse)
  {
    if qs != [] {
      ColumnsAreLastGiven(row, qs[..|qs| - 1], ps);
    }
  }

  /** A disabled endpoint stays disabled until an update enables it, and so for an enabled one. */
  lemma {:induction false} EnabledIsLastGiven(row: Endpoint, qs: seq<UpdateRequest>, ps: Parsers)
    ensures Some(Run(row, qs, ps).isEnabled) == LastGiven(Some(row.isEnabled), qs, (q: UpdateRequest) => q.isEnabled)
  {
    if qs != [] {
      EnabledIsLastGiven(row, qs[..|qs| - 1], ps);
    }
  }

  /** A setting that was ever present stays present. */
  lemma {:induction false} NeverNullAgain(row: Endpoint, qs: seq<UpdateRequest>, ps: Parsers)
    ensures var c := Run(row, qs, ps).crypto;
      && (row.crypto.algorithm.Some? ==> c.algorithm.Some?)
      && (row.crypto.keySource.Some? ==> c.keySource.Some?)
      && (row.crypto.ivSource.Some? ==> c.ivSource.Some?)
      && (row.crypto.encoding.Some? ==> c.encoding.Some?)
      && (row.crypto.requireIv.Some? ==> c.requireIv.Some?)
  {
    if qs != [] {
      NeverNullAgain(row, qs[..|qs| - 1], ps);
    }
  }

  ghost predicate AllSet(c: CryptoOverrides) {
    c.algorithm.Some? && c.keySource.Some? && c.ivSource.Some? && c.encoding.Some? && c.requireIv.Some?
  }

  /** The configuration in effect is the same under every service default exactly when every override is present. */
  lemma IndependentIffAllSet(c: CryptoOverrides)
    ensures (forall d, d' :: Registry.EffectiveCrypto(c, d) == Registry.EffectiveCrypto(c, d')) <==> AllSet(c)
  {
    var d := CryptoDefaults(AES_256_GCM, UserProfileKey, UserProfileIv, Base64, true);
    var d' := CryptoDefaults(AES_128_CBC, ServiceKey, ServiceIv, Hex, false);
    if forall d, d' :: Registry.EffectiveCrypto(c, d) == Registry.EffectiveCrypto(c, d') {
      assert Registry.EffectiveCrypto(c, d) == Registry.EffectiveCrypto(c, d');
    }
  }

  /**
   * Once every override has been given, a row's policies no longer depend on the service's defaults, whatever updates
   * follow: there is no way back to them.
   */
  lemma DefaultsNeverReturn(row: Endpoint, qs: seq<UpdateRequest>, ps: Parsers, p: Product, s: Service, d: CryptoDefaults)
    requires AllSet(row.crypto)
    ensures var e := Run(row, qs, ps);
      Registry.BuildEndpointPolicy(p, s.(defaults := d), e).cryptoConfig
        == Registry.BuildEndpointPolicy(p, s, e).cryptoConfig
  {
    NeverNullAgain(row, qs, ps);
    IndependentIffAllSet(Run(row, qs, ps).crypto);
  }
}
