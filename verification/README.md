# API gateway: a verified model

The gateway authorizes and forwards requests from facts it keeps in several places: a database, a store shared by all
nodes, and on each node an in-process cache and a policy snapshot. This project models how those facts move, how old
they can be when a request is judged by them, and the text and wire formats around that core.

- **Facts in motion.** `GatewayProtocol.dfy` is a timed transition system of any number of nodes. Every `await` of the
  request pipeline, of the timed permission refresh and of the policy refresh is a task; tasks interleave freely. Steps are
  time passing, a remote read being answered, an answer coming back, an await that throws, a posted write applied or lost,
  eviction from either tier, and a node restarting. `GatewayStaleness.dfy` holds the invariant, `GatewayTheorems.dfy` the
  results over all runs. `GatewayTightness.dfy`, `GatewayClientTightness.dfy` (with `GatewayClientWarmUp.dfy` and
  `GatewayClientRequests.dfy`) and `GatewayPolicyTightness.dfy` (with `GatewayPolicyWrites.dfy`) build runs that attain the
  permission bound, the client bound and the policy bound, out of the steps in `GatewayRuns.dfy`.
- **The objects of one node.** `PolicyCache.dfy`, `PolicyResolver.dfy` and `GatewayRequest.dfy` are the classes as the
  source has them, methods that update fields, specified over the two tiers as a value (`Tiers.dfy`, `Registry.dfy`).
  `GatewayBridge.dfy` shows that these and the protocol agree on refreshes, cache calls and answers, and
  `GatewayUndisturbed.dfy` that a request which nothing disturbs ends, in the protocol, with the verdict and the cache state
  of the class.
- **Wire formats.** `Codec.dfy` (sections 4 and 8 of RFC 4648), `BlockMode.dfy` (section 6.3 of RFC 5652, section 6.2 of
  NIST SP 800-38A), `CryptoService.dfy` (the three frames, through pooled buffers) and `Envelope.dfy` (the JSON envelope
  of the two body transforms, strings as in section 7 of RFC 8259). The block cipher, the MAC and the authenticated
  cipher are parameters.
- **The proxy configuration.** `ProxyConfig.dfy`: routes and clusters compiled from an unordered dictionary.
- **Smaller cores.** `HeaderTransform.dfy` over `Substitution.dfy` (placeholders replaced one after another, in general),
  `SeedGenerator.dfy`, `IpValidation.dfy`, `Catalogue.dfy`, `EndpointUpdate.dfy`.

`Wrappers.dfy`, `Text.dfy` and `Entities.dfy` hold the shared vocabulary.

A definition that a method and its specification share is stated a second time, in literals, positions and the rows' own
fields (`Permits`, `RoutesTo`, `BuiltFrom`, `CbcOf`, `Base64Of`, `FrameOf`, `RouteOf`, `FilledFor`, `PutTo` and the like), and
the contract of the method, and the results over runs, speak of that second form.

What chance decides is a parameter of every operation: whether the shared store answers (`up`), whether the size-limited
own cache keeps an insertion (`kept`), the clock, random IVs, and what the database answers to each read.

## What the proofs found

- A permission can admit a request for both cache lifetimes and **three** awaits after it was last true, not two: the
  read that warms the cache, the write to the store, and the read of the store each take one. `PermissionBoundAttained`
  builds a run for every longest await, so this is exact.
- A client row is used longer: the permission warm-up reads all clients at once and files each after the ones before it,
  so its age grows by three awaits for every enabled client. `ClientBoundAttained` builds a run for every longest await
  and every list of clients that attains `3n + 5` awaits, so this is exact too.
- A policy can be used for both cache lifetimes and two awaits after it was handed to the cache, and it can be handed
  over as old as a snapshot gets or as a refresh takes, `W + 1` awaits for `W` services and registrations.
  `PolicyBoundAttained` builds a run for each of the two cases, so this is exact as well.
- The cipher service refuses to read back some of what it writes: plaintexts between `LargestReadable` and the 10 MiB
  limit encrypt, and their frames are then too large to decrypt (`RoundTripIff`).
- A write or an invalidation that the shared store misses is harmless exactly while the store has no other live value
  under the key (`MissedWritesHarmlessIff`, over whole histories); otherwise that value is served again once the own
  entry is evicted (`MissedHistoryHarms` has a history of two sets and an eviction).
- Header values are filled in one placeholder after another, so a value can be substituted again. For templates that
  begin no later placeholder just before an earlier one, in particular those that open no brace inside a brace, a value
  can do that exactly if it holds a later placeholder or ends in the beginning of one (`HarmlessIff`;
  `ValuesMustNotOpen` has a pair). `TemplateSafeIff` shows that these are exactly the templates that no values without
  an opening brace can upset; `UnsafeTemplate` has `{{ClientId}`, which a client called `UserId}` turns into the user's
  id. A timestamp is always harmless (`LateValuesHarmless`).
- Routes depend on the dictionary's order exactly when two policies share an id and differ in what they build, or, with
  an unreadable destination list, when some order does not fail (`OrderIndependentIff`). Every key is served in every
  order that compiles exactly if each viable choice of one policy per route id serves every key (`CoverageIff`), and
  with readable lists if the policies of one id serve each other's keys (`ReadableCoverageIff`).
- Seed names are stored apart exactly if no two operations collide, and the collisions are told from the slugs and the
  occurrence numbers (`SeedNamesDistinctIff`): different slugs collide if one is the other with its number, whole or cut
  to the column, or if they fill the column alike (`DifferentSlugsCollideIff`); equal ones if the slug leaves too little
  room for the numbers (`NamesakesCollideIff`).
- A range is accepted exactly if an address and a slash are followed by optional blanks, an optional sign, a number up to
  32 (zero after a minus) and then slash-free text that does not begin with a digit (`RangeIff`): `1.2.3.4/8x` and `1.2.3.4/ +008` are,
  `1.2.3.4/-8` and `1.2.3.4/8/9` are not (`OddRanges`). `CanonicalIff` says which of the accepted texts are plain prefix
  lengths.

Where the code and its documentation differ, the model follows the code: entries live one hour in both tiers
(`src/Gateway.Infrastructure/Caching/PolicyCache.cs:22` and the callers), while `README.md:199-200` says 5 minutes and 10 to
30 minutes; the response transform looks for the crypto profile in the caches only, while its comment
(`src/Gateway.Infrastructure/Yarp/EncryptResponseTransform.cs:62`) adds the database; and AES-128-CBC and AES-256-GCM accept
any AES key size.

## Model

| member | source | states |
|---|---|---|
| GatewayTheorems.PermissionFreshness | src/Gateway.Infrastructure/Middleware/GatewayAuthorizationMiddleware.cs:90-125 | in every run of any number of nodes, a request admitted for a client was permitted by a row of the permission table of that client and that endpoint, enabled and unexpired at an instant less than 7,200,000 ms + 3 awaits ago, with no assumption on the environment |
| GatewayTightness.PermissionBoundAttained | src/Gateway.Infrastructure/Caching/PolicyCache.cs:110-174 | for every longest await some run admits by a permission row whose only instant in the table is exactly one instant short of that bound away: it cannot be lowered |
| GatewayTheorems.ClientFreshness | src/Gateway.Infrastructure/BackgroundServices/PolicyRefreshService.cs:72-110 | the admitted client was an enabled row, under the request's own client id, less than 7,200,000 ms + (3n + 5) awaits ago when at most n clients are ever enabled |
| GatewayClientTightness.ClientBoundAttained | src/Gateway.Infrastructure/BackgroundServices/PolicyRefreshService.cs:72-110 | for every longest await and every list of n clients some run admits a client whose only enabled instant is exactly one instant short of that bound away: it cannot be lowered and does grow with n |
| GatewayClientTightness.OneClientBoundAttained | src/Gateway.Infrastructure/BackgroundServices/PolicyRefreshService.cs:72-110 | in particular with a single client: for every longest await, at eight awaits |
| GatewayTheorems.AdmissionJustified | src/Gateway.Infrastructure/Middleware/GatewayAuthorizationMiddleware.cs:46-125 | in every run nothing is let through but a health path, an anonymous request to its own route's policy that asks for no identity, or a request of the enabled client it names whose permissions hold the endpoint and whose authentication did not fail where required |
| GatewayTheorems.PolicyFreshness | src/Gateway.Infrastructure/Services/PolicyResolver.cs:42-64 | if snapshots are never older than A and no refresh files a policy after more than W services and registrations, that one included, a resolved policy was built from service, product and endpoint rows enabled less than max(A, (W + 1) awaits) + 7,200,000 ms + 2 awaits ago, deleted routes and failed refreshes included |
| GatewayPolicyTightness.PolicyBoundAttained | src/Gateway.Infrastructure/Services/PolicyResolver.cs:42-127 | for every longest await, every A and every W - 2 services that register nothing some run within both bounds gives a request a policy whose service's only enabled instant is exactly one instant short of that bound away: it cannot be lowered, whichever of the two makes it |
| GatewayTheorems.KeyAgreementEverywhere | src/Gateway.Infrastructure/Services/PolicyResolver.cs:85-110 | whatever is under a route key in any node's cache, the shared store or a snapshot, in any reachable state, is a policy of rows that chain, each of its fields from its row, whose key is a listed method, a colon, `/gateway`, the service's base path and the endpoint's relative path |
| GatewayTheorems.ResolvedMatchesRequest | src/Gateway.Infrastructure/Services/PolicyResolver.cs:42-64 | with methods free of colons, every request of every run is only given a policy whose path (`/gateway`, base path, relative path) is its own and whose list names its method, up to case |
| GatewayTheorems.SnapshotIsWhole | src/Gateway.Infrastructure/Services/PolicyResolver.cs:71-127 | under any interleaving of refreshes and any failure each node's snapshot is empty or the complete result of one refresh, none of whose reads is later than now |
| GatewayTheorems.SnapshotChangesOnlyBySwap | src/Gateway.Infrastructure/Services/PolicyResolver.cs:113-126 | no request, failure, permission refresh or store event changes a snapshot: only a policy refresh returning or a restart does |
| GatewayStaleness.RunKeeps | src/Gateway.Infrastructure/Caching/PolicyCache.cs:43-235 | along every run the place-by-place invariant holds: each resting fact was true at its stamp and expires within its age bound |
| GatewayStaleness.StepKeeps | src/Gateway.Infrastructure/Middleware/GatewayAuthorizationMiddleware.cs:30-125 | every single step of the protocol keeps that invariant |
| GatewayStaleness.FillKeeps | src/Gateway.Infrastructure/Caching/PolicyCache.cs:119-141 | copying a store hit inwards keeps the age bounds: nothing is written back |
| GatewayStaleness.RegistrationsTrue | src/Gateway.Infrastructure/Services/PolicyResolver.cs:79-111 | every registration of a refresh, complete or not, is a true policy as of its three reads |
| Registry.KeyDeterminesRequest | src/Gateway.Core/Models/RouteKey.cs:11-16 | a policy that agrees with a request's key has the request's path, written out, and its list names the request's method, up to case |
| Registry.AuthorizedIff | src/Gateway.Data/Repositories/ClientPermissionRepository.cs:55-67 | an endpoint is authorized if and only if some row has the client and the endpoint, is enabled, and has no expiry or a later one |
| Registry.ClientFoundIff | src/Gateway.Data/Repositories/ClientRepository.cs:31-45 | the client found is the first enabled row under the client id; none is found if and only if there is no enabled one |
| Registry.HealthIff | src/Gateway.Infrastructure/Middleware/GatewayAuthorizationMiddleware.cs:49-53 | a path goes straight through if and only if its first seven characters are `/health`, each in either case |
| Registry.MethodsIff | src/Gateway.Infrastructure/Services/PolicyResolver.cs:99-103 | an endpoint registers a method if and only if a non-empty part between commas is that method, without its blanks and in capitals |
| Registry.KeyAgreesIff | src/Gateway.Infrastructure/Services/PolicyResolver.cs:85-110 | agreement of key and policy, in the fields of the three rows |
| Registry.RegistrationsIff | src/Gateway.Infrastructure/Services/PolicyResolver.cs:96-110 | an endpoint's registrations are exactly: each of its keys, written out, with the policy whose fields are those of the rows, each override or else the service's default |
| PolicyCacheModel.RenderInjective | src/Gateway.Infrastructure/Caching/PolicyCache.cs:22-26 | the four prefixes and the profile key are jointly injective, although user ids may contain colons |
| PolicyCacheModel.RefinesLossyMap | src/Gateway.Infrastructure/Caching/PolicyCache.cs:43-351 | after any history in which no missed call left another live value in the store, evictions and expiries included, a lookup gives the last value set since the last invalidation, or nothing |
| PolicyCacheModel.MissedWritesHarmlessIff | src/Gateway.Infrastructure/Caching/PolicyCache.cs:85-108 | a history serves the last value set or nothing at each of its points, with the own entry evicted or not, if and only if no write or invalidation that the store missed left another live value there |
| PolicyCacheModel.MissedHistoryHarms | src/Gateway.Infrastructure/Caching/PolicyCache.cs:85-108 | a concrete failing history: a set, a second set that the store misses, the own entry evicted; a lookup then gives the first value |
| PolicyCacheModel.OtherKeysUntouched | src/Gateway.Infrastructure/Caching/PolicyCache.cs:43-311 | an operation on one entry changes no lookup of another |
| PolicyCacheModel.PolicyCache.GetEntry | src/Gateway.Infrastructure/Caching/PolicyCache.cs:43-83 | own cache before its expiry instant, then store up to it; a store hit is copied inwards for an hour, the store is not written |
| PolicyCacheModel.PolicyCache.SetEntry | src/Gateway.Infrastructure/Caching/PolicyCache.cs:85-108 | the whole new state of both tiers after a set, kept or dropped, reached or missed |
| PolicyCacheModel.PolicyCache.GetPolicy | src/Gateway.Infrastructure/Caching/PolicyCache.cs:43-83 | the policy found under the route's key and the tiers afterwards |
| PolicyCacheModel.PolicyCache.SetPolicy | src/Gateway.Infrastructure/Caching/PolicyCache.cs:85-108 | both tiers after filing a policy under `policy:` and the route, for an hour in the own cache |
| PolicyCacheModel.PolicyCache.GetPermissions | src/Gateway.Infrastructure/Caching/PolicyCache.cs:110-149 | the permission set found and the tiers afterwards |
| PolicyCacheModel.PolicyCache.SetPermissions | src/Gateway.Infrastructure/Caching/PolicyCache.cs:151-174 | both tiers after filing a permission set under `perm:` and the client |
| PolicyCacheModel.PolicyCache.GetClient | src/Gateway.Infrastructure/Caching/PolicyCache.cs:176-212 | the client found and the tiers afterwards |
| PolicyCacheModel.PolicyCache.SetClient | src/Gateway.Infrastructure/Caching/PolicyCache.cs:214-235 | both tiers after filing a client under `client:` and its id |
| PolicyCacheModel.PolicyCache.GetProfile | src/Gateway.Infrastructure/Caching/PolicyCache.cs:237-273 | the profile found and the tiers afterwards |
| PolicyCacheModel.PolicyCache.SetProfile | src/Gateway.Infrastructure/Caching/PolicyCache.cs:275-296 | both tiers after filing a profile under `user-profile:`, the user and the service, or `global` |
| PolicyCacheModel.PolicyCache.InvalidateEntry | src/Gateway.Infrastructure/Caching/PolicyCache.cs:298-311 | the key leaves the own cache, and the store if it answers; nothing else changes |
| PolicyCacheModel.PolicyCache.DeletePrefix | src/Gateway.Infrastructure/Caching/PolicyCache.cs:327-330 | only keys under the prefix go, all of them unless a call fails, and no value changes |
| PolicyCacheModel.PolicyCache.InvalidateEverything | src/Gateway.Infrastructure/Caching/PolicyCache.cs:313-351 | the own cache is emptied whatever fails; foreign keys of the store survive; the state is that of an invalidation that missed exactly the keys left, none of them managed when no call fails |
| PolicyResolverModel.PolicyResolver.ResolvePolicy | src/Gateway.Infrastructure/Services/PolicyResolver.cs:42-64 | cache, then snapshot; and the cache it leaves, with a snapshot hit filed |
| PolicyResolverModel.PolicyResolver.RefreshPolicies | src/Gateway.Infrastructure/Services/PolicyResolver.cs:71-127 | the snapshot is the plan's complete result or unchanged, and in what was read: exactly the keys and the policies of the rows; the cache has exactly the writes made before the failure |
| PolicyResolverModel.SnapshotServes | src/Gateway.Infrastructure/Services/PolicyResolver.cs:79-114 | the keys of a complete refresh's snapshot are exactly those of the chained rows it read, written out, and under each key is a policy in the fields of such rows |
| PolicyResolverModel.CompleteIff | src/Gateway.Infrastructure/Services/PolicyResolver.cs:76-94 | a refresh is complete if and only if no read throws and no two products have one id; services without a product are passed over unread |
| PolicyResolverModel.RequestIsServed | src/Gateway.Infrastructure/Services/PolicyResolver.cs:42-64 | after it a request for a listed method, in any case, under `/gateway`, base path and relative path of rows that were read is given a policy registered there, the one built from these rows if no others have the key, whatever was evicted |
| PolicyResolverModel.PolicyResolver.RegisterEndpoint | src/Gateway.Infrastructure/Services/PolicyResolver.cs:96-109 | one endpoint's policy is filed under each of its methods, in the dictionary and in the cache |
| PolicyResolverModel.EntriesOldOrNew | src/Gateway.Infrastructure/Services/PolicyResolver.cs:83-126 | however far a refresh got, each cache entry is its old one or a policy newly built for that key |
| PolicyResolverModel.LastWriterInTiers | src/Gateway.Infrastructure/Caching/PolicyCache.cs:85-108 | with the store up, the last registration of a key is in the store and alone in the own cache |
| PolicyResolverModel.LastWriterAgreement | src/Gateway.Infrastructure/Services/PolicyResolver.cs:83-114 | after a complete refresh every snapshot key resolves to the snapshot's value whichever tier answers and whatever was evicted, colliding endpoints included |
| PolicyResolverModel.PlanKeysAgree | src/Gateway.Infrastructure/Services/PolicyResolver.cs:85-106 | every registration's key is regenerated by its policy |
| GatewayRequestModel.JudgedAsDirect | src/Gateway.Infrastructure/Middleware/GatewayAuthorizationMiddleware.cs:46-125 | with caches that contradict neither snapshot nor database, the cached decision is the decision made without caches, whatever is missing or unreachable, unless a database read fails, and then at worst 500; the caches stay so |
| GatewayRequestModel.DirectIsRuled | src/Gateway.Infrastructure/Middleware/GatewayAuthorizationMiddleware.cs:46-125 | the decision in the request's, the policy's and the rows' own fields: 404, 401, 403 or through, each exactly when |
| GatewayRequestModel.NoRowNoEntry | src/Gateway.Data/Repositories/ClientPermissionRepository.cs:55-67 | an identified client all of whose rows for the endpoint are disabled or expired is refused with 403 |
| GatewayRequestModel.GatewayAuthorization.Invoke | src/Gateway.Infrastructure/Middleware/GatewayAuthorizationMiddleware.cs:30-125 | the verdict and the cache state of the whole middleware, failing database reads included, and its agreement with the direct decision and with the rules in the rows' own fields |
| GatewayRequestModel.GatewayAuthorization.FindClient | src/Gateway.Infrastructure/Middleware/GatewayAuthorizationMiddleware.cs:90-106 | cache, then database; only a client that exists is filed; a failing read throws |
| GatewayRequestModel.GatewayAuthorization.FindPermissions | src/Gateway.Infrastructure/Middleware/GatewayAuthorizationMiddleware.cs:108-115 | cache, then exactly the endpoints of the enabled unexpired rows of the database, filed; a failing read throws |
| GatewayRequestModel.PolicyRefreshService.RefreshClientPermissions | src/Gateway.Infrastructure/BackgroundServices/PolicyRefreshService.cs:84-109 | both tiers after the warm-up, the exact count of clients refreshed, and every client counted once |
| GatewayRequestModel.WarmedStaysCoherent | src/Gateway.Infrastructure/BackgroundServices/PolicyRefreshService.cs:88-96 | the warm-up never makes a cache contradict the database |
| GatewayRequestModel.WarmedReachesStore | src/Gateway.Infrastructure/BackgroundServices/PolicyRefreshService.cs:88-96 | with the store up, every readable client and its permissions are in it as the database has them |
| GatewayRequestModel.WarmUpServes | src/Gateway.Infrastructure/BackgroundServices/PolicyRefreshService.cs:84-100 | with the store up, under `client:` and `perm:` and its ids each readable enabled row and exactly what the permission table permits it |
| GatewayBridge.RefreshIsPlan | src/Gateway.Infrastructure/Services/PolicyResolver.cs:79-111 | a whole refresh of the protocol registers, in order, what the resolver class registers on the same reads |
| GatewayBridge.SnapshotUnstamped | src/Gateway.Infrastructure/Services/PolicyResolver.cs:83-114 | the protocol's snapshot and the class's are one map, stamps apart |
| GatewayBridge.FillIsGet | src/Gateway.Infrastructure/Caching/PolicyCache.cs:110-149 | the protocol's inward copy of a store hit is the cache class's get |
| GatewayBridge.CacheSetIsSet | src/Gateway.Infrastructure/Caching/PolicyCache.cs:151-174 | the protocol's set, its write applied at once or lost, is the cache class's set with the store up or down |
| GatewayBridge.PermissionsDecide | src/Gateway.Infrastructure/Middleware/GatewayAuthorizationMiddleware.cs:118-125 | a request that gets as far as its permissions is answered in the protocol as the middleware class decides |
| GatewayBridge.IdentityDecides | src/Gateway.Infrastructure/Middleware/GatewayAuthorizationMiddleware.cs:68-90 | so is one that fails its policy's identity checks or needs none |
| GatewayBridge.AbsenceDecides | src/Gateway.Infrastructure/Middleware/GatewayAuthorizationMiddleware.cs:49-107 | so is a health check, and a request without a policy or a client |
| GatewayUndisturbed.UndisturbedIsJudged | src/Gateway.Infrastructure/Middleware/GatewayAuthorizationMiddleware.cs:30-125 | from any state of any number of nodes with no write under way, a request can run from start to end, nothing else happening, whatever of the store and the database answers; it ends with the verdict the middleware class gives, and with its two tiers |
| GatewayUndisturbed.RunIsTyped | src/Gateway.Infrastructure/Caching/PolicyCache.cs:43-235 | in every state of every run both tiers hold under each key the kind of value it is for, as that theorem asks |
| CryptoServiceModel.RoundTripIff | src/Gateway.Infrastructure/Crypto/CryptoService.cs:31-76 | what was encrypted decrypts to itself if and only if it is at most 10485743, 10485732 or 10485711 bytes long; beyond that the answer is the size error |
| CryptoServiceModel.EncryptsIff | src/Gateway.Infrastructure/Crypto/CryptoService.cs:54-76 | encryption succeeds if and only if the key decodes to 16, 24 or 32 bytes, or with a MAC to at least 64, and the plaintext has at most 10,485,760 |
| CryptoServiceModel.DecryptsExactly | src/Gateway.Infrastructure/Crypto/CryptoService.cs:31-52 | a text decrypts to a plaintext if and only if its bytes are within the limit and are that plaintext's frame under their own IV, or a frame of no ciphertext that the decryptor itself answers with it |
| CryptoServiceModel.UnframeExact | src/Gateway.Infrastructure/Crypto/CryptoService.cs:120-291 | for all three formats, the frame is opened to a plaintext exactly when it is that plaintext's frame, or holds no ciphertext and the decryptor answers that with it |
| CryptoServiceModel.FrameIff | src/Gateway.Infrastructure/Crypto/CryptoService.cs:120-255 | the bytes of the three frames, part by part: iv or nonce, ciphertext (chained in blocks and bits, or sealed), tag or MAC over what precedes it, each with its part of the key |
| CryptoServiceModel.AcceptedHmacWire | src/Gateway.Infrastructure/Crypto/CryptoService.cs:257-291 | an accepted MAC frame is iv, ciphertext and the MAC over both, and depends on the key's first 64 bytes only |
| CryptoServiceModel.ReadableIff | src/Gateway.Infrastructure/Crypto/CryptoService.cs:19-24 | a frame fits the limit if and only if the plaintext is at most the largest readable length |
| CryptoServiceModel.EncryptAesGcm | src/Gateway.Infrastructure/Crypto/CryptoService.cs:120-147 | through pooled buffers of any length and stale contents the result is nonce, ciphertext, tag; both buffers go back cleared |
| CryptoServiceModel.DecryptAesGcm | src/Gateway.Infrastructure/Crypto/CryptoService.cs:149-174 | recovers the plaintext or the error of the specification through any pooled buffer, which goes back cleared |
| CryptoServiceModel.EncryptAesCbc | src/Gateway.Infrastructure/Crypto/CryptoService.cs:179-198 | the result is the iv and the plaintext padded and chained under it, in blocks and bits |
| CryptoServiceModel.DecryptAesCbc | src/Gateway.Infrastructure/Crypto/CryptoService.cs:200-216 | exactly the plaintext of which the data are that frame, or the error of the CBC format |
| CryptoServiceModel.EncryptAesCbcHmac | src/Gateway.Infrastructure/Crypto/CryptoService.cs:222-255 | the result is iv, chained ciphertext under the first 32 bytes of the key, and the MAC of both under the next 32 |
| CryptoServiceModel.DecryptAesCbcHmac | src/Gateway.Infrastructure/Crypto/CryptoService.cs:257-291 | exactly the plaintext of which the data are that frame, or the error of the MAC format, the MAC checked first |
| CryptoServiceModel.Encrypt | src/Gateway.Infrastructure/Crypto/CryptoService.cs:54-76 | the array code computes the specification the lemmas above are about: the text, in the alphabet of the encoding, of the frame's bytes |
| CryptoServiceModel.Decrypt | src/Gateway.Infrastructure/Crypto/CryptoService.cs:31-52 | the same for decryption, each error in its place |
| BlockMode.CbcExact | src/Gateway.Infrastructure/Crypto/CryptoService.cs:200-216 | of any ciphertext at all, CBC decryption gives a plaintext if and only if it is that plaintext's encryption, for any block permutation; of none, what the decryptor answers |
| BlockMode.CbcEncryptedIff | src/Gateway.Infrastructure/Crypto/CryptoService.cs:184-191 | a ciphertext is the encryption if and only if each block is the cipher of the padded text's block, exclusive-or'ed bit by bit with the block before it, the iv before the first |
| BlockMode.XorIff | src/Gateway.Infrastructure/Crypto/CryptoService.cs:184-191 | the exclusive or has a bit exactly where those of the two bytes differ |
| BlockMode.PaddedIff | src/Gateway.Infrastructure/Crypto/CryptoService.cs:184-191 | the padding is one to sixteen bytes that each hold their number |
| BlockMode.UnpadExact | src/Gateway.Infrastructure/Crypto/CryptoService.cs:184-191 | unpadding accepts exactly the padded texts |
| BlockMode.EncryptBlocks | src/Gateway.Infrastructure/Crypto/CryptoService.cs:190-191 | the block loop computes padded chaining, in blocks and bits of its result |
| BlockMode.DecryptBlocks | src/Gateway.Infrastructure/Crypto/CryptoService.cs:214-215 | the block loop gives a plaintext if and only if the input is that plaintext's chaining, in blocks and bits; the padding error and the decryptor's answer to no bytes |
| Codec.HexExact | src/Gateway.Infrastructure/Crypto/CryptoService.cs:101-115 | hex decoding accepts exactly the encodings, up to case |
| Codec.Base64Inverse | src/Gateway.Infrastructure/Crypto/CryptoService.cs:101-115 | Base64 decoding inverts encoding, whatever blanks were put inside |
| Codec.FromBase64String | src/Gateway.Infrastructure/Crypto/CryptoService.cs:78-107 | the decoding loop agrees with the specification on every text, errors included |
| Codec.ToBase64String | src/Gateway.Infrastructure/Crypto/CryptoService.cs:109-115 | the encoding loop computes the specified text |
| Codec.Base64TextIs | src/Gateway.Infrastructure/Crypto/CryptoService.cs:109-115 | each group of four characters holds the six-bit parts of three bytes in the alphabet of section 4 of RFC 4648, `=` where no byte is left |
| Codec.HexTextIs | src/Gateway.Infrastructure/Crypto/CryptoService.cs:109-115 | each byte is two capital digits, the high one first |
| Codec.FromHexString | src/Gateway.Infrastructure/Crypto/CryptoService.cs:78-107 | the decoding loop agrees with the specification on every text, errors included |
| Codec.ToHexString | src/Gateway.Infrastructure/Crypto/CryptoService.cs:109-115 | the encoding loop computes the specified text |
| EnvelopeModel.EnvelopeRoundTrip | src/Gateway.Infrastructure/Yarp/EncryptResponseTransform.cs:36-105 | an encrypted response sent back as a request body is replaced by the very bytes if and only if they are within the readable length, else answered 400, for every correct JSON reader |
| EnvelopeModel.EnvelopeRead | src/Gateway.Infrastructure/Yarp/DecryptTransform.cs:94-106 | the envelope gives back its field and its text whatever characters they contain, surrogate pairs included |
| EnvelopeModel.EscapedRead | src/Gateway.Infrastructure/Yarp/EncryptResponseTransform.cs:87-90 | a serialized string is read back exactly, and reading stops at its closing quote |
| EnvelopeModel.EscapedIs | src/Gateway.Infrastructure/Yarp/EncryptResponseTransform.cs:87-90 | which characters are written as they are, which with a letter, and which in one or two units of four digits |
| EnvelopeModel.ServiceTextIs | src/Gateway.Infrastructure/Yarp/EncryptResponseTransform.cs:76-86 | each algorithm of a policy gives the text of its own frame, `NONE` the body's own text |
| EnvelopeModel.ServiceBytesIff | src/Gateway.Infrastructure/Yarp/DecryptTransform.cs:127-140 | and reads back its own frame only |
| EnvelopeModel.Transforms.EncryptResponse | src/Gateway.Infrastructure/Yarp/EncryptResponseTransform.cs:36-105 | the body the caller gets, from the caches' profile only, an object of one member `data` holding the text of the policy's algorithm, and the cache afterwards |
| EnvelopeModel.Transforms.DecryptRequest | src/Gateway.Infrastructure/Yarp/DecryptTransform.cs:42-164 | the body forwarded, which may be one already read to its end, or the 400, and the cache afterwards with a profile from the database filed |
| ProxyConfigModel.CompileSound | src/Gateway.Infrastructure/Yarp/DatabaseProxyConfigProvider.cs:58-131 | every policy has a route under its id, every route names a built cluster, every cluster is used, each from one of the policies |
| ProxyConfigModel.CompiledIs | src/Gateway.Infrastructure/Yarp/DatabaseProxyConfigProvider.cs:58-145 | every route in the fields of one policy's rows: path, methods, the upstream template if there is one and else the relative path, cluster, metadata; every cluster in those of its service, with all its addresses |
| ProxyConfigModel.OrderIndependentIff | src/Gateway.Infrastructure/Yarp/DatabaseProxyConfigProvider.cs:55-133 | all enumeration orders give one outcome if and only if, every destination list being readable, equal ids build equal routes and clusters, or, some list being unreadable, no choice of first policies has a readable list for each of its clusters |
| ProxyConfigModel.ConsistentIsOrderIndependent | src/Gateway.Infrastructure/Yarp/DatabaseProxyConfigProvider.cs:55-133 | consistent policies compile alike, or fail alike, in every order, readable or not |
| ProxyConfigModel.DistinctIdsOrderIndependent | src/Gateway.Infrastructure/Yarp/DatabaseProxyConfigProvider.cs:55-133 | distinct route ids and one service per cluster id make the result independent of order |
| ProxyConfigModel.CoverageIff | src/Gateway.Infrastructure/Yarp/DatabaseProxyConfigProvider.cs:64-124 | in every order of the dictionary that compiles every snapshot key is served by a route of its id, if and only if every viable choice of one policy per route id serves every key |
| ProxyConfigModel.ReadableCoverageIff | src/Gateway.Infrastructure/Yarp/DatabaseProxyConfigProvider.cs:64-124 | with readable destination lists that is so if and only if any two policies of one route id serve each other's keys |
| ProxyConfigModel.RouteCoversKey | src/Gateway.Infrastructure/Yarp/DatabaseProxyConfigProvider.cs:64-124 | with injective route ids, every snapshot key is regenerated by its endpoint's own route: its path and, up to case, one of its methods |
| ProxyConfigModel.DestinationsComplete | src/Gateway.Infrastructure/Yarp/DatabaseProxyConfigProvider.cs:152-162 | every address is kept in a slot of its own, and there is no other slot |
| ProxyConfigModel.DatabaseProxyConfigProvider.RefreshConfig | src/Gateway.Infrastructure/Yarp/DatabaseProxyConfigProvider.cs:43-145 | the configuration becomes the compiled one, in the fields of the rows, or stays as it was when a destination list cannot be read |
| ProxyConfigModel.DatabaseProxyConfigProvider.BuildClusterConfig | src/Gateway.Infrastructure/Yarp/DatabaseProxyConfigProvider.cs:150-162 | the indexed loop builds the complete destination map |
| Substitution.SequentialIsSimultaneous | src/Gateway.Infrastructure/Yarp/HeaderTransform.cs:102-122 | successive replacements equal one left-to-right substitution for every template that begins no later placeholder just before an earlier one and values that neither hold nor begin a later placeholder |
| Substitution.TemplateSafeIff | src/Gateway.Infrastructure/Yarp/HeaderTransform.cs:109-121 | for distinct brace-free names, the two are equal for all values without an opening brace if and only if the template nowhere has an opening brace, the beginning of a later name and an earlier placeholder in a row |
| Substitution.FlatIsSafe | src/Gateway.Infrastructure/Yarp/HeaderTransform.cs:109-121 | a template that closes each brace before it opens the next is such a template, for any brace-free names |
| Substitution.HarmlessIff | src/Gateway.Infrastructure/Yarp/HeaderTransform.cs:109-121 | a value changes nothing between the two, over all such templates and all other values without an opening brace, if and only if it neither holds a later placeholder nor ends in the beginning of one |
| HeaderTransformModel.UnsafeTemplate | src/Gateway.Infrastructure/Yarp/HeaderTransform.cs:109-121 | a concrete failing template: `{{ClientId}` begins a later placeholder just before an earlier one, and values without an opening brace make the two differ |
| HeaderTransformModel.LateValuesHarmless | src/Gateway.Infrastructure/Yarp/HeaderTransform.cs:116-119 | of the four, a trace id is harmless unless it holds or begins a timestamp placeholder, and a timestamp always is |
| Substitution.ValuesMustNotOpen | src/Gateway.Infrastructure/Yarp/HeaderTransform.cs:112-119 | a concrete failing input: a value that spells a later placeholder is substituted again, so the two differ |
| Substitution.OneFilled | src/Gateway.Infrastructure/Yarp/HeaderTransform.cs:109-121 | one placeholder between texts without an opening brace gives way to its own value, and nothing else changes |
| HeaderTransformModel.ResolveHeaderValue | src/Gateway.Infrastructure/Yarp/HeaderTransform.cs:102-122 | the method with its early return computes the four replacements: each of the four placeholders gives way to the caller's own value, an absent claim being `unknown`; and the simultaneous substitution for a safe template and values that do not open a later placeholder |
| HeaderTransformModel.ApplyHeaders | src/Gateway.Infrastructure/Yarp/HeaderTransform.cs:79-88 | for every name, the values after adding in order and then removing up to case; a removal the headers refuse throws and ends it there |
| HeaderTransformModel.RemoveHeaders | src/Gateway.Infrastructure/Yarp/HeaderTransform.cs:85-88 | the names before the first refused one are removed, up to case, and it throws if and only if one is refused |
| HeaderTransformModel.TransformHeaders | src/Gateway.Infrastructure/Yarp/HeaderTransform.cs:41-92 | for every name, the values after the whole transform and exactly when it throws; under their own names the gateway's four headers, the subject before the client id, and each policy header with its template filled in, unless the policy removes them |
| HeaderTransformModel.RemovedIff | src/Gateway.Infrastructure/Yarp/HeaderTransform.cs:85-88 | a header is removed if and only if some removed name is its own up to case |
| SeedGeneratorModel.SlugifyFixes | scripts/import_swagger_seed.py:29-32 | slugs are exactly the fixed points, so slugify is idempotent |
| SeedGeneratorModel.SlugifyGivesSlug | scripts/import_swagger_seed.py:29-32 | the output is alphanumeric runs joined by single hyphens |
| SeedGeneratorModel.SlugifyKeepsLetters | scripts/import_swagger_seed.py:29-32 | the ASCII letters and digits of the value are kept, in order, lower-cased |
| SeedGeneratorModel.QuoteLexes | scripts/import_swagger_seed.py:35-36 | a standard lexer reads the quoted text as one literal of the value if and only if no quote follows |
| SeedGeneratorModel.BuildEndpoints | scripts/import_swagger_seed.py:78-107 | one entry per (path, allowed method) pair, in document order, named by slug and occurrence |
| SeedGeneratorModel.AllowedIff | scripts/import_swagger_seed.py:84-86 | the methods kept are the seven, in any case |
| SeedGeneratorModel.ListingIff | scripts/import_swagger_seed.py:82-87 | what is listed is every operation of such a method, under its own path |
| SeedGeneratorModel.SeedIsEntry | scripts/import_swagger_seed.py:87-105 | an entry has its operation's path and method, and the slug of its id, else its summary, else method and path, the first time the slug occurs |
| SeedGeneratorModel.AddEndpoint | scripts/import_swagger_seed.py:86-105 | one operation's entry, with the running name counts exact |
| SeedGeneratorModel.DistinctIff | scripts/import_swagger_seed.py:90-96 | the names before truncation are pairwise distinct if and only if no plain slug equals a numbered one |
| SeedGeneratorModel.SeedNamesDistinctIff | scripts/import_swagger_seed.py:100-237 | the stored, truncated names are distinct, as the upsert's conflict target needs, if and only if no two operations collide, told from their slugs and occurrence numbers alone |
| SeedGeneratorModel.DifferentSlugsCollideIff | scripts/import_swagger_seed.py:93-100 | operations of different slugs get one stored name if and only if an unnumbered one's slug is the other's with its number, or both slugs begin with the same 100 characters, or the first 100 of one are the other, a hyphen and the beginning of its number |
| SeedGeneratorModel.NamesakesCollideIff | scripts/import_swagger_seed.py:93-100 | two operations of one slug get one stored name if and only if the slug has 100 characters or both are numbered and their numbers agree on the digits there is room for |
| SeedGeneratorModel.LongNamesCollide | scripts/import_swagger_seed.py:100 | namesakes of 100 characters or more always collide |
| SeedGeneratorModel.NameNotEmpty | scripts/import_swagger_seed.py:89-92 | every kept operation gets a non-empty slug |
| IpValidationModel.PatternIsDottedQuad | src/gateway-portal-developer/lib/utils/ipValidation.ts:10-14 | the regular expression matches exactly four dot-separated runs of one to three digits, each of value at most 255 |
| IpValidationModel.AddressIsNotRange | src/gateway-portal-developer/lib/utils/ipValidation.ts:21-30 | no text is both an address and a range |
| IpValidationModel.RangeAccepted | src/gateway-portal-developer/lib/utils/ipValidation.ts:21-30 | an address with a prefix length up to 32 is accepted, and so is any slash-free text after it that does not continue the number: one family of the next row |
| IpValidationModel.RangeIff | src/gateway-portal-developer/lib/utils/ipValidation.ts:21-30 | a text is accepted as a range if and only if it is an address, a slash, blanks, a sign, digits of value at most 32 (zero after a minus) and a slash-free rest that does not begin with a digit |
| IpValidationModel.OddRanges | src/gateway-portal-developer/lib/utils/ipValidation.ts:21-30 | concrete texts: `1.2.3.4/8x` and `1.2.3.4/ +008` are accepted, `1.2.3.4/-8` and `1.2.3.4/8/9` are not |
| IpValidationModel.CanonicalIff | src/gateway-portal-developer/lib/utils/ipValidation.ts:21-30 | an accepted text is an address with a plain prefix length if and only if what follows the slash is digits without a leading zero |
| IpValidationModel.ValidateIPList | src/gateway-portal-developer/lib/utils/ipValidation.ts:70-90 | each input goes to exactly one list, trimmed: to the valid ones if and only if it is an address or a range, not both, else to the others with its own error |
| IpValidationModel.PartitionKeepsOrder | src/gateway-portal-developer/lib/utils/ipValidation.ts:77-87 | each input's place in its list is the number of earlier inputs of the same fate |
| CatalogueModel.CatalogueIsJoin | src/Gateway.Middleware.Api/Endpoints/PublicEndpointsEndpoints.cs:28-65 | the flattened nested selection contains exactly the relational join of enabled products, services and endpoints |
| CatalogueModel.CatalogueListsOnce | src/Gateway.Middleware.Api/Endpoints/PublicEndpointsEndpoints.cs:33-65 | with unique ids, each qualifying endpoint is listed exactly once |
| CatalogueModel.SnapshotInCatalogue | src/Gateway.Infrastructure/Services/PolicyResolver.cs:79-111 | every endpoint of a snapshot built from the same tables is in the catalogue |
| CatalogueModel.SnapshotIsCatalogue | src/Gateway.Infrastructure/Services/PolicyResolver.cs:79-111 | with distinct route keys and non-empty method lists the two sets of endpoints are equal |
| CatalogueModel.DisabledIsGone | src/Gateway.Data/Repositories/Entities/EndpointEntityRepository.cs:148-154 | an endpoint disabled in the table is in no catalogue and under no key of a snapshot built from it afterwards |
| CatalogueModel.DisableEndpoint | src/Gateway.Middleware.Api/Endpoints/EndpointsEndpoints.cs:109-113 | the delete handler leaves every other row as it was and the endpoint in no catalogue and no snapshot built afterwards |
| EndpointUpdateModel.OverridesAreLastGiven | src/Gateway.Middleware.Api/Endpoints/EndpointsEndpoints.cs:69-127 | after any run of PUTs each crypto override is the last value given that parsed, else what it was |
| EndpointUpdateModel.ColumnsAreLastGiven | src/Gateway.Middleware.Api/Endpoints/EndpointsEndpoints.cs:69-127 | after any run of PUTs every other column is the last value its own field gave, else what it was |
| EndpointUpdateModel.EnabledIsLastGiven | src/Gateway.Middleware.Api/Endpoints/EndpointsEndpoints.cs:87 | after any run of PUTs an endpoint is enabled as last given, so a disabled one stays disabled until one enables it |
| EndpointUpdateModel.NeverNullAgain | src/Gateway.Data/Repositories/Entities/EndpointEntityRepository.cs:90-117 | an override once present stays present |
| EndpointUpdateModel.IndependentIffAllSet | src/Gateway.Infrastructure/Services/PolicyResolver.cs:131-136 | the configuration in effect ignores the service defaults if and only if every override is present |
| EndpointUpdateModel.DefaultsNeverReturn | src/Gateway.Infrastructure/Services/PolicyResolver.cs:129-136 | once all overrides are set no later updates bring the service defaults back |
| EndpointUpdateModel.EndpointTable.Put | src/Gateway.Middleware.Api/Endpoints/EndpointsEndpoints.cs:69-106 | each column of the row from its own field of the request, 404 for a missing row, and no other row changed |
| EndpointUpdateModel.EndpointTable.UpdateRow | src/Gateway.Data/Repositories/Entities/EndpointEntityRepository.cs:90-146 | nullable columns keep their value where the entity has null |
| EndpointUpdateModel.EndpointTable.Disable | src/Gateway.Data/Repositories/Entities/EndpointEntityRepository.cs:148-154 | only the enabled flag of the named row changes, and the answer says whether there was one |

## Left out

- GatewayTheorems.PolicyFreshness: takes the snapshot age and the size of a refresh as bounds, since nothing in the code limits them when refreshes keep failing.
- GatewayRequestModel.GatewayAuthorization.Invoke: runs at one instant against one database state; interleaving is in the protocol.
- GatewayUndisturbed.UndisturbedIsJudged: takes every insertion as kept, since an own cache that drops one is an eviction in the protocol.
- Codec.Base64Inverse: the decoder, like the one it models, ignores surplus bits of the last group, so other texts decode to the same bytes.
- Clocks: all nodes and the store share one clock; skew is not modelled.
- JSON reading and writing of cached values, destination lists, header rules, scopes and allowed clients: cached values are taken to survive it, the destination reader is a parameter, the other lists are not part of a policy here.
- Letters beyond ASCII: upper- and lower-casing is ASCII, and blanks are the Latin-1 ones (of those, U+0085 is taken as blank everywhere).
- AES, SHA-256 and GCM themselves, the random number generator and constant-time comparison: parameters with functional correctness only.
- What the library's decryptor answers to no ciphertext at all is a parameter, as are the names the request headers refuse.
- The pass-through algorithm `NONE`: its UTF-8 conversions are a parameter and no round trip is claimed for it.
- Any other JSON body than what a reader says of its one member.
- Cluster settings other than destinations and the fields copied through (session affinity, health checks, circuit breaker and retry metadata).
- Endpoint columns that only pass through an update the way the modelled ones do (size limits, idempotency, headers, rate limit policy), the POST handler and the enumeration parsers themselves.
- The timer, host start-up, logging, event publishing and the last-access update.
- JWT validation, the proxy's own matching and forwarding, rate limiting, telemetry and the message bus.
- A failed decryption is answered with 400; whether the proxy still forwards is not modelled.
- The rest of the seed script (fetching documents, base paths, printing the file) and the organisation, approval and tenant endpoints.
- The portal's pages, components and HTTP clients.
