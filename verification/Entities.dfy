/** The registry's rows and the runtime policy built from them. */
module Entities {
  import opened Wrappers

  /** A `Guid` in its canonical text form: 36 characters, none of them a colon. */
  type Guid = s: string | |s| == 36 && ':' !in s
    witness "00000000-0000-0000-0000-000000000000"

  datatype CryptoAlgorithm = NONE | AES_128_CBC | AES_256_GCM | AES_256_CBC_HMAC
  datatype KeySource = UserProfileKey | ServiceKey | EndpointKey
  datatype IvSource = UserProfileIv | ServiceIv | EndpointIv
  datatype Encoding = Base64 | Hex
  datatype PayloadExpectation = Encrypted | Decrypted | Plain

  datatype Product = Product(id: Guid, name: string, isEnabled: bool)

  datatype CryptoDefaults = CryptoDefaults(
    algorithm: CryptoAlgorithm, keySource: KeySource, ivSource: IvSource, encoding: Encoding, requireIv: bool)

  /** The cluster settings that are copied through unexamined. */
  datatype ClusterTuning = ClusterTuning(loadBalancingPolicy: string, requestTimeoutSeconds: nat)

  datatype Service = Service(
    id: Guid, productId: Guid, serviceName: string, basePath: string, isEnabled: bool,
    clusterId: string, destinations: string, tuning: ClusterTuning,
    requiresJwt: bool, defaults: CryptoDefaults)

  /** An endpoint's own crypto settings; an absent one falls back to the service's default. */
  datatype CryptoOverrides = CryptoOverrides(
    algorithm: Option<CryptoAlgorithm>, keySource: Option<KeySource>, ivSource: Option<IvSource>,
    encoding: Option<Encoding>, requireIv: Option<bool>)

  datatype Endpoint = Endpoint(
    id: Guid, serviceId: Guid, endpointName: string,
    httpMethod: string,  // comma-separated: "GET,POST"
    relativePath: string, upstreamPathTemplate: Option<string>, isEnabled: bool,
    payloadExpectation: PayloadExpectation, timeoutMs: int, maxRetries: int,
    crypto: CryptoOverrides, encryptRequest: bool, encryptResponse: bool)

  datatype Client = Client(id: Guid, clientId: string, isEnabled: bool)

  datatype ClientPermission = ClientPermission(
    clientId: Guid, endpointId: Guid, isEnabled: bool, expiresAt: Option<nat>)

  datatype UserProfile = UserProfile(
    userId: string, serviceId: Option<Guid>, encryptionKey: string, encryptionIv: Option<string>)

  datatype CryptoConfig = CryptoConfig(
    algorithm: CryptoAlgorithm, keySource: KeySource, ivSource: IvSource, encoding: Encoding, requireIv: bool)

  datatype EndpointPolicy = EndpointPolicy(
    product: Product, service: Service, endpoint: Endpoint, cryptoConfig: CryptoConfig,
    payloadExpectation: PayloadExpectation, timeoutMs: int, maxRetries: int, requiresJwt: bool,
    encryptRequest: bool, encryptResponse: bool)

  /** The tables the gateway reads, each in the row order a query returns. */
  datatype Database = Database(
    products: seq<Product>, services: seq<Service>, endpoints: seq<Endpoint>,
    clients: seq<Client>, permissions: seq<ClientPermission>)
}
