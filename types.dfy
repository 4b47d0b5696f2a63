/**
 * Values shared by every part of the relay: its constants, the provider
 * registry, what an upstream attempt can yield and the errors a handler
 * throws.
 */
module Types {

  newtype byte = x: int | 0 <= x < 256

  datatype Option<T> = None | Some(value: T)

  datatype Result<T, E> = Ok(value: T) | Err(error: E)

  function Min(a: int, b: int): int { if a <= b then a else b }

  // Constants of the relay.
  const RequestTimeoutMs: nat := 10000
  const RateLimitRequests: nat := 100
  const RateLimitWindowMs: nat := 60000

  /** Largest POST body the relay forwards, the UDP message size limit of RFC 1035 section 2.3.4. */
  const MaxDnsMessageSize: nat := 512
  const DnsMessageContentType: string := "application/dns-message"

  /** An upstream DoH resolver: display name, endpoint and selection weight. */
  datatype Provider = Provider(name: string, url: string, weight: int)

  /** The static registry, in its declared order. */
  const UpstreamDnsProviders: seq<Provider> := [
    Provider("Cloudflare", "https://cloudflare-dns.com/dns-query", 25),
    Provider("Google", "https://dns.google/dns-query", 20),
    Provider("Quad9", "https://dns.quad9.net/dns-query", 20),
    Provider("OpenDNS", "https://doh.opendns.com/dns-query", 10),
    Provider("DNS4EU", "https://dns.dns4.eu/dns-query", 15),
    Provider("AdGuard", "https://dns.adguard-dns.com/dns-query", 15)
  ]

  predicate PositiveWeights(ps: seq<Provider>)
  {
    forall i :: 0 <= i < |ps| ==> ps[i].weight > 0
  }

  /** No two registry entries share an endpoint, so a URL identifies a provider. */
  predicate DistinctUrls(ps: seq<Provider>)
  {
    forall i, j :: 0 <= i < j < |ps| ==> ps[i].url != ps[j].url
  }

  /** What an upstream resolver answered: an HTTP status and an opaque DNS message. */
  datatype UpstreamResponse = UpstreamResponse(status: int, body: seq<byte>)

  /** `Response.ok`: the status is in the 2xx range. */
  predicate IsOkStatus(status: int)
  {
    200 <= status <= 299
  }

  /**
   * The outcome of one `fetch`: a response with some status, or a rejection
   * (network error, or the abort that the per-attempt timer fires).
   */
  datatype FetchResult = Responded(response: UpstreamResponse) | Rejected

  /** The errors the GET and POST handlers throw. */
  datatype Failure =
    | MissingDnsParameter
    | InvalidDnsParameterFormat
    | InvalidContentType
    | InvalidMessageSize
    | AllUpstreamsFailed

  lemma RegistryWellFormed()
    ensures |UpstreamDnsProviders| == 6
    ensures PositiveWeights(UpstreamDnsProviders)
    ensures DistinctUrls(UpstreamDnsProviders)
  {
  }
}
