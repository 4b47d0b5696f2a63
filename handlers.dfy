/**
 * The request handlers: the GET and POST relays (validation, chain,
 * failover) and the top-level dispatch that puts the `/apple` route before
 * the rate limiter and everything else after it.
 */
module Handlers {
  import opened Types
  import opened Selection
  import opened Chain
  import opened Upstream
  import opened Validation
  import opened RateLimiting

  /** What the GET handler yields for a `dns` parameter, draws and network. */
  function GetOutcome(dns: Option<string>, headDraw: int, filterDraws: seq<int>, network: Network): (r: Attempted)
    requires |filterDraws| == |UpstreamDnsProviders|
    ensures r.attempts == 0 <==> CheckDnsParam(dns).Some?
    ensures r.attempts == 0 ==> r.outcome == Err(CheckDnsParam(dns).value)
    ensures r.attempts <= |UpstreamDnsProviders| + 1
    ensures r.outcome.Ok? ==> IsOkStatus(r.outcome.value.status)
    ensures CheckDnsParam(dns).None? ==> r == Relay(CandidateChain(UpstreamDnsProviders, headDraw, filterDraws), network)
    ensures 0 < r.attempts && r.outcome.Err? ==> r.outcome.error == AllUpstreamsFailed
  {
    match CheckDnsParam(dns)
    case Some(failure) => Attempted(Err(failure), 0, 0)
    case None =>
      var chain := CandidateChain(UpstreamDnsProviders, headDraw, filterDraws);
      CandidateChainShape(UpstreamDnsProviders, headDraw, filterDraws);
      RelayStopsAtFirstSuccess(chain, network);
      Relay(chain, network)
  }

  /** What the POST handler yields for a Content-Type, body, draws and network. */
  function PostOutcome(contentType: Option<string>, body: seq<byte>, headDraw: int, filterDraws: seq<int>, network: Network): (r: Attempted)
    requires |filterDraws| == |UpstreamDnsProviders|
    ensures r.attempts == 0 <==> CheckPostRequest(contentType, body).Some?
    ensures r.attempts == 0 ==> r.outcome == Err(CheckPostRequest(contentType, body).value)
    ensures r.attempts <= |UpstreamDnsProviders| + 1
    ensures r.outcome.Ok? ==> IsOkStatus(r.outcome.value.status)
    ensures CheckPostRequest(contentType, body).None? ==>
      r == Relay(CandidateChain(UpstreamDnsProviders, headDraw, filterDraws), network)
    ensures 0 < r.attempts && r.outcome.Err? ==> r.outcome.error == AllUpstreamsFailed
  {
    match CheckPostRequest(contentType, body)
    case Some(failure) => Attempted(Err(failure), 0, 0)
    case None =>
      var chain := CandidateChain(UpstreamDnsProviders, headDraw, filterDraws);
      CandidateChainShape(UpstreamDnsProviders, headDraw, filterDraws);
      RelayStopsAtFirstSuccess(chain, network);
      Relay(chain, network)
  }

  /** Validate the `dns` parameter, build the chain, then fail over along it. */
  method HandleGetRequest(dns: Option<string>, headDraw: int, filterDraws: seq<int>, network: Network) returns (r: Attempted)
    requires |filterDraws| == |UpstreamDnsProviders|
    ensures r == GetOutcome(dns, headDraw, filterDraws, network)
  {
    if dns.None? || dns.value == "" {
      return Attempted(Err(MissingDnsParameter), 0, 0);
    }
    if !IsValidBase64Url(dns.value) {
      return Attempted(Err(InvalidDnsParameterFormat), 0, 0);
    }
    var head := SelectProvider(UpstreamDnsProviders, headDraw);
    var providersToTry := [head] + Filtered(UpstreamDnsProviders, UpstreamDnsProviders, filterDraws);
    r := Failover(providersToTry, network);
  }

  /** Check the Content-Type and the body size, build the chain, then fail over along it. */
  method HandlePostRequest(contentType: Option<string>, body: seq<byte>, headDraw: int, filterDraws: seq<int>, network: Network)
    returns (r: Attempted)
    requires |filterDraws| == |UpstreamDnsProviders|
    ensures r == PostOutcome(contentType, body, headDraw, filterDraws, network)
  {
    if contentType != Some(DnsMessageContentType) {
      return Attempted(Err(InvalidContentType), 0, 0);
    }
    if |body| == 0 || |body| > MaxDnsMessageSize {
      return Attempted(Err(InvalidMessageSize), 0, 0);
    }
    var head := SelectProvider(UpstreamDnsProviders, headDraw);
    var providersToTry := [head] + Filtered(UpstreamDnsProviders, UpstreamDnsProviders, filterDraws);
    r := Failover(providersToTry, network);
  }

  /** The parts of an incoming request the relay looks at. */
  datatype Request = Request(
    path: string,
    verb: string,                  // the HTTP method
    connectingIp: Option<string>,  // the CF-Connecting-IP header
    dns: Option<string>,           // the decoded `dns` query parameter
    contentType: Option<string>,   // the Content-Type header
    body: seq<byte>)

  /** The replies the relay gives; headers are left out. */
  datatype Reply =
    | AppleProfile                             // the configuration profile download
    | RateLimited                              // 429 with a fixed Retry-After of 60 seconds
    | Preflight                                // 204 CORS preflight
    | MethodNotAllowed                         // 405, Allow: GET, POST, OPTIONS
    | Relayed(response: UpstreamResponse)      // the upstream status and body
    | QueryFailed(failure: Failure)            // 500, "DNS query failed: " and the failure's message
    | HomePage                                 // the HTML status page

  /** The status of a reply: the upstream's own for a relayed answer, a fixed one otherwise. */
  function StatusCode(r: Reply): (code: int)
    ensures r.Relayed? ==> code == r.response.status
    ensures !r.Relayed? ==> (IsOkStatus(code) <==> r.AppleProfile? || r.Preflight? || r.HomePage?)
    ensures r.QueryFailed? ==> code == 500
    ensures r.Preflight? ==> code == 204
    ensures r.AppleProfile? || r.HomePage? ==> code == 200
  {
    match r
    case AppleProfile => 200
    case RateLimited => 429
    case Preflight => 204
    case MethodNotAllowed => 405
    case Relayed(response) => response.status
    case QueryFailed(_) => 500
    case HomePage => 200
  }

  /** The handler a GET or POST request reaches. */
  function HandlerOutcome(req: Request, headDraw: int, filterDraws: seq<int>, network: Network): (r: Attempted)
    requires |filterDraws| == |UpstreamDnsProviders|
    ensures r.outcome.Ok? ==> IsOkStatus(r.outcome.value.status)
  {
    if req.verb == "GET" then GetOutcome(req.dns, headDraw, filterDraws, network)
    else PostOutcome(req.contentType, req.body, headDraw, filterDraws, network)
  }

  /**
   * The reply for a path and method, given the rate limiter's verdict and the
   * outcome of the GET or POST handler (used only when one of them runs).
   */
  function Dispatch(path: string, verb: string, admitted: bool, handled: Attempted): (r: Reply)
    requires handled.outcome.Ok? ==> IsOkStatus(handled.outcome.value.status)
    ensures r == AppleProfile <==> path == "/apple"
    ensures r == Preflight <==> path == "/dns-query" && admitted && verb == "OPTIONS"
    ensures r == HomePage <==> path != "/apple" && path != "/dns-query" && admitted
    ensures StatusCode(r) == 429 <==> path != "/apple" && !admitted
    ensures StatusCode(r) == 405 <==>
      path == "/dns-query" && admitted && verb != "GET" && verb != "POST" && verb != "OPTIONS"
    ensures StatusCode(r) == 500 <==>
      path == "/dns-query" && admitted && (verb == "GET" || verb == "POST") && handled.outcome.Err?
    ensures r.Relayed? <==>
      path == "/dns-query" && admitted && (verb == "GET" || verb == "POST") && handled.outcome.Ok?
    ensures r.Relayed? ==> r.response == handled.outcome.value && IsOkStatus(StatusCode(r))
    ensures r.QueryFailed? ==> r.failure == handled.outcome.error
    ensures StatusCode(r) != 400
  {
    if path == "/apple" then AppleProfile
    else if !admitted then RateLimited
    else if path == "/dns-query" then
      if verb == "OPTIONS" then Preflight
      else if verb == "GET" || verb == "POST" then
        match handled.outcome
        case Ok(response) => Relayed(response)
        case Err(failure) => QueryFailed(failure)
      else MethodNotAllowed
    else HomePage
  }

  /** Serve one request at time `now`, with the given draws and network. */
  method HandleRequest(limiter: RateLimiter, req: Request, now: int, headDraw: int, filterDraws: seq<int>, network: Network)
    returns (reply: Reply, attempts: nat)
    requires limiter.Valid()
    requires |filterDraws| == |UpstreamDnsProviders|
    modifies limiter
    ensures limiter.Valid()
    ensures req.path == "/apple" ==> limiter.entries == old(limiter.entries)
    ensures req.path != "/apple" ==>
      limiter.entries == Admit(old(limiter.entries), ClientKey(req.connectingIp), now).entries
    ensures reply == Dispatch(req.path, req.verb,
      req.path == "/apple" || Admit(old(limiter.entries), ClientKey(req.connectingIp), now).admitted,
      HandlerOutcome(req, headDraw, filterDraws, network))
    ensures attempts == (if reply.Relayed? || reply.QueryFailed? then HandlerOutcome(req, headDraw, filterDraws, network).attempts else 0)
  {
    if req.path == "/apple" {
      return AppleProfile, 0;
    }
    var clientIp := ClientKey(req.connectingIp);
    var admitted := limiter.CheckRateLimit(clientIp, now);
    if !admitted {
      return RateLimited, 0;
    }
    if req.path == "/dns-query" {
      if req.verb == "OPTIONS" {
        return Preflight, 0;
      }
      var dnsResponse: Attempted;
      if req.verb == "GET" {
        dnsResponse := HandleGetRequest(req.dns, headDraw, filterDraws, network);
      } else if req.verb == "POST" {
        dnsResponse := HandlePostRequest(req.contentType, req.body, headDraw, filterDraws, network);
      } else {
        return MethodNotAllowed, 0;
      }
      match dnsResponse.outcome {
        case Ok(response) => reply := Relayed(response);
        case Err(failure) => reply := QueryFailed(failure);
      }
      return reply, dnsResponse.attempts;
    }
    return HomePage, 0;
  }
}
