# DoH relay core, modelled in Dafny

This project models the request path of a DNS-over-HTTPS relay that runs as
an edge worker (`worker.js`). The relay accepts DNS queries as
`GET /dns-query?dns=<base64url>` or `POST /dns-query` with a raw
`application/dns-message` body. It admits each client through a
fixed-window rate limiter (100 requests per 60 s per connecting IP). It
validates the query, then picks an upstream resolver by weight from a
registry of six. If that resolver fails, it falls back to the others one
after another.

Clock, randomness and network become parameters:

- `now` is the millisecond clock reading given to the rate limiter.
- `Math.random() * totalWeight` becomes an integer draw. Each call of the
  selection takes its own draw: one for the chain head, and one per
  registry element inside the `filter` callback.
- `fetch` becomes a `Network` oracle. It is a function from (attempt
  number, provider) to an `Answer`: a delay in milliseconds, and either a
  response or a rejection. An answer that is not in before the 10 000 ms
  abort timer counts as a rejection.

Files, one module each:

- `types.dfy` (`Types`): constants, the provider registry, upstream
  responses, the handlers' error kinds.
- `selection.dfy` (`Selection`): the cumulative-weight walk.
- `chain.dfy` (`Chain`): the candidate chain as the code builds it.
- `upstream.dfy` (`Upstream`): sequential failover with per-attempt
  timeouts.
- `chain_design.dfy` (`ChainDesign`): the code's chain compared with a
  one-draw chain.
- `validation.dfy` (`Validation`): the GET and POST checks.
- `rate_limiter.dfy` (`RateLimiting`): the limiter map and its class.
- `handlers.dfy` (`Handlers`): the GET/POST handlers and the top-level
  dispatch.

## Where the code departs from its evident intent (the model follows the code)

- **Validation errors give 500, not 400.** A failed validation throws inside
  the `try`, so it becomes a 500 reply (worker.js:67-68). `Handlers.Dispatch`
  proves that status 400 never occurs.
- **Retry-After is fixed.** It is always `60` (worker.js:38). It is not
  computed from the window end.
- **The selection falls back to the first provider.** When the walk runs off
  the end it returns `providers[0]` (worker.js:95), not the last provider.
  For draws below the total weight this fallback is unreachable
  (`Selection.WalkStaysInRange`).
- **The candidate chain is not a permutation.** The filter at worker.js:103
  calls the selection again for every registry element. So the tail drops
  whichever element the *current* draw lands on, not the head. As a result
  the chain can:
  - repeat the head and leave a provider out
    (`ChainDesign.AsWrittenChainRepeatsAndOmits`);
  - hold seven candidates for six providers
    (`ChainDesign.AsWrittenChainLongerThanRegistry`);
  - make the relay fail while a healthy provider exists
    (`ChainDesign.AsWrittenRelayMissesHealthyProvider`).

  The chain the failover is evidently meant to walk is one weighted draw,
  then every other provider once, in registry order. It is modelled as
  `ChainDesign.SingleDrawChain`. It is proved to be a permutation
  (`ChainDesign.SingleDrawChainIsPermutation`) and to reach any healthy
  provider (`ChainDesign.SingleDrawRelayReachesHealthyProvider`). The
  handlers use the chain the code builds.
- **Counts stay between 1 and 100.** They never reach 0: an entry is created
  with count 1 and rejected requests do not increment it.

## Model

| member | source | states |
|---|---|---|
| Types.RegistryWellFormed | worker.js:3-10 | the registry has six providers, all weights are positive and no two share an endpoint URL |
| Selection.WalkIndex | worker.js:88-94 | the walk stops at the first provider i whose cumulative weight w0+...+wi exceeds the draw; it runs off the end only if no prefix sum exceeds it |
| Selection.SelectProvider | worker.js:88-96 | the loop that subtracts each weight from the draw returns the provider where the walk stops, or providers[0] when it runs off the end; the result is always a member of the list |
| Selection.Select | worker.js:88-96 | the selection always returns a registry provider: the one where the walk stops, or providers[0] exactly when no cumulative weight exceeds the draw |
| Selection.WalkStaysInRange | worker.js:89-95 | for any draw below the total weight the walk stops inside the list, so the providers[0] fallback is never taken |
| Selection.SelectedInterval | worker.js:89-94 | with positive weights, provider i is chosen exactly by the draws r with w0+...+w(i-1) <= r < w0+...+wi |
| Selection.SelectionProportionalToWeight | worker.js:88-96 | of the total-weight many integer draws, exactly weight_i select provider i, so selection is proportional to weight |
| Chain.Filtered | worker.js:103 | the filter with one fresh selection per callback never yields more elements than it is given |
| Chain.CandidateChain | worker.js:103 | the chain is never empty, starts with the head pick and has at most n+1 candidates |
| Chain.FilteredShape | worker.js:103 | the filter keeps the registry order, keeps every element whose own selection draw lands on another URL, and keeps nothing else |
| Chain.CandidateChainShape | worker.js:103 | the chain is one weighted pick followed by an in-order subsequence of the registry; its length is between 1 and n+1 and every candidate is a registry provider |
| ChainDesign.AgreeingDrawsGiveSingleDrawChain | worker.js:103 | when every filter draw selects the head's URL, the chain is the head followed by all other providers in order |
| ChainDesign.SingleDrawChainIsPermutation | worker.js:103 | with distinct URLs the one-draw chain is a permutation of the registry with no repeated URL |
| ChainDesign.SingleDrawRelayReachesHealthyProvider | worker.js:103-128 | with the one-draw chain, one provider that always answers ok makes the relay succeed within n attempts |
| ChainDesign.AsWrittenChainRepeatsAndOmits | worker.js:103 | head draw 0 and filter draws of 25 give a chain with Cloudflare twice and without Google |
| ChainDesign.AsWrittenChainLongerThanRegistry | worker.js:103 | head draw 0 and filter draws [25,0,0,0,0,0] give seven candidates for six providers |
| ChainDesign.AsWrittenRelayMissesHealthyProvider | worker.js:103-128 | with only Google healthy, the chain above fails after six attempts with "All upstream DNS servers failed", while the one-draw chain succeeds |
| Upstream.Settle | worker.js:112-121 | an answer that takes 10 000 ms or more is aborted; a response is used only when it arrived before the timer fired; an answer that arrives earlier is passed on unchanged |
| Upstream.AttemptTime | worker.js:112-121 | one attempt waits at most the 10 000 ms timeout and never longer than the answer's delay, and exactly that delay when a response arrived in time |
| Upstream.Relay | worker.js:104-128 | the failover loop makes at least one attempt on a non-empty chain and at most one per candidate, returns only ok responses, and fails only with AllUpstreamsFailed after trying every candidate |
| Upstream.FirstSuccess | worker.js:104-127 | the index of the first attempt that gets an ok response in time; every earlier attempt failed |
| Upstream.ElapsedBound | worker.js:112-121 | n attempts take at most n times the 10 000 ms timeout |
| Upstream.RelayStopsAtFirstSuccess | worker.js:104-128 | failover succeeds iff some attempt gets an ok response in time; it returns the first such response after exactly that many attempts; otherwise it fails with AllUpstreamsFailed after exactly as many attempts as there are candidates; elapsed time is at most attempts x timeout |
| Upstream.Failover | worker.js:104-128 | the for-loop with its early return computes exactly Relay(chain, network): outcome, attempt count and elapsed time |
| Validation.IsValidBase64Url | worker.js:259-261 | the pattern ^[A-Za-z0-9_-]+$ accepts exactly the non-empty strings whose every character is in A-Z, a-z, 0-9, _ or - |
| Validation.RejectsPaddingAndStandardSymbols | worker.js:259-261 | a string containing '=', '+' or '/' anywhere is rejected |
| Validation.EncodedQueryIsAccepted | worker.js:259-261 | the unpadded base64url encoding of any non-empty DNS message passes the check |
| Validation.CheckDnsParam | worker.js:99-101 | a missing or empty dns parameter fails with MissingDnsParameter; a non-empty one outside the alphabet fails with InvalidDnsParameterFormat; the check passes iff the value is valid base64url |
| Validation.CheckPostRequest | worker.js:132-136 | a Content-Type other than exactly application/dns-message fails first; otherwise a body of 0 or more than 512 bytes fails with InvalidMessageSize; the check passes iff both hold |
| RateLimiting.ClientKey | worker.js:33 | requests are keyed by the connecting-IP header, or by "unknown" when it is missing or empty |
| RateLimiting.Admit | worker.js:241-257 | an unseen or expired key gets {count 1, resetTime now+60000} and is admitted; inside the window it is admitted with count+1 iff count < 100, otherwise rejected with the map unchanged; other keys never change; counts stay within 1..100 |
| RateLimiting.RateLimiter.constructor | worker.js:16 | the limiter starts with an empty map |
| RateLimiting.RateLimiter.CheckRateLimit | worker.js:241-257 | updates the map in place exactly as Admit says and returns its verdict; keeps every count within 1..100 |
| RateLimiting.WithinWindow | worker.js:248-256 | within an open window holding count c, the i-th further request is admitted iff c+i < 100; the count ends at min(c+n, 100) and resetTime does not move |
| RateLimiting.FreshWindowBurst | worker.js:243-256 | from an unseen or expired key, the first 100 requests of a 60 s window are admitted and every later one in that window is rejected; a request 1 ms after the window is admitted again |
| RateLimiting.ServeKeepsWellFormed | worker.js:241-257 | no sequence of requests, from any mix of client keys, takes any count outside 1..100 |
| RateLimiting.ClientsAreIndependent | worker.js:241-257 | in any interleaving of clients, one key's requests get the same verdicts, and leave the same entry, as if that key were the only client |
| Handlers.GetOutcome | worker.js:98-129 | the GET handler makes zero upstream attempts iff the dns check fails, and then throws that check's error; otherwise it is exactly the failover over the chain the code builds, so at most n+1 attempts, only ok responses, and after any attempt the only error is AllUpstreamsFailed |
| Handlers.PostOutcome | worker.js:131-159 | the POST handler makes zero upstream attempts iff the Content-Type or size check fails, and then throws that error; otherwise it is exactly the failover over the chain the code builds, so at most n+1 attempts, only ok responses, and after any attempt the only error is AllUpstreamsFailed |
| Handlers.HandleGetRequest | worker.js:98-129 | validation, chain construction and failover compute exactly GetOutcome |
| Handlers.HandlePostRequest | worker.js:131-159 | validation, chain construction and failover compute exactly PostOutcome |
| Handlers.StatusCode | worker.js:36-83 | a relayed reply carries the upstream's status; among the relay's own replies only the profile and the home page (200) and the preflight (204) are successes, and a failed query is 500 |
| Handlers.HandlerOutcome | worker.js:47-54 | whichever handler a request reaches returns only responses with an ok status |
| Handlers.Dispatch | worker.js:26-84 | /apple, and only /apple, is served the profile before rate limiting; every other path, including OPTIONS and the home page, gets 429 iff rejected by the limiter; 405 iff an admitted /dns-query request is not GET, POST or OPTIONS; 500 iff an admitted GET or POST handler throws; the handler's own response (status and body) is relayed iff the handler succeeds, and a 500 carries the handler's error; the 204 preflight answers exactly an admitted OPTIONS /dns-query; the home page answers exactly an admitted request on any other path; status 400 never occurs |
| Handlers.HandleRequest | worker.js:26-84 | serves a request as Dispatch says; leaves the limiter untouched for /apple and otherwise updates it as Admit says; reports the handler's attempts only when a handler ran |

## Left out

- The HTML home page, its client-side script and the V2Ray templates
  (worker.js:265-702) are left out. They are presentation only, so the
  reply is just the tag `HomePage`.
- The Apple `.mobileconfig` profile (worker.js:175-239) is left out. It is
  string templating plus `crypto.randomUUID`, a foreign call. The reply is
  just the tag `AppleProfile`.
- The `fetch`, `AbortController` and `setTimeout` plumbing and the
  `console.error` logging are replaced by the `Network` oracle. An answer
  with a delay of exactly 10 000 ms is treated as aborted. That instant is
  a race between the timer and the response, and the code does not decide
  it.
- `URL` and `searchParams` parsing is left out, and so is the forwarding of
  the other query parameters to the upstream (worker.js:27, 99, 106-110).
  The model receives the path and the decoded `dns` value as given.
- Response headers are left out (worker.js:55-66, 161-171): CORS,
  Cache-Control with the 300 s TTL (worker.js:12), security headers. They are constant
  records. The `Reply` tags name which reply is sent.
- Floating-point `Math.random()` is replaced by integer draws, so rounding
  drift in the walk is not modelled.
- Concurrency is left out. The event loop serialises `checkRateLimit`, so a
  sequential model of the map is faithful.
- The provider `category` and `description` fields are left out. Only the
  HTML page reads them.
- Timestamps and counts are unbounded integers. JavaScript numbers hold
  them exactly far beyond any reachable value.
- The in-place `clientData.count++` on the stored entry object is modelled
  as replacing that key's value in the map. Nothing outside the map holds a
  reference to an entry, so no aliasing is lost.
- The text of each error (`error.message`, worker.js:100-101, 128, 133,
  136) is left out. A failed query's reply carries the `Failure` kind,
  which determines that text.
- Reading the upstream response body after the timer is cleared is left
  out. The body is opaque and passed through as it is.
