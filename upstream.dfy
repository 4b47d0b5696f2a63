/**
 * Sequential failover over a candidate chain: each candidate gets one
 * `fetch` under its own abort timer, the first ok response is returned and
 * no later candidate is tried; when every attempt fails the handler throws.
 * The network is an oracle: what it answers to the n-th attempt, sent to a
 * given provider, and after how many milliseconds.
 */
module Upstream {
  import opened Types

  datatype Answer = Answer(delayMs: nat, result: FetchResult)

  type Network = (nat, Provider) -> Answer

  /** What `fetch` yields once the abort timer is armed: an answer that is not in before the timeout is aborted. */
  function Settle(a: Answer): (f: FetchResult)
    ensures a.delayMs >= RequestTimeoutMs ==> f == Rejected
    ensures a.delayMs < RequestTimeoutMs ==> f == a.result
    ensures f.Responded? ==> a.delayMs < RequestTimeoutMs && f == a.result
  {
    if a.delayMs < RequestTimeoutMs then a.result else Rejected
  }

  /** How long one attempt waits: the answer's delay, cut off by the abort timer. */
  function AttemptTime(a: Answer): (t: nat)
    ensures t <= RequestTimeoutMs && t <= a.delayMs
    ensures Settle(a).Responded? ==> t == a.delayMs
  {
    if a.delayMs < RequestTimeoutMs then a.delayMs else RequestTimeoutMs
  }

  /** The handler returns a response only when it arrived and `response.ok` holds. */
  predicate Succeeds(r: FetchResult)
  {
    r.Responded? && IsOkStatus(r.response.status)
  }

  predicate SucceedsAt(chain: seq<Provider>, network: Network, i: nat)
    requires i < |chain|
  {
    Succeeds(Settle(network(i, chain[i])))
  }

  /** The first attempt at or after `from` that succeeds, or |chain| if none does. */
  function FirstSuccess(chain: seq<Provider>, network: Network, from: nat): (k: nat)
    requires from <= |chain|
    ensures from <= k <= |chain|
    ensures k < |chain| ==> SucceedsAt(chain, network, k)
    ensures forall j :: from <= j < k ==> !SucceedsAt(chain, network, j)
    decreases |chain| - from
  {
    if from == |chain| then |chain|
    else if SucceedsAt(chain, network, from) then from
    else FirstSuccess(chain, network, from + 1)
  }

  /** Milliseconds spent on the first n attempts. */
  function Elapsed(chain: seq<Provider>, network: Network, n: nat): nat
    requires n <= |chain|
  {
    if n == 0 then 0 else Elapsed(chain, network, n - 1) + AttemptTime(network(n - 1, chain[n - 1]))
  }

  /** What a run of the failover loop produced: its outcome, how many fetches it issued and how long they took. */
  datatype Attempted = Attempted(outcome: Result<UpstreamResponse, Failure>, attempts: nat, elapsedMs: nat)

  /** The failover loop as a function of the chain and the network. */
  function Relay(chain: seq<Provider>, network: Network): (r: Attempted)
    ensures 0 < |chain| ==> 0 < r.attempts
    ensures r.attempts <= |chain|
    ensures r.outcome.Ok? ==> IsOkStatus(r.outcome.value.status)
    ensures r.outcome.Err? ==> r.outcome.error == AllUpstreamsFailed && r.attempts == |chain|
  {
    var k := FirstSuccess(chain, network, 0);
    if k < |chain| then
      Attempted(Ok(Settle(network(k, chain[k])).response), k + 1, Elapsed(chain, network, k + 1))
    else
      Attempted(Err(AllUpstreamsFailed), |chain|, Elapsed(chain, network, |chain|))
  }

  lemma FirstSuccessIs(chain: seq<Provider>, network: Network, k: nat)
    requires k <= |chain|
    requires forall j :: 0 <= j < k ==> !SucceedsAt(chain, network, j)
    requires k < |chain| ==> SucceedsAt(chain, network, k)
    ensures FirstSuccess(chain, network, 0) == k
  {
  }

  /** Every attempt waits at most the per-attempt timeout. */
  lemma {:induction false} ElapsedBound(chain: seq<Provider>, network: Network, n: nat)
    requires n <= |chain|
    ensures Elapsed(chain, network, n) <= n * RequestTimeoutMs
  {
    if n > 0 {
      ElapsedBound(chain, network, n - 1);
    }
  }

  /**
   * Failover stops at the first successful candidate and returns its
   * response; otherwise it tries every candidate once and fails. Its time is
   * bounded by one timeout per attempt.
   */
  lemma RelayStopsAtFirstSuccess(chain: seq<Provider>, network: Network)
    ensures var r := Relay(chain, network);
      && r.attempts <= |chain|
      && r.elapsedMs <= r.attempts * RequestTimeoutMs
      && (r.outcome.Ok? <==> exists i :: 0 <= i < |chain| && SucceedsAt(chain, network, i))
      && (r.outcome.Ok? ==>
            && 0 < r.attempts
            && SucceedsAt(chain, network, r.attempts - 1)
            && r.outcome.value == Settle(network(r.attempts - 1, chain[r.attempts - 1])).response
            && forall j :: 0 <= j < r.attempts - 1 ==> !SucceedsAt(chain, network, j))
      && (r.outcome.Err? ==>
            && r.outcome.error == AllUpstreamsFailed
            && r.attempts == |chain|
            && forall j :: 0 <= j < |chain| ==> !SucceedsAt(chain, network, j))
  {
    var r := Relay(chain, network);
    ElapsedBound(chain, network, r.attempts);
  }

  /** The for-loop over the chain with its early return on the first ok response. */
  method Failover(chain: seq<Provider>, network: Network) returns (r: Attempted)
    ensures r == Relay(chain, network)
  {
    var elapsed := 0;
    for i := 0 to |chain|
      invariant elapsed == Elapsed(chain, network, i)
      invariant forall j :: 0 <= j < i ==> !SucceedsAt(chain, network, j)
    {
      var answer := network(i, chain[i]);
      elapsed := elapsed + AttemptTime(answer);
      var response := Settle(answer);
      if response.Responded? && IsOkStatus(response.response.status) {
        FirstSuccessIs(chain, network, i);
        return Attempted(Ok(response.response), i + 1, elapsed);
      }
    }
    FirstSuccessIs(chain, network, |chain|);
    return Attempted(Err(AllUpstreamsFailed), |chain|, elapsed);
  }
}
