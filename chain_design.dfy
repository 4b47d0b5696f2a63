/**
 * The candidate chain the failover is meant to walk (one weighted draw,
 * then every other provider once, in registry order) set against the
 * chain the code builds. They coincide when every filter draw lands on the
 * head's endpoint; otherwise the code may repeat a provider, skip one, or
 * try one more candidate than there are providers.
 */
module ChainDesign {
  import opened Types
  import opened Selection
  import opened Chain
  import opened Upstream

  /** The providers whose endpoint is not `url`, in order. */
  function Without(ps: seq<Provider>, url: string): seq<Provider>
  {
    if ps == [] then [] else (if ps[0].url != url then [ps[0]] else []) + Without(ps[1..], url)
  }

  /** One draw shared by the head pick and the filter. */
  function SingleDrawChain(registry: seq<Provider>, draw: int): seq<Provider>
    requires |registry| > 0
  {
    var head := Select(registry, draw);
    [head] + Without(registry, head.url)
  }

  lemma {:induction false} FilteredWithAgreeingDraws(registry: seq<Provider>, elems: seq<Provider>, draws: seq<int>, url: string)
    requires |registry| > 0 && |draws| == |elems|
    requires forall i :: 0 <= i < |draws| ==> Select(registry, draws[i]).url == url
    ensures Filtered(registry, elems, draws) == Without(elems, url)
  {
    if elems != [] {
      assert forall i :: 0 <= i < |draws[1..]| ==> draws[1..][i] == draws[i + 1];
      FilteredWithAgreeingDraws(registry, elems[1..], draws[1..], url);
    }
  }

  /** When every filter draw selects the head's endpoint, the code builds the single-draw chain. */
  lemma AgreeingDrawsGiveSingleDrawChain(registry: seq<Provider>, headDraw: int, filterDraws: seq<int>)
    requires |registry| > 0 && |filterDraws| == |registry|
    requires forall i :: 0 <= i < |filterDraws| ==> Select(registry, filterDraws[i]).url == Select(registry, headDraw).url
    ensures CandidateChain(registry, headDraw, filterDraws) == SingleDrawChain(registry, headDraw)
  {
    FilteredWithAgreeingDraws(registry, registry, filterDraws, Select(registry, headDraw).url);
  }

  lemma {:induction false} WithoutAbsent(ps: seq<Provider>, url: string)
    requires forall i :: 0 <= i < |ps| ==> ps[i].url != url
    ensures Without(ps, url) == ps
  {
    if ps != [] {
      WithoutAbsent(ps[1..], url);
    }
  }

  lemma {:induction false} WithoutOne(ps: seq<Provider>, k: nat)
    requires DistinctUrls(ps) && k < |ps|
    ensures Without(ps, ps[k].url) == ps[..k] + ps[k + 1..]
  {
    var tail := ps[1..];
    if k == 0 {
      assert forall i :: 0 <= i < |tail| ==> tail[i] == ps[i + 1];
      WithoutAbsent(tail, ps[0].url);
    } else {
      DistinctTail(ps);
      WithoutOne(tail, k - 1);
      assert tail[k - 1] == ps[k];
      assert ps[0].url != ps[k].url;
      assert Without(ps, ps[k].url) == [ps[0]] + Without(tail, ps[k].url);
      assert ps[..k] == [ps[0]] + tail[..k - 1];
      assert ps[k + 1..] == tail[k..];
    }
  }

  lemma DistinctTail(ps: seq<Provider>)
    requires DistinctUrls(ps) && |ps| > 0
    ensures DistinctUrls(ps[1..])
  {
    forall i, j | 0 <= i < j < |ps[1..]|
      ensures ps[1..][i].url != ps[1..][j].url
    {
      assert ps[1..][i] == ps[i + 1] && ps[1..][j] == ps[j + 1];
    }
  }

  /** Position in the registry of the c-th element of `[s[k]] + s[..k] + s[k + 1..]`. */
  function RegistryIndex(k: nat, c: nat): nat
  {
    if c == 0 then k else if c - 1 < k then c - 1 else c
  }

  lemma MultisetMoveToFront(s: seq<Provider>, k: nat)
    requires k < |s|
    ensures multiset([s[k]] + (s[..k] + s[k + 1..])) == multiset(s)
  {
    assert s == s[..k] + [s[k]] + s[k + 1..];
  }

  lemma DistinctMoveToFront(s: seq<Provider>, k: nat)
    requires k < |s| && DistinctUrls(s)
    ensures DistinctUrls([s[k]] + (s[..k] + s[k + 1..]))
  {
    var moved := [s[k]] + (s[..k] + s[k + 1..]);
    forall c | 0 <= c < |moved|
      ensures RegistryIndex(k, c) < |s| && moved[c] == s[RegistryIndex(k, c)]
    {
      if c == 0 {
      } else if c - 1 < k {
        assert moved[c] == s[..k][c - 1];
      } else {
        assert moved[c] == s[k + 1..][c - 1 - k];
      }
    }
    forall a, b | 0 <= a < b < |moved|
      ensures moved[a].url != moved[b].url
    {
      var ia, ib := RegistryIndex(k, a), RegistryIndex(k, b);
      if ia < ib {
        assert s[ia].url != s[ib].url;
      } else {
        assert s[ib].url != s[ia].url;
      }
    }
  }

  /** With distinct endpoints the single-draw chain tries every provider exactly once. */
  lemma SingleDrawChainIsPermutation(registry: seq<Provider>, draw: int)
    requires |registry| > 0 && DistinctUrls(registry)
    ensures var chain := SingleDrawChain(registry, draw);
      && |chain| == |registry|
      && multiset(chain) == multiset(registry)
      && DistinctUrls(chain)
  {
    var w := WalkIndex(registry, draw);
    var k := if w < |registry| then w else 0;
    assert registry[k] == Select(registry, draw);
    WithoutOne(registry, k);
    MultisetMoveToFront(registry, k);
    DistinctMoveToFront(registry, k);
  }

  /**
   * With the single-draw chain, one healthy provider is enough: the relay
   * succeeds within one attempt per provider.
   */
  lemma SingleDrawRelayReachesHealthyProvider(registry: seq<Provider>, draw: int, network: Network, p: Provider)
    requires |registry| > 0 && DistinctUrls(registry)
    requires p in registry
    requires forall n: nat :: Succeeds(Settle(network(n, p)))
    ensures Relay(SingleDrawChain(registry, draw), network).outcome.Ok?
    ensures Relay(SingleDrawChain(registry, draw), network).attempts <= |registry|
  {
    var chain := SingleDrawChain(registry, draw);
    SingleDrawChainIsPermutation(registry, draw);
    assert p in multiset(chain);
    var i :| 0 <= i < |chain| && chain[i] == p;
    assert SucceedsAt(chain, network, i);
    RelayStopsAtFirstSuccess(chain, network);
  }

  /** A network on which only provider p answers, at once and with status 200. */
  function OnlyHealthy(p: Provider): Network
  {
    (n: nat, q: Provider) => if q == p then Answer(0, Responded(UpstreamResponse(200, []))) else Answer(0, Rejected)
  }

  const Cloudflare := UpstreamDnsProviders[0]
  const Google := UpstreamDnsProviders[1]

  lemma FilterDrawsOnGoogle()
    ensures Filtered(UpstreamDnsProviders, UpstreamDnsProviders, [25, 25, 25, 25, 25, 25])
      == UpstreamDnsProviders[..1] + UpstreamDnsProviders[2..]
  {
    var P := UpstreamDnsProviders;
    RegistryWellFormed();
    assert Select(P, 25) == Google;
    FilteredWithAgreeingDraws(P, P, [25, 25, 25, 25, 25, 25], Google.url);
    WithoutOne(P, 1);
  }

  /**
   * Head draw 0 picks Cloudflare; filter draws of 25 pick Google every time,
   * so the chain holds Cloudflare twice and Google not at all.
   */
  lemma AsWrittenChainRepeatsAndOmits()
    ensures var chain := CandidateChain(UpstreamDnsProviders, 0, [25, 25, 25, 25, 25, 25]);
      && chain == [Cloudflare] + UpstreamDnsProviders[..1] + UpstreamDnsProviders[2..]
      && chain[0] == chain[1]
      && Google in UpstreamDnsProviders && Google !in chain
  {
    var P := UpstreamDnsProviders;
    RegistryWellFormed();
    assert Select(P, 0) == Cloudflare;
    FilterDrawsOnGoogle();
  }

  lemma {:induction false} FilteredKeepingAll(registry: seq<Provider>, elems: seq<Provider>, draws: seq<int>)
    requires |registry| > 0 && |draws| == |elems|
    requires forall i :: 0 <= i < |elems| ==> Kept(registry, elems[i], draws[i])
    ensures Filtered(registry, elems, draws) == elems
  {
    if elems != [] {
      assert forall i :: 0 <= i < |elems| - 1 ==> elems[1..][i] == elems[i + 1] && draws[1..][i] == draws[i + 1];
      FilteredKeepingAll(registry, elems[1..], draws[1..]);
    }
  }

  /** Filter draws that never land on the element at hand keep all six providers after the head: seven candidates. */
  lemma AsWrittenChainLongerThanRegistry()
    ensures |CandidateChain(UpstreamDnsProviders, 0, [25, 0, 0, 0, 0, 0])| == |UpstreamDnsProviders| + 1
  {
    var P := UpstreamDnsProviders;
    RegistryWellFormed();
    assert Select(P, 0) == Cloudflare;
    assert Select(P, 25) == Google;
    FilteredKeepingAll(P, P, [25, 0, 0, 0, 0, 0]);
  }

  lemma {:induction false} ElapsedWhenImmediate(chain: seq<Provider>, network: Network, n: nat)
    requires n <= |chain|
    requires forall i :: 0 <= i < n ==> network(i, chain[i]).delayMs == 0
    ensures Elapsed(chain, network, n) == 0
  {
    if n > 0 {
      ElapsedWhenImmediate(chain, network, n - 1);
    }
  }

  /** Every candidate of the chain above is refused at once, so the relay gives up after six attempts. */
  lemma AsWrittenRelayFails()
    ensures Relay(CandidateChain(UpstreamDnsProviders, 0, [25, 25, 25, 25, 25, 25]), OnlyHealthy(Google))
      == Attempted(Err(AllUpstreamsFailed), 6, 0)
  {
    var chain := CandidateChain(UpstreamDnsProviders, 0, [25, 25, 25, 25, 25, 25]);
    var net := OnlyHealthy(Google);
    AsWrittenChainRepeatsAndOmits();
    forall i | 0 <= i < |chain|
      ensures !SucceedsAt(chain, net, i) && net(i, chain[i]).delayMs == 0
    {
      assert chain[i] != Google;
    }
    FirstSuccessIs(chain, net, |chain|);
    ElapsedWhenImmediate(chain, net, |chain|);
  }

  /**
   * Google is the only healthy provider, yet the relay fails after six
   * attempts on the chain above, while the single-draw chain reaches it.
   */
  lemma AsWrittenRelayMissesHealthyProvider()
    ensures Relay(CandidateChain(UpstreamDnsProviders, 0, [25, 25, 25, 25, 25, 25]), OnlyHealthy(Google))
      == Attempted(Err(AllUpstreamsFailed), 6, 0)
    ensures Relay(SingleDrawChain(UpstreamDnsProviders, 0), OnlyHealthy(Google)).outcome.Ok?
  {
    AsWrittenRelayFails();
    SingleDrawRelayReachesGoogle();
  }

  lemma SingleDrawRelayReachesGoogle()
    ensures Relay(SingleDrawChain(UpstreamDnsProviders, 0), OnlyHealthy(Google)).outcome.Ok?
  {
    var net := OnlyHealthy(Google);
    forall n: nat
      ensures Succeeds(Settle(net(n, Google)))
    {
    }
    RegistryWellFormed();
    SingleDrawRelayReachesHealthyProvider(UpstreamDnsProviders, 0, net, Google);
  }
}
