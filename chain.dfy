/**
 * The candidate chain exactly as the handlers build it:
 * `[select(P), ...P.filter(p => p.url !== select(P).url)]`.
 * The selection inside the filter callback runs again for every registry
 * element, so the head draw and each element's draw are separate.
 */
module Chain {
  import opened Types
  import opened Selection

  /** Whether the filter callback keeps p when its own selection uses draw d. */
  predicate Kept(registry: seq<Provider>, p: Provider, d: int)
    requires |registry| > 0
  {
    p.url != Select(registry, d).url
  }

  /** t can be obtained from s by deleting elements, keeping the order. */
  predicate IsSubsequence(t: seq<Provider>, s: seq<Provider>)
    decreases |s|
  {
    if t == [] then true
    else if s == [] then false
    else (t[0] == s[0] && IsSubsequence(t[1..], s[1..])) || IsSubsequence(t, s[1..])
  }

  /** The `filter` over `elems`, element i deciding with draws[i]. */
  function Filtered(registry: seq<Provider>, elems: seq<Provider>, draws: seq<int>): (kept: seq<Provider>)
    requires |registry| > 0 && |draws| == |elems|
    ensures |kept| <= |elems|
  {
    if elems == [] then []
    else (if Kept(registry, elems[0], draws[0]) then [elems[0]] else []) + Filtered(registry, elems[1..], draws[1..])
  }

  /**
   * The filter keeps the elements in order, keeps every element whose own
   * draw selects another endpoint, and nothing else.
   */
  lemma {:induction false} FilteredShape(registry: seq<Provider>, elems: seq<Provider>, draws: seq<int>)
    requires |registry| > 0 && |draws| == |elems|
    ensures |Filtered(registry, elems, draws)| <= |elems|
    ensures IsSubsequence(Filtered(registry, elems, draws), elems)
    ensures forall i :: 0 <= i < |elems| && Kept(registry, elems[i], draws[i]) ==> elems[i] in Filtered(registry, elems, draws)
    ensures forall p :: p in Filtered(registry, elems, draws) ==>
      exists i :: 0 <= i < |elems| && elems[i] == p && Kept(registry, p, draws[i])
  {
    if elems != [] {
      var rest := Filtered(registry, elems[1..], draws[1..]);
      FilteredShape(registry, elems[1..], draws[1..]);
      assert forall i :: 1 <= i < |elems| ==> elems[i] == elems[1..][i - 1] && draws[i] == draws[1..][i - 1];
      var t := Filtered(registry, elems, draws);
      if Kept(registry, elems[0], draws[0]) {
        assert t == [elems[0]] + rest && t[1..] == rest;
        assert IsSubsequence(t, elems);
      } else {
        assert t == rest;
        assert IsSubsequence(t, elems);
      }
      forall p | p in t
        ensures exists i :: 0 <= i < |elems| && elems[i] == p && Kept(registry, p, draws[i])
      {
        if p !in rest {
          assert elems[0] == p && Kept(registry, p, draws[0]);
        } else {
          var i :| 0 <= i < |elems[1..]| && elems[1..][i] == p && Kept(registry, p, draws[1..][i]);
          assert elems[i + 1] == p && Kept(registry, p, draws[i + 1]);
        }
      }
    }
  }

  /** The weighted head pick followed by the filtered registry. */
  function CandidateChain(registry: seq<Provider>, headDraw: int, filterDraws: seq<int>): (chain: seq<Provider>)
    requires |registry| > 0 && |filterDraws| == |registry|
    ensures 1 <= |chain| <= |registry| + 1
    ensures chain[0] == Select(registry, headDraw)
  {
    [Select(registry, headDraw)] + Filtered(registry, registry, filterDraws)
  }

  /**
   * The chain starts with one weighted pick; the rest is a subsequence of
   * the registry holding exactly the providers whose own draw chose another
   * endpoint. It is never empty and never longer than the registry plus one.
   */
  lemma CandidateChainShape(registry: seq<Provider>, headDraw: int, filterDraws: seq<int>)
    requires |registry| > 0 && |filterDraws| == |registry|
    ensures var chain := CandidateChain(registry, headDraw, filterDraws);
      && 1 <= |chain| <= |registry| + 1
      && chain[0] == Select(registry, headDraw)
      && IsSubsequence(chain[1..], registry)
      && (forall p :: p in chain ==> p in registry)
      && (forall i :: 0 <= i < |registry| && Kept(registry, registry[i], filterDraws[i]) ==> registry[i] in chain[1..])
      && (forall p :: p in chain[1..] ==>
            exists j :: 0 <= j < |registry| && registry[j] == p && Kept(registry, p, filterDraws[j]))
  {
    var head := Select(registry, headDraw);
    var tail := Filtered(registry, registry, filterDraws);
    FilteredShape(registry, registry, filterDraws);
    assert ([head] + tail)[1..] == tail;
  }
}
