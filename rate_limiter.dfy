/**
 * Fixed-window admission per client key: a map from key to
 * {count, resetTime}, created on first use, hard-reset once the window has
 * passed, never evicted. The clock reading `now` (milliseconds) is a
 * parameter.
 */
module RateLimiting {
  import opened Types

  datatype Entry = Entry(count: int, resetTime: int)

  /** Every stored count lies between 1 and the limit. */
  predicate WellFormed(m: map<string, Entry>)
  {
    forall k :: k in m ==> 1 <= m[k].count <= RateLimitRequests
  }

  /** The key under which a request is counted: the connecting-IP header, or "unknown" when it is missing or empty. */
  function ClientKey(connectingIp: Option<string>): (key: string)
    ensures key != ""
    ensures connectingIp.Some? && connectingIp.value != "" ==> key == connectingIp.value
    ensures connectingIp.None? || connectingIp.value == "" ==> key == "unknown"
  {
    if connectingIp.Some? && connectingIp.value != "" then connectingIp.value else "unknown"
  }

  datatype Decision = Decision(admitted: bool, entries: map<string, Entry>)

  /** One admission check: the verdict and the map afterwards. */
  function Admit(m: map<string, Entry>, key: string, now: int): (d: Decision)
    ensures key in d.entries
    ensures d.entries - {key} == m - {key}
    ensures d.admitted <==> key !in m || now > m[key].resetTime || m[key].count < RateLimitRequests
    ensures !d.admitted ==> d.entries == m
    ensures key !in m || now > m[key].resetTime ==> d.entries[key] == Entry(1, now + RateLimitWindowMs)
    ensures key in m && now <= m[key].resetTime ==>
      && d.entries[key].resetTime == m[key].resetTime
      && d.entries[key].count == (if m[key].count < RateLimitRequests then m[key].count + 1 else m[key].count)
    ensures d.entries[key].resetTime >= now
    ensures WellFormed(m) ==> WellFormed(d.entries)
  {
    if key !in m then Decision(true, m[key := Entry(1, now + RateLimitWindowMs)])
    else if now > m[key].resetTime then Decision(true, m[key := Entry(1, now + RateLimitWindowMs)])
    else if m[key].count >= RateLimitRequests then Decision(false, m)
    else Decision(true, m[key := m[key].(count := m[key].count + 1)])
  }

  /** The process-wide limiter state. */
  class RateLimiter {
    var entries: map<string, Entry>

    ghost predicate Valid()
      reads this
    {
      WellFormed(entries)
    }

    constructor ()
      ensures Valid() && entries == map[]
    {
      entries := map[];
    }

    /** Admit or reject one request from `clientIp` at time `now`. */
    method CheckRateLimit(clientIp: string, now: int) returns (admitted: bool)
      requires Valid()
      modifies this
      ensures Valid()
      ensures admitted == Admit(old(entries), clientIp, now).admitted
      ensures entries == Admit(old(entries), clientIp, now).entries
    {
      if clientIp !in entries {
        entries := entries[clientIp := Entry(1, now + RateLimitWindowMs)];
        return true;
      }
      var clientData := entries[clientIp];
      if now > clientData.resetTime {
        entries := entries[clientIp := Entry(1, now + RateLimitWindowMs)];
        return true;
      }
      if clientData.count >= RateLimitRequests {
        return false;
      }
      entries := entries[clientIp := clientData.(count := clientData.count + 1)];
      return true;
    }
  }

  /** Verdicts and final map for requests from one key at the given times, in order. */
  datatype Run = Run(verdicts: seq<bool>, entries: map<string, Entry>)

  function Replay(m: map<string, Entry>, key: string, times: seq<int>): (r: Run)
    ensures |r.verdicts| == |times|
    decreases |times|
  {
    if times == [] then Run([], m)
    else
      var d := Admit(m, key, times[0]);
      var rest := Replay(d.entries, key, times[1..]);
      Run([d.admitted] + rest.verdicts, rest.entries)
  }

  /**
   * Inside an open window that already counted c requests, the next ones are
   * admitted until the count reaches the limit and rejected after that; the
   * count stops at the limit and the window end does not move.
   */
  lemma {:induction false} WithinWindow(m: map<string, Entry>, key: string, times: seq<int>, c: int, reset: int)
    requires key in m && m[key] == Entry(c, reset) && 1 <= c <= RateLimitRequests
    requires forall i :: 0 <= i < |times| ==> times[i] <= reset
    decreases |times|
    ensures forall i :: 0 <= i < |times| ==> Replay(m, key, times).verdicts[i] == (c + i < RateLimitRequests)
    ensures key in Replay(m, key, times).entries
    ensures Replay(m, key, times).entries[key] == Entry(Min(c + |times|, RateLimitRequests), reset)
  {
    if times != [] {
      var d := Admit(m, key, times[0]);
      var next := if c < RateLimitRequests then c + 1 else c;
      WithinWindow(d.entries, key, times[1..], next, reset);
      var r := Replay(m, key, times);
      var rest := Replay(d.entries, key, times[1..]);
      assert forall i :: 1 <= i < |times| ==> r.verdicts[i] == rest.verdicts[i - 1];
    }
  }

  /**
   * A key with no open window (never seen, or its window has passed) gets
   * exactly the first 100 requests of a new 60-second window admitted and
   * the rest rejected; one millisecond after the window it is admitted again.
   */
  lemma FreshWindowBurst(m: map<string, Entry>, key: string, times: seq<int>)
    requires |times| > 0
    requires key !in m || times[0] > m[key].resetTime
    requires forall i :: 0 <= i < |times| ==> times[i] <= times[0] + RateLimitWindowMs
    ensures forall i :: 0 <= i < |times| ==> Replay(m, key, times).verdicts[i] == (i < RateLimitRequests)
    ensures Admit(Replay(m, key, times).entries, key, times[0] + RateLimitWindowMs + 1).admitted
  {
    var d := Admit(m, key, times[0]);
    var reset := times[0] + RateLimitWindowMs;
    WithinWindow(d.entries, key, times[1..], 1, reset);
    var r := Replay(m, key, times);
    var rest := Replay(d.entries, key, times[1..]);
    assert forall i :: 1 <= i < |times| ==> r.verdicts[i] == rest.verdicts[i - 1];
  }

  /** Verdicts and final map for requests from any clients, each a (key, time) pair, in order. */
  function Serve(m: map<string, Entry>, requests: seq<(string, int)>): (r: Run)
    ensures |r.verdicts| == |requests|
    decreases |requests|
  {
    if requests == [] then Run([], m)
    else
      var d := Admit(m, requests[0].0, requests[0].1);
      var rest := Serve(d.entries, requests[1..]);
      Run([d.admitted] + rest.verdicts, rest.entries)
  }

  /** No sequence of requests, from any mix of clients, takes a count out of [1, 100]. */
  lemma {:induction false} ServeKeepsWellFormed(m: map<string, Entry>, requests: seq<(string, int)>)
    requires WellFormed(m)
    ensures WellFormed(Serve(m, requests).entries)
    decreases |requests|
  {
    if requests != [] {
      ServeKeepsWellFormed(Admit(m, requests[0].0, requests[0].1).entries, requests[1..]);
    }
  }

  /** The two maps hold the same entry for key, or neither holds one. */
  predicate AgreeAt(m1: map<string, Entry>, m2: map<string, Entry>, key: string)
  {
    (key in m1 <==> key in m2) && (key in m1 ==> m1[key] == m2[key])
  }

  /** The times of the requests made under key, in order. */
  function TimesOf(requests: seq<(string, int)>, key: string): seq<int>
    decreases |requests|
  {
    if requests == [] then []
    else (if requests[0].0 == key then [requests[0].1] else []) + TimesOf(requests[1..], key)
  }

  /** The verdicts given to the requests made under key, in order. */
  function VerdictsFor(requests: seq<(string, int)>, verdicts: seq<bool>, key: string): seq<bool>
    requires |verdicts| == |requests|
    decreases |requests|
  {
    if requests == [] then []
    else (if requests[0].0 == key then [verdicts[0]] else []) + VerdictsFor(requests[1..], verdicts[1..], key)
  }

  /** What one key's requests get depends only on that key's entry. */
  lemma {:induction false} ReplayDependsOnlyOnKey(m1: map<string, Entry>, m2: map<string, Entry>, key: string, times: seq<int>)
    requires AgreeAt(m1, m2, key)
    ensures Replay(m1, key, times).verdicts == Replay(m2, key, times).verdicts
    ensures AgreeAt(Replay(m1, key, times).entries, Replay(m2, key, times).entries, key)
    decreases |times|
  {
    if times != [] {
      var d1, d2 := Admit(m1, key, times[0]), Admit(m2, key, times[0]);
      assert d1.admitted == d2.admitted;
      assert d1.entries[key] == d2.entries[key];
      ReplayDependsOnlyOnKey(d1.entries, d2.entries, key, times[1..]);
    }
  }

  /**
   * Clients do not affect each other: inside any interleaving, one key's
   * requests get the verdicts, and leave the entry, that they would get
   * if that key were the only client.
   */
  lemma {:induction false} ClientsAreIndependent(m: map<string, Entry>, requests: seq<(string, int)>, key: string)
    ensures VerdictsFor(requests, Serve(m, requests).verdicts, key) == Replay(m, key, TimesOf(requests, key)).verdicts
    ensures AgreeAt(Serve(m, requests).entries, Replay(m, key, TimesOf(requests, key)).entries, key)
    decreases |requests|
  {
    if requests != [] {
      var (k, now) := requests[0];
      var d := Admit(m, k, now);
      var rest := requests[1..];
      var served := Serve(m, requests);
      var tail := Serve(d.entries, rest);
      ClientsAreIndependent(d.entries, rest, key);
      assert served.verdicts[1..] == tail.verdicts;
      if k == key {
        var times := TimesOf(requests, key);
        assert times == [now] + TimesOf(rest, key);
        assert times[1..] == TimesOf(rest, key);
      } else {
        assert key in d.entries - {k} <==> key in m - {k};
        assert AgreeAt(d.entries, m, key);
        assert TimesOf(requests, key) == TimesOf(rest, key);
        assert VerdictsFor(requests, served.verdicts, key) == VerdictsFor(rest, tail.verdicts, key);
        ReplayDependsOnlyOnKey(d.entries, m, key, TimesOf(rest, key));
      }
    }
  }
}
