/**
  The in-memory, per-client sliding-window rate limiter placed in front of the API. For
  each client key it keeps the timestamps of the requests it let through; a request to a
  protected path is refused with 429 once the client already has `rateLimit` requests in
  the last `windowSeconds` seconds. The clock (`time.time()`) is the `now` parameter; the
  downstream handler is not modelled, only the decision to call it.
*/
module RateLimit {
  import opened Wrappers
  import opened Text

  /** What `dispatch` does with a request. */
  datatype Decision =
    | Forward                        // `await call_next(request)`
    | Rejected(retryAfter: int)      // 429 with `Retry-After`
    | Crashed                        // IndexError on an empty list (only when rateLimit <= 0)

  /** Python's `int(x)` on a float: truncation toward zero. */
  function Trunc(x: real): (n: int)
    ensures x >= 0.0 ==> n as real <= x < n as real + 1.0
    ensures x < 0.0 ==> n as real - 1.0 < x <= n as real
  {
    if x >= 0.0 then x.Floor else -((-x).Floor)
  }

  /** `int(window - (now - oldest)) + 1`: seconds until the oldest request leaves the window. */
  function RetryAfter(window: int, now: real, oldest: real): (s: int)
    requires oldest > now - window as real
    ensures s >= 1
    ensures oldest <= now ==> s <= window + 1
  {
    Trunc(window as real - (now - oldest)) + 1
  }

  /** `[ts for ts in stamps if ts > cutoff]`. */
  function Kept(stamps: seq<real>, cutoff: real): (r: seq<real>)
    ensures |r| <= |stamps|
    ensures forall i :: 0 <= i < |r| ==> r[i] > cutoff && r[i] in stamps
    ensures forall t :: t in stamps && t > cutoff ==> t in r
  {
    if |stamps| == 0 then []
    else (if stamps[0] > cutoff then [stamps[0]] else []) + Kept(stamps[1..], cutoff)
  }

  /** Cleaning keeps the surviving timestamps in their original order: it distributes over
      concatenation. */
  lemma {:induction false} KeptAppend(s: seq<real>, t: seq<real>, cutoff: real)
    ensures Kept(s + t, cutoff) == Kept(s, cutoff) + Kept(t, cutoff)
  {
    if |s| > 0 {
      KeptAppend(s[1..], t, cutoff);
      assert (s + t)[0] == s[0] && (s + t)[1..] == s[1..] + t;
    } else {
      assert s + t == t;
    }
  }

  /** Cleaning twice with the same cutoff is cleaning once. */
  lemma {:induction false} KeptIdempotent(stamps: seq<real>, cutoff: real)
    ensures Kept(Kept(stamps, cutoff), cutoff) == Kept(stamps, cutoff)
  {
    if |stamps| > 0 {
      KeptIdempotent(stamps[1..], cutoff);
      var rest := Kept(stamps[1..], cutoff);
      if stamps[0] > cutoff {
        var k := [stamps[0]] + rest;
        assert Kept(stamps, cutoff) == k;
        assert k[0] == stamps[0] && k[1..] == rest;
        assert Kept(k, cutoff) == [stamps[0]] + Kept(rest, cutoff);
      } else {
        assert Kept(stamps, cutoff) == [] + rest == rest;
      }
    }
  }

  /** A later cleaning drops at least what an earlier one dropped. */
  lemma {:induction false} KeptShrinks(stamps: seq<real>, c1: real, c2: real)
    requires c1 <= c2
    ensures Kept(Kept(stamps, c1), c2) == Kept(stamps, c2)
  {
    if |stamps| > 0 {
      KeptShrinks(stamps[1..], c1, c2);
      var rest := Kept(stamps[1..], c1);
      if stamps[0] > c1 {
        var k := [stamps[0]] + rest;
        assert Kept(stamps, c1) == k;
        assert k[0] == stamps[0] && k[1..] == rest;
        assert Kept(k, c2) == (if stamps[0] > c2 then [stamps[0]] else []) + Kept(rest, c2);
      } else {
        assert Kept(stamps, c1) == [] + rest == rest;
        assert Kept(stamps, c2) == [] + Kept(stamps[1..], c2);
      }
    }
  }

  /** `client_ip.split(",")[0].strip()` of the X-Forwarded-For header, else of the peer's
      host, else of "unknown". */
  function ClientKey(forwardedFor: Option<string>, host: Option<string>): (key: string)
    ensures ',' !in key
    ensures forwardedFor.None? && host.None? ==> key == "unknown"
  {
    var raw := if forwardedFor.Some? then forwardedFor.value else if host.Some? then host.value else "unknown";
    assert forwardedFor.None? && host.None? ==> Strip(Split(raw, ',')[0]) == "unknown" by {
      if forwardedFor.None? && host.None? {
        SplitNoSeparator("unknown", ',');
        StripStripped("unknown");
      }
    }
    var first := Split(raw, ',')[0];
    assert ',' !in first;
    var key := Strip(first);
    assert forall k :: 0 <= k < |key| ==> key[k] in first;
    key
  }

  /** Only the first hop of a forwarded chain identifies the client. */
  lemma ClientKeyFirstHop(hop: string, rest: string, host: Option<string>)
    requires ',' !in hop
    ensures ClientKey(Some(hop + "," + rest), host) == Strip(hop)
  {
    SplitAfterPiece(hop, rest, ',');
  }

  /** Requests forwarded through different proxies for the same client share one window. */
  lemma ClientKeyIgnoresLaterHops(hop: string, rest1: string, rest2: string, host1: Option<string>, host2: Option<string>)
    requires ',' !in hop
    ensures ClientKey(Some(hop + "," + rest1), host1) == ClientKey(Some(hop + "," + rest2), host2)
  {
    ClientKeyFirstHop(hop, rest1, host1);
    ClientKeyFirstHop(hop, rest2, host2);
  }

  /** `any(path.startswith(prefix) for prefix in prefixes)`. */
  function AnyPrefix(path: string, prefixes: seq<string>): (r: bool)
    ensures r <==> exists p :: p in prefixes && StartsWith(path, p)
  {
    if |prefixes| == 0 then false
    else StartsWith(path, prefixes[0]) || AnyPrefix(path, prefixes[1..])
  }

  /** `RateLimitMiddleware`. */
  class RateLimiter {
    const rateLimit: int
    const windowSeconds: int
    const protectedPaths: seq<string>
    /** The `defaultdict(list)` of let-through timestamps per client key. */
    var requests: map<string, seq<real>>

    /** The most timestamps a client can hold: `rateLimit`, and none when it is not positive. */
    function Cap(): (c: nat)
    {
      if rateLimit > 0 then rateLimit else 0
    }

    /** No client ever holds more timestamps than the limit. */
    ghost predicate Valid()
      reads this
    {
      forall ip :: ip in requests ==> |requests[ip]| <= Cap()
    }

    /** `__init__(app, rate_limit=10, window_seconds=60, protected_paths=None)`. */
    constructor (rateLimit: int, windowSeconds: int, protectedPaths: Option<seq<string>>)
      ensures Valid()
      ensures this.rateLimit == rateLimit && this.windowSeconds == windowSeconds
      ensures this.protectedPaths == (if protectedPaths.Some? then protectedPaths.value else [])
      ensures requests == map[]
    {
      this.rateLimit := rateLimit;
      this.windowSeconds := windowSeconds;
      this.protectedPaths := if protectedPaths.Some? then protectedPaths.value else [];
      requests := map[];
    }

    /** `_is_protected(path)`: every path when no prefixes were given. */
    function IsProtected(path: string): (r: bool)
      ensures r <==> |protectedPaths| == 0 || exists p :: p in protectedPaths && StartsWith(path, p)
    {
      |protectedPaths| == 0 || AnyPrefix(path, protectedPaths)
    }

    /** `self._requests[ip]`: the defaultdict yields an empty list for a new client. */
    function Stamps(ip: string): seq<real>
      reads this
    {
      if ip in requests then requests[ip] else []
    }

    /** `_clean_old_requests(ip, now)`. */
    method CleanOldRequests(ip: string, now: real)
      requires Valid()
      modifies this
      ensures Valid()
      ensures requests == old(requests)[ip := Kept(old(Stamps(ip)), now - windowSeconds as real)]
    {
      var cutoff := now - windowSeconds as real;
      requests := requests[ip := Kept(Stamps(ip), cutoff)];
    }

    /** `dispatch(request, call_next)` for a request to `path` arriving at `now`. */
    method Dispatch(path: string, forwardedFor: Option<string>, host: Option<string>, now: real) returns (d: Decision)
      requires Valid()
      modifies this
      ensures Valid()
      ensures !IsProtected(path) ==> d == Forward && requests == old(requests)
      ensures IsProtected(path) ==>
                var ip := ClientKey(forwardedFor, host);
                var kept := Kept(old(Stamps(ip)), now - windowSeconds as real);
                if |kept| < rateLimit then d == Forward && requests == old(requests)[ip := kept + [now]]
                else if |kept| == 0 then d == Crashed && requests == old(requests)[ip := kept]
                else d == Rejected(RetryAfter(windowSeconds, now, kept[0])) && requests == old(requests)[ip := kept]
    {
      if !IsProtected(path) {
        return Forward;
      }
      var ip := ClientKey(forwardedFor, host);
      CleanOldRequests(ip, now);
      var stamps := requests[ip];
      if |stamps| >= rateLimit {
        if |stamps| == 0 {
          return Crashed;
        }
        var oldest := stamps[0];
        return Rejected(RetryAfter(windowSeconds, now, oldest));
      }
      requests := requests[ip := stamps + [now]];
      return Forward;
    }
  }
}
