/** The fixed-window rate limiter of the API routes
    (src/server/api/limiter.ts): a per-client counter that starts a new
    one-minute window when the client is new or its window has ended, and
    turns a request away once more than five have been counted in the
    window. The clock is a parameter. */
module Limiter {
  import opened Wrappers
  import opened Strings

  const MaxRequests: nat := 5
  const WindowMs: int := 60000
  const DefaultClient: string := "127.0.0.1"
  const RateLimitMessage: string := "Rate limit exceeded. Please try again later."

  /** The counter of one client: requests counted in the window, and when
      the window ends. */
  datatype Entry = Entry(count: nat, resetAt: int)

  /** The response that turns a request away. */
  datatype Response = Response(status: int, error: string)

  /** The client key: the text before the first comma of the
      `x-forwarded-for` header, untrimmed, or the loopback address when the
      header is absent. */
  function ClientKey(forwardedFor: Option<string>): (ip: string)
    ensures forwardedFor.None? ==> ip == DefaultClient
    ensures forwardedFor.Some? ==>
      && StartsWith(forwardedFor.value, ip) && ',' !in ip
      && (|ip| < |forwardedFor.value| ==> forwardedFor.value[|ip|] == ',')
  {
    match forwardedFor
    case None => DefaultClient
    case Some(header) =>
      SplitFirst(header, ',');
      Split(header, ',')[0]
  }

  /** A window is over once its end lies strictly before `now`. */
  predicate Expired(e: Entry, now: int) {
    e.resetAt < now
  }

  /** The entry a request at `now` is counted against: a fresh window when
      the client is unknown or its window is over, else the current one. */
  function Window(store: map<string, Entry>, ip: string, now: int): Entry {
    if ip !in store || Expired(store[ip], now) then Entry(0, now + WindowMs) else store[ip]
  }

  /** The store after a request from `ip` at `now` has been counted. */
  function Count(store: map<string, Entry>, ip: string, now: int): map<string, Entry> {
    var e := Window(store, ip, now);
    store[ip := e.(count := e.count + 1)]
  }

  /** Counting a request adds exactly one to the client's count, moves the
      window end only when a new window starts, and touches no other
      client. */
  lemma CountShape(store: map<string, Entry>, ip: string, now: int)
    ensures var s := Count(store, ip, now);
      && s.Keys == store.Keys + {ip}
      && (forall other :: other in store && other != ip ==> s[other] == store[other])
      && (ip !in store || Expired(store[ip], now) ==> s[ip] == Entry(1, now + WindowMs))
      && (ip in store && !Expired(store[ip], now) ==>
            s[ip] == Entry(store[ip].count + 1, store[ip].resetAt))
  {
  }

  /** Whether each request of a series from `ip`, at the given times, is
      let through. */
  function Replay(store: map<string, Entry>, ip: string, times: seq<int>): (passed: seq<bool>)
    ensures |passed| == |times|
    decreases |times|
  {
    if times == [] then []
    else
      var s := Count(store, ip, times[0]);
      [s[ip].count <= MaxRequests] + Replay(s, ip, times[1..])
  }

  lemma {:induction false} ReplayWithinWindow(store: map<string, Entry>, ip: string, times: seq<int>)
    requires ip in store
    requires forall k :: 0 <= k < |times| ==> times[k] <= store[ip].resetAt
    ensures forall k :: 0 <= k < |times| ==>
              (Replay(store, ip, times)[k] <==> store[ip].count + k + 1 <= MaxRequests)
    decreases |times|
  {
    if times != [] {
      var s := Count(store, ip, times[0]);
      ReplayWithinWindow(s, ip, times[1..]);
      forall k | 1 <= k < |times|
        ensures Replay(store, ip, times)[k] <==> store[ip].count + k + 1 <= MaxRequests
      {
        assert Replay(store, ip, times)[k] == Replay(s, ip, times[1..])[k - 1];
      }
    }
  }

  /** Within one window, opened by the first of the requests, the first five
      requests are let through and every later one is turned away. */
  lemma FiveThenRejected(store: map<string, Entry>, ip: string, times: seq<int>)
    requires times != []
    requires ip !in store || Expired(store[ip], times[0])
    requires forall k :: 0 <= k < |times| ==> times[k] <= times[0] + WindowMs
    ensures forall k :: 0 <= k < |times| ==> (Replay(store, ip, times)[k] <==> k < MaxRequests)
  {
    var s := Count(store, ip, times[0]);
    assert s[ip] == Entry(1, times[0] + WindowMs);
    ReplayWithinWindow(s, ip, times[1..]);
    forall k | 1 <= k < |times|
      ensures Replay(store, ip, times)[k] <==> k < MaxRequests
    {
      assert Replay(store, ip, times)[k] == Replay(s, ip, times[1..])[k - 1];
    }
  }

  /** The store after `cleanupRateLimitStore` at `now`: the entries whose
      window is over are gone. */
  function Live(store: map<string, Entry>, now: int): map<string, Entry> {
    map ip | ip in store && !Expired(store[ip], now) :: store[ip]
  }

  /** Cleaning up never changes how a later request is treated: a removed
      entry would have been replaced by a fresh window anyway. */
  lemma CleanupInvisible(store: map<string, Entry>, ip: string, now: int, later: int)
    requires now <= later
    ensures Window(Live(store, now), ip, later) == Window(store, ip, later)
    ensures Count(Live(store, now), ip, later)[ip] == Count(store, ip, later)[ip]
  {
  }

  class RateLimiter {
    var store: map<string, Entry>

    constructor ()
      ensures store == map[]
    {
      store := map[];
    }

    /** `rateLimit` for a request with the given `x-forwarded-for` header
        at `now`: the request is counted, and turned away with 429 when the
        count goes over the limit. */
    method RateLimit(forwardedFor: Option<string>, now: int) returns (response: Option<Response>)
      modifies this
      ensures store == Count(old(store), ClientKey(forwardedFor), now)
      ensures response.Some? <==> store[ClientKey(forwardedFor)].count > MaxRequests
      ensures response.Some? ==> response.value == Response(429, RateLimitMessage)
    {
      var ip := ClientKey(forwardedFor);
      if ip !in store || store[ip].resetAt < now {
        store := store[ip := Entry(0, now + WindowMs)];
      }
      store := store[ip := store[ip].(count := store[ip].count + 1)];
      if store[ip].count > MaxRequests {
        return Some(Response(429, RateLimitMessage));
      }
      return None;
    }

    /** `cleanupRateLimitStore` at `now`: visits every client and deletes
        the entries whose window is over. */
    method CleanupRateLimitStore(now: int)
      modifies this
      ensures store == Live(old(store), now)
      ensures forall ip :: ip in store ==> !Expired(store[ip], now)
    {
      var keys := store.Keys;
      while keys != {}
        invariant keys <= old(store).Keys
        invariant store == map ip | ip in old(store) && (ip in keys || !Expired(old(store)[ip], now)) :: old(store)[ip]
        decreases keys
      {
        var ip :| ip in keys;
        if store[ip].resetAt < now {
          store := store - {ip};
        }
        keys := keys - {ip};
      }
    }
  }
}
