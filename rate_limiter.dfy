/** The fixed-window rate limiter: a table of per-key counters, each with
    the time its window ends. A request resets its key's counter when the
    window has passed, counts itself, and is refused with 429 once the
    count exceeds the maximum. Times are milliseconds, passed in. */
module RateLimit {
  import opened JsValues

  datatype Entry = Entry(count: nat, resetTime: int)

  /** `windowMs`, `maxRequests` and the refusal message. */
  datatype Options = Options(windowMs: nat, maxRequests: nat, message: string)

  const DefaultMessage: string := "Too many requests, please try again later."

  /** The options as the constructor completes them: the default message
      unless one is given. */
  function WithDefaults(windowMs: nat, maxRequests: nat, message: Option<string>): (o: Options)
    ensures o.windowMs == windowMs && o.maxRequests == maxRequests
    ensures o.message == if message.Some? then message.value else DefaultMessage
  {
    Options(windowMs, maxRequests, if message.Some? then message.value else DefaultMessage)
  }

  /** The four limiters the routes use. */
  const General: Options := Options(15 * 60 * 1000, 100, "Too many requests from this IP, please try again later.")
  const Auth: Options := Options(15 * 60 * 1000, 5, "Too many authentication attempts, please try again later.")
  const Booking: Options := Options(60 * 60 * 1000, 10, "Too many booking attempts, please try again later.")
  const Admin: Options := Options(15 * 60 * 1000, 200, "Too many admin requests, please try again later.")

  /** What the middleware does with a request: refuse it with 429 and the
      seconds until the window ends, or pass it on with the
      `X-RateLimit-*` header values. */
  datatype Decision = TooMany(message: string, retryAfter: int) | Allowed(limit: nat, remaining: nat, resetTime: int)

  // ---------------------------------------------------------------------
  // One request, as functions

  /** The entry a request finds: a fresh window when the key has none or
      its window has ended, otherwise the current one. */
  function Current(store: map<string, Entry>, key: string, windowMs: nat, now: int): (e: Entry)
    ensures (key !in store || store[key].resetTime < now) ==> e == Entry(0, now + windowMs)
    ensures !(key !in store || store[key].resetTime < now) ==> e == store[key]
  {
    if key !in store || store[key].resetTime < now then Entry(0, now + windowMs) else store[key]
  }

  /** The entry after the request has counted itself. */
  function Counted(store: map<string, Entry>, key: string, windowMs: nat, now: int): Entry {
    var e := Current(store, key, windowMs, now);
    e.(count := e.count + 1)
  }

  /** `Math.ceil(ms / 1000)`. */
  function CeilSeconds(ms: int): (r: int)
    ensures 1000 * (r - 1) < ms <= 1000 * r
  {
    -((-ms) / 1000)
  }

  /** `Math.max(0, a - b)`. */
  function Remaining(maxRequests: nat, count: nat): (r: nat)
    ensures r == if count <= maxRequests then maxRequests - count else 0
  {
    if count <= maxRequests then maxRequests - count else 0
  }

  function Decide(e: Entry, o: Options, now: int): Decision {
    if e.count > o.maxRequests then TooMany(o.message, CeilSeconds(e.resetTime - now))
    else Allowed(o.maxRequests, Remaining(o.maxRequests, e.count), e.resetTime)
  }

  // ---------------------------------------------------------------------
  // The limiter

  class RateLimiter {
    var store: map<string, Entry>
    const options: Options

    /** The timer that runs `Cleanup` every minute is not part of the
        model; `Cleanup` is called explicitly. */
    constructor (o: Options)
      ensures store == map[] && options == o
    {
      store := map[];
      options := o;
    }

    /** The middleware for a request whose key is `key` at time `now`. */
    method Middleware(key: string, now: int) returns (d: Decision)
      modifies this
      ensures store == old(store)[key := Counted(old(store), key, options.windowMs, now)]
      ensures d == Decide(Counted(old(store), key, options.windowMs, now), options, now)
    {
      if key !in store || store[key].resetTime < now {
        store := store[key := Entry(0, now + options.windowMs)];
      }
      store := store[key := store[key].(count := store[key].count + 1)];
      var e := store[key];
      if e.count > options.maxRequests {
        return TooMany(options.message, -((-(e.resetTime - now)) / 1000));
      }
      var remaining := if options.maxRequests - e.count < 0 then 0 else options.maxRequests - e.count;
      return Allowed(options.maxRequests, remaining, e.resetTime);
    }

    /** Drops every entry whose window has ended. */
    method Cleanup(now: int)
      modifies this
      ensures store == Unexpired(old(store), now)
    {
      var keys := store.Keys;
      while keys != {}
        invariant keys <= old(store).Keys
        invariant forall k :: k in store <==> k in old(store) && (k in keys || old(store)[k].resetTime >= now)
        invariant forall k :: k in store ==> store[k] == old(store)[k]
        decreases keys
      {
        var k :| k in keys;
        if store[k].resetTime < now {
          store := store - {k};
        }
        keys := keys - {k};
      }
    }
  }

  /** The entries whose window has not ended. */
  function Unexpired(store: map<string, Entry>, now: int): (r: map<string, Entry>)
    ensures forall k :: k in r <==> k in store && store[k].resetTime >= now
    ensures forall k :: k in r ==> r[k] == store[k]
  {
    map k | k in store && store[k].resetTime >= now :: store[k]
  }

  /** `getKey`: the address, or "unknown" when there is none, followed by
      ":" and the user id when a user is attached. */
  function GetKey(ip: Option<string>, remoteAddress: Option<string>, userId: Option<string>): string {
    var addr := if Present(ip) then ip.value else if Present(remoteAddress) then remoteAddress.value else "unknown";
    if Present(userId) then addr + ":" + userId.value else addr
  }

  // ---------------------------------------------------------------------
  // Properties of one request

  /** The window is reset exactly when the key has no entry or its window
      has ended; either way the request adds exactly one to the count, the
      request is refused exactly when that count exceeds the maximum, and
      no other key's entry changes. */
  lemma MiddlewareOutcome(store: map<string, Entry>, o: Options, key: string, now: int)
    ensures var e := Counted(store, key, o.windowMs, now);
      var d := Decide(e, o, now);
      && ((key !in store || store[key].resetTime < now) ==> e == Entry(1, now + o.windowMs))
      && (key in store && store[key].resetTime >= now ==> e == Entry(store[key].count + 1, store[key].resetTime))
      && (d.TooMany? <==> e.count > o.maxRequests)
      && (d.TooMany? ==> d.message == o.message && e.resetTime >= now && d.retryAfter >= 0
                         && 1000 * (d.retryAfter - 1) < e.resetTime - now <= 1000 * d.retryAfter)
      && (d.Allowed? ==> d.limit == o.maxRequests && d.remaining + e.count == o.maxRequests && d.resetTime == e.resetTime)
      && (forall k :: k != key ==> (k in store <==> k in store[key := e]) && (k in store ==> store[key := e][k] == store[k]))
  {
  }

  // ---------------------------------------------------------------------
  // Many requests in one window

  /** The number of requests among `times` that pass when they arrive for
      one key in that order, starting from `store`. */
  function Passes(store: map<string, Entry>, o: Options, key: string, times: seq<int>): nat
    decreases |times|
  {
    if times == [] then 0
    else
      var e := Counted(store, key, o.windowMs, times[0]);
      (if Decide(e, o, times[0]).Allowed? then 1 else 0) + Passes(store[key := e], o, key, times[1..])
  }

  function Min(a: int, b: int): int { if a <= b then a else b }

  /** Inside a window that does not end, exactly the first
      `maxRequests - count` further requests pass and every later one is
      refused. */
  lemma {:induction false} PassesInWindow(store: map<string, Entry>, o: Options, key: string, times: seq<int>)
    requires key in store
    requires forall i :: 0 <= i < |times| ==> times[i] <= store[key].resetTime
    ensures Passes(store, o, key, times) == Min(|times|, Remaining(o.maxRequests, store[key].count))
    decreases |times|
  {
    if times != [] {
      var e := Counted(store, key, o.windowMs, times[0]);
      assert e == Entry(store[key].count + 1, store[key].resetTime);
      var next := store[key := e];
      forall i | 0 <= i < |times[1..]| ensures times[1..][i] <= next[key].resetTime {
        assert times[1..][i] == times[i + 1];
      }
      PassesInWindow(next, o, key, times[1..]);
    }
  }

  /** Whatever the key's history, at most `maxRequests` requests pass in a
      window that starts with the first of them. */
  lemma AtMostMaxPerWindow(store: map<string, Entry>, o: Options, key: string, times: seq<int>)
    requires times != []
    requires key !in store || store[key].resetTime < times[0]
    requires forall i :: 0 <= i < |times| ==> times[i] <= times[0] + o.windowMs
    ensures Passes(store, o, key, times) <= o.maxRequests
  {
    var e := Counted(store, key, o.windowMs, times[0]);
    var next := store[key := e];
    assert e == Entry(1, times[0] + o.windowMs);
    forall i | 0 <= i < |times[1..]| ensures times[1..][i] <= next[key].resetTime {
      assert times[1..][i] == times[i + 1];
    }
    PassesInWindow(next, o, key, times[1..]);
  }

  // ---------------------------------------------------------------------
  // Keys

  /** Two users behind one address get different counters, and an
      anonymous caller counts under the address alone. */
  lemma KeysSeparateUsers(ip: string, u1: string, u2: string)
    requires ip != "" && u1 != "" && u2 != ""
    ensures GetKey(Some(ip), None, None) == ip
    ensures GetKey(Some(ip), None, Some(u1)) == GetKey(Some(ip), None, Some(u2)) <==> u1 == u2
    ensures GetKey(None, None, None) == "unknown"
  {
    var p := ip + ":";
    if GetKey(Some(ip), None, Some(u1)) == GetKey(Some(ip), None, Some(u2)) {
      assert u1 == (p + u1)[|p|..] && u2 == (p + u2)[|p|..];
    }
  }

  /** An address with a colon in it, such as an IPv6 one, can share its
      counter with a user behind another address. */
  lemma AnonymousCanShareUserKey()
    ensures GetKey(Some("::1"), None, None) == GetKey(Some(":"), None, Some("1"))
  {
  }
}
