/** The token-bucket rate limiter and the eviction of idle buckets. */
module RateLimiter {
  import opened Wrappers

  type Client = string

  datatype Bucket = Bucket(tokens: real, last: real)

  type Buckets = map<Client, Bucket>

  datatype Config = Config(maxTokens: real, refillMs: real)

  ghost predicate Sane(c: Config)
  {
    c.maxTokens >= 1.0 && c.refillMs > 0.0
  }

  /** The tokens that flow in during `elapsed`. */
  function Refill(c: Config, elapsed: real): real
    requires c.refillMs > 0.0
  {
    elapsed / c.refillMs * c.maxTokens
  }

  datatype Verdict = Verdict(bucket: Bucket, accepted: bool)

  /** What a request at `now` does to a client's bucket. */
  function Admit(c: Config, b: Bucket, now: real): Verdict
    requires c.refillMs > 0.0
  {
    var tokens := MinReal(c.maxTokens, b.tokens + Refill(c, now - b.last));
    if tokens < 1.0 then Verdict(Bucket(tokens, now), false) else Verdict(Bucket(tokens - 1.0, now), true)
  }

  /** The bucket a request finds; an unknown client starts with a full one. */
  function Found(c: Config, bs: Buckets, client: Client, now: real): Bucket
  {
    if client in bs then bs[client] else Bucket(c.maxTokens, now)
  }

  function Requested(c: Config, bs: Buckets, client: Client, now: real): Buckets
    requires c.refillMs > 0.0
  {
    bs[client := Admit(c, Found(c, bs, client, now), now).bucket]
  }

  predicate Idle(c: Config, b: Bucket, now: real)
  {
    now - b.last > c.refillMs * 2.0
  }

  function Cleaned(c: Config, bs: Buckets, now: real): Buckets
  {
    map k | k in bs && !Idle(c, bs[k], now) :: bs[k]
  }

  class Limiter {
    const config: Config
    var buckets: Buckets

    constructor (config: Config)
      ensures this.config == config && buckets == map[]
    {
      this.config := config;
      buckets := map[];
    }

    method CanActivate(client: Client, now: real) returns (accepted: bool)
      requires config.refillMs > 0.0
      modifies this`buckets
      ensures buckets == Requested(config, old(buckets), client, now)
      ensures accepted == Admit(config, Found(config, old(buckets), client, now), now).accepted
      ensures buckets.Keys == old(buckets).Keys + {client} && buckets[client].last == now
      ensures forall k :: k in old(buckets) && k != client ==> buckets[k] == old(buckets)[k]
    {
      if client !in buckets {
        buckets := buckets[client := Bucket(config.maxTokens, now)];
      }
      var bucket := buckets[client];
      var elapsed := now - bucket.last;
      var tokens := MinReal(config.maxTokens, bucket.tokens + (elapsed / config.refillMs) * config.maxTokens);
      buckets := buckets[client := Bucket(tokens, now)];
      if tokens < 1.0 {
        return false;
      }
      buckets := buckets[client := Bucket(tokens - 1.0, now)];
      return true;
    }

    /** The periodic cleanup: drops every bucket that has been idle for long. */
    method Cleanup(now: real)
      modifies this`buckets
      ensures buckets == Cleaned(config, old(buckets), now)
      ensures forall k :: k in buckets <==> k in old(buckets) && now - old(buckets)[k].last <= 2.0 * config.refillMs
      ensures forall k :: k in buckets ==> buckets[k] == old(buckets)[k]
    {
      var keys := buckets.Keys;
      while keys != {}
        invariant keys <= old(buckets).Keys
        invariant forall k :: k in buckets <==> k in old(buckets) && (k in keys || !Idle(config, old(buckets)[k], now))
        invariant forall k :: k in buckets ==> buckets[k] == old(buckets)[k]
        decreases |keys|
      {
        var key :| key in keys;
        keys := keys - {key};
        if now - buckets[key].last > config.refillMs * 2.0 {
          buckets := buckets - {key};
        }
      }
    }
  }

  // ------------------------------------------------------------------- runs

  datatype Event = Request(now: real, client: Client) | CleanupTick(now: real)

  /** The buckets after a run of the limiter, with or without eviction. */
  function After(c: Config, es: seq<Event>, evicting: bool): Buckets
    requires c.refillMs > 0.0
  {
    if es == [] then map[] else
      var bs := After(c, es[..|es| - 1], evicting);
      match es[|es| - 1]
      case Request(now, client) => Requested(c, bs, client, now)
      case CleanupTick(now) => if evicting then Cleaned(c, bs, now) else bs
  }

  /** The clock never runs backwards. */
  ghost predicate Timed(es: seq<Event>)
  {
    forall i, j :: 0 <= i <= j < |es| ==> es[i].now <= es[j].now
  }

  /** What request `i` of the run is answered. */
  function Accepted(c: Config, es: seq<Event>, i: nat, evicting: bool): bool
    requires c.refillMs > 0.0 && i < |es| && es[i].Request?
  {
    Admit(c, Found(c, After(c, es[..i], evicting), es[i].client, es[i].now), es[i].now).accepted
  }

  lemma RefillAdds(c: Config, x: real, y: real)
    requires c.refillMs > 0.0
    ensures Refill(c, x) + Refill(c, y) == Refill(c, x + y)
  {
    assert x / c.refillMs + y / c.refillMs == (x + y) / c.refillMs;
    Distribute(x / c.refillMs, y / c.refillMs, c.maxTokens);
  }

  lemma Distribute(a: real, b: real, m: real)
    ensures a * m + b * m == (a + b) * m
  {
  }

  lemma RefillGrows(c: Config, x: real, y: real)
    requires Sane(c) && x <= y
    ensures Refill(c, x) <= Refill(c, y)
  {
    assert x / c.refillMs <= y / c.refillMs;
    Scale(x / c.refillMs, y / c.refillMs, c.maxTokens);
  }

  lemma Scale(a: real, b: real, m: real)
    requires a <= b && m >= 0.0
    ensures a * m <= b * m
  {
  }

  lemma FullRefill(c: Config)
    requires Sane(c)
    ensures Refill(c, 0.0) == 0.0 && Refill(c, c.refillMs) == c.maxTokens && Refill(c, c.refillMs / c.maxTokens) == 1.0
  {
    var r, m := c.refillMs, c.maxTokens;
    assert (r / m) / r == 1.0 / m;
  }

  /** A bucket never holds a negative amount or more than its size, and was not
      touched in the future. */
  ghost predicate Filled(c: Config, bs: Buckets, now: real)
  {
    forall k :: k in bs ==> 0.0 <= bs[k].tokens <= c.maxTokens && bs[k].last <= now
  }

  lemma {:induction false} AlwaysFilled(c: Config, es: seq<Event>, now: real)
    requires Sane(c) && Timed(es) && forall i :: 0 <= i < |es| ==> es[i].now <= now
    ensures Filled(c, After(c, es, false), now)
  {
    if es != [] {
      var k := |es| - 1;
      AlwaysFilled(c, es[..k], es[k].now);
      if es[k].Request? {
        FullRefill(c);
        RefillGrows(c, 0.0, es[k].now - Found(c, After(c, es[..k], false), es[k].client, es[k].now).last);
      }
    }
  }

  // ------------------------------------------------------- eviction is invisible

  /** The evicting limiter holds the same buckets, except some long idle ones. */
  ghost predicate Mirrors(c: Config, evicted: Buckets, full: Buckets, now: real)
  {
    && (forall k :: k in evicted ==> k in full && evicted[k] == full[k])
    && (forall k :: k in full && k !in evicted ==> now - full[k].last >= c.refillMs * 2.0)
  }

  /** A long idle bucket is full again, just like a new one. */
  lemma IdleIsFull(c: Config, b: Bucket, now: real)
    requires Sane(c) && b.tokens >= 0.0 && now - b.last >= c.refillMs * 2.0
    ensures Admit(c, b, now) == Admit(c, Bucket(c.maxTokens, now), now)
  {
    FullRefill(c);
    RefillGrows(c, c.refillMs, now - b.last);
  }

  lemma {:induction false} EvictionMirrors(c: Config, es: seq<Event>, now: real)
    requires Sane(c) && Timed(es) && forall i :: 0 <= i < |es| ==> es[i].now <= now
    ensures Mirrors(c, After(c, es, true), After(c, es, false), now)
  {
    if es != [] {
      var k := |es| - 1;
      EvictionMirrors(c, es[..k], es[k].now);
      AlwaysFilled(c, es[..k], es[k].now);
      if es[k].Request? {
        SameVerdict(c, After(c, es[..k], true), After(c, es[..k], false), es[k].client, es[k].now);
      }
    }
  }

  lemma SameVerdict(c: Config, evicted: Buckets, full: Buckets, client: Client, now: real)
    requires Sane(c) && Mirrors(c, evicted, full, now) && Filled(c, full, now)
    ensures Admit(c, Found(c, evicted, client, now), now) == Admit(c, Found(c, full, client, now), now)
  {
    if client in full && client !in evicted {
      IdleIsFull(c, full[client], now);
    }
  }

  /** Eviction is invisible: whenever cleanups run, every request of every client
      is answered as by the limiter that never evicts. */
  lemma EvictionIsInvisible(c: Config, es: seq<Event>, i: nat)
    requires Sane(c) && Timed(es) && i < |es| && es[i].Request?
    ensures Accepted(c, es, i, true) == Accepted(c, es, i, false)
  {
    EvictionMirrors(c, es[..i], es[i].now);
    AlwaysFilled(c, es[..i], es[i].now);
    SameVerdict(c, After(c, es[..i], true), After(c, es[..i], false), es[i].client, es[i].now);
  }

  // ---------------------------------------------------------------- rate bound

  /** How many requests of a client are accepted from time `a` to time `b`. */
  function CountAccepted(c: Config, es: seq<Event>, client: Client, a: real, b: real, evicting: bool): nat
    requires c.refillMs > 0.0
  {
    if es == [] then 0 else
      var k := |es| - 1;
      CountAccepted(c, es[..k], client, a, b, evicting) +
        (if es[k].Request? && es[k].client == client && a <= es[k].now <= b && Accepted(c, es, k, evicting) then 1 else 0)
  }

  /** What was accepted since `a` plus what is left in the bucket is at most one
      bucketful plus the inflow since `a`. */
  ghost predicate Balanced(c: Config, bs: Buckets, client: Client, count: nat, a: real)
    requires c.refillMs > 0.0
  {
    if client in bs && bs[client].last >= a then
      count as real + bs[client].tokens <= c.maxTokens + Refill(c, bs[client].last - a)
    else count == 0
  }

  lemma RequestBalances(c: Config, bs: Buckets, client: Client, count: nat, a: real, now: real)
    requires Sane(c) && Filled(c, bs, now) && Balanced(c, bs, client, count, a) && a <= now
    ensures
      var v := Admit(c, Found(c, bs, client, now), now);
      Balanced(c, Requested(c, bs, client, now), client, count + (if v.accepted then 1 else 0), a)
  {
    var b := Found(c, bs, client, now);
    FullRefill(c);
    RefillGrows(c, 0.0, now - a);
    RefillAdds(c, b.last - a, now - b.last);
  }

  lemma {:induction false} CountBalances(c: Config, es: seq<Event>, client: Client, a: real, b: real)
    requires Sane(c) && Timed(es) && forall i :: 0 <= i < |es| ==> es[i].now <= b
    ensures Balanced(c, After(c, es, false), client, CountAccepted(c, es, client, a, b, false), a)
  {
    if es != [] {
      var k := |es| - 1;
      CountBalances(c, es[..k], client, a, b);
      AlwaysFilled(c, es[..k], es[k].now);
      if es[k].Request? && es[k].client == client {
        var bs := After(c, es[..k], false);
        if a <= es[k].now {
          RequestBalances(c, bs, client, CountAccepted(c, es[..k], client, a, b, false), a, es[k].now);
        }
      }
    }
  }

  lemma {:induction false} CountsAgree(c: Config, es: seq<Event>, client: Client, a: real, b: real)
    requires Sane(c) && Timed(es)
    ensures CountAccepted(c, es, client, a, b, true) == CountAccepted(c, es, client, a, b, false)
  {
    if es != [] {
      CountsAgree(c, es[..|es| - 1], client, a, b);
      if es[|es| - 1].Request? {
        EvictionIsInvisible(c, es, |es| - 1);
      }
    }
  }

  /** The events of a run up to time `b`; the clock makes them a prefix. */
  lemma {:induction false} LaterDontCount(c: Config, es: seq<Event>, client: Client, a: real, b: real, n: nat)
    requires Sane(c) && n <= |es| && forall i :: n <= i < |es| ==> es[i].now > b
    ensures CountAccepted(c, es, client, a, b, false) == CountAccepted(c, es[..n], client, a, b, false)
  {
    if n < |es| {
      var k := |es| - 1;
      LaterDontCount(c, es[..k], client, a, b, n);
      assert es[..k][..n] == es[..n];
    } else {
      assert es[..n] == es;
    }
  }

  lemma {:induction false} Cut(es: seq<Event>, b: real) returns (n: nat)
    requires Timed(es)
    ensures n <= |es| && (forall i :: 0 <= i < n ==> es[i].now <= b) && (forall i :: n <= i < |es| ==> es[i].now > b)
  {
    if es == [] {
      n := 0;
    } else {
      var k := |es| - 1;
      if es[k].now <= b {
        n := |es|;
      } else {
        n := Cut(es[..k], b);
      }
    }
  }

  /** One bucketful plus the inflow of the window. */
  function WindowBound(c: Config, a: real, b: real): real
    requires c.refillMs > 0.0
  {
    c.maxTokens * (1.0 + (b - a) / c.refillMs)
  }

  /** Rate bound: in any window of any run, with cleanups anywhere, a client gets
      at most one bucketful plus the inflow of the window accepted. */
  lemma RateBound(c: Config, es: seq<Event>, client: Client, a: real, b: real)
    requires Sane(c) && Timed(es) && a <= b
    ensures CountAccepted(c, es, client, a, b, true) as real <= WindowBound(c, a, b)
  {
    CountsAgree(c, es, client, a, b);
    var n := Cut(es, b);
    LaterDontCount(c, es, client, a, b, n);
    CountBalances(c, es[..n], client, a, b);
    AlwaysFilled(c, es[..n], b);
    BalanceBounds(c, After(c, es[..n], false), client, CountAccepted(c, es[..n], client, a, b, false), a, b);
  }

  lemma BalanceBounds(c: Config, bs: Buckets, client: Client, count: nat, a: real, b: real)
    requires Sane(c) && a <= b && Filled(c, bs, b) && Balanced(c, bs, client, count, a)
    ensures count as real <= WindowBound(c, a, b)
  {
    FullRefill(c);
    RefillGrows(c, 0.0, b - a);
    if client in bs && bs[client].last >= a {
      RefillGrows(c, bs[client].last - a, b - a);
    }
    Expand(c.maxTokens, (b - a) / c.refillMs);
  }

  lemma Expand(m: real, x: real)
    ensures m * (1.0 + x) == m + x * m
  {
  }

  // ----------------------------------------------------- when a request is accepted

  /** One more acceptance would stay within the bound for the window from `a`. */
  ghost predicate RoomSince(c: Config, count: nat, a: real, now: real)
    requires c.refillMs > 0.0
  {
    count as real + 1.0 <= WindowBound(c, a, now)
  }

  lemma RoomMeaning(c: Config, count: nat, a: real, now: real)
    requires Sane(c)
    ensures RoomSince(c, count, a, now) <==> count as real + 1.0 <= c.maxTokens + Refill(c, now - a)
  {
    Expand(c.maxTokens, (now - a) / c.refillMs);
  }

  /** The bucket was full at time `a` and what was accepted since, plus what is left,
      is exactly that bucketful plus the inflow. */
  ghost predicate FullAt(c: Config, b: Bucket, count: nat, a: real)
    requires c.refillMs > 0.0
  {
    a <= b.last && count as real + b.tokens == c.maxTokens + Refill(c, b.last - a)
  }

  /** Before time `a` nothing counts. */
  lemma {:induction false} NothingSince(c: Config, es: seq<Event>, client: Client, a: real, b: real)
    requires Sane(c) && forall i :: 0 <= i < |es| && RequestOf(es[i], client) ==> es[i].now < a
    ensures CountAccepted(c, es, client, a, b, false) == 0
  {
    if es != [] {
      NothingSince(c, es[..|es| - 1], client, a, b);
    }
  }

  /** The time stamp of a bucket is that of the client's latest request. */
  lemma {:induction false} StampIsLatest(c: Config, es: seq<Event>, client: Client, i: nat)
    requires Sane(c) && Timed(es) && i < |es| && RequestOf(es[i], client)
    ensures client in After(c, es, false) && es[i].now <= After(c, es, false)[client].last
  {
    var k := |es| - 1;
    if !RequestOf(es[k], client) {
      StampIsLatest(c, es[..k], client, i);
    }
  }

  /** A bucket that is less than full after a request has been running down since
      some time at which it was full. */
  lemma {:induction false} FullSince(c: Config, es: seq<Event>, client: Client, b: real) returns (a: real)
    requires Sane(c) && Timed(es) && client in After(c, es, false) && forall i :: 0 <= i < |es| ==> es[i].now <= b
    ensures FullAt(c, After(c, es, false)[client], CountAccepted(c, es, client, a, b, false), a)
    decreases |es|, 0
  {
    var k := |es| - 1;
    var bs := After(c, es[..k], false);
    if RequestOf(es[k], client) {
      a := FullBefore(c, es[..k], client, es[k].now, b);
      RequestKeepsFull(c, bs, client, CountAccepted(c, es[..k], client, a, b, false), a, es[k].now);
    } else {
      a := FullSince(c, es[..k], client, b);
    }
  }

  /** The same just before a request at `now`, when the bucket is refilled. */
  lemma {:induction false} FullBefore(c: Config, es: seq<Event>, client: Client, now: real, b: real) returns (a: real)
    requires Sane(c) && Timed(es) && now <= b && forall i :: 0 <= i < |es| ==> es[i].now <= now
    ensures a <= now
    ensures var count := CountAccepted(c, es, client, a, b, false);
      Refilled(c, After(c, es, false), client, now) == c.maxTokens + Refill(c, now - a) - count as real
    decreases |es|, 1
  {
    var bs := After(c, es, false);
    FullRefill(c);
    if client !in bs {
      a := now;
      forall i | 0 <= i < |es| ensures !RequestOf(es[i], client) {
        if RequestOf(es[i], client) {
          StampIsLatest(c, es, client, i);
        }
      }
      NothingSince(c, es, client, a, b);
    } else if bs[client].tokens + Refill(c, now - bs[client].last) >= c.maxTokens {
      a := now;
      StampIsEarlier(c, es, client, now);
      forall i | 0 <= i < |es| && RequestOf(es[i], client) ensures es[i].now < now {
        StampIsLatest(c, es, client, i);
      }
      NothingSince(c, es, client, a, b);
    } else {
      a := FullSince(c, es, client, b);
      AlwaysFilled(c, es, now);
      RefillAdds(c, bs[client].last - a, now - bs[client].last);
    }
  }

  /** What a request at `now` finds in the bucket. */
  function Refilled(c: Config, bs: Buckets, client: Client, now: real): real
    requires c.refillMs > 0.0
  {
    if client !in bs then c.maxTokens
    else if bs[client].tokens + Refill(c, now - bs[client].last) >= c.maxTokens then c.maxTokens
    else bs[client].tokens + Refill(c, now - bs[client].last)
  }

  /** After a request no bucket is full, so one that is full now was not touched at
      this very moment. */
  lemma {:induction false} StampIsEarlier(c: Config, es: seq<Event>, client: Client, now: real)
    requires Sane(c) && Timed(es) && client in After(c, es, false) && forall i :: 0 <= i < |es| ==> es[i].now <= now
    requires After(c, es, false)[client].tokens + Refill(c, now - After(c, es, false)[client].last) >= c.maxTokens
    ensures After(c, es, false)[client].last < now
  {
    AlwaysFilled(c, es, now);
    NotFull(c, es, client);
    FullRefill(c);
  }

  lemma {:induction false} NotFull(c: Config, es: seq<Event>, client: Client)
    requires Sane(c) && client in After(c, es, false)
    ensures After(c, es, false)[client].tokens < c.maxTokens
  {
    var k := |es| - 1;
    if !RequestOf(es[k], client) {
      NotFull(c, es[..k], client);
    }
  }

  lemma RequestKeepsFull(c: Config, bs: Buckets, client: Client, count: nat, a: real, now: real)
    requires Sane(c) && a <= now && Refilled(c, bs, client, now) == c.maxTokens + Refill(c, now - a) - count as real
    ensures var v := Admit(c, Found(c, bs, client, now), now);
      FullAt(c, v.bucket, count + (if v.accepted then 1 else 0), a)
  {
    FullRefill(c);
  }

  lemma VerdictOnRefilled(c: Config, bs: Buckets, client: Client, now: real)
    requires Sane(c)
    ensures Admit(c, Found(c, bs, client, now), now).accepted <==> Refilled(c, bs, client, now) >= 1.0
  {
    FullRefill(c);
  }

  /** A rejected request has no room since some moment. */
  lemma RejectionHasReason(c: Config, es: seq<Event>, j: nat) returns (a: real)
    requires Sane(c) && Timed(es) && j < |es| && es[j].Request? && !Accepted(c, es, j, true)
    ensures a <= es[j].now
    ensures !RoomSince(c, CountAccepted(c, es[..j], es[j].client, a, es[j].now, true), a, es[j].now)
  {
    var now, client := es[j].now, es[j].client;
    EvictionIsInvisible(c, es, j);
    a := FullBefore(c, es[..j], client, now, now);
    VerdictOnRefilled(c, After(c, es[..j], false), client, now);
    CountsAgree(c, es[..j], client, a, now);
    RoomMeaning(c, CountAccepted(c, es[..j], client, a, now, true), a, now);
  }

  /** An accepted request keeps the bound, together with all before it. */
  lemma AcceptedHasRoom(c: Config, es: seq<Event>, j: nat, a: real)
    requires Sane(c) && Timed(es) && j < |es| && es[j].Request? && Accepted(c, es, j, true) && a <= es[j].now
    ensures RoomSince(c, CountAccepted(c, es[..j], es[j].client, a, es[j].now, true), a, es[j].now)
  {
    ghost var n := CountAccepted(c, es[..j], es[j].client, a, es[j].now, true);
    assert (n + 1) as real <= WindowBound(c, a, es[j].now) by {
      CountedLast(c, es, j, a);
      TimedPrefix(es, j + 1);
      RateBound(c, es[..j + 1], es[j].client, a, es[j].now);
    }
    RoomForOne(c, n, a, es[j].now);
  }

  lemma TimedPrefix(es: seq<Event>, n: nat)
    requires Timed(es) && n <= |es|
    ensures Timed(es[..n])
  {
  }

  lemma RoomForOne(c: Config, count: nat, a: real, now: real)
    requires Sane(c) && (count + 1) as real <= WindowBound(c, a, now)
    ensures RoomSince(c, count, a, now)
  {
    assert (count + 1) as real == count as real + 1.0;
  }

  lemma CountedLast(c: Config, es: seq<Event>, j: nat, a: real)
    requires Sane(c) && j < |es| && es[j].Request? && Accepted(c, es, j, true) && a <= es[j].now
    ensures CountAccepted(c, es[..j + 1], es[j].client, a, es[j].now, true) == CountAccepted(c, es[..j], es[j].client, a, es[j].now, true) + 1
  {
    var upto := es[..j + 1];
    assert upto[..j] == es[..j] && upto[j] == es[j];
  }

  /** The limiter's whole promise, with cleanups anywhere: a request is accepted if
      and only if, for every moment before it, what was accepted since then leaves
      room for one more within a bucketful plus the inflow. */
  lemma AcceptanceCondition(c: Config, es: seq<Event>, j: nat)
    requires Sane(c) && Timed(es) && j < |es| && es[j].Request?
    ensures Accepted(c, es, j, true) <==>
      forall a :: a <= es[j].now ==> RoomSince(c, CountAccepted(c, es[..j], es[j].client, a, es[j].now, true), a, es[j].now)
  {
    if Accepted(c, es, j, true) {
      forall a | a <= es[j].now ensures RoomSince(c, CountAccepted(c, es[..j], es[j].client, a, es[j].now, true), a, es[j].now) {
        AcceptedHasRoom(c, es, j, a);
      }
    } else {
      var a := RejectionHasReason(c, es, j);
    }
  }

  function RequestCount(es: seq<Event>, client: Client): nat
  {
    if es == [] then 0 else RequestCount(es[..|es| - 1], client) + (if RequestOf(es[|es| - 1], client) then 1 else 0)
  }

  lemma {:induction false} AcceptedAreRequests(c: Config, es: seq<Event>, client: Client, a: real, b: real)
    requires Sane(c)
    ensures CountAccepted(c, es, client, a, b, true) <= RequestCount(es, client)
  {
    if es != [] {
      AcceptedAreRequests(c, es[..|es| - 1], client, a, b);
    }
  }

  /** A burst is served: as many requests as the bucket holds tokens are accepted from
      the start, however fast they come. */
  lemma FirstRequestsAreAccepted(c: Config, es: seq<Event>, j: nat)
    requires Sane(c) && Timed(es) && j < |es| && es[j].Request?
    requires RequestCount(es[..j], es[j].client) as real + 1.0 <= c.maxTokens
    ensures Accepted(c, es, j, true)
  {
    AcceptanceCondition(c, es, j);
    forall a | a <= es[j].now ensures RoomSince(c, CountAccepted(c, es[..j], es[j].client, a, es[j].now, true), a, es[j].now) {
      AcceptedAreRequests(c, es[..j], es[j].client, a, es[j].now);
      FullRefill(c);
      RefillGrows(c, 0.0, es[j].now - a);
      RoomMeaning(c, CountAccepted(c, es[..j], es[j].client, a, es[j].now, true), a, es[j].now);
    }
  }

  // ------------------------------------------------------- patient clients

  /** Any two requests of the client are at least one token's inflow apart. */
  ghost predicate Patient(c: Config, es: seq<Event>, client: Client)
    requires Sane(c)
  {
    forall i, j :: 0 <= i < j < |es| && RequestOf(es[i], client) && RequestOf(es[j], client) ==>
      es[j].now - es[i].now >= c.refillMs / c.maxTokens
  }

  predicate RequestOf(e: Event, client: Client) { e.Request? && e.client == client }

  /** A bucket's time stamp is the time of the client's last request. */
  lemma {:induction false} LastRequest(c: Config, es: seq<Event>, client: Client) returns (i: nat)
    requires Sane(c) && client in After(c, es, false)
    ensures i < |es| && RequestOf(es[i], client) && After(c, es, false)[client].last == es[i].now
  {
    var k := |es| - 1;
    if RequestOf(es[k], client) {
      i := k;
    } else {
      i := LastRequest(c, es[..k], client);
    }
  }

  /** A client that waits refillMs / maxTokens between requests is never rejected. */
  lemma PatientIsNeverRejected(c: Config, es: seq<Event>, client: Client, j: nat)
    requires Sane(c) && Timed(es) && Patient(c, es, client) && j < |es| && RequestOf(es[j], client)
    ensures Accepted(c, es, j, true)
  {
    EvictionIsInvisible(c, es, j);
    var bs := After(c, es[..j], false);
    FullRefill(c);
    if client in bs {
      AlwaysFilled(c, es[..j], es[j].now);
      var i := LastRequest(c, es[..j], client);
      RefillGrows(c, c.refillMs / c.maxTokens, es[j].now - bs[client].last);
    }
  }
}
