/** The token buckets of `controller/ratelimiter.go`, one for each source address. */
module Ratelimiter {
  import opened Addresses

  const PACKETS_PER_SECOND: int := 20
  const PACKETS_BURSTABLE: int := 5
  const GARBAGE_COLLECT_TIME: int := 1_000_000_000
  const PACKET_COST: int := 1_000_000_000 / PACKETS_PER_SECOND
  const MAX_TOKENS: int := PACKET_COST * PACKETS_BURSTABLE
  const MAX_INT64: int := 0x7fff_ffff_ffff_ffff

  // ----- Sources.

  // The two tables are keyed by 4-byte and by 16-byte addresses.
  datatype Source = V4(key: Bytes) | V6(key: Bytes)

  const V6_ZERO: Bytes := V4_IN_V6[..10] + [0, 0, 0, 0, 0, 0]

  function SourceOf(ip: Bytes): Source {
    if |ip| == IPV4_LEN then V4(ip)
    else if |ip| == IPV6_LEN && ip[..12] == V4_IN_V6 then V4(ip[12..])
    else if |ip| == IPV6_LEN then V6(ip)
    else V6(V6_ZERO)
  }

  // The 16-byte form of an address; what has no such form is the zero address.
  function Long(ip: Bytes): Bytes {
    if |ip| == 4 then V4_IN_V6 + ip else if |ip| == 16 then ip else V6_ZERO
  }

  /** Two addresses share a bucket exactly if they are the same address, in whichever form each is given. */
  lemma SourceIsAddress(ip: Bytes, ip': Bytes)
    ensures SourceOf(ip) == SourceOf(ip') <==> Long(ip) == Long(ip')
    ensures SourceOf(ip).V4? <==> Long(ip)[..12] == [0, 0, 0, 0, 0, 0, 0, 0, 0, 0, 0xff, 0xff]
  {
    LongIs(ip);
    LongIs(ip');
  }

  lemma LongIs(ip: Bytes)
    ensures |Long(ip)| == 16
    ensures Long(ip) == match SourceOf(ip) case V4(key) => V4_IN_V6 + key case V6(key) => key
    ensures SourceOf(ip).V6? ==> Long(ip)[..12] != V4_IN_V6
    ensures SourceOf(ip).V4? ==> Long(ip)[..12] == V4_IN_V6 && Long(ip)[12..] == SourceOf(ip).key
  {
    if |ip| == 16 {
      assert ip == ip[..12] + ip[12..];
    } else if |ip| != 4 {
      assert V6_ZERO[11] != V4_IN_V6[11];
    }
  }

  // ----- What the limiter computes, on values.

  datatype Bucket = Bucket(lastTime: int, tokens: int)

  type Buckets = map<Source, Bucket>

  // Subtraction of two clock readings saturates.
  function Elapsed(now: int, last: int): int {
    if now - last > MAX_INT64 then MAX_INT64 else if now - last < -MAX_INT64 - 1 then -MAX_INT64 - 1 else now - last
  }

  // Addition of two 64-bit integers wraps.
  function Wrap64(n: int): int {
    (n + MAX_INT64 + 1) % (2 * (MAX_INT64 + 1)) - MAX_INT64 - 1
  }

  function Refilled(b: Bucket, now: int): int {
    var tokens := Wrap64(b.tokens + Elapsed(now, b.lastTime));
    if tokens > MAX_TOKENS then MAX_TOKENS else tokens
  }

  function Allowed(s: Buckets, k: Source, now: int): bool {
    k in s ==> Refilled(s[k], now) > PACKET_COST
  }

  function Charged(s: Buckets, k: Source, now: int): Buckets {
    var tokens := if k in s then Refilled(s[k], now) else MAX_TOKENS;
    s[k := Bucket(now, if Allowed(s, k, now) then tokens - PACKET_COST else tokens)]
  }

  // An entry may be collected only when it was idle for longer than the collection time.
  predicate Idle(b: Bucket, now: int) {
    Elapsed(now, b.lastTime) > GARBAGE_COLLECT_TIME
  }

  datatype Event = Request(src: Source, at: int) | Collect(removed: set<Source>, at: int)

  predicate CanHappen(s: Buckets, e: Event) {
    match e
    case Request(k, now) => k in s ==> now - s[k].lastTime <= MAX_INT64 - MAX_TOKENS
    case Collect(removed, now) => forall k <- removed :: k in s && Idle(s[k], now)
  }

  function After(s: Buckets, e: Event): Buckets {
    match e
    case Request(k, now) => Charged(s, k, now)
    case Collect(removed, _) => s - removed
  }

  // A run: the clock never goes back, and no source waits so long that the 64-bit sum would wrap.
  predicate Run(s: Buckets, t: int, events: seq<Event>)
    decreases |events|
  {
    events != [] ==>
      && t <= events[0].at
      && CanHappen(s, events[0])
      && Run(After(s, events[0]), events[0].at, events[1..])
  }

  function Final(s: Buckets, events: seq<Event>): Buckets
    decreases |events|
  {
    if events == [] then s else Final(After(s, events[0]), events[1..])
  }

  function EndTime(t: int, events: seq<Event>): int
    decreases |events|
  {
    if events == [] then t else EndTime(events[0].at, events[1..])
  }

  lemma {:induction false} EndTimeIsLast(t: int, events: seq<Event>)
    ensures EndTime(t, events) == if events == [] then t else events[|events| - 1].at
    decreases |events|
  {
    if events != [] { EndTimeIsLast(events[0].at, events[1..]); }
  }

  // The answers given to requests, in order, each with its source.
  function Answers(s: Buckets, events: seq<Event>): seq<(Source, bool)>
    decreases |events|
  {
    if events == [] then []
    else
      var rest := Answers(After(s, events[0]), events[1..]);
      if events[0].Request? then [(events[0].src, Allowed(s, events[0].src, events[0].at))] + rest else rest
  }

  function Passed(answers: seq<(Source, bool)>, k: Source): nat {
    if answers == [] then 0
    else (if answers[0] == (k, true) then 1 else 0) + Passed(answers[1..], k)
  }

  lemma AnswersCons(s: Buckets, e: Event, rest: seq<Event>)
    ensures e.Request? ==> Answers(s, [e] + rest) == [(e.src, Allowed(s, e.src, e.at))] + Answers(After(s, e), rest)
    ensures e.Collect? ==> Answers(s, [e] + rest) == Answers(After(s, e), rest)
  {
  }

  // ----- The invariant: a bucket is never empty and never over-full.

  ghost predicate Ok(s: Buckets, t: int) {
    forall k <- s :: 0 < s[k].tokens <= MAX_TOKENS && s[k].lastTime <= t
  }

  lemma RefilledExact(b: Bucket, now: int)
    requires 0 < b.tokens <= MAX_TOKENS && 0 <= now - b.lastTime <= MAX_INT64 - MAX_TOKENS
    ensures Refilled(b, now) == if b.tokens + now - b.lastTime > MAX_TOKENS then MAX_TOKENS
      else b.tokens + now - b.lastTime
  {
  }

  lemma StepKeepsOk(s: Buckets, t: int, e: Event)
    requires Ok(s, t) && t <= e.at && CanHappen(s, e)
    ensures Ok(After(s, e), e.at)
  {
    if e.Request? && e.src in s { RefilledExact(s[e.src], e.at); }
  }

  lemma {:induction false} RunKeepsOk(s: Buckets, t: int, events: seq<Event>)
    requires Ok(s, t) && Run(s, t, events)
    ensures Ok(Final(s, events), EndTime(t, events)) && t <= EndTime(t, events)
    decreases |events|
  {
    if events != [] {
      StepKeepsOk(s, t, events[0]);
      RunKeepsOk(After(s, events[0]), events[0].at, events[1..]);
    }
  }

  // ----- The rate bound.

  // The tokens a source could spend at time `t`; a source without an entry has the maximum.
  function Available(s: Buckets, k: Source, t: int): int {
    if k in s && s[k].tokens + t - s[k].lastTime < MAX_TOKENS then s[k].tokens + t - s[k].lastTime else MAX_TOKENS
  }

  lemma AvailableAfter(s: Buckets, t: int, e: Event, k: Source)
    requires Ok(s, t) && t <= e.at && CanHappen(s, e)
    ensures Available(After(s, e), k, e.at)
      + (if e.Request? && e.src == k && Allowed(s, k, e.at) then PACKET_COST else 0) <= Available(s, k, t) + (e.at - t)
    ensures 0 < Available(s, k, t) <= MAX_TOKENS
  {
  }

  // Whatever a source spends over a run was available at the start or was earned by waiting.
  lemma {:induction false} Spent(s: Buckets, t: int, events: seq<Event>, k: Source)
    requires Ok(s, t) && Run(s, t, events)
    ensures Passed(Answers(s, events), k) * PACKET_COST + Available(Final(s, events), k, EndTime(t, events))
      <= Available(s, k, t) + (EndTime(t, events) - t)
    ensures Available(Final(s, events), k, EndTime(t, events)) > 0
    decreases |events|
  {
    if events == [] {
      AvailableAfter(s, t, Collect({}, t), k);
    } else {
      var e, rest := events[0], events[1..];
      AvailableAfter(s, t, e, k);
      StepKeepsOk(s, t, e);
      Spent(After(s, e), e.at, rest, k);
      PassedStep(s, e, rest, k);
      assert events == [e] + rest;
      OneMore(Passed(Answers(After(s, e), rest), k));
    }
  }

  lemma OneMore(n: nat)
    ensures (1 + n) * PACKET_COST == PACKET_COST + n * PACKET_COST
  {
  }

  lemma PassedStep(s: Buckets, e: Event, rest: seq<Event>, k: Source)
    ensures Passed(Answers(s, [e] + rest), k)
      == (if e.Request? && e.src == k && Allowed(s, k, e.at) then 1 else 0) + Passed(Answers(After(s, e), rest), k)
  {
  }

  // In any stretch of a run that lasts `length` nanoseconds, whatever other sources do and whenever
  // entries are collected, the packets passed for one source cost less than a full bucket plus the
  // time elapsed.
  lemma RateBound(s: Buckets, t: int, events: seq<Event>, k: Source, length: int)
    requires Ok(s, t) && Run(s, t, events)
    requires events != [] && events[|events| - 1].at - events[0].at <= length
    ensures Passed(Answers(s, events), k) * PACKET_COST < MAX_TOKENS + length
  {
    EndTimeIsLast(events[0].at, events);
    assert Run(s, events[0].at, events);
    Spent(s, events[0].at, events, k);
    AvailableAfter(s, t, events[0], k);
    AvailableAfter(s, events[0].at, Collect({}, events[0].at), k);
  }

  // `n` requests at one instant.
  function Burst(k: Source, t: int, n: nat): (events: seq<Event>)
    ensures |events| == n
  {
    if n == 0 then [] else [Request(k, t)] + Burst(k, t, n - 1)
  }

  // The comparison is strict: a request needs more than its cost.
  lemma RequestNow(s: Buckets, k: Source, t: int)
    requires Ok(s, t) && CanHappen(s, Request(k, t))
    ensures Allowed(s, k, t) <==> Available(s, k, t) > PACKET_COST
    ensures var s' := After(s, Request(k, t));
      && Ok(s', t) && CanHappen(s', Request(k, t))
      && Available(s', k, t) == Available(s, k, t) - if Allowed(s, k, t) then PACKET_COST else 0
  {
    if k in s { RefilledExact(s[k], t); }
  }

  // How many packets `available` tokens pay for; some must be left over.
  function PaidBy(available: int): nat {
    if available > PACKET_COST then 1 + PaidBy(available - PACKET_COST) else 0
  }

  lemma {:induction false} PaidByExact(available: int, n: nat)
    ensures n <= PaidBy(available) <==> n == 0 || n * PACKET_COST < available
    decreases n
  {
    if n > 0 {
      OneMore(n - 1);
      if available > PACKET_COST { PaidByExact(available - PACKET_COST, n - 1); }
    }
  }

  /** Of any number of requests at one instant, in any state, exactly as many pass as cost less than what
      is available. */
  lemma {:induction false} BurstExact(s: Buckets, k: Source, t: int, n: nat)
    requires Ok(s, t) && CanHappen(s, Request(k, t))
    ensures Run(s, t, Burst(k, t, n))
    ensures var most := PaidBy(Available(s, k, t));
      Passed(Answers(s, Burst(k, t, n)), k) == if n < most then n else most
    decreases n
  {
    if n > 0 {
      var e := Request(k, t);
      RequestNow(s, k, t);
      BurstExact(After(s, e), k, t, n - 1);
      PassedStep(s, e, Burst(k, t, n - 1), k);
      RunCons(s, t, e, Burst(k, t, n - 1));
    }
  }

  /** All of them pass if and only if together they cost less than that. */
  lemma BurstPasses(s: Buckets, k: Source, t: int, n: nat)
    requires Ok(s, t) && CanHappen(s, Request(k, t))
    ensures Passed(Answers(s, Burst(k, t, n)), k) == n <==> n == 0 || n * PACKET_COST < Available(s, k, t)
  {
    BurstExact(s, k, t, n);
    PaidByExact(Available(s, k, t), n);
  }

  // So a new source, like any that is full, gets four packets through at once and never five.
  lemma BurstIsFour(s: Buckets, k: Source, t: int, n: nat)
    requires Ok(s, t) && CanHappen(s, Request(k, t)) && (k in s ==> t - s[k].lastTime >= MAX_TOKENS)
    ensures Passed(Answers(s, Burst(k, t, n)), k) == if n < 4 then n else 4
  {
    BurstExact(s, k, t, n);
    PaidByExact(MAX_TOKENS, 4);
    PaidByExact(MAX_TOKENS, 5);
  }

  lemma RunCons(s: Buckets, t: int, e: Event, rest: seq<Event>)
    requires t <= e.at && CanHappen(s, e) && Run(After(s, e), e.at, rest)
    ensures Run(s, t, [e] + rest)
  {
  }

  // ----- Garbage collection is invisible.

  function Requests(events: seq<Event>): seq<Event> {
    if events == [] then []
    else if events[0].Request? then [events[0]] + Requests(events[1..])
    else Requests(events[1..])
  }

  // `c` was collected and `s` never was: what `c` lacks, `s` holds full.
  ghost predicate Simulates(c: Buckets, s: Buckets, t: int) {
    && (forall k <- c :: k in s && s[k] == c[k])
    && (forall k <- s :: k !in c ==> s[k].tokens + t - s[k].lastTime >= MAX_TOKENS)
  }

  lemma CollectSimulates(c: Buckets, s: Buckets, t: int, e: Event)
    requires Ok(c, t) && Ok(s, t) && t <= e.at && Simulates(c, s, t) && e.Collect? && CanHappen(c, e)
    ensures Simulates(After(c, e), s, e.at)
  {
  }

  lemma RequestSimulates(c: Buckets, s: Buckets, t: int, e: Event)
    requires Ok(c, t) && Ok(s, t) && t <= e.at && Simulates(c, s, t) && e.Request? && CanHappen(s, e)
    ensures CanHappen(c, e) && Simulates(After(c, e), After(s, e), e.at)
    ensures Allowed(c, e.src, e.at) == Allowed(s, e.src, e.at)
  {
    if e.src in s { RefilledExact(s[e.src], e.at); }
  }

  // The gaps between one source's requests, which do not depend on when entries are collected.
  ghost predicate Gaps(s: Buckets, events: seq<Event>)
    decreases |events|
  {
    events != [] ==>
      if events[0].Request? then CanHappen(s, events[0]) && Gaps(After(s, events[0]), events[1..])
      else Gaps(s, events[1..])
  }

  // A limiter whose entries are collected at arbitrary times gives, on every timed sequence of
  // requests, the answers of one that is never collected.
  lemma {:induction false} CollectionInvisible(c: Buckets, s: Buckets, t: int, events: seq<Event>)
    requires Ok(c, t) && Ok(s, t) && Simulates(c, s, t) && Run(c, t, events) && Gaps(s, events)
    ensures Answers(c, events) == Answers(s, Requests(events))
    decreases |events|
  {
    if events != [] {
      var e, rest := events[0], events[1..];
      assert events == [e] + rest;
      StepKeepsOk(c, t, e);
      AnswersCons(c, e, rest);
      if e.Collect? {
        CollectSimulates(c, s, t, e);
        CollectionInvisible(After(c, e), s, e.at, rest);
      } else {
        RequestSimulates(c, s, t, e);
        StepKeepsOk(s, t, e);
        CollectionInvisible(After(c, e), After(s, e), e.at, rest);
        AnswersCons(s, e, Requests(rest));
      }
    }
  }

  // ----- Sources do not affect each other.

  function Of(events: seq<Event>, k: Source): seq<Event> {
    if events == [] then []
    else if events[0].Request? && events[0].src == k then [events[0]] + Of(events[1..], k)
    else Of(events[1..], k)
  }

  function AnswersTo(answers: seq<(Source, bool)>, k: Source): seq<(Source, bool)> {
    if answers == [] then []
    else if answers[0].0 == k then [answers[0]] + AnswersTo(answers[1..], k)
    else AnswersTo(answers[1..], k)
  }

  // The answers to one source are those it would get if no other source existed.
  lemma {:induction false} SourcesIndependent(s: Buckets, u: Buckets, events: seq<Event>, k: Source)
    requires k in s <==> k in u
    requires k in s ==> s[k] == u[k]
    ensures AnswersTo(Answers(s, Requests(events)), k) == Answers(u, Of(events, k))
    decreases |events|
  {
    if events != [] {
      var e, rest := events[0], events[1..];
      if e.Collect? {
        SourcesIndependent(s, u, rest, k);
        assert Requests(events) == Requests(rest) && Of(events, k) == Of(rest, k);
      } else {
        AnswersCons(s, e, Requests(rest));
        AnswersToCons((e.src, Allowed(s, e.src, e.at)), Answers(After(s, e), Requests(rest)), k);
        if e.src == k {
          AnswersCons(u, e, Of(rest, k));
          SourcesIndependent(After(s, e), After(u, e), rest, k);
        } else {
          SourcesIndependent(After(s, e), u, rest, k);
        }
      }
    }
  }

  lemma AnswersToCons(a: (Source, bool), rest: seq<(Source, bool)>, k: Source)
    ensures AnswersTo([a] + rest, k) == if a.0 == k then [a] + AnswersTo(rest, k) else AnswersTo(rest, k)
  {
  }

  // The effect of one collection whose clock readings lie between `from` and `to`; `keys` are the
  // entries it has still to look at.
  ghost predicate Collected(before: Buckets, after: Buckets, keys: set<Source>, from: int, to: int) {
    && (forall k <- after :: k in before && after[k] == before[k])
    && (forall k <- before :: k !in after ==> Idle(before[k], to))
    && (forall k <- after :: k !in keys ==> !Idle(after[k], from))
  }

  lemma CollectedStep(before: Buckets, after: Buckets, keys: set<Source>, from: int, to: int, key: Source, now: int)
    requires Collected(before, after, keys, from, to) && key in keys && key in after && from <= now <= to
    ensures if Idle(after[key], now) then Collected(before, after - {key}, keys - {key}, from, to)
            else Collected(before, after, keys - {key}, from, to)
  {
  }

  // A finished collection is an event of a run: it removed only idle entries, and all that were idle
  // when it began.
  lemma CollectionIsEvent(before: Buckets, after: Buckets, from: int, to: int)
    requires Collected(before, after, {}, from, to)
    ensures var e := Collect(before.Keys - after.Keys, to);
      CanHappen(before, e) && After(before, e) == after && forall k <- before :: Idle(before[k], from) ==> k !in after
  {
  }

  // ----- The limiter itself.

  class RatelimiterEntry {
    var lastTime: int
    var tokens: int

    constructor (now: int)
      ensures lastTime == now && tokens == MAX_TOKENS - PACKET_COST
    {
      tokens := MAX_TOKENS - PACKET_COST;
      lastTime := now;
    }

    // Adds the tokens earned since the last packet, then takes the cost of this one if there is more.
    method Charge(now: int) returns (ok: bool)
      modifies this
      ensures var refilled := Refilled(Bucket(old(lastTime), old(tokens)), now);
        && ok == (refilled > PACKET_COST)
        && lastTime == now && tokens == if ok then refilled - PACKET_COST else refilled
    {
      tokens := Wrap64(tokens + Elapsed(now, lastTime));
      lastTime := now;
      if tokens > MAX_TOKENS {
        tokens := MAX_TOKENS;
      }
      ok := tokens > PACKET_COST;
      if ok {
        tokens := tokens - PACKET_COST;
      }
    }
  }

  class Ratelimiter {
    // tableIPv4 and tableIPv6 together: the constructor of a source says which of the two it is in.
    var table: map<Source, RatelimiterEntry>
    ghost var buckets: Buckets

    // No two sources share an entry, and the entries hold the buckets.
    ghost predicate Valid()
      reads this, table.Values
    {
      && table.Keys == buckets.Keys
      && (forall k <- buckets :: buckets[k] == Bucket(table[k].lastTime, table[k].tokens))
      && (forall k <- buckets, j <- buckets :: k != j ==> table[k] != table[j])
    }

    constructor ()
      ensures Valid() && buckets == map[]
    {
      table := map[];
      buckets := map[];
    }

    method Allow(ip: Bytes, now: int) returns (ok: bool)
      requires Valid()
      modifies this, table.Values
      ensures Valid() && fresh(table.Values - old(table.Values))
      ensures ok == Allowed(old(buckets), SourceOf(ip), now)
      ensures buckets == Charged(old(buckets), SourceOf(ip), now)
    {
      var key := SourceOf(ip);
      ghost var after := Charged(buckets, key, now);
      if key !in table {
        var entry := new RatelimiterEntry(now);
        table := table[key := entry];
        buckets := after;
        return true;
      }
      ok := table[key].Charge(now);
      buckets := after;
    }

    method Delete(key: Source)
      requires Valid()
      modifies this
      ensures Valid() && table == old(table) - {key} && buckets == old(buckets) - {key}
    {
      table := table - {key};
      buckets := buckets - {key};
    }

    // Each entry is compared with its own reading of the clock, taken between `from` and `to`.
    method GarbageCollectEntries(from: int, to: int)
      requires Valid() && from <= to
      modifies this
      ensures Valid() && table.Values <= old(table.Values)
      ensures Collected(old(buckets), buckets, {}, from, to)
    {
      var keys := table.Keys;
      while keys != {}
        invariant Valid() && table.Values <= old(table.Values) && keys <= table.Keys
        invariant Collected(old(buckets), buckets, keys, from, to)
        decreases keys
      {
        var key :| key in keys;
        var now: int :| from <= now <= to;
        CollectedStep(old(buckets), buckets, keys, from, to, key, now);
        if Elapsed(now, table[key].lastTime) > GARBAGE_COLLECT_TIME {
          Delete(key);
        }
        keys := keys - {key};
      }
    }
  }
}
