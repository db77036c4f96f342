/**
 * The fixed-window rate limiter of the marketing site (apps/marketing/src/lib/rate-limit.ts).
 *
 * `RateLimiter` is the in-memory limiter: nested maps, updated in place, pruned opportunistically
 * once a bucket map holds 500 keys. Its answers are compared with a specification that has neither
 * maps nor pruning: one counter that sees the calls of a single key and nothing else.
 */
module RateLimit {
  import opened Prelude

  datatype Bucket = Bucket(count: int, resetAt: int)

  datatype Options = Options(windowMs: int, maxRequests: int)

  type Buckets = map<string, Bucket>

  type Stores = map<string, Buckets>

  datatype Call = Call(bucketName: string, key: string, options: Options, now: int)

  const PRUNE_THRESHOLD := 500

  // ---------- What one call does to the stores ----------

  function Pruned(buckets: Buckets, now: int): Buckets {
    if |buckets| < PRUNE_THRESHOLD then buckets
    else map k | k in buckets && buckets[k].resetAt > now :: buckets[k]
  }

  function BucketsOf(stores: Stores, bucketName: string): Buckets {
    if bucketName in stores then stores[bucketName] else map[]
  }

  function Lookup(stores: Stores, bucketName: string, key: string): Option<Bucket> {
    var buckets := BucketsOf(stores, bucketName);
    if key in buckets then Some(buckets[key]) else None
  }

  function Consumed(stores: Stores, call: Call): (bool, Stores) {
    var buckets := BucketsOf(stores, call.bucketName);
    var existing := Lookup(stores, call.bucketName, call.key);
    if existing.None? || existing.value.resetAt <= call.now then
      var reopened := buckets[call.key := Bucket(1, call.now + call.options.windowMs)];
      (true, stores[call.bucketName := Pruned(reopened, call.now)])
    else if existing.value.count >= call.options.maxRequests then
      (false, stores)
    else
      var counted := buckets[call.key := existing.value.(count := existing.value.count + 1)];
      (true, stores[call.bucketName := counted])
  }

  class RateLimiter {
    var stores: Stores

    constructor ()
      ensures stores == map[]
    {
      stores := map[];
    }

    /** Deletes expired entries one key at a time, as the loop over the map does. */
    method PruneRateLimitBucket(bucketName: string, now: int)
      requires bucketName in stores
      modifies this
      ensures stores == old(stores)[bucketName := Pruned(old(stores)[bucketName], now)]
    {
      var buckets := stores[bucketName];
      if |buckets| < PRUNE_THRESHOLD {
        return;
      }
      var pending := buckets.Keys;
      while pending != {}
        invariant pending <= buckets.Keys
        invariant bucketName in stores
        invariant stores[bucketName]
               == map k | k in buckets && (k in pending || buckets[k].resetAt > now) :: buckets[k]
        invariant stores == old(stores)[bucketName := stores[bucketName]]
      {
        var key :| key in pending;
        if buckets[key].resetAt <= now {
          stores := stores[bucketName := stores[bucketName] - {key}];
        }
        pending := pending - {key};
      }
      assert stores[bucketName] == Pruned(buckets, now);
    }

    method ConsumeRateLimit(call: Call) returns (allowed: bool)
      modifies this
      ensures (allowed, stores) == Consumed(old(stores), call)
    {
      if call.bucketName !in stores {
        stores := stores[call.bucketName := map[]];
      }
      var buckets := stores[call.bucketName];
      if call.key !in buckets || buckets[call.key].resetAt <= call.now {
        stores := stores[call.bucketName := buckets[call.key := Bucket(1, call.now + call.options.windowMs)]];
        PruneRateLimitBucket(call.bucketName, call.now);
        assert stores == Consumed(old(stores), call).1;
        return true;
      }
      var existing := buckets[call.key];
      if existing.count >= call.options.maxRequests {
        return false;
      }
      stores := stores[call.bucketName := buckets[call.key := existing.(count := existing.count + 1)]];
      return true;
    }
  }

  // ---------- Whole runs ----------

  predicate NondecreasingClock(calls: seq<Call>) {
    |calls| <= 1
    || (calls[|calls| - 2].now <= calls[|calls| - 1].now && NondecreasingClock(calls[..|calls| - 1]))
  }

  function StoresAfter(calls: seq<Call>): Stores {
    if calls == [] then map[]
    else Consumed(StoresAfter(calls[..|calls| - 1]), calls[|calls| - 1]).1
  }

  /** The limiter's answer to the last call of a run. */
  function Answer(calls: seq<Call>): bool
    requires calls != []
  {
    Consumed(StoresAfter(calls[..|calls| - 1]), calls[|calls| - 1]).0
  }

  // ---------- The specification: one counter that sees one key ----------

  function Solo(state: Option<Bucket>, options: Options, now: int): (bool, Option<Bucket>) {
    if state.None? || state.value.resetAt <= now then (true, Some(Bucket(1, now + options.windowMs)))
    else if state.value.count >= options.maxRequests then (false, state)
    else (true, Some(state.value.(count := state.value.count + 1)))
  }

  function OwnCalls(calls: seq<Call>, bucketName: string, key: string): seq<Call> {
    if calls == [] then []
    else
      var last := calls[|calls| - 1];
      var own := OwnCalls(calls[..|calls| - 1], bucketName, key);
      if last.bucketName == bucketName && last.key == key then own + [last] else own
  }

  function SoloAfter(own: seq<Call>): Option<Bucket> {
    if own == [] then None
    else
      var last := own[|own| - 1];
      Solo(SoloAfter(own[..|own| - 1]), last.options, last.now).1
  }

  function SoloAnswer(own: seq<Call>): bool
    requires own != []
  {
    var last := own[|own| - 1];
    Solo(SoloAfter(own[..|own| - 1]), last.options, last.now).0
  }

  // ---------- Pruning is unobservable ----------

  /** All that a call at time `now` or later can tell about an entry. */
  function Live(entry: Option<Bucket>, now: int): Option<Bucket> {
    if entry.Some? && entry.value.resetAt > now then entry else None
  }

  lemma ConsumeKeepsLive(stores: Stores, call: Call, bucketName: string, key: string)
    ensures var before := Lookup(stores, bucketName, key);
            var after := Live(Lookup(Consumed(stores, call).1, bucketName, key), call.now);
            after == if bucketName == call.bucketName && key == call.key
                     then Live(Solo(Live(before, call.now), call.options, call.now).1, call.now)
                     else Live(before, call.now)
  {
  }

  lemma SoloAfterAppend(own: seq<Call>, call: Call)
    ensures SoloAfter(own + [call]) == Solo(SoloAfter(own), call.options, call.now).1
    ensures SoloAnswer(own + [call]) == Solo(SoloAfter(own), call.options, call.now).0
  {
    assert (own + [call])[..|own|] == own;
  }

  lemma {:induction false} LiveAgrees(calls: seq<Call>, bucketName: string, key: string, now: int)
    requires NondecreasingClock(calls)
    requires calls != [] ==> calls[|calls| - 1].now <= now
    ensures Live(Lookup(StoresAfter(calls), bucketName, key), now)
         == Live(SoloAfter(OwnCalls(calls, bucketName, key)), now)
  {
    if calls != [] {
      var before, last := calls[..|calls| - 1], calls[|calls| - 1];
      LiveAgrees(before, bucketName, key, last.now);
      ConsumeKeepsLive(StoresAfter(before), last, bucketName, key);
      SoloAfterAppend(OwnCalls(before, bucketName, key), last);
    }
  }

  /** Under a nondecreasing clock every answer is the answer of a counter that never prunes and
      never hears of any other key or bucket name. */
  lemma {:induction false} PruningUnobservable(calls: seq<Call>)
    requires calls != [] && NondecreasingClock(calls)
    ensures var last := calls[|calls| - 1];
            var own := OwnCalls(calls, last.bucketName, last.key);
            own != [] && Answer(calls) == SoloAnswer(own)
  {
    var before, last := calls[..|calls| - 1], calls[|calls| - 1];
    LiveAgrees(before, last.bucketName, last.key, last.now);
    SoloAfterAppend(OwnCalls(before, last.bucketName, last.key), last);
  }

  // ---------- Admissions inside one interval ----------

  /** Admitted calls of one key with a time in [start, start + length), over a whole run. */
  function Admissions(calls: seq<Call>, bucketName: string, key: string, start: int, length: int): nat {
    if calls == [] then 0
    else
      var last := calls[|calls| - 1];
      Admissions(calls[..|calls| - 1], bucketName, key, start, length)
      + if last.bucketName == bucketName && last.key == key && start <= last.now < start + length && Answer(calls)
        then 1 else 0
  }

  function SoloAdmissions(own: seq<Call>, start: int, length: int): nat {
    if own == [] then 0
    else
      var last := own[|own| - 1];
      SoloAdmissions(own[..|own| - 1], start, length)
      + if start <= last.now < start + length && SoloAnswer(own) then 1 else 0
  }

  lemma {:induction false} OwnCallsAreOrdered(calls: seq<Call>, bucketName: string, key: string)
    requires NondecreasingClock(calls)
    ensures var own := OwnCalls(calls, bucketName, key);
            NondecreasingClock(own)
            && (own != [] ==> own[|own| - 1].now <= calls[|calls| - 1].now)
  {
    if calls != [] {
      var before, last := calls[..|calls| - 1], calls[|calls| - 1];
      OwnCallsAreOrdered(before, bucketName, key);
      var own := OwnCalls(before, bucketName, key);
      assert (own + [last])[..|own|] == own;
    }
  }

  lemma {:induction false} OwnCallsAreCalls(calls: seq<Call>, bucketName: string, key: string, call: Call)
    requires call in OwnCalls(calls, bucketName, key)
    ensures call in calls && call.bucketName == bucketName && call.key == key
  {
    if call in OwnCalls(calls[..|calls| - 1], bucketName, key) {
      OwnCallsAreCalls(calls[..|calls| - 1], bucketName, key, call);
    }
  }

  lemma SoloAdmissionsAppend(own: seq<Call>, call: Call, start: int, length: int)
    ensures SoloAdmissions(own + [call], start, length)
         == SoloAdmissions(own, start, length)
            + if start <= call.now < start + length && SoloAnswer(own + [call]) then 1 else 0
  {
    assert (own + [call])[..|own|] == own;
  }

  lemma {:induction false} AdmissionsAreSolo(calls: seq<Call>, bucketName: string, key: string, start: int, length: int)
    requires NondecreasingClock(calls)
    ensures Admissions(calls, bucketName, key, start, length)
         == SoloAdmissions(OwnCalls(calls, bucketName, key), start, length)
  {
    if calls != [] {
      var before, last := calls[..|calls| - 1], calls[|calls| - 1];
      AdmissionsAreSolo(before, bucketName, key, start, length);
      if last.bucketName == bucketName && last.key == key {
        SoloAdmissionsAppend(OwnCalls(before, bucketName, key), last, start, length);
        PruningUnobservable(calls);
      }
    }
  }

  /** The admissions already spent in [start, start + window), given the counter's state. */
  function SpentBound(state: Option<Bucket>, start: int, options: Options): int {
    var most := Max(1, options.maxRequests);
    if state.None? then 0
    else if state.value.resetAt < start then 0
    else if state.value.resetAt < start + options.windowMs then state.value.count - 1
    else if state.value.resetAt < start + 2 * options.windowMs then most - 1 + state.value.count
    else 2 * most - 1
  }

  lemma {:induction false} SoloWindowBound(own: seq<Call>, start: int, options: Options)
    requires NondecreasingClock(own)
    requires options.windowMs > 0
    requires forall call :: call in own ==> call.options == options
    ensures var state := SoloAfter(own);
            state.Some? ==> own != [] && 1 <= state.value.count <= Max(1, options.maxRequests)
                            && state.value.resetAt <= own[|own| - 1].now + options.windowMs
    ensures SoloAdmissions(own, start, options.windowMs) <= SpentBound(SoloAfter(own), start, options)
                                                         <= 2 * Max(1, options.maxRequests) - 1
  {
    if own != [] {
      SoloWindowBound(own[..|own| - 1], start, options);
    }
  }

  /** However calls fall, an interval as long as the window admits at most 2 * max - 1 of one key. */
  lemma WindowBound(calls: seq<Call>, bucketName: string, key: string, start: int, options: Options)
    requires NondecreasingClock(calls)
    requires options.windowMs > 0
    requires forall call :: call in calls && call.bucketName == bucketName && call.key == key
               ==> call.options == options
    ensures Admissions(calls, bucketName, key, start, options.windowMs) <= 2 * Max(1, options.maxRequests) - 1
  {
    AdmissionsAreSolo(calls, bucketName, key, start, options.windowMs);
    OwnCallsAreOrdered(calls, bucketName, key);
    forall call | call in OwnCalls(calls, bucketName, key) ensures call.options == options {
      OwnCallsAreCalls(calls, bucketName, key, call);
    }
    SoloWindowBound(OwnCalls(calls, bucketName, key), start, options);
  }

  /** What a window admits: a limit below 1 admits the call that opens it. */
  function BurstLimit(options: Options): nat {
    Max(1, options.maxRequests)
  }

  /** The times of a run that opens a window at 0, fills it one instant before its end and then fills
      the next one. */
  function BurstTime(options: Options, index: nat): int {
    if index == 0 then 0 else if index < BurstLimit(options) then options.windowMs - 1 else options.windowMs
  }

  function Burst(bucketName: string, key: string, options: Options, size: nat): seq<Call> {
    seq(size, i requires 0 <= i => Call(bucketName, key, options, BurstTime(options, i)))
  }

  lemma {:induction false} OwnCallsOfOneKey(calls: seq<Call>, bucketName: string, key: string)
    requires forall call :: call in calls ==> call.bucketName == bucketName && call.key == key
    ensures OwnCalls(calls, bucketName, key) == calls
  {
    if calls != [] {
      OwnCallsOfOneKey(calls[..|calls| - 1], bucketName, key);
    }
  }

  function BurstState(options: Options, size: nat): Option<Bucket> {
    if size == 0 then None
    else if size <= BurstLimit(options) then Some(Bucket(size, options.windowMs))
    else Some(Bucket(size - BurstLimit(options), 2 * options.windowMs))
  }

  lemma BurstStep(options: Options, size: nat)
    requires options.windowMs >= 2 && size < 2 * BurstLimit(options)
    ensures Solo(BurstState(options, size), options, BurstTime(options, size)) == (true, BurstState(options, size + 1))
    ensures (1 <= BurstTime(options, size) < 1 + options.windowMs) == (size > 0)
  {
  }

  lemma BurstGrows(bucketName: string, key: string, options: Options, size: nat)
    ensures Burst(bucketName, key, options, size + 1)
         == Burst(bucketName, key, options, size) + [Call(bucketName, key, options, BurstTime(options, size))]
  {
  }

  lemma {:induction false} BurstIsOrdered(bucketName: string, key: string, options: Options, size: nat)
    requires options.windowMs >= 2
    ensures NondecreasingClock(Burst(bucketName, key, options, size))
  {
    if size > 1 {
      BurstIsOrdered(bucketName, key, options, size - 1);
      var calls := Burst(bucketName, key, options, size);
      assert calls[..size - 1] == Burst(bucketName, key, options, size - 1);
    }
  }

  lemma {:induction false} BurstIsAdmitted(bucketName: string, key: string, options: Options, size: nat)
    requires options.windowMs >= 2 && size <= 2 * BurstLimit(options)
    ensures SoloAfter(Burst(bucketName, key, options, size)) == BurstState(options, size)
    ensures SoloAdmissions(Burst(bucketName, key, options, size), 1, options.windowMs) == Max(0, size - 1)
  {
    if size > 0 {
      BurstIsAdmitted(bucketName, key, options, size - 1);
      BurstGrows(bucketName, key, options, size - 1);
      BurstStep(options, size - 1);
      var earlier := Burst(bucketName, key, options, size - 1);
      var last := Call(bucketName, key, options, BurstTime(options, size - 1));
      SoloAfterAppend(earlier, last);
      SoloAdmissionsAppend(earlier, last, 1, options.windowMs);
    } else {
      assert Burst(bucketName, key, options, size) == [];
    }
  }

  /** The bound of `WindowBound` is reached, for every limit, below 1 or not, and every window of at least 2 ms. */
  lemma WindowBoundIsTight(bucketName: string, key: string, options: Options)
    requires options.windowMs >= 2
    ensures var calls := Burst(bucketName, key, options, 2 * BurstLimit(options));
            NondecreasingClock(calls)
            && (forall call :: call in calls ==> call.options == options)
            && Admissions(calls, bucketName, key, 1, options.windowMs) == 2 * BurstLimit(options) - 1
  {
    var calls := Burst(bucketName, key, options, 2 * BurstLimit(options));
    BurstIsOrdered(bucketName, key, options, 2 * BurstLimit(options));
    BurstIsAdmitted(bucketName, key, options, 2 * BurstLimit(options));
    OwnCallsOfOneKey(calls, bucketName, key);
    AdmissionsAreSolo(calls, bucketName, key, 1, options.windowMs);
  }

  /** A call at or after the entry's reset time is admitted, whatever the limit. */
  lemma ResetAdmits(calls: seq<Call>)
    requires calls != [] && NondecreasingClock(calls)
    requires var last := calls[|calls| - 1];
             var entry := SoloAfter(OwnCalls(calls[..|calls| - 1], last.bucketName, last.key));
             entry.Some? ==> entry.value.resetAt <= last.now
    ensures Answer(calls)
  {
    var last := calls[|calls| - 1];
    LiveAgrees(calls[..|calls| - 1], last.bucketName, last.key, last.now);
  }
}
