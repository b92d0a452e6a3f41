/**
 * The fixed-window rate limiter with its lazily pruned map (lib/server/ratelimit.ts). Times are
 * milliseconds; the clock is a parameter of every call.
 */
module RateLimit {
  import opened Wrappers

  datatype Bucket = Bucket(count: nat, resetAt: int)

  type Buckets = map<string, Bucket>

  const SWEEP_AT: nat := 5_000

  predicate Live(m: Buckets, key: string, now: int) {
    key in m && m[key].resetAt > now
  }

  /** The map after the dead buckets were pruned; below the threshold nothing is. */
  function Swept(m: Buckets, now: int): Buckets {
    if |m| < SWEEP_AT then m else map k | k in m && m[k].resetAt > now :: m[k]
  }

  /** `Math.ceil(ms / 1000)`. */
  function SecondsUp(ms: int): int { (ms + 999) / 1000 }

  datatype Call = Call(key: string, limit: int, windowMs: int, now: int)

  /** One call against a map that is never pruned. */
  function Touch(m: Buckets, c: Call): (Buckets, Result<()>) {
    if !Live(m, c.key, c.now) then (m[c.key := Bucket(1, c.now + c.windowMs)], Ok(()))
    else
      var b := Bucket(m[c.key].count + 1, m[c.key].resetAt);
      (m[c.key := b],
       if b.count > c.limit then Err(TooManyRequests(SecondsUp(b.resetAt - c.now))) else Ok(()))
  }

  class RateLimiter {
    var buckets: Buckets

    constructor ()
      ensures buckets == map[]
    {
      buckets := map[];
    }

    method Sweep(now: int)
      modifies this
      ensures buckets == Swept(old(buckets), now)
      ensures forall key :: Live(buckets, key, now) <==> Live(old(buckets), key, now)
      ensures |old(buckets)| >= 5_000 ==> forall key :: key in buckets ==> Live(buckets, key, now)
      ensures |old(buckets)| < 5_000 ==> buckets == old(buckets)
    {
      if |buckets| < SWEEP_AT {
        return;
      }
      var todo := buckets.Keys;
      while todo != {}
        invariant todo <= old(buckets).Keys
        invariant forall k :: k in buckets <==> k in old(buckets) && (k in todo || old(buckets)[k].resetAt > now)
        invariant forall k :: k in buckets ==> buckets[k] == old(buckets)[k]
        decreases |todo|
      {
        var key :| key in todo;
        todo := todo - {key};
        if buckets[key].resetAt <= now {
          buckets := buckets - {key};
        }
      }
    }

    /** A refusal names a wait after which this bucket is over, and no shorter one is. */
    method Limit(key: string, limit: int, windowMs: int, now: int) returns (r: Result<()>)
      modifies this
      ensures (buckets, r) == Touch(Swept(old(buckets), now), Call(key, limit, windowMs, now))
      ensures r.Err? ==> key in buckets && Live(old(buckets), key, now) && r.error.TooManyRequests?
      ensures r.Err? ==> var s := r.error.seconds;
                         s >= 1 && now + 1000 * (s - 1) < old(buckets[key].resetAt) <= now + 1000 * s
    {
      Sweep(now);
      if key !in buckets || buckets[key].resetAt <= now {
        buckets := buckets[key := Bucket(1, now + windowMs)];
        return Ok(());
      }
      var bucket := Bucket(buckets[key].count + 1, buckets[key].resetAt);
      buckets := buckets[key := bucket];
      if bucket.count > limit {
        var seconds := SecondsUp(bucket.resetAt - now);
        return Err(TooManyRequests(seconds));
      }
      r := Ok(());
    }
  }

  // ---------------------------------------------------------------- runs

  /** The map before call `|calls|`, with pruning or without. */
  function After(calls: seq<Call>, pruning: bool): Buckets {
    if |calls| == 0 then map[]
    else
      var n := |calls| - 1;
      var m := After(calls[..n], pruning);
      Touch(if pruning then Swept(m, calls[n].now) else m, calls[n]).0
  }

  function Outcome(calls: seq<Call>, i: nat, pruning: bool): Result<()>
    requires i < |calls|
  {
    var m := After(calls[..i], pruning);
    Touch(if pruning then Swept(m, calls[i].now) else m, calls[i]).1
  }

  predicate ClockForward(calls: seq<Call>) {
    forall i, j :: 0 <= i < j < |calls| ==> calls[i].now <= calls[j].now
  }

  ghost predicate AgreeOnLive(m: Buckets, w: Buckets, now: int) {
    forall k :: (Live(m, k, now) <==> Live(w, k, now)) && (Live(m, k, now) ==> m[k] == w[k])
  }

  lemma TouchKeepsAgreement(m: Buckets, w: Buckets, c: Call)
    requires AgreeOnLive(m, w, c.now)
    ensures Touch(Swept(m, c.now), c).1 == Touch(w, c).1
    ensures forall t :: t >= c.now ==> AgreeOnLive(Touch(Swept(m, c.now), c).0, Touch(w, c).0, t)
  {
    var s := Swept(m, c.now);
    assert AgreeOnLive(s, w, c.now) by {
      forall k
        ensures (Live(s, k, c.now) <==> Live(w, k, c.now)) && (Live(s, k, c.now) ==> s[k] == w[k])
      {
        assert Live(s, k, c.now) <==> Live(m, k, c.now);
      }
    }
    assert Live(s, c.key, c.now) <==> Live(w, c.key, c.now);
    var s', w' := Touch(s, c).0, Touch(w, c).0;
    forall t, k | t >= c.now
      ensures (Live(s', k, t) <==> Live(w', k, t)) && (Live(s', k, t) ==> s'[k] == w'[k])
    {
      assert Live(s, k, c.now) <==> Live(w, k, c.now);
    }
  }

  /**
   * Pruning is invisible: with a clock that never goes back, the limiter accepts and refuses exactly
   * the calls one that never deleted a bucket would, advises the same waits, and holds the same live
   * buckets.
   */
  lemma {:induction false} SweepingIsInvisible(calls: seq<Call>)
    requires ClockForward(calls)
    ensures forall i :: 0 <= i < |calls| ==> Outcome(calls, i, true) == Outcome(calls, i, false)
    ensures forall t :: (|calls| > 0 ==> t >= calls[|calls| - 1].now) ==> AgreeOnLive(After(calls, true), After(calls, false), t)
  {
    if |calls| > 0 {
      var n := |calls| - 1;
      SweepingIsInvisible(calls[..n]);
      assert AgreeOnLive(After(calls[..n], true), After(calls[..n], false), calls[n].now);
      TouchKeepsAgreement(After(calls[..n], true), After(calls[..n], false), calls[n]);
      forall i | 0 <= i < |calls|
        ensures Outcome(calls, i, true) == Outcome(calls, i, false)
      {
        assert i < n ==> calls[..n][..i] == calls[..i];
        assert i < n ==> Outcome(calls[..n], i, true) == Outcome(calls[..n], i, false);
      }
    }
  }

  /**
   * And pruning does prune: whenever a run leaves more than five thousand buckets, every one of them
   * was still open at the last call.
   */
  lemma {:induction false} LargeMapIsAllLive(calls: seq<Call>, key: string)
    requires |calls| > 0 && calls[|calls| - 1].windowMs > 0
    requires |After(calls, true)| > 5_000 && key in After(calls, true)
    ensures Live(After(calls, true), key, calls[|calls| - 1].now)
  {
    var n := |calls| - 1;
    var m := After(calls[..n], true);
    var swept := Swept(m, calls[n].now);
    TouchGrowsByOne(swept, calls[n]);
    if |m| >= 5_000 {
      assert key in swept ==> Live(swept, key, calls[n].now);
    }
  }

  lemma TouchGrowsByOne(m: Buckets, c: Call)
    ensures |Touch(m, c).0| <= |m| + 1
    ensures forall key :: key in Touch(m, c).0 && key != c.key ==> key in m && Touch(m, c).0[key] == m[key]
  {
    var w := Touch(m, c).0;
    assert w.Keys == m.Keys + {c.key};
    assert |m.Keys + {c.key}| <= |m.Keys| + 1;
  }

  // ---------------------------------------------------------------- how much gets through

  /** Accepted calls of one key at times in [from, to). */
  function Accepted(calls: seq<Call>, key: string, from: int, to: int, pruning: bool := false): nat {
    if |calls| == 0 then 0
    else
      var n := |calls| - 1;
      Accepted(calls[..n], key, from, to, pruning) +
      (if calls[n].key == key && from <= calls[n].now < to && Outcome(calls, n, pruning).Ok? then 1 else 0)
  }

  lemma {:induction false} PruningAcceptsTheSame(calls: seq<Call>, key: string, from: int, to: int)
    requires ClockForward(calls)
    ensures Accepted(calls, key, from, to, true) == Accepted(calls, key, from, to, false)
  {
    if |calls| > 0 {
      PruningAcceptsTheSame(calls[..|calls| - 1], key, from, to);
      SweepingIsInvisible(calls);
    }
  }

  predicate Uniform(calls: seq<Call>, key: string, limit: int, windowMs: int) {
    forall c :: c in calls && c.key == key ==> c.limit == limit && c.windowMs == windowMs
  }

  function Min(a: int, b: int): int { if a <= b then a else b }

  /** A bucket always lets its opening call through, whatever the limit. */
  function AtLeastOne(limit: int): int { if limit < 1 then 1 else limit }

  /** How the bucket now open bounds what one window-long interval has let through so far. */
  ghost predicate Within(m: Buckets, key: string, most: int, windowMs: int, from: int, accepted: nat) {
    if key !in m then accepted == 0
    else
      var b := m[key];
      && b.count >= 1
      && (b.resetAt <= from ==> accepted == 0)
      && (from < b.resetAt < from + windowMs ==> accepted <= Min(b.count, most) - 1)
      && (b.resetAt == from + windowMs ==> accepted <= Min(b.count, most))
      && (from + windowMs < b.resetAt < from + 2 * windowMs ==> accepted <= most - 1 + Min(b.count, most))
      && (from + 2 * windowMs <= b.resetAt ==> accepted <= 2 * most - 1)
  }

  lemma {:induction false} WithinAlways(calls: seq<Call>, key: string, limit: int, windowMs: int, from: int)
    requires windowMs > 0 && Uniform(calls, key, limit, windowMs) && ClockForward(calls)
    ensures Within(After(calls, false), key, AtLeastOne(limit), windowMs, from, Accepted(calls, key, from, from + windowMs))
  {
    if |calls| > 0 {
      var n := |calls| - 1;
      WithinAlways(calls[..n], key, limit, windowMs, from);
      BucketEndsInTime(calls[..n], key, limit, windowMs, calls[n].now);
      assert calls[n] in calls;
      WithinOneMore(After(calls[..n], false), calls[n], key, limit, windowMs, from, Accepted(calls[..n], key, from, from + windowMs));
    }
  }

  lemma WithinOneMore(m: Buckets, c: Call, key: string, limit: int, windowMs: int, from: int, accepted: nat)
    requires windowMs > 0 && (c.key == key ==> c.limit == limit && c.windowMs == windowMs)
    requires key in m ==> m[key].resetAt <= c.now + windowMs
    requires Within(m, key, AtLeastOne(limit), windowMs, from, accepted)
    ensures var (w, r) := Touch(m, c);
            Within(w, key, AtLeastOne(limit), windowMs, from,
                   accepted + (if c.key == key && from <= c.now < from + windowMs && r.Ok? then 1 else 0))
  {
  }

  /**
   * The ceiling: any interval as long as the window lets through at most 2 * limit - 1 calls of one
   * key, whatever other keys do, with the limiter's pruning or without.
   */
  lemma CeilingPerWindow(calls: seq<Call>, key: string, limit: int, windowMs: int, from: int, pruning: bool)
    requires windowMs > 0 && Uniform(calls, key, limit, windowMs) && ClockForward(calls)
    ensures Accepted(calls, key, from, from + windowMs, pruning) <= 2 * AtLeastOne(limit) - 1
  {
    WithinAlways(calls, key, limit, windowMs, from);
    PruningAcceptsTheSame(calls, key, from, from + windowMs);
  }

  ghost predicate Holds(calls: seq<Call>, key: string, b: Bucket) {
    key in After(calls, false) && After(calls, false)[key] == b
  }

  /** A well-formed run of one key that has let `accepted` calls through and whose bucket is `b`. */
  ghost predicate Standing(calls: seq<Call>, c: Call, from: int, to: int, accepted: nat, b: Bucket) {
    && ClockForward(calls) && Uniform(calls, c.key, c.limit, c.windowMs) && (forall x :: x in calls ==> x.now <= c.now)
    && Accepted(calls, c.key, from, to) == accepted && Holds(calls, c.key, b)
  }

  lemma AppendedCall(before: seq<Call>, c: Call, from: int, to: int)
    ensures After(before + [c], false) == Touch(After(before, false), c).0
    ensures Accepted(before + [c], c.key, from, to) == Accepted(before, c.key, from, to) +
            (if from <= c.now < to && Touch(After(before, false), c).1.Ok? then 1 else 0)
  {
    var calls := before + [c];
    assert calls[..|calls| - 1] == before && calls[|calls| - 1] == c;
  }

  /** One more call, while its bucket has room or is over. */
  lemma OneGetsThrough(before: seq<Call>, c: Call, from: int, to: int, accepted: nat, b: Bucket) returns (calls: seq<Call>)
    requires Standing(before, c, from, to, accepted, b) && from <= c.now < to
    requires b.resetAt > c.now ==> b.count < c.limit
    ensures Standing(calls, c, from, to, accepted + 1,
                     if b.resetAt > c.now then Bucket(b.count + 1, b.resetAt) else Bucket(1, c.now + c.windowMs))
  {
    AppendedCall(before, c, from, to);
    calls := before + [c];
  }

  /** The same call over and over at one instant, filling its bucket. */
  lemma {:induction false} BurstGetsThrough(before: seq<Call>, c: Call, times: nat, from: int, to: int, accepted: nat, b: Bucket)
    returns (calls: seq<Call>)
    requires Standing(before, c, from, to, accepted, b) && from <= c.now < to
    requires b.resetAt > c.now && b.count + times <= c.limit
    ensures Standing(calls, c, from, to, accepted + times, Bucket(b.count + times, b.resetAt))
  {
    if times == 0 {
      calls := before;
    } else {
      var fewer := BurstGetsThrough(before, c, times - 1, from, to, accepted, b);
      calls := OneGetsThrough(fewer, c, from, to, accepted + times - 1, Bucket(b.count + times - 1, b.resetAt));
    }
  }

  lemma StandingLater(calls: seq<Call>, c: Call, later: Call, from: int, to: int, accepted: nat, b: Bucket)
    requires Standing(calls, c, from, to, accepted, b) && later == c.(now := later.now) && later.now >= c.now
    ensures Standing(calls, later, from, to, accepted, b)
  {
    forall x | x in calls
      ensures x.now <= later.now
    {
      assert x.now <= c.now;
    }
  }

  /**
   * The ceiling is reached for every limit, with any window longer than a millisecond: one early
   * call, the rest of the limit as its bucket ends, then a whole fresh limit.
   */
  lemma CeilingIsReached(key: string, limit: nat, windowMs: int)
    requires limit >= 1 && windowMs >= 2
    ensures exists calls :: ClockForward(calls) && Uniform(calls, key, limit, windowMs) &&
                            Accepted(calls, key, windowMs - 1, 2 * windowMs - 1) == 2 * limit - 1
  {
    var from, to := windowMs - 1, 2 * windowMs - 1;
    var opening := Call(key, limit, windowMs, 0);
    var late, renewed := opening.(now := windowMs - 1), opening.(now := windowMs);
    OpeningCall(opening, from, to);
    assert Standing([opening], opening, from, to, 0, Bucket(1, windowMs));
    StandingLater([opening], opening, late, from, to, 0, Bucket(1, windowMs));
    var filled := BurstGetsThrough([opening], late, limit - 1, from, to, 0, Bucket(1, windowMs));
    StandingLater(filled, late, renewed, from, to, limit - 1, Bucket(limit, windowMs));
    var reopened := OneGetsThrough(filled, renewed, from, to, limit - 1, Bucket(limit, windowMs));
    var calls := BurstGetsThrough(reopened, renewed, limit - 1, from, to, limit, Bucket(1, 2 * windowMs));
    assert ClockForward(calls) && Accepted(calls, key, from, to) == 2 * limit - 1;
  }

  lemma OpeningCall(c: Call, from: int, to: int)
    ensures After([c], false) == map[c.key := Bucket(1, c.now + c.windowMs)]
    ensures c.now < from ==> Accepted([c], c.key, from, to) == 0
  {
    assert [c][..0] == [];
  }

  // ---------------------------------------------------------------- recovery

  /** With the clock moving forward, no open bucket ends later than one window from its last call. */
  lemma {:induction false} BucketEndsInTime(calls: seq<Call>, key: string, limit: int, windowMs: int, now: int)
    requires windowMs > 0 && Uniform(calls, key, limit, windowMs)
    requires forall c :: c in calls ==> c.now <= now
    ensures key in After(calls, false) ==> After(calls, false)[key].resetAt <= now + windowMs
  {
    if |calls| > 0 {
      var n := |calls| - 1;
      BucketEndsInTime(calls[..n], key, limit, windowMs, now);
      assert calls[n] in calls;
    }
  }

  /** The call that opened the key's latest bucket, told from the times of the calls alone. */
  function Opening(calls: seq<Call>, key: string): (k: Option<nat>)
    ensures k.Some? ==> k.value < |calls| && calls[k.value].key == key
  {
    if |calls| == 0 then None
    else
      var n := |calls| - 1;
      var before := Opening(calls[..n], key);
      if calls[n].key == key && (before.None? || Ends(calls[before.value]) <= calls[n].now) then Some(n) else before
  }

  /** When a bucket opened by this call is over. */
  function Ends(c: Call): int { c.now + c.windowMs }

  /** How many calls of a key were made from the k-th call on. */
  function CountFrom(calls: seq<Call>, key: string, k: nat): nat {
    if |calls| <= k then 0
    else
      var n := |calls| - 1;
      CountFrom(calls[..n], key, k) + (if calls[n].key == key then 1 else 0)
  }

  /** The limiter's whole state is a digest of the calls: who opened, and how many came since. */
  lemma {:induction false} BucketFromCalls(calls: seq<Call>, key: string)
    ensures match Opening(calls, key)
            case None => key !in After(calls, false)
            case Some(k) =>
              key in After(calls, false) && After(calls, false)[key] == Bucket(CountFrom(calls, key, k), Ends(calls[k]))
  {
    if |calls| > 0 {
      BucketFromCalls(calls[..|calls| - 1], key);
    }
  }

  /** When a call is refused, said of the calls before it and nothing else. */
  predicate RefusedBy(calls: seq<Call>, j: nat)
    requires j < |calls|
  {
    match Opening(calls[..j], calls[j].key)
    case None => false
    case Some(k) => calls[j].now < Ends(calls[k]) && CountFrom(calls[..j], calls[j].key, k) >= calls[j].limit
  }

  /**
   * A call is refused exactly when the bucket open at that moment has already seen its limit of
   * calls, refused ones included; pruned or not, whatever the limits and windows of other calls.
   */
  lemma RefusedExactlyWhen(calls: seq<Call>, j: nat, pruning: bool)
    requires j < |calls| && (pruning ==> ClockForward(calls))
    ensures Outcome(calls, j, pruning).Err? <==> RefusedBy(calls, j)
  {
    BucketFromCalls(calls[..j], calls[j].key);
    if pruning {
      SweepingIsInvisible(calls);
    }
  }

  lemma {:induction false} OpeningFoundNothingOpen(calls: seq<Call>, key: string)
    ensures var k := Opening(calls, key);
            k.Some? ==> var before := Opening(calls[..k.value], key);
                        before.None? || Ends(calls[before.value]) <= calls[k.value].now
  {
    if |calls| > 0 {
      var n := |calls| - 1;
      OpeningFoundNothingOpen(calls[..n], key);
      var k := Opening(calls, key);
      if k.Some? && k.value < n {
        assert calls[..n][..k.value] == calls[..k.value];
      }
    }
  }

  lemma OpeningIsAccepted(calls: seq<Call>, j: nat, k: nat)
    requires j < |calls| && Opening(calls[..j], calls[j].key) == Some(k)
    ensures Outcome(calls, k, false).Ok?
  {
    OpeningFoundNothingOpen(calls[..j], calls[j].key);
    assert calls[..j][..k] == calls[..k];
    RefusedExactlyWhen(calls, k, false);
  }

  /**
   * Recovery, exactly. A call a full window or more after a refusal is refused again if and only if
   * some call made after the refusal opened a bucket that is still open, and that bucket has
   * already seen its limit of calls. The caller can tell from the times of its own calls.
   */
  lemma RefusedAgainIff(calls: seq<Call>, i: nat, j: nat, limit: int, windowMs: int, pruning: bool)
    requires i < j < |calls| && ClockForward(calls) && windowMs > 0
    requires Uniform(calls, calls[i].key, limit, windowMs) && calls[j].key == calls[i].key
    requires Outcome(calls, i, pruning).Err? && calls[j].now >= calls[i].now + windowMs
    ensures Outcome(calls, j, pruning).Err? <==>
            match Opening(calls[..j], calls[i].key)
            case None => false
            case Some(k) => i < k && calls[j].now < calls[k].now + windowMs && CountFrom(calls[..j], calls[i].key, k) >= limit
  {
    RefusedExactlyWhen(calls, j, pruning);
    var opening := Opening(calls[..j], calls[i].key);
    assert calls[j] in calls;
    if opening.Some? {
      assert calls[opening.value] in calls;
      assert opening.value <= i ==> calls[opening.value].now <= calls[i].now;
    }
  }

  predicate AcceptedBetween(calls: seq<Call>, key: string, i: int, j: int) {
    exists k :: 0 <= k < |calls| && i < k <= j && calls[k].key == key && Outcome(calls, k, false).Ok?
  }

  /**
   * So refusals postpone nothing: after one, whatever is tried in between, some call of that key is
   * accepted no later than the first one made a full window after it.
   */
  lemma RecoversWithinWindow(calls: seq<Call>, i: nat, j: nat, limit: int, windowMs: int)
    requires i < j < |calls| && ClockForward(calls) && windowMs > 0
    requires Uniform(calls, calls[i].key, limit, windowMs) && calls[j].key == calls[i].key
    requires Outcome(calls, i, false).Err? && calls[j].now >= calls[i].now + windowMs
    ensures AcceptedBetween(calls, calls[i].key, i, j)
  {
    RefusedAgainIff(calls, i, j, limit, windowMs, false);
    if Outcome(calls, j, false).Err? {
      OpeningIsAccepted(calls, j, Opening(calls[..j], calls[i].key).value);
    }
  }

  /**
   * Waiting a window is not enough by itself: a call made in between may have opened and used up
   * the next bucket. Limit one, window ten: refused at 5, accepted at 10, refused at 15.
   */
  lemma WaitingAloneIsNotEnough(key: string)
    ensures var calls := [Call(key, 1, 10, 0), Call(key, 1, 10, 5), Call(key, 1, 10, 10), Call(key, 1, 10, 15)];
            Outcome(calls, 1, false).Err? && Outcome(calls, 3, false).Err?
  {
    var calls := [Call(key, 1, 10, 0), Call(key, 1, 10, 5), Call(key, 1, 10, 10), Call(key, 1, 10, 15)];
    assert calls[..1][..0] == [] && calls[..2][..1] == calls[..1] && calls[..3][..2] == calls[..2];
    assert After(calls[..1], false)[key] == Bucket(1, 10);
    assert After(calls[..2], false)[key] == Bucket(2, 10);
    assert After(calls[..3], false)[key] == Bucket(1, 20);
  }
}
