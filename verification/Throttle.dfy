/** Token-bucket throttles, one bucket a key: the CAD webhook's usage plan and the API's routes. */
module Throttle {

  /** A bucket refills at `rate` tokens a second up to `burst`, and starts full. */
  datatype Limits = Limits(rate: real, burst: real)

  datatype Bucket = Bucket(tokens: real, at: real)

  const CAD_WEBHOOK_KEY_THROTTLE := Limits(5.0, 5.0)
  const WEBHOOK_RESERVED_CONCURRENCY := 10.0

  function MinReal(a: real, b: real): real {
    if a < b then a else b
  }

  /** What the rate adds from one time to another. */
  function Earned(l: Limits, from: real, to: real): real {
    l.rate * to - l.rate * from
  }

  lemma EarnedIsRateTimesLength(l: Limits, from: real, to: real)
    ensures Earned(l, from, to) == l.rate * (to - from)
  {
  }

  lemma EarnedGrows(l: Limits, from: real, to: real)
    requires l.rate >= 0.0 && from <= to
    ensures Earned(l, from, to) >= 0.0
  {
    EarnedIsRateTimesLength(l, from, to);
  }

  function Refilled(l: Limits, b: Bucket, now: real): Bucket {
    Bucket(MinReal(l.burst, b.tokens + Earned(l, b.at, now)), now)
  }

  predicate Admits(l: Limits, b: Bucket, now: real) {
    Refilled(l, b, now).tokens >= 1.0
  }

  function After(l: Limits, b: Bucket, now: real): Bucket {
    var full := Refilled(l, b, now);
    if full.tokens >= 1.0 then full.(tokens := full.tokens - 1.0) else full
  }

  /** The bucket once the first `n` requests came. */
  function BucketAfter(l: Limits, times: seq<real>, n: nat): Bucket
    requires n <= |times| && times != []
  {
    if n == 0 then Bucket(l.burst, times[0]) else After(l, BucketAfter(l, times, n - 1), times[n - 1])
  }

  predicate Admitted(l: Limits, times: seq<real>, k: nat)
    requires k < |times|
  {
    Admits(l, BucketAfter(l, times, k), times[k])
  }

  /** How many of the requests from `i` up to `j` were admitted. */
  function Count(l: Limits, times: seq<real>, i: nat, j: nat): nat
    requires i <= j <= |times|
  {
    if i == j then 0 else Count(l, times, i, j - 1) + if Admitted(l, times, j - 1) then 1 else 0
  }

  predicate InOrder(times: seq<real>) {
    forall i, j :: 0 <= i <= j < |times| ==> times[i] <= times[j]
  }

  /** What the window from request `i` leaves for request `k`. */
  function Room(l: Limits, times: seq<real>, i: nat, k: nat): real
    requires i <= k < |times|
  {
    l.burst + Earned(l, times[i], times[k]) - Count(l, times, i, k) as real
  }

  function Level(l: Limits, times: seq<real>, k: nat): real
    requires k < |times|
  {
    Refilled(l, BucketAfter(l, times, k), times[k]).tokens
  }

  function Spent(l: Limits, times: seq<real>, k: nat): real
    requires k < |times|
  {
    if Admitted(l, times, k) then 1.0 else 0.0
  }

  lemma LevelNext(l: Limits, times: seq<real>, k: nat)
    requires k + 1 < |times|
    ensures Level(l, times, k + 1)
         == MinReal(l.burst, Level(l, times, k) - Spent(l, times, k) + Earned(l, times[k], times[k + 1]))
  {
  }

  lemma RoomNext(l: Limits, times: seq<real>, i: nat, k: nat)
    requires i <= k && k + 1 < |times|
    ensures Room(l, times, i, k + 1) == Room(l, times, i, k) - Spent(l, times, k) + Earned(l, times[k], times[k + 1])
  {
  }

  /** The bucket holds the room of the tightest window that ends now. */
  lemma {:induction false} LevelIsTightest(l: Limits, times: seq<real>, k: nat) returns (tightest: nat)
    requires k < |times|
    ensures forall i :: 0 <= i <= k ==> Level(l, times, k) <= Room(l, times, i, k)
    ensures tightest <= k && Level(l, times, k) == Room(l, times, tightest, k)
  {
    assert Room(l, times, k, k) == l.burst;
    if k == 0 {
      tightest := 0;
    } else {
      var before := LevelIsTightest(l, times, k - 1);
      LevelNext(l, times, k - 1);
      RoomNext(l, times, before, k - 1);
      forall i | 0 <= i < k ensures Level(l, times, k) <= Room(l, times, i, k) {
        RoomNext(l, times, i, k - 1);
      }
      tightest := if Level(l, times, k) == l.burst then k else before;
    }
  }

  /** Within the burst and the rate over the window, request `k` included. */
  predicate FitsWindow(l: Limits, times: seq<real>, i: nat, k: nat)
    requires i <= k < |times|
  {
    Count(l, times, i, k) as real + 1.0 <= l.burst + l.rate * (times[k] - times[i])
  }

  lemma FitsWindowByRoom(l: Limits, times: seq<real>, i: nat, k: nat)
    requires i <= k < |times|
    ensures FitsWindow(l, times, i, k) <==> Room(l, times, i, k) >= 1.0
  {
    EarnedIsRateTimesLength(l, times[i], times[k]);
  }

  /** A request is admitted exactly when it fits the burst and the rate over every window that ends
      with it. */
  lemma AdmittedIffFits(l: Limits, times: seq<real>, k: nat)
    requires k < |times|
    ensures Admitted(l, times, k) <==> forall i :: 0 <= i <= k ==> FitsWindow(l, times, i, k)
  {
    var tightest := LevelIsTightest(l, times, k);
    FitsWindowByRoom(l, times, tightest, k);
    forall i | 0 <= i <= k ensures FitsWindow(l, times, i, k) <==> Room(l, times, i, k) >= 1.0 {
      FitsWindowByRoom(l, times, i, k);
    }
  }

  lemma EarnedSplit(l: Limits, a: real, b: real, c: real)
    ensures Earned(l, a, c) == Earned(l, a, b) + Earned(l, b, c)
    ensures Earned(l, a, a) == 0.0
  {
  }

  lemma AdmittedFits(l: Limits, times: seq<real>, i: nat, k: nat)
    requires i <= k < |times| && Admitted(l, times, k)
    ensures Count(l, times, i, k + 1) as real <= l.burst + Earned(l, times[i], times[k])
  {
    var tightest := LevelIsTightest(l, times, k);
    assert Room(l, times, i, k) >= 1.0;
    assert Count(l, times, i, k + 1) == Count(l, times, i, k) + 1;
  }

  /** So no window admits more than the burst and what the rate adds over its length. */
  lemma {:induction false} WindowBound(l: Limits, times: seq<real>, i: nat, k: nat)
    requires i <= k < |times| && l.rate >= 0.0 && l.burst >= 0.0 && InOrder(times)
    ensures Count(l, times, i, k + 1) as real <= l.burst + Earned(l, times[i], times[k])
    decreases k
  {
    if Admitted(l, times, k) {
      AdmittedFits(l, times, i, k);
    } else if i < k {
      WindowBound(l, times, i, k - 1);
      EarnedGrows(l, times[k - 1], times[k]);
      EarnedSplit(l, times[i], times[k - 1], times[k]);
    } else {
      EarnedSplit(l, times[i], times[i], times[i]);
      assert Count(l, times, i, i + 1) == Count(l, times, i, i) == 0;
    }
  }

  /** Requests of one key that come all at once leave at least as much of the concurrency as they
      take, for all traffic of the key before and between them. */
  ghost predicate LeavesHalf(l: Limits, concurrency: real) {
    forall times: seq<real>, i: nat, k: nat :: i <= k < |times| && InOrder(times) && times[i] == times[k] ==>
      var admitted := Count(l, times, i, k + 1) as real;
      admitted <= concurrency - admitted
  }

  lemma AtOnceWithinBurst(l: Limits, times: seq<real>, i: nat, k: nat)
    requires l.rate >= 0.0 && l.burst >= 0.0
    requires i <= k < |times| && InOrder(times) && times[i] == times[k]
    ensures Count(l, times, i, k + 1) as real <= l.burst
  {
    WindowBound(l, times, i, k);
    EarnedSplit(l, times[i], times[i], times[k]);
  }

  /** As many requests as the burst holds, all at once, are all admitted. */
  lemma {:induction false} BurstIsAdmitted(l: Limits, times: seq<real>, n: nat)
    requires n <= |times| && n as real <= l.burst && forall i :: 0 <= i < |times| ==> times[i] == 0.0
    ensures Count(l, times, 0, n) == n
    ensures n < |times| ==> BucketAfter(l, times, n) == Bucket(l.burst - n as real, 0.0)
  {
    if n > 0 {
      BurstIsAdmitted(l, times, n - 1);
    }
  }

  /** One key's burst leaves the others as much concurrency as it takes exactly when it is at most half
      of it, for every limit and every concurrency. */
  lemma OneKeyLeavesHalf(rate: real, burst: nat, concurrency: real)
    requires rate >= 0.0 && concurrency >= 0.0
    ensures LeavesHalf(Limits(rate, burst as real), concurrency) <==> 2.0 * burst as real <= concurrency
  {
    var l := Limits(rate, burst as real);
    if 2.0 * burst as real <= concurrency {
      forall times: seq<real>, i: nat, k: nat | i <= k < |times| && InOrder(times) && times[i] == times[k]
        ensures var admitted := Count(l, times, i, k + 1) as real; admitted <= concurrency - admitted
      {
        AtOnceWithinBurst(l, times, i, k);
      }
    } else {
      var times := seq(burst, _ => 0.0);
      BurstIsAdmitted(l, times, burst);
      assert InOrder(times) && times[0] == times[burst - 1];
      assert Count(l, times, 0, burst - 1 + 1) == burst;
    }
  }

  /** The deployed burst is half the webhook's reserved concurrency. */
  lemma WebhookKeyLeavesHalf()
    ensures LeavesHalf(CAD_WEBHOOK_KEY_THROTTLE, WEBHOOK_RESERVED_CONCURRENCY)
  {
    OneKeyLeavesHalf(5.0, 5, WEBHOOK_RESERVED_CONCURRENCY);
  }

  // ---- A bucket for each key

  datatype Arrival = Arrival(key: string, at: real)

  type Buckets = map<string, Bucket>

  /** A key seen for the first time has a full bucket. */
  function BucketOf(l: Limits, bs: Buckets, a: Arrival): Bucket {
    if a.key in bs then bs[a.key] else Bucket(l.burst, a.at)
  }

  function Serve(l: Limits, bs: Buckets, arrivals: seq<Arrival>): (decisions: seq<bool>)
    ensures |decisions| == |arrivals|
    decreases |arrivals|
  {
    if arrivals == [] then []
    else
      var a := arrivals[0];
      var b := BucketOf(l, bs, a);
      [Admits(l, b, a.at)] + Serve(l, bs[a.key := After(l, b, a.at)], arrivals[1..])
  }

  function ArrivalsOf(arrivals: seq<Arrival>, key: string): seq<Arrival> {
    if arrivals == [] then []
    else if arrivals[0].key == key then [arrivals[0]] + ArrivalsOf(arrivals[1..], key)
    else ArrivalsOf(arrivals[1..], key)
  }

  function DecisionsOf(arrivals: seq<Arrival>, decisions: seq<bool>, key: string): seq<bool>
    requires |arrivals| == |decisions|
  {
    if arrivals == [] then []
    else if arrivals[0].key == key then [decisions[0]] + DecisionsOf(arrivals[1..], decisions[1..], key)
    else DecisionsOf(arrivals[1..], decisions[1..], key)
  }

  /** In any interleaving, what one key is told is what it would be told alone. */
  lemma {:induction false} KeysAreIsolated(
    l: Limits, all: Buckets, alone: Buckets, arrivals: seq<Arrival>, key: string)
    requires key in all <==> key in alone
    requires key in all ==> all[key] == alone[key]
    ensures DecisionsOf(arrivals, Serve(l, all, arrivals), key) == Serve(l, alone, ArrivalsOf(arrivals, key))
    decreases |arrivals|
  {
    if arrivals != [] {
      var a := arrivals[0];
      var b := BucketOf(l, all, a);
      var all' := all[a.key := After(l, b, a.at)];
      assert Serve(l, all, arrivals)[1..] == Serve(l, all', arrivals[1..]);
      if a.key == key {
        var alone' := alone[key := After(l, b, a.at)];
        KeysAreIsolated(l, all', alone', arrivals[1..], key);
        assert ([a] + ArrivalsOf(arrivals[1..], key))[1..] == ArrivalsOf(arrivals[1..], key);
      } else {
        KeysAreIsolated(l, all', alone, arrivals[1..], key);
      }
    }
  }

  function TimesOf(arrivals: seq<Arrival>): (times: seq<real>)
    ensures |times| == |arrivals|
  {
    seq(|arrivals|, i requires 0 <= i < |arrivals| => arrivals[i].at)
  }

  lemma {:induction false} ServedFrom(l: Limits, bs: Buckets, arrivals: seq<Arrival>, key: string, n: nat, i: nat)
    requires n <= i < |arrivals| && forall a :: a in arrivals ==> a.key == key
    requires BucketOf(l, bs, arrivals[n]) == BucketAfter(l, TimesOf(arrivals), n)
    ensures Serve(l, bs, arrivals[n..])[i - n] == Admitted(l, TimesOf(arrivals), i)
    decreases i - n
  {
    var a, b := arrivals[n], BucketOf(l, bs, arrivals[n]);
    assert a in arrivals && arrivals[n..][0] == a && arrivals[n..][1..] == arrivals[n + 1..];
    if n < i {
      assert arrivals[n + 1] in arrivals;
      var bs' := bs[key := After(l, b, a.at)];
      ServedFrom(l, bs', arrivals, key, n + 1, i);
      assert Serve(l, bs, arrivals[n..]) == [Admits(l, b, a.at)] + Serve(l, bs', arrivals[n + 1..]);
    }
  }

  /** A key's requests, alone, are admitted as the windows above say. */
  lemma ServedAsAdmitted(l: Limits, arrivals: seq<Arrival>, key: string, i: nat)
    requires i < |arrivals| && forall a :: a in arrivals ==> a.key == key
    ensures Serve(l, map[], arrivals)[i] == Admitted(l, TimesOf(arrivals), i)
  {
    assert arrivals[0..] == arrivals;
    ServedFrom(l, map[], arrivals, key, 0, i);
  }
}
