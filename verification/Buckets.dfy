/** The token bucket of `internal/limits`, with seconds and tokens as real numbers. */
module Buckets {

  datatype Bucket = Bucket(tokens: real, last: real, primed: bool)

  const FRESH := Bucket(0.0, 0.0, false)

  function Capacity(burst: int): (c: real)
    ensures c >= 1.0
  {
    if burst > 1 then burst as real else 1.0
  }

  function Min(a: real, b: real): real { if a < b then a else b }

  /** The tokens that flow in between two moments. */
  function Inflow(from: real, to: real, rate: real): real { (to - from) * rate }

  /** `take`: refill for the time passed, then take a token if there is a whole one. */
  function Take(b: Bucket, now: real, rate: real, burst: int): (bool, Bucket) {
    if rate <= 0.0 then (true, b)
    else
      var tokens := if b.primed then Min(Capacity(burst), b.tokens + Inflow(b.last, now, rate)) else Capacity(burst);
      if tokens < 1.0 then (false, Bucket(tokens, now, true)) else (true, Bucket(tokens - 1.0, now, true))
  }

  /** The tokens a bucket would offer at `now`. */
  function Level(b: Bucket, now: real, rate: real, burst: int): real {
    if b.primed then Min(Capacity(burst), b.tokens + Inflow(b.last, now, rate)) else Capacity(burst)
  }

  /** Between 0 and the capacity, and not filled in the future. */
  predicate WellFilled(b: Bucket, now: real, burst: int) {
    b.primed ==> 0.0 <= b.tokens <= Capacity(burst) && b.last <= now
  }

  lemma InflowBounds(from: real, to: real, rate: real)
    requires from <= to && rate > 0.0
    ensures Inflow(from, to, rate) >= 0.0
    ensures from == to ==> Inflow(from, to, rate) == 0.0
    ensures to - from >= 1.0 / rate ==> Inflow(from, to, rate) >= 1.0
  {
    ScaledUp(0.0, to - from, rate);
    if to - from >= 1.0 / rate {
      OneTokenIn(from, to, 1.0 / rate, rate);
    }
  }

  lemma OneTokenIn(from: real, to: real, gap: real, rate: real)
    requires rate > 0.0 && gap == 1.0 / rate && to - from >= gap
    ensures Inflow(from, to, rate) >= 1.0
  {
    ScaledUp(gap, to - from, rate);
    OneToken(gap, rate);
  }

  lemma OneToken(gap: real, rate: real)
    requires rate > 0.0 && gap == 1.0 / rate
    ensures gap * rate == 1.0
  {
  }

  lemma ScaledUp(x: real, y: real, rate: real)
    requires x <= y && rate > 0.0
    ensures x * rate <= y * rate
  {
    assert (y - x) * rate >= 0.0;
  }

  lemma InflowSplit(from: real, mid: real, to: real, rate: real)
    ensures Inflow(from, to, rate) == Inflow(from, mid, rate) + Inflow(mid, to, rate)
  {
  }

  /** A bucket is no more than its level: the level decides, and a grant lowers it by exactly one. */
  lemma TakeByLevel(b: Bucket, now: real, rate: real, burst: int)
    requires rate > 0.0 && WellFilled(b, now, burst)
    ensures var (granted, b') := Take(b, now, rate, burst);
            && (granted <==> Level(b, now, rate, burst) >= 1.0)
            && Level(b', now, rate, burst) == Level(b, now, rate, burst) - (if granted then 1.0 else 0.0)
            && WellFilled(b', now, burst)
  {
    if b.primed {
      InflowBounds(b.last, now, rate);
    }
    InflowBounds(now, now, rate);
  }

  /** A level rises with time by the rate, up to the capacity, and by nothing else. */
  lemma LevelLater(b: Bucket, now: real, later: real, rate: real, burst: int)
    requires rate > 0.0 && WellFilled(b, now, burst) && now <= later
    ensures Level(b, later, rate, burst) == Min(Capacity(burst), Level(b, now, rate, burst) + Inflow(now, later, rate))
    ensures 0.0 <= Level(b, now, rate, burst) <= Capacity(burst)
    ensures WellFilled(b, later, burst)
  {
    InflowBounds(now, later, rate);
    if b.primed {
      InflowBounds(b.last, now, rate);
      InflowSplit(b.last, now, later, rate);
    }
  }

  /** A bucket left alone for long enough is full: as good as a new one. */
  lemma FullAfter(b: Bucket, now: real, rate: real, burst: int, idle: real)
    requires rate > 0.0 && WellFilled(b, now, burst)
    requires b.primed ==> now - b.last >= idle
    requires idle * rate >= Capacity(burst)
    ensures Level(b, now, rate, burst) == Capacity(burst) == Level(FRESH, now, rate, burst)
  {
    if b.primed {
      InflowBounds(b.last + idle, now, rate);
      InflowSplit(b.last, b.last + idle, now, rate);
      assert Inflow(b.last, b.last + idle, rate) == idle * rate;
    }
  }

  // ---------------------------------------------------------------------------------------------
  // Runs of one bucket

  predicate NonDecreasing(times: seq<real>) {
    forall i, j :: 0 <= i <= j < |times| ==> times[i] <= times[j]
  }

  /** The bucket before call `i`. */
  function BucketAt(b: Bucket, times: seq<real>, rate: real, burst: int, i: nat): Bucket
    requires i <= |times|
  {
    if i == 0 then b else Take(BucketAt(b, times, rate, burst, i - 1), times[i - 1], rate, burst).1
  }

  /** Whether call `i` is granted. */
  predicate GrantedAt(b: Bucket, times: seq<real>, rate: real, burst: int, i: nat)
    requires i < |times|
  {
    Take(BucketAt(b, times, rate, burst, i), times[i], rate, burst).0
  }

  /** How many of the calls `i` to `j - 1` are granted. */
  function Grants(b: Bucket, times: seq<real>, rate: real, burst: int, i: nat, j: nat): nat
    requires i <= j <= |times|
  {
    if i == j then 0
    else Grants(b, times, rate, burst, i, j - 1) + if GrantedAt(b, times, rate, burst, j - 1) then 1 else 0
  }

  lemma {:induction false} RunWellFilled(b: Bucket, times: seq<real>, rate: real, burst: int, i: nat)
    requires rate > 0.0 && NonDecreasing(times) && i <= |times|
    requires forall t :: t in times ==> WellFilled(b, t, burst)
    ensures var now := BucketAt(b, times, rate, burst, i);
            && (forall k :: i <= k < |times| ==> WellFilled(now, times[k], burst))
            && (i > 0 ==> now.primed && 0.0 <= now.tokens <= Capacity(burst) && now.last == times[i - 1])
  {
    if i > 0 {
      RunWellFilled(b, times, rate, burst, i - 1);
      TakeByLevel(BucketAt(b, times, rate, burst, i - 1), times[i - 1], rate, burst);
    } else {
      forall k | i <= k < |times| ensures WellFilled(b, times[k], burst) { assert times[k] in times; }
    }
  }

  function CountTrue(flags: seq<bool>, i: nat, j: nat): nat
    requires i <= j <= |flags|
  {
    if i == j then 0 else CountTrue(flags, i, j - 1) + if flags[j - 1] then 1 else 0
  }

  /** What is taken is paid for out of what was there and what has flowed in since. */
  lemma {:induction false} Telescope(level: seq<real>, inflow: seq<real>, taken: seq<bool>, i: nat, j: nat)
    requires |level| == |inflow| == |taken| && i < j <= |level|
    requires forall k :: 0 < k < |level| ==>
               level[k] <= level[k - 1] - (if taken[k - 1] then 1.0 else 0.0) + inflow[k] - inflow[k - 1]
    ensures CountTrue(taken, i, j) as real + level[j - 1] - (if taken[j - 1] then 1.0 else 0.0)
            <= level[i] + inflow[j - 1] - inflow[i]
  {
    if j - 1 > i {
      Telescope(level, inflow, taken, i, j - 1);
    }
  }

  function LevelBefore(b: Bucket, times: seq<real>, rate: real, burst: int, i: nat): real
    requires i < |times|
  {
    Level(BucketAt(b, times, rate, burst, i), times[i], rate, burst)
  }

  lemma LevelStep(b: Bucket, times: seq<real>, rate: real, burst: int, i: nat)
    requires rate > 0.0 && NonDecreasing(times) && i < |times|
    requires forall t :: t in times ==> WellFilled(b, t, burst)
    ensures (if GrantedAt(b, times, rate, burst, i) then 1.0 else 0.0)
            <= LevelBefore(b, times, rate, burst, i) <= Capacity(burst)
    ensures i > 0 ==>
              LevelBefore(b, times, rate, burst, i) <=
              LevelBefore(b, times, rate, burst, i - 1) - (if GrantedAt(b, times, rate, burst, i - 1) then 1.0 else 0.0)
              + Inflow(times[i - 1], times[i], rate)
  {
    var now := BucketAt(b, times, rate, burst, i);
    RunWellFilled(b, times, rate, burst, i);
    TakeByLevel(now, times[i], rate, burst);
    LevelLater(now, times[i], times[i], rate, burst);
    if i > 0 {
      RunWellFilled(b, times, rate, burst, i - 1);
      TakeByLevel(BucketAt(b, times, rate, burst, i - 1), times[i - 1], rate, burst);
      LevelLater(now, times[i - 1], times[i], rate, burst);
    }
  }

  lemma {:induction false} GrantsCounted(b: Bucket, times: seq<real>, rate: real, burst: int, taken: seq<bool>, i: nat, j: nat)
    requires |taken| == |times| && i <= j <= |times|
    requires forall k :: 0 <= k < |times| ==> taken[k] == GrantedAt(b, times, rate, burst, k)
    ensures Grants(b, times, rate, burst, i, j) == CountTrue(taken, i, j)
  {
    if i < j {
      GrantsCounted(b, times, rate, burst, taken, i, j - 1);
    }
  }

  /** In any window, no more grants than the burst and the rate together allow. */
  lemma WindowBound(times: seq<real>, rate: real, burst: int, i: nat, j: nat)
    requires rate > 0.0 && NonDecreasing(times) && i < j <= |times|
    ensures Grants(FRESH, times, rate, burst, i, j) as real <= Capacity(burst) + Inflow(times[i], times[j - 1], rate)
  {
    var level := seq(|times|, k requires 0 <= k < |times| => LevelBefore(FRESH, times, rate, burst, k));
    var inflow := seq(|times|, k requires 0 <= k < |times| => Inflow(times[0], times[k], rate));
    var taken := seq(|times|, k requires 0 <= k < |times| => GrantedAt(FRESH, times, rate, burst, k));
    GrantsCounted(FRESH, times, rate, burst, taken, i, j);
    InflowSplit(times[0], times[i], times[j - 1], rate);
    assert CountTrue(taken, i, j) as real <= Capacity(burst) + inflow[j - 1] - inflow[i] by {
      forall k | 0 <= k < |times|
        ensures (if taken[k] then 1.0 else 0.0) <= level[k] <= Capacity(burst)
        ensures k > 0 ==> level[k] <= level[k - 1] - (if taken[k - 1] then 1.0 else 0.0) + inflow[k] - inflow[k - 1]
      {
        LevelStep(FRESH, times, rate, burst, k);
        if k > 0 {
          InflowSplit(times[0], times[k - 1], times[k], rate);
        }
      }
      WindowOf(level, inflow, taken, i, j, Capacity(burst));
    }
  }

  lemma WindowOf(level: seq<real>, inflow: seq<real>, taken: seq<bool>, i: nat, j: nat, capacity: real)
    requires |level| == |inflow| == |taken| && i < j <= |level|
    requires forall k :: 0 <= k < |level| ==> (if taken[k] then 1.0 else 0.0) <= level[k] <= capacity
    requires forall k :: 0 < k < |level| ==>
               level[k] <= level[k - 1] - (if taken[k - 1] then 1.0 else 0.0) + inflow[k] - inflow[k - 1]
    ensures CountTrue(taken, i, j) as real <= capacity + inflow[j - 1] - inflow[i]
  {
    Telescope(level, inflow, taken, i, j);
  }

  /** Calls at least a token's worth of time apart are never refused. */
  lemma {:induction false} SpacedNeverRefused(times: seq<real>, rate: real, burst: int, i: nat)
    requires rate > 0.0 && NonDecreasing(times) && i < |times|
    requires forall k :: 0 < k < |times| ==> times[k] - times[k - 1] >= 1.0 / rate
    ensures GrantedAt(FRESH, times, rate, burst, i)
  {
    var before := BucketAt(FRESH, times, rate, burst, i);
    RunWellFilled(FRESH, times, rate, burst, i);
    TakeByLevel(before, times[i], rate, burst);
    if i > 0 {
      InflowBounds(times[i - 1], times[i], rate);
    }
  }

  /** Without a rate there is no limit: every call is granted and the bucket stays as it is. */
  lemma {:induction false} NoRateNoLimit(b: Bucket, times: seq<real>, rate: real, burst: int, i: nat)
    requires rate <= 0.0 && i <= |times|
    ensures BucketAt(b, times, rate, burst, i) == b && (i < |times| ==> GrantedAt(b, times, rate, burst, i))
  {
    if i > 0 {
      NoRateNoLimit(b, times, rate, burst, i - 1);
    }
  }

  lemma {:induction false} UsedAtOnce(times: seq<real>, rate: real, burst: int, full: nat, i: nat)
    requires rate > 0.0 && full as real == Capacity(burst) && 0 < i <= |times|
    requires forall k :: 0 <= k < |times| ==> times[k] == times[0]
    ensures BucketAt(FRESH, times, rate, burst, i) == Bucket((if i < full then full - i else 0) as real, times[0], true)
  {
    InflowBounds(times[0], times[0], rate);
    if i > 1 {
      UsedAtOnce(times, rate, burst, full, i - 1);
    }
  }

  /** Of calls at one time, a new bucket grants exactly the burst, or one if the burst is smaller. */
  lemma BurstExactly(times: seq<real>, rate: real, burst: int, i: nat)
    requires rate > 0.0 && i < |times| && (forall k :: 0 <= k < |times| ==> times[k] == times[0])
    ensures GrantedAt(FRESH, times, rate, burst, i) <==> i < if burst > 1 then burst else 1
  {
    InflowBounds(times[0], times[0], rate);
    if i > 0 {
      UsedAtOnce(times, rate, burst, if burst > 1 then burst else 1, i);
    }
  }
}
