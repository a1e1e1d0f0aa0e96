/**
 What the tracker answers over a whole run: to requests and log lines as one token bucket would that has been there
 from the start, although records are created, shared and forgotten.
 */
module LimitsRates {
  import opened Basics
  import opened Buckets
  import opened Limits
  import opened LimitsForgetting

  datatype Kind = Requests | Lines

  /** The rate and burst of a bucket; those of log lines are the same for everybody. */
  function RateOf(kind: Kind, limit: Limit): real { if kind.Requests? then limit.rate else LOG_RATE }

  function BurstOf(kind: Kind, limit: Limit): int { if kind.Requests? then limit.burst else LOG_BURST }

  function BucketIn(s: State, place: Place, kind: Kind): Bucket {
    var r := At(s.records, place);
    if kind.Requests? then r.requests else r.logs
  }

  /** Call `i` asks for a token of this bucket of this record. */
  predicate AsksFor(calls: seq<Call>, place: Place, kind: Kind, i: nat)
    requires i < |calls|
  {
    (if kind.Requests? then calls[i].Allow? else calls[i].Log?) && FindsAt(calls, place, i)
  }

  /** When the first `n` calls asked. */
  function Times(calls: seq<Call>, place: Place, kind: Kind, n: nat): seq<real>
    requires n <= |calls|
  {
    if n == 0 then []
    else if AsksFor(calls, place, kind, n - 1) then Times(calls, place, kind, n - 1) + [calls[n - 1].now]
    else Times(calls, place, kind, n - 1)
  }

  lemma {:induction false} TimesGrow(calls: seq<Call>, place: Place, kind: Kind, m: nat, n: nat)
    requires m <= n <= |calls|
    ensures Times(calls, place, kind, m) <= Times(calls, place, kind, n)
    decreases n
  {
    if m < n {
      TimesGrow(calls, place, kind, m, n - 1);
    }
  }

  /** The time of a call that asks is where it belongs among all times. */
  lemma TimeAt(calls: seq<Call>, place: Place, kind: Kind, i: nat)
    requires i < |calls| && AsksFor(calls, place, kind, i)
    ensures var all, k := Times(calls, place, kind, |calls|), |Times(calls, place, kind, i)|;
            k < |all| && all[k] == calls[i].now && |Times(calls, place, kind, i + 1)| == k + 1
  {
    TimesGrow(calls, place, kind, i + 1, |calls|);
  }

  lemma InOrderWith(times: seq<real>, t: real)
    requires NonDecreasing(times) && (forall u :: u in times ==> u <= t)
    ensures NonDecreasing(times + [t])
  {
    forall i, j | 0 <= i <= j < |times + [t]|
      ensures (times + [t])[i] <= (times + [t])[j]
    {
      if i < |times| {
        assert times[i] in times;
      }
    }
  }

  lemma {:induction false} TimesUpTo(calls: seq<Call>, place: Place, kind: Kind, n: nat)
    requires InOrder(calls) && n <= |calls|
    ensures NonDecreasing(Times(calls, place, kind, n))
    ensures forall t :: t in Times(calls, place, kind, n) ==> n > 0 && t <= calls[n - 1].now
  {
    if n > 0 {
      TimesUpTo(calls, place, kind, n - 1);
      if n > 1 {
        assert calls[n - 2].now <= calls[n - 1].now;
      }
      InOrderWith(Times(calls, place, kind, n - 1), calls[n - 1].now);
    }
  }

  lemma {:induction false} TimesFrom(calls: seq<Call>, place: Place, kind: Kind, m: nat, n: nat)
    requires InOrder(calls) && m < n <= |calls|
    ensures var times := Times(calls, place, kind, n);
            forall k :: |Times(calls, place, kind, m)| <= k < |times| ==> calls[m].now <= times[k]
    decreases n
  {
    TimesGrow(calls, place, kind, m, n - 1);
    if m < n - 1 {
      TimesFrom(calls, place, kind, m, n - 1);
    }
    assert calls[m].now <= calls[n - 1].now;
  }

  // ---------------------------------------------------------------------------------------------
  // The record that is never forgotten holds that bucket

  /** All that take request tokens do so with the same limit. */
  predicate OneRate(calls: seq<Call>, place: Place, kind: Kind, limit: Limit) {
    kind.Requests? ==> limit.rate > 0.0 && Steady(calls, place, limit)
  }

  predicate Asks(s: State, c: Call, place: Place, kind: Kind) {
    (if kind.Requests? then c.Allow? else c.Log?) && Finds(s, c, place)
  }

  lemma BucketStep(s: State, c: Call, place: Place, kind: Kind, limit: Limit)
    requires kind.Requests? && Asks(s, c, place, kind) ==> c.limit == limit
    ensures BucketIn(Apply(s, c, Some(place)), place, kind) ==
            if Asks(s, c, place, kind) then
              Take(BucketIn(s, place, kind), c.now, RateOf(kind, limit), BurstOf(kind, limit)).1
            else BucketIn(s, place, kind)
  {
    if c.Sweep? {
      SweptAt(s, place, c.now, Some(place));
    } else {
      BucketsAfter(s, c, place, Some(place));
    }
  }

  lemma SameAsks(calls: seq<Call>, place: Place, kind: Kind, limit: Limit, i: nat)
    requires AlwaysFinds(calls, place) && OneRate(calls, place, kind, limit) && i < |calls|
    ensures AsksFor(calls, place, kind, i) <==> Asks(After(calls, i, Some(place)), calls[i], place, kind)
    ensures kind.Requests? && AsksFor(calls, place, kind, i) ==> calls[i].limit == limit
  {
    SameFinds(calls, place, i);
  }

  lemma {:induction false} KeptBucket(calls: seq<Call>, place: Place, kind: Kind, limit: Limit, n: nat)
    requires AlwaysFinds(calls, place) && OneRate(calls, place, kind, limit) && n <= |calls|
    ensures HoldsBucket(After(calls, n, Some(place)), place, kind, limit, Times(calls, place, kind, |calls|),
                        |Times(calls, place, kind, n)|)
  {
    if n == 0 {
      NoBucketYet(After(calls, n, Some(place)), place, kind);
    } else {
      KeptBucket(calls, place, kind, limit, n - 1);
      KeptNextAt(calls, place, kind, limit, n - 1, After(calls, n - 1, Some(place)), After(calls, n, Some(place)),
                 Times(calls, place, kind, |calls|));
    }
  }

  /** The bucket of this record is as after `k` calls at these times. */
  predicate HoldsBucket(s: State, place: Place, kind: Kind, limit: Limit, times: seq<real>, k: nat) {
    k <= |times| && BucketIn(s, place, kind) == BucketAt(FRESH, times, RateOf(kind, limit), BurstOf(kind, limit), k)
  }

  lemma KeptNextAt(calls: seq<Call>, place: Place, kind: Kind, limit: Limit, n: nat, s: State, s': State, times: seq<real>)
    requires AlwaysFinds(calls, place) && OneRate(calls, place, kind, limit) && n < |calls|
    requires s == After(calls, n, Some(place)) && s' == After(calls, n + 1, Some(place))
    requires times == Times(calls, place, kind, |calls|)
    requires HoldsBucket(s, place, kind, limit, times, |Times(calls, place, kind, n)|)
    ensures HoldsBucket(s', place, kind, limit, times, |Times(calls, place, kind, n + 1)|)
  {
    SameAsks(calls, place, kind, limit, n);
    KeptNext(s, calls[n], place, kind, limit, s');
    if AsksFor(calls, place, kind, n) {
      TimeAt(calls, place, kind, n);
    }
  }

  lemma NoBucketYet(s: State, place: Place, kind: Kind)
    requires s.records == map[]
    ensures BucketIn(s, place, kind) == FRESH
  {
  }

  lemma KeptNext(s: State, c: Call, place: Place, kind: Kind, limit: Limit, s': State)
    requires s' == Apply(s, c, Some(place)) && (kind.Requests? && Asks(s, c, place, kind) ==> c.limit == limit)
    ensures BucketIn(s', place, kind) ==
            if Asks(s, c, place, kind) then
              Take(BucketIn(s, place, kind), c.now, RateOf(kind, limit), BurstOf(kind, limit)).1
            else BucketIn(s, place, kind)
  {
    BucketStep(s, c, place, kind, limit);
  }

  lemma ReplyByBucket(s: State, c: Call, place: Place, kind: Kind, limit: Limit)
    requires Asks(s, c, place, kind) && (kind.Requests? ==> c.limit == limit)
    ensures ReplyTo(s, c) == Yes <==> Take(BucketIn(s, place, kind), c.now, RateOf(kind, limit), BurstOf(kind, limit)).0
  {
  }

  /** Forgetting this record cannot be noticed. */
  predicate Undisturbed(calls: seq<Call>, place: Place, kind: Kind, limit: Limit) {
    && InOrder(calls) && AlwaysFinds(calls, place) && OneRate(calls, place, kind, limit)
    && (kind.Requests? ==> RefillsInTime(limit))
  }

  /** Every request and every log line is answered as by one token bucket that is never forgotten. */
  lemma AnswersOfOneBucket(calls: seq<Call>, place: Place, kind: Kind, limit: Limit, i: nat)
    requires Undisturbed(calls, place, kind, limit) && i < |calls| && AsksFor(calls, place, kind, i)
    ensures var all, k := Times(calls, place, kind, |calls|), |Times(calls, place, kind, i)|;
            && k < |all| && all[k] == calls[i].now
            && (ReplyTo(After(calls, i, None), calls[i]) == Yes <==>
                GrantedAt(FRESH, all, RateOf(kind, limit), BurstOf(kind, limit), k))
  {
    TimeAt(calls, place, kind, i);
    KeptBucket(calls, place, kind, limit, i);
    SameAsks(calls, place, kind, limit, i);
    ReplyByBucket(After(calls, i, Some(place)), calls[i], place, kind, limit);
    if kind.Requests? {
      ForgettingUnseen(calls, place, limit, i);
    } else {
      LogForgettingUnseen(calls, place, i);
    }
  }

  // ---------------------------------------------------------------------------------------------
  // So the bounds of a bucket are those of a client

  predicate GrantedCall(calls: seq<Call>, place: Place, kind: Kind, i: nat)
    requires i < |calls|
  {
    AsksFor(calls, place, kind, i) && ReplyTo(After(calls, i, None), calls[i]) == Yes
  }

  function GrantedFlags(calls: seq<Call>, place: Place, kind: Kind): (flags: seq<bool>)
    ensures |flags| == |calls| && forall k :: 0 <= k < |calls| ==> flags[k] == GrantedCall(calls, place, kind, k)
  {
    seq(|calls|, k requires 0 <= k < |calls| => GrantedCall(calls, place, kind, k))
  }

  /** How many of the calls `i` to `j - 1` got a token. */
  function GrantedCalls(calls: seq<Call>, place: Place, kind: Kind, i: nat, j: nat): nat
    requires i <= j <= |calls|
  {
    CountTrue(GrantedFlags(calls, place, kind), i, j)
  }

  /** Each flag that counts is the next one among `granted`. */
  predicate Ranked(flags: seq<bool>, granted: seq<bool>, ranks: seq<nat>, k: nat)
    requires k < |flags| && |ranks| == |flags| + 1
  {
    if ranks[k + 1] == ranks[k] then !flags[k]
    else ranks[k + 1] == ranks[k] + 1 && ranks[k] < |granted| && flags[k] == granted[ranks[k]]
  }

  lemma {:induction false} SameCount(flags: seq<bool>, granted: seq<bool>, ranks: seq<nat>, i: nat, j: nat)
    requires |ranks| == |flags| + 1 && i <= j <= |flags| && ranks[i] <= |granted|
    requires forall k :: 0 <= k < |flags| ==> Ranked(flags, granted, ranks, k)
    ensures ranks[i] <= ranks[j] <= |granted| && CountTrue(flags, i, j) == CountTrue(granted, ranks[i], ranks[j])
  {
    if i < j {
      SameCount(flags, granted, ranks, i, j - 1);
      assert Ranked(flags, granted, ranks, j - 1);
    }
  }

  lemma CallIsGrant(calls: seq<Call>, place: Place, kind: Kind, limit: Limit, i: nat)
    requires Undisturbed(calls, place, kind, limit) && i < |calls|
    ensures var all, k := Times(calls, place, kind, |calls|), |Times(calls, place, kind, i)|;
            var k' := |Times(calls, place, kind, i + 1)|;
            if AsksFor(calls, place, kind, i) then
              && k < |all| && k' == k + 1
              && (GrantedCall(calls, place, kind, i) <==>
                  GrantedAt(FRESH, all, RateOf(kind, limit), BurstOf(kind, limit), k))
            else k' == k && !GrantedCall(calls, place, kind, i)
  {
    if AsksFor(calls, place, kind, i) {
      TimeAt(calls, place, kind, i);
      AnswersOfOneBucket(calls, place, kind, limit, i);
    }
  }

  lemma CallsAreGrants(calls: seq<Call>, place: Place, kind: Kind, limit: Limit, i: nat, j: nat)
    requires Undisturbed(calls, place, kind, limit) && i <= j <= |calls|
    ensures var all := Times(calls, place, kind, |calls|);
            var from, to := |Times(calls, place, kind, i)|, |Times(calls, place, kind, j)|;
            && from <= to <= |all|
            && GrantedCalls(calls, place, kind, i, j) ==
               Grants(FRESH, all, RateOf(kind, limit), BurstOf(kind, limit), from, to)
  {
    var all, rate, burst := Times(calls, place, kind, |calls|), RateOf(kind, limit), BurstOf(kind, limit);
    var flags := GrantedFlags(calls, place, kind);
    var granted := seq(|all|, k requires 0 <= k < |all| => GrantedAt(FRESH, all, rate, burst, k));
    var ranks: seq<nat> := seq(|calls| + 1, k requires 0 <= k <= |calls| => |Times(calls, place, kind, k)|);
    forall k | 0 <= k < |calls|
      ensures Ranked(flags, granted, ranks, k)
    {
      CallIsGrant(calls, place, kind, limit, k);
    }
    TimesGrow(calls, place, kind, i, |calls|);
    SameCount(flags, granted, ranks, i, j);
    GrantsCounted(FRESH, all, rate, burst, granted, ranks[i], ranks[j]);
  }

  /** In any window of a run, no more requests are allowed, and no more lines written, than the burst and the rate
      together permit. */
  lemma ClientRateBound(calls: seq<Call>, place: Place, kind: Kind, limit: Limit, i: nat, j: nat)
    requires Undisturbed(calls, place, kind, limit) && i < j <= |calls|
    ensures GrantedCalls(calls, place, kind, i, j) as real
            <= Capacity(BurstOf(kind, limit)) + Inflow(calls[i].now, calls[j - 1].now, RateOf(kind, limit))
  {
    var all := Times(calls, place, kind, |calls|);
    var from, to := |Times(calls, place, kind, i)|, |Times(calls, place, kind, j)|;
    var rate := RateOf(kind, limit);
    CallsAreGrants(calls, place, kind, limit, i, j);
    TimesUpTo(calls, place, kind, |calls|);
    assert calls[i].now <= calls[j - 1].now;
    InflowBounds(calls[i].now, calls[j - 1].now, rate);
    if from < to {
      WindowBound(all, rate, BurstOf(kind, limit), from, to);
      WindowInside(calls, place, kind, i, j);
      WiderWindow(calls[i].now, all[from], all[to - 1], calls[j - 1].now, rate);
    }
  }

  lemma WindowInside(calls: seq<Call>, place: Place, kind: Kind, i: nat, j: nat)
    requires InOrder(calls) && i < j <= |calls|
    ensures var all := Times(calls, place, kind, |calls|);
            var from, to := |Times(calls, place, kind, i)|, |Times(calls, place, kind, j)|;
            from < to ==> to <= |all| && calls[i].now <= all[from] && all[to - 1] <= calls[j - 1].now
  {
    TimesGrow(calls, place, kind, j, |calls|);
    TimesFrom(calls, place, kind, i, j);
    TimesUpTo(calls, place, kind, j);
    var some := Times(calls, place, kind, j);
    if |Times(calls, place, kind, i)| < |some| {
      assert some[|some| - 1] in some;
    }
  }

  lemma WiderWindow(a: real, b: real, c: real, d: real, rate: real)
    requires rate > 0.0 && a <= b && c <= d
    ensures Inflow(b, c, rate) <= Inflow(a, d, rate)
  {
    ScaledUp(c - b, d - a, rate);
  }

  /** A client whose calls are at least one token apart is never refused. */
  lemma SpacedClientNeverRefused(calls: seq<Call>, place: Place, kind: Kind, limit: Limit, i: nat)
    requires Undisturbed(calls, place, kind, limit) && i < |calls| && AsksFor(calls, place, kind, i)
    requires var all := Times(calls, place, kind, |calls|);
             forall k :: 0 < k < |all| ==> all[k] - all[k - 1] >= 1.0 / RateOf(kind, limit)
    ensures ReplyTo(After(calls, i, None), calls[i]) == Yes
  {
    TimesUpTo(calls, place, kind, |calls|);
    AnswersOfOneBucket(calls, place, kind, limit, i);
    var all, k := Times(calls, place, kind, |calls|), |Times(calls, place, kind, i)|;
    SpacedNeverRefused(all, RateOf(kind, limit), BurstOf(kind, limit), k);
  }

  /** Without a rate every request is allowed. */
  lemma NoRateNoRefusal(s: State, c: Call)
    requires c.Allow? && c.limit.rate <= 0.0
    ensures ReplyTo(s, c) == Yes
  {
  }
}
