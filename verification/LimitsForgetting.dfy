/**
 When forgetting an idle record can be noticed. A tracker that sweeps is compared, call by call, with one that
 never forgets that record and is the same otherwise.
 */
module LimitsForgetting {
  import opened Basics
  import opened Netip
  import opened Buckets
  import opened Limits

  predicate UsesRecord(c: Call) { c.Acquire? || c.Allow? || c.Log? }

  /** The call finds the record at `place`. */
  predicate Finds(s: State, c: Call, place: Place) { UsesRecord(c) && PlaceFor(s.records, c.ip) == place }

  predicate FindsAt(calls: seq<Call>, place: Place, i: nat)
    requires i < |calls|
  {
    Finds(After(calls, i, None), calls[i], place)
  }

  /** The calls that take request tokens from the record all use the same rate and burst, if it has a rate. */
  predicate Steady(calls: seq<Call>, place: Place, limit: Limit) {
    limit.rate > 0.0 ==>
      forall i :: 0 <= i < |calls| && calls[i].Allow? && FindsAt(calls, place, i) ==> calls[i].limit == limit
  }

  /** For the record of one address: that address never has to share another. */
  predicate AlwaysFinds(calls: seq<Call>, place: Place) {
    place.Own? ==> forall i :: 0 <= i < |calls| && UsesRecord(calls[i]) && calls[i].ip == place.ip ==> FindsAt(calls, place, i)
  }

  /** No limit, or a bucket that refills within the time after which a record is forgotten. */
  predicate RefillsInTime(limit: Limit) {
    limit.rate <= 0.0 || FORGET_AFTER * limit.rate >= Capacity(limit.burst)
  }

  // ---------------------------------------------------------------------------------------------
  // Both trackers use the record for the same calls

  /** The trackers differ in nothing but the record that the one keeps. */
  ghost predicate Mirror(s: State, s': State, place: Place) {
    && s'.total == s.total && s'.handles == s.handles
    && (forall p :: p != place ==> (p in s.records <==> p in s'.records))
    && (forall p :: p in s.records && p != place ==> s'.records[p] == s.records[p])
    && At(s.records, place).conns == At(s'.records, place).conns
  }

  /** Keeping the record of a whole network takes no room from any address. */
  lemma SamePlaces(s: State, s': State, place: Place, ip: Addr)
    requires Mirror(s, s', place) && place.Shared?
    ensures PlaceFor(s.records, ip) == PlaceFor(s'.records, ip)
  {
    assert OwnPlaces(s.records) == OwnPlaces(s'.records);
  }

  lemma MirrorPut(s: State, s': State, place: Place, ip: Addr, r: Record, r': Record)
    requires Mirror(s, s', place) && place.Shared? && r.conns == r'.conns
    requires PlaceFor(s.records, ip) != place ==> r == r'
    ensures Mirror(Put(s, ip, r), Put(s', ip, r'), place)
  {
    SamePlaces(s, s', place, ip);
  }

  lemma MirrorAcquire(s: State, s': State, place: Place, c: Call)
    requires Mirror(s, s', place) && place.Shared? && c.Acquire?
    ensures Mirror(Apply(s, c, None), Apply(s', c, Some(place)), place)
  {
    var r, r' := Get(s, c.ip, c.now), Get(s', c.ip, c.now);
    SamePlaces(s, s', place, c.ip);
    MirrorPut(s, s', place, c.ip, r, r');
    MirrorPut(s, s', place, c.ip, r.(conns := r.conns + 1), r'.(conns := r'.conns + 1));
  }

  lemma MirrorBuckets(s: State, s': State, place: Place, c: Call)
    requires Mirror(s, s', place) && place.Shared? && (c.Allow? || c.Log?)
    ensures Mirror(Apply(s, c, None), Apply(s', c, Some(place)), place)
  {
    var r, r' := Get(s, c.ip, c.now), Get(s', c.ip, c.now);
    SamePlaces(s, s', place, c.ip);
    if c.Allow? {
      MirrorPut(s, s', place, c.ip, r.(requests := TakeFor(s, c.ip, c.limit, c.now).1),
                r'.(requests := TakeFor(s', c.ip, c.limit, c.now).1));
    } else {
      MirrorPut(s, s', place, c.ip, LogLine(r, c.key, c.now).1, LogLine(r', c.key, c.now).1);
    }
  }

  lemma MirrorSweep(s: State, s': State, place: Place, now: real)
    requires Mirror(s, s', place)
    ensures Mirror(SweptState(s, now, None), SweptState(s', now, Some(place)), place)
  {
  }

  lemma MirrorStep(s: State, s': State, place: Place, c: Call)
    requires Mirror(s, s', place) && place.Shared?
    ensures Mirror(Apply(s, c, None), Apply(s', c, Some(place)), place)
  {
    if c.Acquire? {
      MirrorAcquire(s, s', place, c);
    } else if c.Allow? || c.Log? {
      MirrorBuckets(s, s', place, c);
    } else if c.Sweep? {
      MirrorSweep(s, s', place, c.now);
    }
  }

  /** Until an address first has a record of its own, there is nothing to keep. */
  lemma KeptStep(s: State, s': State, place: Place, c: Call)
    requires place !in s'.records ==> s == s'
    ensures place !in Apply(s', c, Some(place)).records ==> Apply(s, c, None) == Apply(s', c, Some(place))
  {
    if place !in s'.records && c.Sweep? {
      assert SweptState(s, c.now, None).records == SweptState(s', c.now, Some(place)).records;
    }
  }

  /** What the two trackers have in common. */
  ghost predicate Paired(s: State, s': State, place: Place) {
    if place.Shared? then Mirror(s, s', place) else place !in s'.records ==> s == s'
  }

  lemma {:induction false} RunPaired(calls: seq<Call>, place: Place, n: nat)
    requires n <= |calls|
    ensures Paired(After(calls, n, None), After(calls, n, Some(place)), place)
  {
    if n > 0 {
      RunPaired(calls, place, n - 1);
      var s, s' := After(calls, n - 1, None), After(calls, n - 1, Some(place));
      if place.Shared? {
        MirrorStep(s, s', place, calls[n - 1]);
      } else {
        KeptStep(s, s', place, calls[n - 1]);
      }
    }
  }

  lemma SameTarget(s: State, s': State, place: Place, c: Call)
    requires Paired(s, s', place) && UsesRecord(c)
    requires place.Own? && c.ip == place.ip ==> PlaceFor(s.records, c.ip) == place
    ensures Finds(s, c, place) <==> Finds(s', c, place)
  {
    if place.Shared? {
      SamePlaces(s, s', place, c.ip);
    }
  }

  // ---------------------------------------------------------------------------------------------
  // The record offers the same in both

  predicate SameLevels(r: Record, r': Record, limit: Limit, now: real) {
    && (limit.rate > 0.0 ==>
          Level(r.requests, now, limit.rate, limit.burst) == Level(r'.requests, now, limit.rate, limit.burst))
    && Level(r.logs, now, LOG_RATE, LOG_BURST) == Level(r'.logs, now, LOG_RATE, LOG_BURST)
  }

  predicate Timely(b: Bucket, seen: real) { b.primed ==> b.last <= seen }

  /** The buckets are well filled, and were not used after the record was last seen. */
  predicate Sound(r: Record, limit: Limit, now: real) {
    && (limit.rate > 0.0 ==> WellFilled(r.requests, now, limit.burst) && Timely(r.requests, r.seen))
    && WellFilled(r.logs, now, LOG_BURST) && Timely(r.logs, r.seen)
  }

  predicate SoundAt(s: State, place: Place, limit: Limit, now: real) {
    Sound(At(s.records, place), limit, now) && (place in s.records ==> s.records[place].seen <= now)
  }

  ghost predicate Related(s: State, s': State, place: Place, limit: Limit, now: real) {
    && SoundAt(s, place, limit, now) && SoundAt(s', place, limit, now)
    && SameLevels(At(s.records, place), At(s'.records, place), limit, now)
  }

  lemma RelatedLater(s: State, s': State, place: Place, limit: Limit, now: real, later: real)
    requires Related(s, s', place, limit, now) && now <= later
    ensures Related(s, s', place, limit, later)
  {
    var r, r' := At(s.records, place), At(s'.records, place);
    LevelLater(r.logs, now, later, LOG_RATE, LOG_BURST);
    LevelLater(r'.logs, now, later, LOG_RATE, LOG_BURST);
    if limit.rate > 0.0 {
      LevelLater(r.requests, now, later, limit.rate, limit.burst);
      LevelLater(r'.requests, now, later, limit.rate, limit.burst);
    }
  }

  /** How a call changes the record at `place`: the buckets, and when it was seen. */
  predicate Becomes(s: State, s': State, c: Call, place: Place) {
    var r, r' := At(s.records, place), At(s'.records, place);
    && r'.requests == (if c.Allow? && Finds(s, c, place)
                       then Take(r.requests, c.now, c.limit.rate, c.limit.burst).1 else r.requests)
    && r'.logs == (if c.Log? && Finds(s, c, place) then Take(r.logs, c.now, LOG_RATE, LOG_BURST).1 else r.logs)
    && (r'.seen == c.now || r' == r)
    && (place in s'.records ==> r'.seen == c.now || place in s.records)
  }

  lemma BucketsUsed(s: State, c: Call, place: Place, keep: Option<Place>)
    requires c.Allow? || c.Log?
    ensures Becomes(s, Apply(s, c, keep), c, place)
  {
  }

  lemma BucketsLeft(s: State, c: Call, place: Place, keep: Option<Place>)
    requires c.Acquire? || c.Release? || c.LogUnknown?
    ensures Becomes(s, Apply(s, c, keep), c, place)
  {
  }

  /** What a call does to the buckets of a record. */
  lemma BucketsAfter(s: State, c: Call, place: Place, keep: Option<Place>)
    requires !c.Sweep?
    ensures Becomes(s, Apply(s, c, keep), c, place)
  {
    if c.Allow? || c.Log? {
      BucketsUsed(s, c, place, keep);
    } else {
      BucketsLeft(s, c, place, keep);
    }
  }

  lemma StepSound(s: State, c: Call, place: Place, limit: Limit, keep: Option<Place>)
    requires SoundAt(s, place, limit, c.now) && !c.Sweep?
    requires limit.rate > 0.0 && c.Allow? && Finds(s, c, place) ==> c.limit == limit
    ensures SoundAt(Apply(s, c, keep), place, limit, c.now)
  {
    var r := At(s.records, place);
    BucketsAfter(s, c, place, keep);
    TakeByLevel(r.logs, c.now, LOG_RATE, LOG_BURST);
    if limit.rate > 0.0 {
      TakeByLevel(r.requests, c.now, limit.rate, limit.burst);
    }
  }

  lemma SameReply(s: State, s': State, c: Call, place: Place, limit: Limit)
    requires Related(s, s', place, limit, c.now) && Finds(s, c, place) && Finds(s', c, place)
    requires (c.Allow? && c.limit == limit) || c.Log?
    ensures ReplyTo(s, c) == ReplyTo(s', c)
  {
    var r, r' := At(s.records, place), At(s'.records, place);
    if c.Log? {
      TakeByLevel(r.logs, c.now, LOG_RATE, LOG_BURST);
      TakeByLevel(r'.logs, c.now, LOG_RATE, LOG_BURST);
    } else if limit.rate > 0.0 {
      TakeByLevel(r.requests, c.now, limit.rate, limit.burst);
      TakeByLevel(r'.requests, c.now, limit.rate, limit.burst);
    }
  }

  /** The same use of two buckets that offer the same leaves two that offer the same. */
  lemma SameUse(b: Bucket, b': Bucket, now: real, rate: real, burst: int)
    requires rate > 0.0 && WellFilled(b, now, burst) && WellFilled(b', now, burst)
    requires Level(b, now, rate, burst) == Level(b', now, rate, burst)
    ensures Level(Take(b, now, rate, burst).1, now, rate, burst) == Level(Take(b', now, rate, burst).1, now, rate, burst)
  {
    TakeByLevel(b, now, rate, burst);
    TakeByLevel(b', now, rate, burst);
  }

  /** A call that is not a sweep keeps the two trackers in step. */
  lemma StepRelated(s: State, s': State, c: Call, place: Place, limit: Limit)
    requires Related(s, s', place, limit, c.now) && !c.Sweep? && (Finds(s, c, place) <==> Finds(s', c, place))
    requires limit.rate > 0.0 && c.Allow? && Finds(s, c, place) ==> c.limit == limit
    ensures Related(Apply(s, c, None), Apply(s', c, Some(place)), place, limit, c.now)
  {
    StepSound(s, c, place, limit, None);
    StepSound(s', c, place, limit, Some(place));
    BucketsAfter(s, c, place, None);
    BucketsAfter(s', c, place, Some(place));
    SameAfter(s, s', Apply(s, c, None), Apply(s', c, Some(place)), c, place, limit);
  }

  lemma SameAfter(s: State, s': State, t: State, t': State, c: Call, place: Place, limit: Limit)
    requires Related(s, s', place, limit, c.now) && (Finds(s, c, place) <==> Finds(s', c, place))
    requires limit.rate > 0.0 && c.Allow? && Finds(s, c, place) ==> c.limit == limit
    requires Becomes(s, t, c, place) && Becomes(s', t', c, place)
    ensures SameLevels(At(t.records, place), At(t'.records, place), limit, c.now)
  {
    var r, r' := At(s.records, place), At(s'.records, place);
    SameUse(r.logs, r'.logs, c.now, LOG_RATE, LOG_BURST);
    if limit.rate > 0.0 {
      SameUse(r.requests, r'.requests, c.now, limit.rate, limit.burst);
    }
  }

  /** A record that is forgotten was as good as new. */
  lemma ForgottenIsFull(r: Record, limit: Limit, now: real)
    requires Sound(r, limit, now) && RefillsInTime(limit) && Forgotten(r, now)
    ensures SameLevels(NEW_RECORD, r, limit, now)
  {
    FullAfter(r.logs, now, LOG_RATE, LOG_BURST, FORGET_AFTER);
    if limit.rate > 0.0 {
      FullAfter(r.requests, now, limit.rate, limit.burst, FORGET_AFTER);
    }
  }

  lemma SweptAt(s: State, place: Place, now: real, keep: Option<Place>)
    ensures var r := At(s.records, place);
            At(SweptState(s, now, keep).records, place) ==
            if place in s.records && keep != Some(place) && Forgotten(r, now) then NEW_RECORD else Cleared(r)
  {
  }

  /** A sweep drops a record only when its buckets are full again. */
  lemma SweepRelated(s: State, s': State, place: Place, limit: Limit, now: real)
    requires Related(s, s', place, limit, now) && RefillsInTime(limit)
    ensures Related(SweptState(s, now, None), SweptState(s', now, Some(place)), place, limit, now)
  {
    var r := At(s.records, place);
    SweptAt(s, place, now, None);
    SweptAt(s', place, now, Some(place));
    if place in s.records && Forgotten(r, now) {
      ForgottenIsFull(r, limit, now);
    }
  }

  lemma {:induction false} RunRelated(calls: seq<Call>, place: Place, limit: Limit, n: nat, now: real)
    requires InOrder(calls) && Steady(calls, place, limit) && RefillsInTime(limit) && AlwaysFinds(calls, place)
    requires n <= |calls| && (forall i :: 0 <= i < n ==> calls[i].now <= now)
    ensures Related(After(calls, n, None), After(calls, n, Some(place)), place, limit, now)
    decreases n
  {
    if n > 0 {
      var c := calls[n - 1];
      var s, s' := After(calls, n - 1, None), After(calls, n - 1, Some(place));
      RunRelated(calls, place, limit, n - 1, c.now);
      if c.Sweep? {
        SweepRelated(s, s', place, limit, c.now);
      } else {
        SameFinds(calls, place, n - 1);
        assert FindsAt(calls, place, n - 1) <==> Finds(s, c, place);
        StepRelated(s, s', c, place, limit);
      }
      RelatedLater(Apply(s, c, None), Apply(s', c, Some(place)), place, limit, c.now, now);
    }
  }

  lemma SameFinds(calls: seq<Call>, place: Place, i: nat)
    requires i < |calls| && AlwaysFinds(calls, place)
    ensures Finds(After(calls, i, None), calls[i], place) <==> Finds(After(calls, i, Some(place)), calls[i], place)
  {
    RunPaired(calls, place, i);
    if UsesRecord(calls[i]) {
      if place.Own? && calls[i].ip == place.ip {
        assert FindsAt(calls, place, i);
      }
      SameTarget(After(calls, i, None), After(calls, i, Some(place)), place, calls[i]);
    }
  }

  /** Forgetting a record changes no answer of its two buckets, however long the run, if the request bucket refills in
      time. This is so for the record of a network, and for that of an address that never has to share. */
  lemma ForgettingUnseen(calls: seq<Call>, place: Place, limit: Limit, i: nat)
    requires InOrder(calls) && Steady(calls, place, limit) && RefillsInTime(limit) && AlwaysFinds(calls, place)
    requires i < |calls| && ((calls[i].Allow? && calls[i].limit == limit) || calls[i].Log?) && FindsAt(calls, place, i)
    ensures ReplyTo(After(calls, i, None), calls[i]) == ReplyTo(After(calls, i, Some(place)), calls[i])
  {
    RunRelated(calls, place, limit, i, calls[i].now);
    SameFinds(calls, place, i);
    SameReply(After(calls, i, None), After(calls, i, Some(place)), calls[i], place, limit);
  }

  /** Whatever the request limits, forgetting a record never changes which log lines are written. */
  lemma LogForgettingUnseen(calls: seq<Call>, place: Place, i: nat)
    requires InOrder(calls) && AlwaysFinds(calls, place)
    requires i < |calls| && calls[i].Log? && FindsAt(calls, place, i)
    ensures ReplyTo(After(calls, i, None), calls[i]) == ReplyTo(After(calls, i, Some(place)), calls[i])
  {
    ForgettingUnseen(calls, place, Limit(0, 0.0, 0), i);
  }

  // ---------------------------------------------------------------------------------------------
  // The condition is exact

  const IP := V4(1)

  const KEEP := Some(Own(IP))

  function RequestsOf(s: State): Bucket { At(s.records, Own(IP)).requests }

  /** Use the whole burst, wait until after a sweep, and use it again. */
  ghost function Witness(limit: Limit, burst: nat, later: real): seq<Call> {
    seq(burst, i => Allow(IP, limit, 0.0)) + [Sweep(later)] + seq(burst, i => Allow(IP, limit, later))
  }

  /** The only record there is, with the given request bucket. */
  function Single(b: Bucket): map<Place, Record> {
    map[Own(IP) := NEW_RECORD.(seen := b.last, requests := b)]
  }

  lemma AllowSingle(s: State, limit: Limit, now: real, keep: Option<Place>)
    requires s.records == map[] || s.records == Single(RequestsOf(s))
    ensures PlaceFor(s.records, IP) == Own(IP)
    ensures limit.rate > 0.0 ==>
              Apply(s, Allow(IP, limit, now), keep).records
              == Single(Take(RequestsOf(s), now, limit.rate, limit.burst).1)
  {
    if s.records == map[] {
      assert OwnPlaces(s.records) == {};
    }
  }

  /** A new record after `k` requests at one time. */
  predicate Used(s: State, burst: nat, k: nat, now: real) {
    s.records == if k == 0 then map[] else Single(Bucket((burst - k) as real, now, true))
  }

  lemma UsedOnce(s: State, limit: Limit, burst: nat, k: nat, now: real, keep: Option<Place>)
    requires limit.rate > 0.0 && burst as real == Capacity(limit.burst) && k < burst && Used(s, burst, k, now)
    ensures Used(Apply(s, Allow(IP, limit, now), keep), burst, k + 1, now)
    ensures ReplyTo(s, Allow(IP, limit, now)) == Yes
  {
    AllowSingle(s, limit, now, keep);
    InflowBounds(now, now, limit.rate);
  }

  /** Requests from call `from` on, all at one time, use up a new record. */
  lemma {:induction false} UsedUp(calls: seq<Call>, from: nat, limit: Limit, burst: nat, k: nat, now: real, keep: Option<Place>)
    requires limit.rate > 0.0 && burst as real == Capacity(limit.burst) && k <= burst && from + k <= |calls|
    requires forall i :: from <= i < from + k ==> calls[i] == Allow(IP, limit, now)
    requires Used(After(calls, from, keep), burst, 0, now)
    ensures Used(After(calls, from + k, keep), burst, k, now)
  {
    if k > 0 {
      UsedUp(calls, from, limit, burst, k - 1, now, keep);
      UsedOnce(After(calls, from + k - 1, keep), limit, burst, k - 1, now, keep);
    }
  }

  lemma WitnessCalls(limit: Limit, burst: nat, later: real, calls: seq<Call>)
    requires calls == Witness(limit, burst, later)
    ensures |calls| == 2 * burst + 1 && calls[burst] == Sweep(later)
    ensures forall i :: 0 <= i < burst ==> calls[i] == Allow(IP, limit, 0.0)
    ensures forall i :: burst < i < |calls| ==> calls[i] == Allow(IP, limit, later)
  {
  }

  /** Both trackers after `k` calls of the first round. */
  lemma FirstRound(limit: Limit, burst: nat, later: real, k: nat, keep: Option<Place>, calls: seq<Call>)
    requires limit.rate > 0.0 && burst as real == Capacity(limit.burst) && k <= burst && calls == Witness(limit, burst, later)
    ensures Used(After(calls, k, keep), burst, k, 0.0)
  {
    WitnessCalls(limit, burst, later, calls);
    UsedUp(calls, 0, limit, burst, k, 0.0, keep);
  }

  lemma AfterSweep(limit: Limit, burst: nat, later: real, calls: seq<Call>)
    requires limit.rate > 0.0 && burst as real == Capacity(limit.burst) && later > FORGET_AFTER
    requires calls == Witness(limit, burst, later)
    ensures After(calls, burst + 1, None).records == map[]
    ensures After(calls, burst + 1, KEEP).records == Single(Bucket(0.0, 0.0, true))
  {
    FirstRound(limit, burst, later, burst, None, calls);
    FirstRound(limit, burst, later, burst, KEEP, calls);
    WitnessCalls(limit, burst, later, calls);
  }

  /** The tracker that forgot grants the whole second burst. */
  lemma SecondRoundForgot(limit: Limit, burst: nat, later: real, k: nat, calls: seq<Call>)
    requires limit.rate > 0.0 && burst as real == Capacity(limit.burst) && later > FORGET_AFTER && k <= burst
    requires calls == Witness(limit, burst, later)
    ensures Used(After(calls, burst + 1 + k, None), burst, k, later)
  {
    WitnessCalls(limit, burst, later, calls);
    AfterSweep(limit, burst, later, calls);
    UsedUp(calls, burst + 1, limit, burst, k, later, None);
  }

  /** The record after `k` requests at one time, all granted, out of what was there. */
  predicate Drawn(s: State, level: real, k: nat, now: real) {
    s.records == Single(Bucket(level - k as real, now, true)) && level - k as real >= 0.0
  }

  /** The first request finds what flowed in since the beginning. */
  lemma DrawFirst(s: State, limit: Limit, level: real, later: real)
    requires limit.rate > 0.0 && s.records == Single(Bucket(0.0, 0.0, true))
    requires level == Inflow(0.0, later, limit.rate) < Capacity(limit.burst)
    ensures ReplyTo(s, Allow(IP, limit, later)) == Yes ==> Drawn(Apply(s, Allow(IP, limit, later), KEEP), level, 1, later)
  {
    AllowSingle(s, limit, later, KEEP);
  }

  lemma DrawNext(s: State, limit: Limit, level: real, k: nat, now: real)
    requires limit.rate > 0.0 && Drawn(s, level, k, now) && level < Capacity(limit.burst)
    ensures ReplyTo(s, Allow(IP, limit, now)) == Yes ==> Drawn(Apply(s, Allow(IP, limit, now), KEEP), level, k + 1, now)
  {
    AllowSingle(s, limit, now, KEEP);
    InflowBounds(now, now, limit.rate);
  }

  ghost predicate GrantedCall(calls: seq<Call>, i: nat)
    requires i < |calls|
  {
    ReplyTo(After(calls, i, KEEP), calls[i]) == Yes
  }

  ghost predicate DrawnAfter(calls: seq<Call>, from: nat, level: real, k: nat, now: real)
    requires from + k <= |calls|
  {
    Drawn(After(calls, from + k, KEEP), level, k, now)
  }

  lemma DrawStep(calls: seq<Call>, from: nat, limit: Limit, level: real, k: nat, now: real)
    requires limit.rate > 0.0 && from + k < |calls| && calls[from + k] == Allow(IP, limit, now) && level < Capacity(limit.burst)
    requires DrawnAfter(calls, from, level, k, now) && GrantedCall(calls, from + k)
    ensures DrawnAfter(calls, from, level, k + 1, now)
  {
    DrawNext(After(calls, from + k, KEEP), limit, level, k, now);
  }

  /** What goes on from one to the next as long as it is granted goes on to the end, or is refused. */
  lemma {:induction false} Chain(held: seq<bool>, granted: seq<bool>, n: nat) returns (refused: Option<nat>)
    requires 0 < n <= |granted| < |held| && held[1]
    requires forall i :: 0 < i < n && held[i] && granted[i] ==> held[i + 1]
    ensures if refused.Some? then refused.value < n && !granted[refused.value] else held[n]
  {
    refused := None;
    if n > 1 {
      refused := Chain(held, granted, n - 1);
      if refused.None? && !granted[n - 1] {
        refused := Some(n - 1);
      }
    }
  }

  /** Requests from call `from` on, all at one time: one is refused, or all have been paid for. */
  lemma DrawAll(calls: seq<Call>, from: nat, limit: Limit, level: real, n: nat, now: real) returns (refused: Option<nat>)
    requires limit.rate > 0.0 && 0 < n && from + n <= |calls| && level < Capacity(limit.burst)
    requires forall i :: from <= i < from + n ==> calls[i] == Allow(IP, limit, now)
    requires DrawnAfter(calls, from, level, 1, now)
    ensures if refused.Some? then refused.value < n && !GrantedCall(calls, from + refused.value)
            else DrawnAfter(calls, from, level, n, now)
  {
    var held := seq(n + 1, i requires 0 <= i <= n => DrawnAfter(calls, from, level, i, now));
    var granted := seq(n, i requires 0 <= i < n => GrantedCall(calls, from + i));
    forall i | 0 < i < n && held[i] && granted[i]
      ensures held[i + 1]
    {
      DrawStep(calls, from, limit, level, i, now);
    }
    refused := Chain(held, granted, n);
  }

  /** The tracker that kept the record has only what flowed in since, so it refuses some call of the second round. */
  lemma SomeRefused(limit: Limit, burst: nat, later: real, calls: seq<Call>) returns (k: nat)
    requires limit.rate > 0.0 && burst as real == Capacity(limit.burst) && later > FORGET_AFTER
    requires Inflow(0.0, later, limit.rate) < Capacity(limit.burst) && calls == Witness(limit, burst, later)
    ensures k < burst && burst + 1 + k < |calls| && !GrantedCall(calls, burst + 1 + k)
  {
    var level := Inflow(0.0, later, limit.rate);
    WitnessCalls(limit, burst, later, calls);
    AfterSweep(limit, burst, later, calls);
    DrawFirst(After(calls, burst + 1, KEEP), limit, level, later);
    k := 0;
    if GrantedCall(calls, burst + 1) {
      var refused := DrawAll(calls, burst + 1, limit, level, burst, later);
      k := refused.value;
    }
  }

  lemma ForgotGrants(limit: Limit, burst: nat, later: real, k: nat, calls: seq<Call>)
    requires limit.rate > 0.0 && burst as real == Capacity(limit.burst) && later > FORGET_AFTER && k < burst
    requires calls == Witness(limit, burst, later)
    ensures calls[burst + 1 + k] == Allow(IP, limit, later)
    ensures ReplyTo(After(calls, burst + 1 + k, None), calls[burst + 1 + k]) == Yes
  {
    WitnessCalls(limit, burst, later, calls);
    SecondRoundForgot(limit, burst, later, k, calls);
    UsedOnce(After(calls, burst + 1 + k, None), limit, burst, k, later, None);
  }

  lemma WitnessOwn(limit: Limit, burst: nat, later: real, calls: seq<Call>)
    requires limit.rate > 0.0 && burst as real == Capacity(limit.burst) && later > FORGET_AFTER
    requires calls == Witness(limit, burst, later)
    ensures AlwaysFinds(calls, Own(IP))
  {
    WitnessCalls(limit, burst, later, calls);
    forall i | 0 <= i < |calls| && UsesRecord(calls[i])
      ensures FindsAt(calls, Own(IP), i)
    {
      if i < burst {
        FirstRound(limit, burst, later, i, None, calls);
      } else {
        SecondRoundForgot(limit, burst, later, i - burst - 1, calls);
      }
      AllowSingle(After(calls, i, None), limit, later, None);
    }
  }

  lemma LaterBefore(rate: real, capacity: real) returns (later: real)
    requires rate > 0.0 && FORGET_AFTER * rate < capacity
    ensures later > FORGET_AFTER && Inflow(0.0, later, rate) < capacity
  {
    var half := (capacity - FORGET_AFTER * rate) / 2.0;
    later := FORGET_AFTER + half / rate;
    assert half / rate * rate == half;
    assert half / rate > 0.0;
    assert (later - 0.0) * rate == FORGET_AFTER * rate + half;
  }

  /** A run in which the record has a steady limit, and its address, if it is of one address, never shares another. */
  ghost predicate Fair(calls: seq<Call>, place: Place, limit: Limit) {
    InOrder(calls) && Steady(calls, place, limit) && AlwaysFinds(calls, place)
  }

  /** A request that the two trackers answer differently. */
  ghost predicate Noticed(calls: seq<Call>, place: Place, limit: Limit, i: nat) {
    && i < |calls| && calls[i].Allow? && calls[i].limit == limit && FindsAt(calls, place, i)
    && ReplyTo(After(calls, i, None), calls[i]) != ReplyTo(After(calls, i, Some(place)), calls[i])
  }

  lemma WitnessSteady(limit: Limit, burst: nat, later: real, calls: seq<Call>)
    requires calls == Witness(limit, burst, later) && later > 0.0
    ensures InOrder(calls) && Steady(calls, Own(IP), limit)
  {
  }

  lemma WitnessNoticed(limit: Limit, burst: nat, later: real, k: nat, calls: seq<Call>)
    requires limit.rate > 0.0 && burst as real == Capacity(limit.burst) && later > FORGET_AFTER
    requires k < burst && calls == Witness(limit, burst, later) && AlwaysFinds(calls, Own(IP)) && burst + 1 + k < |calls|
    requires !GrantedCall(calls, burst + 1 + k)
    ensures Noticed(calls, Own(IP), limit, burst + 1 + k)
  {
    ForgotGrants(limit, burst, later, k, calls);
    assert UsesRecord(calls[burst + 1 + k]);
  }

  lemma ForgettingSeen(limit: Limit)
    requires !RefillsInTime(limit)
    ensures exists calls, place, i :: Fair(calls, place, limit) && Noticed(calls, place, limit, i)
  {
    var burst: nat := if limit.burst > 1 then limit.burst else 1;
    var later := LaterBefore(limit.rate, Capacity(limit.burst));
    var calls := Witness(limit, burst, later);
    var k := SomeRefused(limit, burst, later, calls);
    WitnessOwn(limit, burst, later, calls);
    WitnessSteady(limit, burst, later, calls);
    WitnessNoticed(limit, burst, later, k, calls);
    assert Fair(calls, Own(IP), limit);
  }

  /** Forgetting can be noticed in some run exactly when the bucket does not refill in time. */
  lemma ForgettingExactly(limit: Limit)
    ensures RefillsInTime(limit) <==>
            forall calls, place, i :: Fair(calls, place, limit) ==> !Noticed(calls, place, limit, i)
  {
    if RefillsInTime(limit) {
      forall calls, place, i | Fair(calls, place, limit) && Noticed(calls, place, limit, i)
        ensures false
      {
        ForgettingUnseen(calls, place, limit, i);
      }
    } else {
      ForgettingSeen(limit);
    }
  }
}
