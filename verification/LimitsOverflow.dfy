/**
 The connection limit is per record, not per address: an address that was counted in a shared
 record while the tracker was full, and in its own record later, can hold twice the limit.
 */
module LimitsOverflow {
  import opened Basics
  import opened Netip
  import opened Limits
  import opened LimitsConnections

  lemma {:induction false} AfterPrefix(calls: seq<Call>, more: seq<Call>, n: nat, keep: Option<Place>)
    requires n <= |calls|
    ensures After(calls + more, n, keep) == After(calls, n, keep)
  {
    if n > 0 {
      AfterPrefix(calls, more, n - 1, keep);
      assert (calls + more)[n - 1] == calls[n - 1];
    }
  }

  ghost function End(calls: seq<Call>): State { After(calls, |calls|, None) }

  /** A run so far with a fixed limit, whose calls happened by `now` and are in order. */
  ghost predicate Good(calls: seq<Call>, max: int, now: real) {
    && IsRun(calls, None) && FixedLimit(calls, max) && InOrder(calls)
    && (forall i :: 0 <= i < |calls| ==> calls[i].now <= now)
    && (forall h :: h in End(calls).handles ==> h < |calls|)
  }

  lemma NewHandles(s: State, c: Call)
    ensures forall h :: h in Apply(s, c, None).handles ==> h in s.handles || (c.Acquire? && h == c.h)
  {
  }

  lemma ExtendRun(calls: seq<Call>, c: Call)
    requires IsRun(calls, None) && Fresh(End(calls), c)
    ensures IsRun(calls + [c], None)
    ensures End(calls + [c]) == Apply(End(calls), c, None)
  {
    AfterPrefix(calls, [c], |calls|, None);
    forall i | 0 <= i < |calls + [c]|
      ensures FreshAt(calls + [c], i, None)
    {
      AfterPrefix(calls, [c], i, None);
      if i < |calls| {
        assert FreshAt(calls, i, None);
      }
    }
  }

  lemma Extend(calls: seq<Call>, max: int, now: real, c: Call) returns (longer: seq<Call>)
    requires Good(calls, max, now) && now <= c.now
    requires c.Acquire? ==> c.limit.maxConnections == max && c.h == |calls|
    ensures Good(longer, max, c.now)
    ensures End(longer) == Apply(End(calls), c, None) && |longer| == |calls| + 1
  {
    longer := calls + [c];
    ExtendRun(calls, c);
    NewHandles(End(calls), c);
    assert FixedLimit(longer, max) && InOrder(longer);
  }

  /** `k` records of idle addresses. */
  predicate Filled(s: State, k: nat) {
    && |OwnPlaces(s.records)| == k && s.handles == map[] && s.total == 0
    && forall p :: p in s.records ==> p.Own? && s.records[p].conns == 0 && s.records[p].seen == 0.0
                                      && exists i: U32 :: p == Own(V4(i)) && 1 <= i <= k
  }

  lemma {:induction false} Fill(k: nat, max: int) returns (calls: seq<Call>)
    requires k <= MAX_CLIENTS
    ensures Good(calls, max, 0.0) && Filled(End(calls), k)
  {
    if k == 0 {
      calls := [];
      assert OwnPlaces(EMPTY.records) == {};
    } else {
      var shorter := Fill(k - 1, max);
      var s := End(shorter);
      assert Own(V4(k)) !in s.records;
      calls := Extend(shorter, max, 0.0, Log(V4(k), LogKey("", ""), 0.0));
      var s' := End(calls);
      assert OwnPlaces(s'.records) == OwnPlaces(s.records) + {Own(V4(k))};
      assert V4(k) == V4(k) && Own(V4(k)) in s'.records;
    }
  }

  lemma SharedAdded(records: map<Place, Record>, records': map<Place, Record>, place: Place)
    requires place.Shared? && place in records' && records' == records[place := records'[place]]
    ensures OwnPlaces(records') == OwnPlaces(records)
  {
  }

  lemma HeldFromAdded(s: State, s': State, h: nat, handle: Handle, place: Place)
    requires h !in s.handles && s'.handles == s.handles[h := handle]
    ensures |HeldFrom(s', handle.ip, place)| == |HeldFrom(s, handle.ip, place)| + if place == handle.place then 1 else 0
  {
    if place == handle.place {
      assert HeldFrom(s', handle.ip, place) == HeldFrom(s, handle.ip, place) + {h};
    } else {
      assert HeldFrom(s', handle.ip, place) == HeldFrom(s, handle.ip, place);
    }
  }

  /** One more connection leaves the address at its place, and every other record alone. */
  lemma ConnectOne(s: State, h: nat, ip: Addr, max: int, now: real)
    requires h !in s.handles && At(s.records, PlaceFor(s.records, ip)).conns < max
    ensures var s' := Apply(s, Acquire(h, ip, Limit(max, 0.0, 0), 0, now), None);
            var place := PlaceFor(s.records, ip);
            && PlaceFor(s'.records, ip) == place
            && s'.records == s.records[place := At(s'.records, place)]
            && At(s'.records, place).conns == At(s.records, place).conns + 1
            && (forall q :: |HeldFrom(s', ip, q)| == |HeldFrom(s, ip, q)| + if q == place then 1 else 0)
            && (forall i :: i in s.handles ==> i in s'.handles && s'.handles[i] == s.handles[i])
  {
    var s' := Apply(s, Acquire(h, ip, Limit(max, 0.0, 0), 0, now), None);
    if PlaceFor(s.records, ip).Shared? {
      SharedAdded(s.records, s'.records, PlaceFor(s.records, ip));
    }
    forall q: Place
      ensures |HeldFrom(s', ip, q)| == |HeldFrom(s, ip, q)| + if q == PlaceFor(s.records, ip) then 1 else 0
    {
      HeldFromAdded(s, s', h, Handle(ip, PlaceFor(s.records, ip)), q);
    }
  }

  /** The record of every other place is as it was. */
  predicate SameElsewhere(s: State, s': State, place: Place) {
    && s'.records.Keys <= s.records.Keys + {place} && s.records.Keys <= s'.records.Keys
    && forall p :: p in s.records && p != place ==> s'.records[p] == s.records[p]
  }

  /** `k` more connections of one address, all counted in the same record. */
  lemma {:induction false} Connect(calls: seq<Call>, max: int, now: real, ip: Addr, k: nat) returns (longer: seq<Call>)
    requires Good(calls, max, now)
    requires At(End(calls).records, PlaceFor(End(calls).records, ip)).conns + k <= max
    ensures Good(longer, max, now)
    ensures PlaceFor(End(longer).records, ip) == PlaceFor(End(calls).records, ip)
    ensures SameElsewhere(End(calls), End(longer), PlaceFor(End(calls).records, ip))
    ensures var place := PlaceFor(End(calls).records, ip);
            At(End(longer).records, place).conns == At(End(calls).records, place).conns + k
    ensures forall q :: |HeldFrom(End(longer), ip, q)| ==
                        |HeldFrom(End(calls), ip, q)| + if q == PlaceFor(End(calls).records, ip) then k else 0
    ensures forall h :: h in End(calls).handles ==> h in End(longer).handles && End(longer).handles[h] == End(calls).handles[h]
  {
    longer := calls;
    if k > 0 {
      var shorter := Connect(calls, max, now, ip, k - 1);
      longer := Extend(shorter, max, now, Acquire(|shorter|, ip, Limit(max, 0.0, 0), 0, now));
      ConnectOne(End(shorter), |shorter|, ip, max, now);
    }
  }

  /** A run after which an address with this limit holds `own` connections in its own record and `shared` in the
      one it shares. */
  ghost predicate Reached(max: nat, calls: seq<Call>, ip: Addr, own: nat, shared: nat) {
    && IsRun(calls, None) && OwnLimit(calls, ip, max) && InOrder(calls)
    && var s := After(calls, |calls|, None); OwnHeld(s, ip) == own && SharedHeld(s, ip) == shared
  }

  /** The tracker is full of idle records of other addresses. */
  ghost predicate FullOfOthers(s: State, ip: Addr) {
    && s.handles == map[] && |OwnPlaces(s.records)| == MAX_CLIENTS && Own(ip) !in s.records
    && (forall p :: p in s.records ==> p.Own? && s.records[p].conns == 0 && s.records[p].seen == 0.0)
  }

  /** Not among the addresses that the tracker is filled with. */
  predicate Unfilled(ip: Addr) { ip.V4? && (ip.v4 == 0 || ip.v4 > MAX_CLIENTS) }

  lemma FillUp(max: int, ip: Addr, other: Addr) returns (calls: seq<Call>)
    requires Unfilled(ip) && Unfilled(other)
    ensures Good(calls, max, 0.0) && FullOfOthers(End(calls), ip) && FullOfOthers(End(calls), other)
  {
    calls := Fill(MAX_CLIENTS, max);
  }

  lemma SharedWhenFull(s: State, ip: Addr)
    requires FullOfOthers(s, ip)
    ensures PlaceFor(s.records, ip) == Shared(OverflowPrefix(ip)) && Shared(OverflowPrefix(ip)) !in s.records
    ensures OwnHeld(s, ip) == 0 && SharedHeld(s, ip) == 0
  {
    assert HeldFrom(s, ip, Own(ip)) == {} && HeldFrom(s, ip, Shared(OverflowPrefix(ip))) == {};
  }

  /** The address has no record of its own yet and would get one. */
  ghost predicate ComesBack(s: State, ip: Addr, shared: nat) {
    && PlaceFor(s.records, ip) == Own(ip) && Own(ip) !in s.records
    && OwnHeld(s, ip) == 0 && SharedHeld(s, ip) == shared
  }

  /** Once the others are forgotten, the address finds a record of its own. */
  lemma OthersForgotten(full: State, held: State, ip: Addr, shared: nat, now: real)
    requires FullOfOthers(full, ip) && SameElsewhere(full, held, Shared(OverflowPrefix(ip))) && now > FORGET_AFTER
    requires OwnHeld(held, ip) == 0 && SharedHeld(held, ip) == shared
    ensures ComesBack(Apply(held, Sweep(now), None), ip, shared)
  {
    var s := Apply(held, Sweep(now), None);
    forall p | p in held.records && p.Own?
      ensures p !in s.records
    {
      assert held.records[p] == full.records[p];
    }
    assert OwnPlaces(s.records) == {};
    assert HeldFrom(s, ip, Own(ip)) == HeldFrom(held, ip, Own(ip));
    assert HeldFrom(s, ip, Shared(OverflowPrefix(ip))) == HeldFrom(held, ip, Shared(OverflowPrefix(ip)));
  }

  lemma ReachShared(max: int, ip: Addr, shared: nat, later: real) returns (calls: seq<Call>)
    requires max > 0 && shared <= max && ip == V4(0) && later > FORGET_AFTER
    ensures Good(calls, max, later) && ComesBack(End(calls), ip, shared)
  {
    var full := FillUp(max, ip, ip);
    SharedWhenFull(End(full), ip);
    var held := Connect(full, max, 0.0, ip, shared);
    calls := Extend(held, max, 0.0, Sweep(later));
    OthersForgotten(End(full), End(held), ip, shared, later);
  }

  /** Even if the limit is the same for all. */
  lemma Reach(max: nat, own: nat, shared: nat) returns (calls: seq<Call>, ip: Addr)
    requires max > 0 && own <= max && shared <= max
    ensures Reached(max, calls, ip, own, shared) && FixedLimit(calls, max)
  {
    ip := V4(0);
    var later := FORGET_AFTER + 1.0;
    var swept := ReachShared(max, ip, shared, later);
    calls := Connect(swept, max, later, ip, own);
  }

  /** What an address can hold under its limit: any number up to the limit in its own record, together with any number up
      to the limit in the one it shares, and nothing else. */
  lemma ReachedExactly(max: nat, own: nat, shared: nat)
    requires max > 0
    ensures (exists calls, ip :: Reached(max, calls, ip, own, shared)) <==> own <= max && shared <= max
  {
    if own <= max && shared <= max {
      var calls, ip := Reach(max, own, shared);
    }
    if calls, ip :| Reached(max, calls, ip, own, shared) {
      AddressBound(calls, |calls|, max, ip);
    }
  }

  /** The bound of twice the limit is reached, for every limit: "at most the limit" is false. */
  lemma TwiceTheLimit(max: nat)
    requires max > 0
    ensures exists calls, ip :: IsRun(calls, None) && FixedLimit(calls, max) && InOrder(calls)
                                && |HeldBy(After(calls, |calls|, None), ip)| == 2 * max
  {
    var calls, ip := Reach(max, max, max);
    AddressBound(calls, |calls|, max, ip);
  }

  // ---------------------------------------------------------------------------------------------
  // A report that is wrong

  ghost predicate WronglyReported(calls: seq<Call>, ip: Addr) {
    && IsRun(calls, None) && InOrder(calls)
    && Report(After(calls, |calls|, None), ip) != |HeldBy(After(calls, |calls|, None), ip)|
  }

  /** An address with connections in both records: only those in its own are reported. */
  lemma ReportMissesShared(max: nat, own: nat, shared: nat) returns (calls: seq<Call>, ip: Addr)
    requires max > 0 && 0 < own <= max && 0 < shared <= max
    ensures WronglyReported(calls, ip) && Report(After(calls, |calls|, None), ip) == own
    ensures |HeldBy(After(calls, |calls|, None), ip)| == own + shared
  {
    calls, ip := Reach(max, own, shared);
    var s := After(calls, |calls|, None);
    CountsRun(calls, |calls|, None);
    HeldInTwo(s, ip);
    OwnConns(s, ip);
    assert Own(ip) in s.records;
  }

  /** Two addresses of one network in the record they share: each is reported with the connections of both. */
  lemma ReportCountsOthers() returns (calls: seq<Call>, ip: Addr, other: Addr)
    ensures ip != other && WronglyReported(calls, ip) && WronglyReported(calls, other)
    ensures Own(ip) !in After(calls, |calls|, None).records && SharedHeld(After(calls, |calls|, None), ip) > 0
    ensures Own(other) !in After(calls, |calls|, None).records && SharedHeld(After(calls, |calls|, None), other) > 0
  {
    ip, other := V4(200_000), V4(200_001);
    var full := FillUp(2, ip, other);
    SharedWhenFull(End(full), ip);
    SharedWhenFull(End(full), other);
    var first := Connect(full, 2, 0.0, ip, 1);
    StillShared(End(full), End(first), ip, other);
    calls := Connect(first, 2, 0.0, other, 1);
    StillHeld(End(first), End(calls), ip, Shared(OverflowPrefix(ip)));
    HolderOfAnother(calls, ip, other);
    HolderOfAnother(calls, other, ip);
  }

  lemma StillShared(full: State, s: State, ip: Addr, other: Addr)
    requires FullOfOthers(full, ip) && FullOfOthers(full, other) && OverflowPrefix(other) == OverflowPrefix(ip)
    requires SameElsewhere(full, s, Shared(OverflowPrefix(ip)))
    ensures PlaceFor(s.records, other) == Shared(OverflowPrefix(ip)) && Own(ip) !in s.records && Own(other) !in s.records
  {
    assert OwnPlaces(s.records) == OwnPlaces(full.records);
  }

  lemma StillHeld(s: State, s': State, ip: Addr, place: Place)
    requires forall h :: h in s.handles ==> h in s'.handles && s'.handles[h] == s.handles[h]
    ensures |HeldFrom(s, ip, place)| <= |HeldFrom(s', ip, place)|
  {
    SubsetSize(HeldFrom(s, ip, place), HeldFrom(s', ip, place));
  }

  lemma HolderOfAnother(calls: seq<Call>, ip: Addr, other: Addr)
    requires IsRun(calls, None) && InOrder(calls) && ip != other && OverflowPrefix(other) == OverflowPrefix(ip)
    requires Own(ip) !in End(calls).records && SharedHeld(End(calls), other) > 0
    ensures WronglyReported(calls, ip)
  {
    var place := Shared(OverflowPrefix(ip));
    ReportExactly(calls, |calls|, ip);
    var h :| h in HeldFrom(End(calls), other, place);
    assert h in HeldAt(End(calls), place);
  }
}
