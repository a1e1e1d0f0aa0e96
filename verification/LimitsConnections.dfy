/** Connections are conserved and bounded in every run of the tracker. */
module LimitsConnections {
  import opened Basics
  import opened Sums
  import opened Netip
  import opened Limits

  function HeldAt(s: State, place: Place): set<nat> { set h | h in s.handles && s.handles[h].place == place }

  function HeldBy(s: State, ip: Addr): set<nat> { set h | h in s.handles && s.handles[h].ip == ip }

  /** A record counts the handles that point at it, and a handle's record is there to be released. */
  predicate CountsInv(s: State) {
    && s.total == |s.handles|
    && (forall h :: h in s.handles ==> s.handles[h].place in s.records)
    && (forall p {:trigger HeldAt(s, p)} :: p in s.records ==> s.records[p].conns == |HeldAt(s, p)|)
    && (forall h :: h in s.handles ==>
          s.handles[h].place == Own(s.handles[h].ip) || s.handles[h].place == Shared(OverflowPrefix(s.handles[h].ip)))
  }

  /** A call that leaves the handles alone keeps the counts if no record with connections goes away. */
  lemma CountsFrame(s: State, s': State)
    requires CountsInv(s) && s'.handles == s.handles && s'.total == s.total
    requires forall p :: p in s'.records ==> s'.records[p].conns == At(s.records, p).conns
    requires forall p :: p in s.records && p !in s'.records ==> s.records[p].conns == 0
    ensures CountsInv(s')
  {
    forall h | h in s'.handles
      ensures s'.handles[h].place in s'.records
    {
      assert h in HeldAt(s, s.handles[h].place);
    }
    forall p | p in s'.records
      ensures s'.records[p].conns == |HeldAt(s', p)|
    {
      assert HeldAt(s', p) == HeldAt(s, p);
      NoneHeld(s, p);
    }
  }

  lemma NoneHeld(s: State, p: Place)
    requires CountsInv(s)
    ensures |HeldAt(s, p)| == At(s.records, p).conns
  {
    if p !in s.records {
      assert HeldAt(s, p) == {};
    }
  }

  lemma HeldAdded(s: State, s': State, h: nat, handle: Handle, p: Place)
    requires h !in s.handles && s'.handles == s.handles[h := handle]
    ensures |HeldAt(s', p)| == |HeldAt(s, p)| + (if p == handle.place then 1 else 0)
  {
    if p == handle.place {
      assert HeldAt(s', p) == HeldAt(s, p) + {h};
    } else {
      assert HeldAt(s', p) == HeldAt(s, p);
    }
  }

  lemma CountsAcquire(s: State, s': State, h: nat, handle: Handle, r: Record)
    requires CountsInv(s) && h !in s.handles && r.conns == At(s.records, handle.place).conns + 1
    requires handle.place == Own(handle.ip) || handle.place == Shared(OverflowPrefix(handle.ip))
    requires s'.records == s.records[handle.place := r] && s'.handles == s.handles[h := handle]
    requires s'.total == s.total + 1
    ensures CountsInv(s')
  {
    forall p | p in s'.records
      ensures s'.records[p].conns == |HeldAt(s', p)|
    {
      ConnsAcquire(s, s', h, handle, r, p);
    }
    MoreHandles(s.handles, h, handle);
  }

  lemma MoreHandles(m: map<nat, Handle>, h: nat, handle: Handle)
    requires h !in m
    ensures |m[h := handle]| == |m| + 1
  {
    assert m[h := handle].Keys == m.Keys + {h};
    assert |m[h := handle]| == |m[h := handle].Keys| && |m| == |m.Keys|;
  }

  lemma ConnsAcquire(s: State, s': State, h: nat, handle: Handle, r: Record, p: Place)
    requires CountsInv(s) && h !in s.handles && r.conns == At(s.records, handle.place).conns + 1
    requires s'.records == s.records[handle.place := r] && s'.handles == s.handles[h := handle]
    requires p in s'.records
    ensures s'.records[p].conns == |HeldAt(s', p)|
  {
    HeldAdded(s, s', h, handle, p);
    NoneHeld(s, p);
  }

  lemma CountsRelease(s: State, h: nat, now: real, keep: Option<Place>)
    requires CountsInv(s) && h in s.handles
    ensures CountsInv(Apply(s, Release(h, now), keep))
  {
    var s' := Apply(s, Release(h, now), keep);
    forall p | p in s'.records
      ensures s'.records[p].conns == |HeldAt(s', p)|
    {
      assert HeldAt(s', p) == HeldAt(s, p) - {h};
    }
    assert s'.handles.Keys == s.handles.Keys - {h};
    assert |s'.handles| == |s'.handles.Keys| && |s.handles| == |s.handles.Keys|;
  }

  lemma CountsStep(s: State, c: Call, keep: Option<Place>)
    requires CountsInv(s) && Fresh(s, c)
    ensures CountsInv(Apply(s, c, keep))
  {
    var s' := Apply(s, c, keep);
    if c.Acquire? && ReplyTo(s, c) == Yes {
      var place := PlaceFor(s.records, c.ip);
      CountsAcquire(s, s', c.h, Handle(c.ip, place), s'.records[place]);
    } else if c.Release? && c.h in s.handles {
      CountsRelease(s, c.h, c.now, keep);
    } else {
      CountsFrame(s, s');
    }
  }

  lemma {:induction false} CountsRun(calls: seq<Call>, n: nat, keep: Option<Place>)
    requires IsRun(calls, keep) && n <= |calls|
    ensures CountsInv(After(calls, n, keep))
  {
    if n == 0 {
      CountsNone(After(calls, n, keep));
    } else {
      CountsRun(calls, n - 1, keep);
      CountsAt(calls, n - 1, keep, After(calls, n - 1, keep), After(calls, n, keep));
    }
  }

  lemma CountsAt(calls: seq<Call>, n: nat, keep: Option<Place>, s: State, s': State)
    requires IsRun(calls, keep) && n < |calls| && s == After(calls, n, keep) && s' == After(calls, n + 1, keep) && CountsInv(s)
    ensures CountsInv(s')
  {
    assert FreshAt(calls, n, keep);
    CountsNext(s, calls[n], keep, s');
  }

  lemma CountsNone(s: State)
    requires s.records == map[] && s.handles == map[] && s.total == 0
    ensures CountsInv(s)
  {
  }

  lemma CountsNext(s: State, c: Call, keep: Option<Place>, s': State)
    requires CountsInv(s) && Fresh(s, c) && s' == Apply(s, c, keep)
    ensures CountsInv(s')
  {
    CountsStep(s, c, keep);
  }

  // ---------------------------------------------------------------------------------------------
  // The total

  ghost function ConnsOf(s: State): map<Place, int> { map p | p in s.records :: s.records[p].conns }

  function HeldIn(s: State, places: set<Place>): set<nat> {
    set h | h in s.handles && s.handles[h].place in places
  }

  lemma {:induction false} SumOfHeld(s: State, places: set<Place>, conns: map<Place, int>)
    requires conns.Keys == places
    requires forall p :: p in places ==> conns[p] == |HeldAt(s, p)|
    ensures Sum(conns) == |HeldIn(s, places)|
    decreases |places|
  {
    if places == {} {
      assert HeldIn(s, places) == {};
    } else {
      var p :| p in places;
      SumSplit(conns, p);
      SumOfHeld(s, places - {p}, conns - {p});
      assert HeldIn(s, places) == HeldIn(s, places - {p}) + HeldAt(s, p);
      assert HeldIn(s, places - {p}) !! HeldAt(s, p);
    }
  }

  /** In every state of every run, the total is the sum of the counts in both maps, and the number
      of release functions not yet called. */
  lemma TotalIsConserved(calls: seq<Call>, n: nat)
    requires IsRun(calls, None) && n <= |calls|
    ensures var s := After(calls, n, None); s.total == Sum(ConnsOf(s)) == |s.handles|
  {
    var s := After(calls, n, None);
    CountsRun(calls, n, None);
    SumOfHeld(s, s.records.Keys, ConnsOf(s));
    assert s.handles.Keys == HeldIn(s, s.records.Keys);
    assert |s.handles| == |s.handles.Keys|;
  }

  // ---------------------------------------------------------------------------------------------
  // The limit

  /** One limit for all. */
  predicate FixedLimit(calls: seq<Call>, max: int) {
    forall i :: 0 <= i < |calls| && calls[i].Acquire? ==> calls[i].limit.maxConnections == max
  }

  predicate Bounded(s: State, max: int) { forall p :: p in s.records ==> s.records[p].conns <= max }

  lemma BoundedStep(s: State, c: Call, max: int)
    requires Bounded(s, max) && max > 0
    requires c.Acquire? ==> c.limit.maxConnections == max
    ensures Bounded(Apply(s, c, None), max)
  {
    forall p | p in Apply(s, c, None).records
      ensures Apply(s, c, None).records[p].conns <= max
    {
      if c.Sweep? {
        assert s.records[p].conns <= max;
      } else {
        BoundedAt(s, c, max, p);
      }
    }
  }

  lemma BoundedAt(s: State, c: Call, max: int, p: Place)
    requires At(s.records, p).conns <= max && max > 0 && !c.Sweep?
    requires c.Acquire? ==> c.limit.maxConnections == max
    ensures At(Apply(s, c, None).records, p).conns <= max
  {
  }

  /** With one limit for all, no record counts more than the limit. */
  lemma {:induction false} RecordsBounded(calls: seq<Call>, n: nat, max: int)
    requires FixedLimit(calls, max) && max > 0 && n <= |calls|
    ensures Bounded(After(calls, n, None), max)
  {
    if n > 0 {
      RecordsBounded(calls, n - 1, max);
      BoundedStep(After(calls, n - 1, None), calls[n - 1], max);
    }
  }

  /** The connections of one address that are counted in one record. */
  function HeldFrom(s: State, ip: Addr, place: Place): set<nat> {
    set h | h in s.handles && s.handles[h] == Handle(ip, place)
  }

  function OwnHeld(s: State, ip: Addr): nat { |HeldFrom(s, ip, Own(ip))| }

  function SharedHeld(s: State, ip: Addr): nat { |HeldFrom(s, ip, Shared(OverflowPrefix(ip)))| }

  lemma HeldInTwo(s: State, ip: Addr)
    requires CountsInv(s)
    ensures |HeldBy(s, ip)| == OwnHeld(s, ip) + SharedHeld(s, ip)
  {
    var own, shared := HeldFrom(s, ip, Own(ip)), HeldFrom(s, ip, Shared(OverflowPrefix(ip)));
    assert HeldBy(s, ip) == own + shared && own * shared == {};
  }

  /** The limit of this address is at most `max`, whatever the limits of others. */
  predicate OwnLimit(calls: seq<Call>, ip: Addr, max: nat) {
    forall i :: 0 <= i < |calls| && calls[i].Acquire? && calls[i].ip == ip ==> 0 < calls[i].limit.maxConnections <= max
  }

  /** A connection is granted only while the record counts fewer than the limit, and those of the address are among them. */
  lemma HeldFromStep(s: State, c: Call, max: nat, ip: Addr, place: Place)
    requires CountsInv(s) && Fresh(s, c) && |HeldFrom(s, ip, place)| <= max
    requires c.Acquire? && c.ip == ip ==> 0 < c.limit.maxConnections <= max
    ensures |HeldFrom(Apply(s, c, None), ip, place)| <= max
  {
    var s' := Apply(s, c, None);
    var held, held' := HeldFrom(s, ip, place), HeldFrom(s', ip, place);
    if c.Acquire? && c.ip == ip && PlaceFor(s.records, ip) == place && ReplyTo(s, c) == Yes {
      RoomForOne(s, ip, place, max);
      assert held' == held + {c.h};
    } else {
      NoneAdded(s, c, ip, place);
      SubsetSize(held', held);
    }
  }

  lemma RoomForOne(s: State, ip: Addr, place: Place, max: nat)
    requires CountsInv(s) && At(s.records, place).conns < max
    ensures |HeldFrom(s, ip, place)| < max
  {
    NoneHeld(s, place);
    SubsetSize(HeldFrom(s, ip, place), HeldAt(s, place));
  }

  lemma NoneAdded(s: State, c: Call, ip: Addr, place: Place)
    requires Fresh(s, c) && !(c.Acquire? && c.ip == ip && PlaceFor(s.records, ip) == place && ReplyTo(s, c) == Yes)
    ensures HeldFrom(Apply(s, c, None), ip, place) <= HeldFrom(s, ip, place)
  {
  }

  lemma {:induction false} HeldFromBounded(calls: seq<Call>, n: nat, max: nat, ip: Addr, place: Place)
    requires OwnLimit(calls, ip, max) && n <= |calls| && IsRun(calls, None)
    ensures |HeldFrom(After(calls, n, None), ip, place)| <= max
  {
    if n == 0 {
      assert HeldFrom(After(calls, n, None), ip, place) == {};
    } else {
      HeldFromBounded(calls, n - 1, max, ip, place);
      CountsRun(calls, n - 1, None);
      assert FreshAt(calls, n - 1, None);
      HeldFromStep(After(calls, n - 1, None), calls[n - 1], max, ip, place);
    }
  }

  /** An address holds at most its limit in its own record, and at most its limit in the record that it shares, so more
      than the limit only if it holds some in both. Nothing is asked of the limits of other addresses. */
  lemma AddressBound(calls: seq<Call>, n: nat, max: nat, ip: Addr)
    requires OwnLimit(calls, ip, max) && n <= |calls| && IsRun(calls, None)
    ensures var s := After(calls, n, None);
            && |HeldBy(s, ip)| == OwnHeld(s, ip) + SharedHeld(s, ip)
            && OwnHeld(s, ip) <= max && SharedHeld(s, ip) <= max
            && (|HeldBy(s, ip)| > max ==> OwnHeld(s, ip) > 0 && SharedHeld(s, ip) > 0)
  {
    CountsRun(calls, n, None);
    HeldInTwo(After(calls, n, None), ip);
    HeldFromBounded(calls, n, max, ip, Own(ip));
    HeldFromBounded(calls, n, max, ip, Shared(OverflowPrefix(ip)));
  }

  /** Every connection that the address asked for would have been counted in this record. */
  predicate AsksAt(calls: seq<Call>, n: nat, ip: Addr, place: Place)
    requires n <= |calls|
  {
    forall i :: 0 <= i < n ==> AsksAtCall(calls, i, ip, place)
  }

  predicate AsksAtCall(calls: seq<Call>, i: nat, ip: Addr, place: Place)
    requires i < |calls|
  {
    calls[i].Acquire? && calls[i].ip == ip ==> PlaceFor(After(calls, i, None).records, ip) == place
  }

  lemma {:induction false} HeldWhereAsked(calls: seq<Call>, n: nat, ip: Addr, place: Place)
    requires n <= |calls| && AsksAt(calls, n, ip, place)
    ensures HeldBy(After(calls, n, None), ip) == HeldFrom(After(calls, n, None), ip, place)
  {
    if n > 0 {
      HeldWhereAsked(calls, n - 1, ip, place);
      assert AsksAtCall(calls, n - 1, ip, place);
      HeldStep(After(calls, n - 1, None), calls[n - 1], ip, place);
    }
  }

  lemma HeldStep(s: State, c: Call, ip: Addr, place: Place)
    requires HeldBy(s, ip) == HeldFrom(s, ip, place)
    requires c.Acquire? && c.ip == ip ==> PlaceFor(s.records, ip) == place
    ensures HeldBy(Apply(s, c, None), ip) == HeldFrom(Apply(s, c, None), ip, place)
  {
    var s' := Apply(s, c, None);
    forall h | h in HeldBy(s', ip)
      ensures s'.handles[h].place == place
    {
      if h in s.handles && s'.handles[h] == s.handles[h] {
        assert h in HeldBy(s, ip);
      }
    }
  }

  /** An address that always finds the same record when it connects, its own or a shared one, holds at most its limit. */
  lemma OnePlaceBound(calls: seq<Call>, n: nat, max: nat, ip: Addr, place: Place)
    requires OwnLimit(calls, ip, max) && n <= |calls| && IsRun(calls, None) && AsksAt(calls, n, ip, place)
    ensures |HeldBy(After(calls, n, None), ip)| <= max
  {
    HeldWhereAsked(calls, n, ip, place);
    HeldFromBounded(calls, n, max, ip, place);
  }

  // ---------------------------------------------------------------------------------------------
  // The report

  /** `Connections`: the count in the address's own record, or else in the one it shares. */
  function Report(s: State, ip: Addr): int {
    if Own(ip) in s.records then s.records[Own(ip)].conns else At(s.records, Shared(OverflowPrefix(ip))).conns
  }

  predicate OnlyHolder(s: State, ip: Addr, place: Place) { forall h :: h in HeldAt(s, place) ==> s.handles[h].ip == ip }

  lemma SameSize<T>(a: set<T>, b: set<T>)
    requires a <= b
    ensures |a| == |b| <==> a == b
  {
    assert b == a + (b - a);
  }

  lemma OwnConns(s: State, ip: Addr)
    requires CountsInv(s)
    ensures At(s.records, Own(ip)).conns == OwnHeld(s, ip)
  {
    NoneHeld(s, Own(ip));
    assert HeldAt(s, Own(ip)) == HeldFrom(s, ip, Own(ip));
  }

  lemma SharedConns(s: State, ip: Addr)
    requires CountsInv(s)
    ensures var place := Shared(OverflowPrefix(ip));
            SharedHeld(s, ip) == At(s.records, place).conns <==> OnlyHolder(s, ip, place)
  {
    var place := Shared(OverflowPrefix(ip));
    NoneHeld(s, place);
    SameSize(HeldFrom(s, ip, place), HeldAt(s, place));
  }

  /** In every run the report is the number of connections of the address exactly if it holds none in a shared record
      beside its own, and shares none with another address when it has no record of its own. */
  lemma ReportExactly(calls: seq<Call>, n: nat, ip: Addr)
    requires IsRun(calls, None) && n <= |calls|
    ensures var s, place := After(calls, n, None), Shared(OverflowPrefix(ip));
            Report(s, ip) == |HeldBy(s, ip)| <==>
            if Own(ip) in s.records then HeldFrom(s, ip, place) == {} else OnlyHolder(s, ip, place)
  {
    var s := After(calls, n, None);
    CountsRun(calls, n, None);
    HeldInTwo(s, ip);
    OwnConns(s, ip);
    SharedConns(s, ip);
  }

  /** There was room for one more record before every call. */
  predicate Roomy(calls: seq<Call>, n: nat)
    requires n <= |calls|
  {
    forall i :: 0 <= i < n ==> RoomAt(calls, i)
  }

  predicate RoomAt(calls: seq<Call>, i: nat)
    requires i < |calls|
  {
    |OwnPlaces(After(calls, i, None).records)| < MAX_CLIENTS
  }

  predicate NothingShared(s: State) {
    (forall p :: p in s.records ==> p.Own?) && (forall h :: h in s.handles ==> s.handles[h].place.Own?)
  }

  lemma StaysUnshared(s: State, c: Call)
    requires NothingShared(s) && |OwnPlaces(s.records)| < MAX_CLIENTS
    ensures NothingShared(Apply(s, c, None))
  {
  }

  lemma {:induction false} RoomyIsUnshared(calls: seq<Call>, n: nat)
    requires n <= |calls| && Roomy(calls, n)
    ensures NothingShared(After(calls, n, None))
  {
    if n > 0 {
      RoomyIsUnshared(calls, n - 1);
      assert RoomAt(calls, n - 1);
      StaysUnshared(After(calls, n - 1, None), calls[n - 1]);
    }
  }

  /** As long as the tracker has never been full, the report is right for every address. */
  lemma ReportRightWithRoom(calls: seq<Call>, n: nat, ip: Addr)
    requires IsRun(calls, None) && n <= |calls| && Roomy(calls, n)
    ensures Report(After(calls, n, None), ip) == |HeldBy(After(calls, n, None), ip)|
  {
    var s := After(calls, n, None);
    RoomyIsUnshared(calls, n);
    ReportExactly(calls, n, ip);
    assert HeldFrom(s, ip, Shared(OverflowPrefix(ip))) == {};
  }
}
