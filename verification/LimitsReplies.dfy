/** Who is let in, which record a call uses and which are forgotten, in every run of the tracker. */
module LimitsReplies {
  import opened Basics
  import opened Netip
  import opened Limits
  import opened LimitsConnections

  // ---------------------------------------------------------------------------------------------
  // Connections

  /** Every call has a limit on all connections, of at most `max`. */
  predicate TotalLimit(calls: seq<Call>, max: int) {
    forall i :: 0 <= i < |calls| && calls[i].Acquire? ==> 0 < calls[i].maxTotal <= max
  }

  lemma HandlesStep(s: State, c: Call, max: int)
    requires CountsInv(s) && Fresh(s, c) && |s.handles| <= max && (c.Acquire? ==> 0 < c.maxTotal <= max)
    ensures |Apply(s, c, None).handles| <= max
  {
    CountsStep(s, c, None);
    TotalStep(s, c, max);
  }

  lemma TotalStep(s: State, c: Call, max: int)
    requires s.total <= max && (c.Acquire? ==> 0 < c.maxTotal <= max)
    ensures Apply(s, c, None).total <= max
  {
  }

  /** There are never more connections than the limit on all of them. */
  lemma {:induction false} TotalBound(calls: seq<Call>, n: nat, max: nat)
    requires IsRun(calls, None) && TotalLimit(calls, max) && n <= |calls|
    ensures |After(calls, n, None).handles| <= max
  {
    if n > 0 {
      TotalBound(calls, n - 1, max);
      CountsRun(calls, n - 1, None);
      assert FreshAt(calls, n - 1, None);
      HandlesStep(After(calls, n - 1, None), calls[n - 1], max);
    }
  }

  /** As many release functions as the limit on all connections have not been called. */
  predicate NoRoom(s: State, c: Call)
    requires c.Acquire?
  {
    c.maxTotal > 0 && |s.handles| >= c.maxTotal
  }

  /** As many as the limit of the client are counted in the record it uses. */
  predicate NoRoomForClient(s: State, c: Call)
    requires c.Acquire?
  {
    c.limit.maxConnections > 0 && |HeldAt(s, PlaceFor(s.records, c.ip))| >= c.limit.maxConnections
  }

  lemma AcquireDecides(s: State, c: Call)
    requires CountsInv(s) && c.Acquire?
    ensures ReplyTo(s, c) == if NoRoom(s, c) then TotalFull else if NoRoomForClient(s, c) then ClientFull else Yes
  {
    NoneHeld(s, PlaceFor(s.records, c.ip));
  }

  /** A connection is refused exactly if one of the two limits is set and reached, and the limit on all connections is
      looked at first. Only a connection that is let in gets a release function. */
  lemma AcquireExactly(calls: seq<Call>, n: nat)
    requires IsRun(calls, None) && n < |calls| && calls[n].Acquire?
    ensures var s, c := After(calls, n, None), calls[n];
            && (ReplyTo(s, c) == TotalFull <==> NoRoom(s, c))
            && (ReplyTo(s, c) == ClientFull <==> !NoRoom(s, c) && NoRoomForClient(s, c))
            && (ReplyTo(s, c) == Yes <==> !NoRoom(s, c) && !NoRoomForClient(s, c))
            && After(calls, n + 1, None).handles ==
               if ReplyTo(s, c) == Yes then s.handles[c.h := Handle(c.ip, PlaceFor(s.records, c.ip))] else s.handles
  {
    CountsRun(calls, n, None);
    AcquireDecides(After(calls, n, None), calls[n]);
    HandlesAfter(After(calls, n, None), calls[n], After(calls, n + 1, None));
  }

  lemma HandlesAfter(s: State, c: Call, s': State)
    requires c.Acquire? && s' == Apply(s, c, None)
    ensures s'.handles ==
            if ReplyTo(s, c) == Yes then s.handles[c.h := Handle(c.ip, PlaceFor(s.records, c.ip))] else s.handles
  {
  }

  // ---------------------------------------------------------------------------------------------
  // Records

  /** The networks that addresses past the limit on records share: those with the same first 24 bits, or 64 for IPv6. */
  predicate SameNetwork(a: Addr, b: Addr) {
    match (a, b)
    case (V4(m), V4(n)) => m / 0x100 == n / 0x100
    case (V6(m, _), V6(n, _)) => m / 0x1_0000_0000_0000_0000 == n / 0x1_0000_0000_0000_0000
    case (NoAddr, NoAddr) => true
    case _ => false
  }

  /** Two addresses share a record exactly if they are in the same network. */
  lemma OverflowExactly(a: Addr, b: Addr)
    ensures OverflowPrefix(a) == OverflowPrefix(b) <==> SameNetwork(a, b)
  {
    match (a, b)
    case (V4(m), V4(n)) => SameMultiple(m / 0x100, n / 0x100, 0x100);
    case (V6(m, _), V6(n, _)) =>
      SameMultiple(m / 0x1_0000_0000_0000_0000, n / 0x1_0000_0000_0000_0000, 0x1_0000_0000_0000_0000);
    case _ =>
  }

  lemma SameMultiple(p: nat, q: nat, block: nat)
    requires block > 0
    ensures p * block == q * block <==> p == q
  {
    if p < q {
      assert (p + 1) * block <= q * block;
    } else if q < p {
      assert (q + 1) * block <= p * block;
    }
  }

  lemma BlockSizes(bits: nat)
    requires bits == 8
    ensures Pow2(bits) == 0x100 && Pow2(8 * bits) == 0x1_0000_0000_0000_0000
  {
    assert Pow2(8) == 0x100;
    Squared(bits, 0x100);
    Squared(2 * bits, 0x1_0000);
    Squared(4 * bits, 0x1_0000_0000);
  }

  lemma BlockStart(n: nat, block: nat)
    requires block > 0
    ensures (n / block * block) % block == 0 && (n / block * block) / block == n / block
  {
    var q := n / block;
    QuotientIs(q * block, block, q);
    Remainder(q * block, block);
  }

  lemma Remainder(n: nat, block: nat)
    requires block > 0
    ensures n % block == n - n / block * block
  {
  }

  /** That network is a prefix that contains them. */
  lemma OverflowContains(a: Addr)
    requires a.IsValid() && a.Zone() == ""
    ensures OverflowPrefix(a).bits == (if a.V4? then 24 else 64)
    ensures OverflowPrefix(a).Contains(a) && OverflowPrefix(a).IsMasked()
  {
    var n, p := a.Number(), OverflowPrefix(a);
    BlockSizes(8);
    var block := if a.V4? then 0x100 else 0x1_0000_0000_0000_0000;
    BlockStart(n, block);
    InBlock(a, p, block);
  }

  lemma InBlock(a: Addr, p: Prefix, block: nat)
    requires a.IsValid() && a.Zone() == "" && p.IsValid() && p.Block() == block && p.addr.BitLen() == a.BitLen()
    requires p.addr.Number() % block == 0 && p.addr.Number() / block == a.Number() / block
    ensures p.Contains(a) && p.IsMasked()
  {
  }

  /** A call finds the record of its address, makes one while fewer than 100,000 addresses have one, and else uses that
      of the network. */
  lemma PlaceExactly(records: map<Place, Record>, ip: Addr)
    ensures Own(ip) in records ==> PlaceFor(records, ip) == Own(ip)
    ensures Own(ip) !in records && |OwnPlaces(records)| < 100_000 ==> PlaceFor(records, ip) == Own(ip)
    ensures Own(ip) !in records && |OwnPlaces(records)| >= 100_000 ==> PlaceFor(records, ip) == Shared(OverflowPrefix(ip))
  {
  }

  lemma TrackedPut(records: map<Place, Record>, ip: Addr, r: Record)
    requires |OwnPlaces(records)| <= 100_000
    ensures |OwnPlaces(records[PlaceFor(records, ip) := r])| <= 100_000
  {
    var place := PlaceFor(records, ip);
    if place.Own? {
      assert OwnPlaces(records[place := r]) == OwnPlaces(records) + {place};
    } else {
      assert OwnPlaces(records[place := r]) == OwnPlaces(records);
    }
  }

  lemma TrackedStep(s: State, c: Call)
    requires CountsInv(s) && |OwnPlaces(s.records)| <= 100_000
    ensures |OwnPlaces(Apply(s, c, None).records)| <= 100_000
  {
    var s' := Apply(s, c, None);
    if c.Acquire? || c.Allow? || c.Log? {
      TrackedPut(s.records, c.ip, At(s'.records, PlaceFor(s.records, c.ip)));
    } else {
      SubsetSize(OwnPlaces(s'.records), OwnPlaces(s.records));
    }
  }

  /** No more than 100,000 addresses ever have a record of their own. */
  lemma {:induction false} TrackedBounded(calls: seq<Call>, n: nat)
    requires IsRun(calls, None) && n <= |calls|
    ensures |OwnPlaces(After(calls, n, None).records)| <= 100_000
  {
    if n == 0 {
      NoneTracked(After(calls, n, None));
    } else {
      TrackedBounded(calls, n - 1);
      CountsRun(calls, n - 1, None);
      TrackedNext(After(calls, n - 1, None), calls[n - 1], After(calls, n, None));
    }
  }

  lemma NoneTracked(s: State)
    requires s.records == map[]
    ensures |OwnPlaces(s.records)| == 0
  {
    assert OwnPlaces(s.records) == {};
  }

  lemma TrackedNext(s: State, c: Call, s': State)
    requires CountsInv(s) && |OwnPlaces(s.records)| <= 100_000 && s' == Apply(s, c, None)
    ensures |OwnPlaces(s'.records)| <= 100_000
  {
    TrackedStep(s, c);
  }

  // ---------------------------------------------------------------------------------------------
  // Forgetting

  /** The call uses this record: a request, a log line, a connection that is asked for and not refused for all, or one
      that is given back. */
  predicate Uses(s: State, c: Call, place: Place) {
    match c
    case Acquire(_, ip, _, _, _) => !NoRoom(s, c) && PlaceFor(s.records, ip) == place
    case Release(h, _) => h in s.handles && s.handles[h].place == place
    case Allow(ip, _, _) => PlaceFor(s.records, ip) == place
    case Log(ip, _, _) => PlaceFor(s.records, ip) == place
    case LogUnknown(_, _) => false
    case Sweep(_) => false
  }

  lemma SeenStep(s: State, c: Call, place: Place, s': State)
    requires CountsInv(s) && s' == Apply(s, c, None) && place in s'.records
    ensures if Uses(s, c, place) then s'.records[place].seen == c.now
            else place in s.records && s'.records[place].seen == s.records[place].seen
  {
  }

  predicate UsesAt(calls: seq<Call>, i: nat, place: Place)
    requires i < |calls|
  {
    Uses(After(calls, i, None), calls[i], place)
  }

  /** The last use of a record that is there. */
  predicate LastUse(calls: seq<Call>, n: nat, place: Place, i: nat)
    requires n <= |calls|
  {
    i < n && UsesAt(calls, i, place) && forall j :: i < j < n ==> !UsesAt(calls, j, place)
  }

  lemma SeenNext(calls: seq<Call>, n: nat, place: Place)
    requires IsRun(calls, None) && n < |calls| && place in After(calls, n + 1, None).records
    ensures if UsesAt(calls, n, place) then After(calls, n + 1, None).records[place].seen == calls[n].now
            else place in After(calls, n, None).records
                 && After(calls, n + 1, None).records[place].seen == After(calls, n, None).records[place].seen
  {
    CountsRun(calls, n, None);
    SeenStep(After(calls, n, None), calls[n], place, After(calls, n + 1, None));
  }

  lemma {:induction false} SeenAtLastUse(calls: seq<Call>, n: nat, place: Place) returns (i: nat)
    requires IsRun(calls, None) && n <= |calls| && place in After(calls, n, None).records
    ensures LastUse(calls, n, place, i) && After(calls, n, None).records[place].seen == calls[i].now
  {
    if n == 0 {
      assert false;
    } else {
      SeenNext(calls, n - 1, place);
      i := n - 1;
      if !UsesAt(calls, n - 1, place) {
        i := SeenAtLastUse(calls, n - 1, place);
      }
    }
  }

  /** A sweep forgets a record exactly if no connection is counted in it and it was last used more than five minutes
      ago. */
  lemma ForgottenExactly(calls: seq<Call>, n: nat, place: Place) returns (i: nat)
    requires IsRun(calls, None) && n < |calls| && calls[n].Sweep? && place in After(calls, n, None).records
    ensures LastUse(calls, n, place, i)
    ensures place !in After(calls, n + 1, None).records <==>
            HeldAt(After(calls, n, None), place) == {} && calls[n].now - calls[i].now > 300.0
  {
    i := SeenAtLastUse(calls, n, place);
    CountsRun(calls, n, None);
    NoneHeld(After(calls, n, None), place);
    SweptExactly(After(calls, n, None), calls[n].now, place);
  }

  lemma SweptExactly(s: State, now: real, place: Place)
    requires place in s.records
    ensures place !in SweptState(s, now, None).records <==>
            s.records[place].conns == 0 && now - s.records[place].seen > 300.0
  {
  }
}
