/** Dialing the addresses of one family after the other within a time budget. Times are nanoseconds. */
module Dial {
  import opened Basics
  import opened Netip

  const SECOND := 1_000_000_000
  const MAX_ADDRS_PER_FAMILY := 3
  const MIN_ATTEMPT := 2 * SECOND

  // ---------------------------------------------------------------------------------------------
  // The two families

  function OfFamily(addrs: seq<Addr>, v4: bool): seq<Addr> {
    if addrs == [] then []
    else
      var last := |addrs| - 1;
      OfFamily(addrs[..last], v4) + if addrs[last].V4? == v4 then [addrs[last]] else []
  }

  function FirstFew(addrs: seq<Addr>): seq<Addr> {
    if |addrs| <= MAX_ADDRS_PER_FAMILY then addrs else addrs[..MAX_ADDRS_PER_FAMILY]
  }

  /** The first three addresses of the first address's family, and of the other. */
  method Partition(addrs: seq<Addr>) returns (primary: seq<Addr>, fallback: seq<Addr>)
    requires addrs != []
    ensures primary == FirstFew(OfFamily(addrs, addrs[0].V4?))
    ensures fallback == FirstFew(OfFamily(addrs, !addrs[0].V4?))
  {
    primary, fallback := [], [];
    var v4 := addrs[0].V4?;
    for i := 0 to |addrs|
      invariant primary == FirstFew(OfFamily(addrs[..i], v4))
      invariant fallback == FirstFew(OfFamily(addrs[..i], !v4))
    {
      assert addrs[..i + 1][..i] == addrs[..i];
      var a := addrs[i];
      if a.V4? == v4 {
        if |primary| < MAX_ADDRS_PER_FAMILY {
          primary := primary + [a];
        }
      } else if |fallback| < MAX_ADDRS_PER_FAMILY {
        fallback := fallback + [a];
      }
    }
    assert addrs[..|addrs|] == addrs;
  }

  lemma {:induction false} FamilyMembers(addrs: seq<Addr>, v4: bool, a: Addr)
    ensures a in OfFamily(addrs, v4) <==> a in addrs && a.V4? == v4
  {
    if addrs != [] {
      var last := |addrs| - 1;
      FamilyMembers(addrs[..last], v4, a);
      assert addrs == addrs[..last] + [addrs[last]];
    }
  }

  /** Nothing but vetted addresses is tried, at most three of a family, and the first address is. */
  lemma PartitionIsVetted(addrs: seq<Addr>, primary: seq<Addr>, fallback: seq<Addr>)
    requires addrs != []
    requires primary == FirstFew(OfFamily(addrs, addrs[0].V4?)) && fallback == FirstFew(OfFamily(addrs, !addrs[0].V4?))
    ensures 0 < |primary| <= MAX_ADDRS_PER_FAMILY && |fallback| <= MAX_ADDRS_PER_FAMILY
    ensures forall a :: a in primary ==> a in addrs && a.V4? == addrs[0].V4?
    ensures forall a :: a in fallback ==> a in addrs && a.V4? != addrs[0].V4?
    ensures fallback == [] <==> forall a :: a in addrs ==> a.V4? == addrs[0].V4?
    ensures |addrs| <= MAX_ADDRS_PER_FAMILY ==> forall a :: a in addrs ==> a in primary || a in fallback
  {
    var v4 := addrs[0].V4?;
    forall a
      ensures a in OfFamily(addrs, v4) <==> a in addrs && a.V4? == v4
      ensures a in OfFamily(addrs, !v4) <==> a in addrs && a.V4? == !v4
    {
      FamilyMembers(addrs, v4, a);
      FamilyMembers(addrs, !v4, a);
    }
    assert addrs[0] in OfFamily(addrs, v4);
    FamilySize(addrs, v4);
    FamilySize(addrs, !v4);
    if a :| a in addrs && a.V4? != v4 {
      assert a in OfFamily(addrs, !v4);
    }
    if fallback != [] {
      assert fallback[0] in OfFamily(addrs, !v4);
    }
  }

  lemma {:induction false} FamilySize(addrs: seq<Addr>, v4: bool)
    ensures |OfFamily(addrs, v4)| <= |addrs|
  {
    if addrs != [] {
      FamilySize(addrs[..|addrs| - 1], v4);
    }
  }

  /** Where the addresses of a family are among the first `n`. */
  function FamilyAt(addrs: seq<Addr>, v4: bool, n: nat): set<int>
    requires n <= |addrs|
  {
    set i | 0 <= i < n && addrs[i].V4? == v4
  }

  lemma FamilyAtNext(addrs: seq<Addr>, v4: bool, n: nat)
    requires n < |addrs|
    ensures |FamilyAt(addrs, v4, n + 1)| == |FamilyAt(addrs, v4, n)| + if addrs[n].V4? == v4 then 1 else 0
  {
    if addrs[n].V4? == v4 {
      assert FamilyAt(addrs, v4, n + 1) == FamilyAt(addrs, v4, n) + {n};
    } else {
      assert FamilyAt(addrs, v4, n + 1) == FamilyAt(addrs, v4, n);
    }
  }

  lemma {:induction false} FamilyCount(addrs: seq<Addr>, v4: bool, n: nat)
    requires n <= |addrs|
    ensures |OfFamily(addrs[..n], v4)| == |FamilyAt(addrs, v4, n)|
  {
    if n > 0 {
      FamilyCount(addrs, v4, n - 1);
      FamilyAtNext(addrs, v4, n - 1);
      assert addrs[..n][..n - 1] == addrs[..n - 1];
    }
  }

  lemma {:induction false} FamilyOrder(addrs: seq<Addr>, v4: bool, n: nat, i: nat)
    requires i < n <= |addrs| && addrs[i].V4? == v4
    ensures var k := |FamilyAt(addrs, v4, i)|;
            k < |OfFamily(addrs[..n], v4)| && OfFamily(addrs[..n], v4)[k] == addrs[i]
    decreases n
  {
    assert addrs[..n][..n - 1] == addrs[..n - 1];
    if i == n - 1 {
      FamilyCount(addrs, v4, i);
    } else {
      FamilyOrder(addrs, v4, n - 1, i);
    }
  }

  /** Tried are the first three addresses of each family, in their order and none left out: an address with fewer than
      three of its family before it is tried after as many. The first address of all is the first to be tried. */
  lemma PartitionInOrder(addrs: seq<Addr>, v4: bool, i: nat)
    requires i < |addrs| && addrs[i].V4? == v4
    ensures var k, tried := |FamilyAt(addrs, v4, i)|, FirstFew(OfFamily(addrs, v4));
            && (k < 3 ==> k < |tried| && tried[k] == addrs[i])
            && (i == 0 ==> k == 0)
            && |tried| == if |FamilyAt(addrs, v4, |addrs|)| < 3 then |FamilyAt(addrs, v4, |addrs|)| else 3
  {
    assert addrs[..|addrs|] == addrs;
    FamilyOrder(addrs, v4, |addrs|, i);
    FamilyCount(addrs, v4, |addrs|);
    if i == 0 {
      assert FamilyAt(addrs, v4, i) == {};
    }
  }

  // ---------------------------------------------------------------------------------------------
  // The time budget

  /** Go's division, which rounds toward zero. */
  function TruncDiv(a: int, b: int): int
    requires b > 0
  {
    if a >= 0 then a / b else -(-a / b)
  }

  function Earlier(a: Option<int>, b: Option<int>): Option<int> {
    if a.None? then b else if b.None? then a else Some(if a.value <= b.value then a.value else b.value)
  }

  predicate Over(limit: Option<int>, now: int) { limit.Some? && limit.value <= now }

  /** What an attempt to connect would do if nothing stopped it. */
  datatype Attempt = Attempt(takes: nat, connects: bool)

  /** An attempt that was made: from when, until when at most, and whether it gave a connection. */
  datatype Made = Made(addr: Addr, start: int, until: Option<int>, connected: bool)

  datatype Outcome = Connected(addr: Addr) | NotVetted | Failed

  /** The network, as one dial meets it: what the attempts do, and when the caller gives up. */
  class Network {
    const attempts: nat -> Attempt
    const cancelAt: Option<int>
    var now: int
    var made: seq<Made>

    constructor (attempts: nat -> Attempt, cancelAt: Option<int>, now: int)
      ensures this.attempts == attempts && this.cancelAt == cancelAt && this.now == now && made == []
    {
      this.attempts, this.cancelAt, this.now, this.made := attempts, cancelAt, now, [];
    }

    /** Ends when it connects or fails of itself, or when its time is up or it is cancelled. */
    method DialAddr(a: Addr, until: Option<int>) returns (connected: bool)
      modifies this
      ensures now >= old(now)
      ensures until.Some? ==> now <= Larger(old(now), until.value)
      ensures made == old(made) + [Made(a, old(now), until, connected)]
    {
      var attempt := attempts(|made|);
      var limit := Earlier(until, cancelAt);
      var start := now;
      if limit.Some? && limit.value < now + attempt.takes {
        connected := false;
        now := Larger(now, limit.value);
      } else {
        connected := attempt.connects;
        now := now + attempt.takes;
      }
      made := made + [Made(a, start, until, connected)];
    }
  }

  function Larger(a: int, b: int): int { if a >= b then a else b }

  /** An equal share of what is left, but at least two seconds, and never past the deadline. */
  function Until(deadline: Option<int>, now: int, left: int): Option<int>
    requires left > 0
  {
    match deadline
    case None => None
    case Some(d) => Earlier(deadline, Some(now + Larger(TruncDiv(d - now, left), MIN_ATTEMPT)))
  }

  /** A share of a budget that is large enough leaves enough for the others. */
  lemma ShareStep(rest: int, left: int, share: int)
    requires left > 0 && share >= 0 && rest >= left * share
    ensures share <= rest / left <= rest
    ensures rest - rest / left >= (left - 1) * (rest / left) >= (left - 1) * share
  {
    var q := rest / left;
    Quotient(rest, left);
    AtLeast(left, q, share);
    Product(left - 1, share, q);
    Product(q, 1, left);
    assert left * q == q + (left - 1) * q;
  }

  lemma Quotient(rest: int, left: int)
    requires left > 0
    ensures left * (rest / left) <= rest < left * (rest / left + 1)
  {
  }

  lemma Product(a: int, b: int, c: int)
    requires a >= 0 && b <= c
    ensures a * b <= a * c
  {
  }

  lemma AtLeast(left: int, q: int, share: int)
    requires left > 0 && left * share < left * (q + 1)
    ensures share <= q
  {
    if q < share {
      Product(left, q + 1, share);
    }
  }

  /** Attempt `k` had at least `share` to try in. */
  predicate Offered(m: Made, share: int) { m.until.Some? && m.until.value - m.start >= share }

  predicate Tried(made: seq<Made>, addrs: seq<Addr>) {
    |made| <= |addrs| && forall k :: 0 <= k < |made| ==> made[k].addr == addrs[k]
  }

  predicate AllFailed(made: seq<Made>) { forall k :: 0 <= k < |made| ==> !made[k].connected }

  predicate AllOffered(made: seq<Made>, share: int) { forall k :: 0 <= k < |made| ==> Offered(made[k], share) }

  /** The remaining budget still gives each remaining address its share. */
  predicate EnoughLeft(deadline: Option<int>, now: int, left: int, share: int) {
    deadline.Some? && share >= MIN_ATTEMPT && deadline.value - now >= left * share
  }

  /** With enough left, an attempt is offered its share and leaves enough. */
  lemma AttemptLeavesEnough(deadline: Option<int>, now: int, now': int, left: int, share: int)
    requires EnoughLeft(deadline, now, left, share) && left > 0
    requires now' <= Larger(now, Until(deadline, now, left).value)
    ensures Until(deadline, now, left).value - now >= share
    ensures EnoughLeft(deadline, now', left - 1, share)
  {
    ShareStep(deadline.value - now, left, share);
  }

  /** An attempt with this many addresses left, itself included: it ends by the deadline, and has two seconds or all
      that is left; when there is enough for all it has an equal share. Without a deadline it has all the time. */
  predicate Timed(m: Made, deadline: Option<int>, left: int) {
    match deadline
    case None => m.until.None?
    case Some(d) =>
      && m.until.Some? && m.until.value <= d
      && (m.until.value - m.start >= 2_000_000_000 || m.until.value == d)
      && (left > 0 && d - m.start >= left * 2_000_000_000 ==> m.until.value == m.start + (d - m.start) / left)
  }

  predicate AllTimed(made: seq<Made>, deadline: Option<int>, n: int) {
    forall k :: 0 <= k < |made| ==> Timed(made[k], deadline, n - k)
  }

  lemma TimedUntil(deadline: Option<int>, now: int, left: int, m: Made)
    requires left > 0 && m.start == now && m.until == Until(deadline, now, left)
    ensures Timed(m, deadline, left)
  {
    if deadline.Some? && deadline.value - now >= left * MIN_ATTEMPT {
      ShareStep(deadline.value - now, left, MIN_ATTEMPT);
    }
  }

  /** The first attempt starts at once, and no other after the time is up. */
  predicate StartsInTime(made: seq<Made>, limit: Option<int>, now: int) {
    && (made != [] ==> made[0].start == now)
    && (forall k :: 0 < k < |made| ==> !Over(limit, made[k].start))
  }

  /** One attempt, with this many addresses left. */
  method TryAddr(net: Network, deadline: Option<int>, left: int, a: Addr, ghost share: int)
    returns (connected: bool, ghost m: Made)
    requires left > 0
    modifies net
    ensures net.made == old(net.made) + [m] && m.addr == a && m.start == old(net.now) && m.connected == connected
    ensures Timed(m, deadline, left)
    ensures deadline.Some? ==> net.now <= Larger(old(net.now), deadline.value)
    ensures EnoughLeft(deadline, old(net.now), left, share) ==>
              Offered(m, share) && EnoughLeft(deadline, net.now, left - 1, share)
  {
    var until := Until(deadline, net.now, left);
    connected := net.DialAddr(a, until);
    m := Made(a, old(net.now), until, connected);
    TimedUntil(deadline, old(net.now), left, m);
    if EnoughLeft(deadline, old(net.now), left, share) {
      AttemptLeavesEnough(deadline, old(net.now), net.now, left, share);
    }
  }

  /** Tries the addresses in order until one connects or the time is up. */
  method DialSerial(net: Network, deadline: Option<int>, addrs: seq<Addr>)
    returns (r: Outcome, ghost made: seq<Made>)
    modifies net
    ensures net.made == old(net.made) + made && Tried(made, addrs)
    ensures r.NotVetted? <==> addrs == []
    ensures made == [] <==> addrs == []
    ensures r.Connected? ==> made != [] && made[|made| - 1].connected && r.addr == made[|made| - 1].addr
                             && AllFailed(made[..|made| - 1])
    ensures r.Failed? ==> AllFailed(made) && (|made| == |addrs| || Over(Earlier(deadline, net.cancelAt), net.now))
    ensures deadline.Some? ==> net.now <= Larger(old(net.now), deadline.value)
    ensures deadline.Some? && addrs != [] && deadline.value - old(net.now) >= |addrs| * MIN_ATTEMPT ==>
              AllOffered(made, (deadline.value - old(net.now)) / |addrs|)
    ensures AllTimed(made, deadline, |addrs|) && StartsInTime(made, Earlier(deadline, net.cancelAt), old(net.now))
  {
    made := [];
    ghost var share := FairShare(deadline, net.now, |addrs|);
    var failed := 0;
    for i := 0 to |addrs|
      invariant net.made == old(net.made) + made && |made| == i && Tried(made, addrs) && AllFailed(made) && failed == i
      invariant deadline.Some? ==> net.now <= Larger(old(net.now), deadline.value)
      invariant EnoughLeft(deadline, old(net.now), |addrs|, share) ==>
                  EnoughLeft(deadline, net.now, |addrs| - i, share) && AllOffered(made, share)
      invariant AllTimed(made, deadline, |addrs|) && StartsInTime(made, Earlier(deadline, net.cancelAt), old(net.now))
      invariant if i == 0 then net.now == old(net.now) else !Over(Earlier(deadline, net.cancelAt), net.now)
    {
      var connected;
      ghost var m;
      connected, m := TryAddr(net, deadline, |addrs| - i, addrs[i], share);
      made := made + [m];
      if connected {
        return Connected(addrs[i]), made;
      }
      failed := failed + 1;
      if Over(Earlier(deadline, net.cancelAt), net.now) {
        break;
      }
    }
    if failed == 0 {
      return NotVetted, made;
    }
    return Failed, made;
  }

  /** Equal shares of a budget that has two seconds for each address. */
  lemma FairShare(deadline: Option<int>, now: int, n: nat) returns (share: int)
    ensures deadline.Some? && n > 0 && deadline.value - now >= n * MIN_ATTEMPT ==>
              share == (deadline.value - now) / n && EnoughLeft(deadline, now, n, share)
  {
    share := 0;
    if deadline.Some? && n > 0 && deadline.value - now >= n * MIN_ATTEMPT {
      share := (deadline.value - now) / n;
      ShareStep(deadline.value - now, n, MIN_ATTEMPT);
      Quotient(deadline.value - now, n);
    }
  }
}
