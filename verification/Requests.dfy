/** A request from its arrival to the dial: what the proxy checks, and what it then connects to. */
module Requests {
  import opened Basics
  import opened Netip
  import opened Text
  import opened Foreign
  import opened Verdicts
  import opened Policies
  import opened Subnets
  import opened HostPort
  import opened Vetted
  import opened Dial

  const DIAL_BUDGET := 30 * SECOND

  /** Where the longest prefix for a client is, if there is one. */
  ghost predicate FoundAt(policy: Policy, client: Addr, at: Option<nat>) {
    match at
    case Some(i) => i < |policy.subnets| && exists j, p :: Longest(Groups(policy.subnets), client.Unmap(), i, j, p)
    case None => InSubnet(policy, client.Unmap(), None)
  }

  method FindSubnet(policy: Policy, client: Addr) returns (best: Option<Subnet>, ghost at: Option<nat>)
    ensures FoundAt(policy, client, at) && (best.Some? <==> at.Some?)
    ensures best.Some? ==> best.value == policy.subnets[at.value]
    ensures InSubnet(policy, client.Unmap(), if best.Some? then Some(best.value.name) else None)
  {
    ghost var place;
    best, place := SubnetOf(policy, client);
    at := if best.Some? then Some(place.0) else None;
  }

  /** The policy's part of a request. */
  method Vet(lib: Library, s: Subnet, res: Resolver, host: string, port: string, idle: int, ghost lists: Lists)
    returns (v: Option<Vetted>)
    requires lib.ParsesAddresses() && Compiled(lib, lists, s)
    modifies res
    ensures v.Some? <==> Allowed(lib, lists, res.answers, host, port)
    ensures v.Some? ==> v.value.host == host && v.value.idle == idle && Approved(lib, lists, res.answers, port, v.value)
  {
    var d := Check(lib, s, res, host, port, lists);
    if !d.allow {
      return None;
    }
    return Some(Vetted(host, d.port, d.addrs, idle));
  }

  /** A destination is vetted exactly if the client is within its rate, by the tracker's answer, and in a subnet whose
      lists allow the request; and then it is approved. Nothing is looked up for a client that is not. */
  method CheckRequest(lib: Library, policy: Policy, withinRate: bool, idle: int, res: Resolver, client: Addr, host: string,
                      port: string, ghost specs: seq<SubnetSpec>, ghost lists: seq<Lists>)
    returns (v: Option<Vetted>, ghost at: Option<nat>)
    requires lib.ParsesAddresses() && Loaded(lib, specs, lists, policy.subnets)
    modifies res
    ensures FoundAt(policy, client, at)
    ensures v.Some? <==> withinRate && at.Some? && Allowed(lib, lists[at.value], res.answers, host, port)
    ensures v.Some? ==> v.value.host == host && Approved(lib, lists[at.value], res.answers, port, v.value)
    ensures !withinRate || at.None? ==> res.asked == old(res.asked)
  {
    var subnet;
    subnet, at := FindSubnet(policy, client);
    if !withinRate || subnet.None? {
      return None, at;
    }
    StillLoaded(lib, specs, lists, policy.subnets);
    assert LoadedAt(lib, SpecAt(specs, at.value), lists[at.value], subnet.value);
    v := Vet(lib, subnet.value, res, host, port, idle, lists[at.value]);
  }

  // ---------------------------------------------------------------------------------------------
  // Dialing what was vetted

  /** Only addresses of the destination were tried, in order and at most three, and all of one family. */
  predicate TriedOnly(made: seq<Made>, addrs: seq<Addr>, v4: bool) {
    |made| <= MAX_ADDRS_PER_FAMILY && forall k :: 0 <= k < |made| ==> made[k].addr in addrs && made[k].addr.V4? == v4
  }

  lemma TriedIsVetted(made: seq<Made>, family: seq<Addr>, addrs: seq<Addr>, v4: bool)
    requires Tried(made, family) && |family| <= MAX_ADDRS_PER_FAMILY
    requires forall a :: a in family ==> a in addrs && a.V4? == v4
    ensures TriedOnly(made, addrs, v4)
  {
    forall k | 0 <= k < |made|
      ensures made[k].addr in addrs && made[k].addr.V4? == v4
    {
      assert made[k].addr == family[k];
    }
  }

  /** The addresses that are tried of the first address's family, or of the other. */
  function Family(addrs: seq<Addr>, first: bool): seq<Addr>
    requires addrs != []
  {
    FirstFew(OfFamily(addrs, addrs[0].V4? == first))
  }

  /** The dial of a vetted destination: the guard, the families and what each racer tries. Each racer has a network of
      its own to try it in, and the second one is started or not. Nothing is tried unless the address is the one that was
      vetted, and then nothing but vetted addresses. With no other deadline every attempt of the first family has a third
      of the budget or more. */
  method DialVetted(v: Vetted, addr: string, parent: Option<int>, first: Network, second: Network, startSecond: bool)
    returns (ok: bool, ghost made: seq<Made>, ghost made': seq<Made>)
    requires first != second
    modifies first, second
    ensures ok ==> Guard(v, addr)
    ensures first.made == old(first.made) + made && second.made == old(second.made) + made'
    ensures if Guard(v, addr) then made != [] else made == [] && made' == []
    ensures v.addrs != [] ==> TriedOnly(made, v.addrs, v.addrs[0].V4?) && TriedOnly(made', v.addrs, !v.addrs[0].V4?)
    ensures v.addrs != [] ==> Tried(made, Family(v.addrs, true)) && Tried(made', Family(v.addrs, false))
    ensures made' != [] <==> Guard(v, addr) && startSecond && Family(v.addrs, false) != []
    ensures ok <==> !AllFailed(made) || !AllFailed(made')
    ensures first.now <= old(first.now) + DIAL_BUDGET && second.now <= Larger(old(second.now), old(first.now) + DIAL_BUDGET)
    ensures parent.None? ==> AllOffered(made, DIAL_BUDGET / MAX_ADDRS_PER_FAMILY)
  {
    made, made', ok := [], [], false;
    if SplitHostPort(addr) != Some((v.host, Decimal(v.port))) || v.addrs == [] {
      return;
    }
    var primary, fallback := Partition(v.addrs);
    PartitionIsVetted(v.addrs, primary, fallback);
    var deadline := Earlier(parent, Some(first.now + DIAL_BUDGET)).value;
    ok, made := DialFamily(first, deadline, primary, v.addrs, v.addrs[0].V4?);
    if startSecond && fallback != [] {
      var other;
      other, made' := DialFamily(second, deadline, fallback, v.addrs, !v.addrs[0].V4?);
      ok := ok || other;
    }
  }

  /** One racer. */
  method DialFamily(net: Network, deadline: int, family: seq<Addr>, ghost addrs: seq<Addr>, ghost v4: bool)
    returns (ok: bool, ghost made: seq<Made>)
    requires 0 < |family| <= MAX_ADDRS_PER_FAMILY && forall a :: a in family ==> a in addrs && a.V4? == v4
    modifies net
    ensures net.made == old(net.made) + made && made != [] && TriedOnly(made, addrs, v4) && Tried(made, family)
    ensures ok <==> !AllFailed(made)
    ensures net.now <= Larger(old(net.now), deadline)
    ensures deadline == old(net.now) + DIAL_BUDGET ==> AllOffered(made, DIAL_BUDGET / MAX_ADDRS_PER_FAMILY)
  {
    var r;
    r, made := DialSerial(net, Some(deadline), family);
    TriedIsVetted(made, family, addrs, v4);
    ok := r.Connected?;
    if deadline == old(net.now) + DIAL_BUDGET {
      OfferedShare(made, |family|);
    }
  }

  lemma OfferedShare(made: seq<Made>, n: nat)
    requires 0 < n <= MAX_ADDRS_PER_FAMILY && AllOffered(made, DIAL_BUDGET / n)
    ensures AllOffered(made, DIAL_BUDGET / MAX_ADDRS_PER_FAMILY)
  {
    assert n == 1 || n == 2 || n == 3;
  }

  /** A tunnel from request to dial: something is tried exactly if the lists of the client's subnet allow the request, and
      whatever is tried passed their check. */
  method Serve(lib: Library, policy: Policy, withinRate: bool, idle: int, res: Resolver, client: Addr, host: string, port: string,
               parent: Option<int>, first: Network, second: Network, startSecond: bool,
               ghost specs: seq<SubnetSpec>, ghost lists: seq<Lists>)
    returns (ok: bool, ghost at: Option<nat>, ghost made: seq<Made>, ghost made': seq<Made>)
    requires lib.ParsesAddresses() && Loaded(lib, specs, lists, policy.subnets) && first != second
    modifies res, first, second
    ensures FoundAt(policy, client, at)
    ensures first.made == old(first.made) + made && second.made == old(second.made) + made'
    ensures made != [] <==> withinRate && at.Some? && Allowed(lib, lists[at.value], res.answers, host, port)
    ensures ok || made' != [] ==> made != []
    ensures forall m :: m in made || m in made' ==> at.Some? && AddrPasses(lib, lists[at.value], m.addr)
    ensures |made| <= MAX_ADDRS_PER_FAMILY && |made'| <= MAX_ADDRS_PER_FAMILY
  {
    made, made', ok := [], [], false;
    var v;
    v, at := CheckRequest(lib, policy, withinRate, idle, res, client, host, port, specs, lists);
    if v.Some? {
      ok, made, made' := DialVetted(v.value, JoinHostPort(v.value.host, Decimal(v.value.port)), parent, first, second, startSecond);
      ghost var list := lists[at.value];
      ApprovedAddresses(lib, list, res.answers, port, v.value);
      ApprovedPassesGuard(lib, list, res.answers, port, v.value);
    }
  }
}
