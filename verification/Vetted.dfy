/** Destinations that the policy approved, and the check that nothing else is dialed. */
module Vetted {
  import opened Basics
  import opened Netip
  import opened Text
  import opened Ports
  import opened Foreign
  import opened Hostnames
  import opened Verdicts
  import opened HostPort

  /** The host is kept as it was requested. */
  datatype Vetted = Vetted(host: string, port: Port, addrs: seq<Addr>, idle: int)

  /** What `dial` lets through: exactly the host and port that were checked. */
  predicate Guard(v: Vetted, addr: string) {
    SplitHostPort(addr) == Some((v.host, Decimal(v.port))) && v.addrs != []
  }

  /** Made from an allowed request. */
  ghost predicate Approved(lib: Library, lists: Lists, answers: Answers, port: string, v: Vetted) {
    && Allowed(lib, lists, answers, v.host, port)
    && IsPort(port, v.port)
    && v.addrs == Addresses(answers, Target(lib, v.host).value).value
  }

  /** An approved host has no characters that are special in pool keys or joined addresses. */
  lemma ApprovedHost(lib: Library, host: string)
    requires lib.ParsesAddresses() && Target(lib, host).Some?
    ensures NoneOf(host, "[]|,")
  {
    forall i | 0 <= i < |host|
      ensures host[i] !in "[]|,"
    {
      if lib.parseAddr(host).Some? {
        assert host[i] in host && IsAddrChar(host[i]);
      } else {
        assert HostChar(host[i], false);
      }
    }
  }

  lemma PlainDecimal(n: nat)
    ensures NoneOf(Decimal(n), ":[]|,")
  {
    forall c | c in Decimal(n)
      ensures c !in ":[]|,"
    {
      assert IsDigit(c);
    }
  }

  /** A tunnel dials the host and port it rejoins, and that passes the check. */
  lemma ApprovedPassesGuard(lib: Library, lists: Lists, answers: Answers, port: string, v: Vetted)
    requires lib.ParsesAddresses() && Approved(lib, lists, answers, port, v)
    ensures Guard(v, JoinHostPort(v.host, port)) && Guard(v, JoinHostPort(v.host, Decimal(v.port)))
  {
    ApprovedHost(lib, v.host);
    PlainDecimal(v.port);
    SplitJoined(v.host, Decimal(v.port));
  }

  /** Nothing else passes it but the same with brackets around the host. */
  lemma GuardExactly(lib: Library, lists: Lists, answers: Answers, port: string, v: Vetted, addr: string)
    requires lib.ParsesAddresses() && Approved(lib, lists, answers, port, v)
    ensures Guard(v, addr) <==> addr == JoinHostPort(v.host, port) || addr == "[" + v.host + "]:" + port
  {
    ApprovedHost(lib, v.host);
    ApprovedAddresses(lib, lists, answers, port, v);
    PlainDecimal(v.port);
    SplitExactly(addr, v.host, Decimal(v.port));
  }

  /** Every address of an approved destination was checked, and there is one. */
  lemma ApprovedAddresses(lib: Library, lists: Lists, answers: Answers, port: string, v: Vetted)
    requires lib.ParsesAddresses() && Approved(lib, lists, answers, port, v)
    ensures v.addrs != []
    ensures forall a :: a in v.addrs ==> AddrPasses(lib, lists, a) && a.IsValid() && a.Zone() == ""
  {
    var d := Target(lib, v.host).value;
    if d.Literal? {
      LiteralIsPlain(lib, v.host);
    } else {
      var found := answers(d.name).value;
      forall i | 0 <= i < |found|
        ensures Usable(found[i])
      {
      }
    }
  }
}
