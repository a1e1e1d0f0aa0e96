/** A subnet's lists from text to decision: what a configuration, as it is written, lets through. */
module Configured {
  import opened Basics
  import opened Netip
  import opened Text
  import opened Ports
  import opened Foreign
  import opened Hostnames
  import opened Patterns
  import opened Meanings
  import opened Rules
  import opened RuleSets
  import opened Verdicts
  import opened Policies

  // ---------------------------------------------------------------------------------------------
  // Lists of texts

  predicate SomeMeansName(lib: Library, texts: seq<string>, name: string) {
    exists i :: 0 <= i < |texts| && MeansName(lib, texts[i], name)
  }

  ghost predicate SomeMeansAddr(lib: Library, texts: seq<string>, a: Addr) {
    exists i :: 0 <= i < |texts| && MeansAddr(lib, texts[i], a)
  }

  predicate SomeMeansAll(lib: Library, texts: seq<string>) {
    exists i :: 0 <= i < |texts| && MeansAll(lib, texts[i])
  }

  ghost predicate RuleAgrees(lib: Library, text: string, rule: Rule, name: string, a: Addr) {
    && (MatchesName(lib, rule.pattern, name) <==> MeansName(lib, text, name))
    && (MatchesAddr(rule.pattern, a) <==> MeansAddr(lib, text, a))
    && (rule.pattern.Any? <==> MeansAll(lib, text))
  }

  ghost predicate RulesAgree(lib: Library, texts: seq<string>, rules: seq<Rule>, name: string, a: Addr) {
    |rules| == |texts| && forall i :: 0 <= i < |texts| ==> RuleAgrees(lib, texts[i], rules[i], name, a)
  }

  lemma ListAgrees(lib: Library, texts: seq<string>, rules: seq<Rule>, name: string, a: Addr)
    requires lib.ParsesAddresses() && lib.ReadsAnchors() && ParseRules(lib, texts) == Some(rules)
    ensures RulesAgree(lib, texts, rules, name, a)
  {
    forall i | 0 <= i < |texts|
      ensures RuleAgrees(lib, texts[i], rules[i], name, a)
    {
      RuleMeans(lib, texts[i], name, a);
    }
  }

  lemma AgreedMatches(lib: Library, texts: seq<string>, rules: seq<Rule>, name: string, a: Addr)
    requires RulesAgree(lib, texts, rules, name, a)
    ensures SomeMatchesName(lib, rules, name) <==> SomeMeansName(lib, texts, name)
    ensures SomeMatchesAddr(rules, a) <==> SomeMeansAddr(lib, texts, a)
    ensures (exists i :: 0 <= i < |rules| && rules[i].pattern == Any) <==> SomeMeansAll(lib, texts)
  {
    assert forall i :: 0 <= i < |texts| ==> RuleAgrees(lib, texts[i], rules[i], name, a);
  }

  /** A list that can be read matches exactly what one of its texts means. */
  lemma ListMeans(lib: Library, texts: seq<string>, rules: seq<Rule>, name: string, a: Addr)
    requires lib.ParsesAddresses() && lib.ReadsAnchors() && ParseRules(lib, texts) == Some(rules)
    ensures SomeMatchesName(lib, rules, name) <==> SomeMeansName(lib, texts, name)
    ensures SomeMatchesAddr(rules, a) <==> SomeMeansAddr(lib, texts, a)
    ensures DeniesAddr(rules, a) <==> SomeMeansAddr(lib, texts, a) || SomeMeansAll(lib, texts)
  {
    ListAgrees(lib, texts, rules, name, a);
    AgreedMatches(lib, texts, rules, name, a);
  }

  lemma TextOf(lib: Library, text: string)
    ensures ParseRule(lib, text).Some? ==> ParseRule(lib, text).value.text == TrimSpace(text)
  {
  }

  /** What is reported for a name is one of the texts that mean it, and nothing exactly if none does. */
  lemma ReportsMeans(lib: Library, texts: seq<string>, rules: seq<Rule>, name: string, found: Option<string>)
    requires lib.ParsesAddresses() && lib.ReadsAnchors() && ParseRules(lib, texts) == Some(rules)
    requires Reports(lib, rules, name, found)
    ensures found.Some? <==> SomeMeansName(lib, texts, name)
    ensures found.Some? ==>
              exists i :: 0 <= i < |texts| && MeansName(lib, texts[i], name) && found.value == TrimSpace(texts[i])
  {
    ListAgrees(lib, texts, rules, name, NoAddr);
    AgreedMatches(lib, texts, rules, name, NoAddr);
    if found.Some? {
      var i: nat :| Winner(lib, rules, name, i) && rules[i].text == found.value;
      assert RuleAgrees(lib, texts[i], rules[i], name, NoAddr) && MatchesAt(lib, rules, name, i);
      TextOf(lib, texts[i]);
    } else if SomeMatchesName(lib, rules, name) {
      var i :| 0 <= i < |rules| && MatchesName(lib, rules[i].pattern, name);
      assert MatchesAt(lib, rules, name, i);
    }
  }

  // ---------------------------------------------------------------------------------------------
  // The configuration

  /** Without a list of ports, 80 and 443. */
  ghost predicate PortListed(texts: seq<string>, port: Port) {
    if texts == [] then port == 80 || port == 443
    else exists i, r: PortRange :: 0 <= i < |texts| && IsPortRange(TrimSpace(texts[i]), r) && r.Contains(port)
  }

  /** An address is not denied, as itself or by `*`, and is public or allowed as an address. */
  ghost predicate AddrConfigured(lib: Library, spec: SubnetSpec, a: Addr) {
    && !SomeMeansAddr(lib, spec.deny, a) && !SomeMeansAll(lib, spec.deny)
    && (Public(lib, a) || SomeMeansAddr(lib, spec.allow, a))
  }

  /** A name is allowed and not denied, and so are its addresses. */
  ghost predicate NameConfigured(lib: Library, spec: SubnetSpec, answers: Answers, name: string) {
    && SomeMeansName(lib, spec.allow, name) && !SomeMeansName(lib, spec.deny, name)
    && answers(name).Some? && AddrsConfigured(lib, spec, answers(name).value)
  }

  /** There are addresses, all of them can be used, and each may be reached. */
  ghost predicate AddrsConfigured(lib: Library, spec: SubnetSpec, found: seq<Addr>) {
    && found != [] && (forall i :: 0 <= i < |found| ==> Usable(found[i]))
    && (forall i :: 0 <= i < |found| ==> AddrConfigured(lib, spec, found[i].Unmap()))
  }

  ghost predicate Reachable(lib: Library, spec: SubnetSpec, answers: Answers, d: Destination) {
    match d
    case Name(name) => NameConfigured(lib, spec, answers, name)
    case Literal(a) => SomeMeansAddr(lib, spec.allow, a) && AddrConfigured(lib, spec, a)
  }

  ghost predicate AllowedAsWritten(lib: Library, spec: SubnetSpec, answers: Answers, host: string, port: string) {
    && Target(lib, host).Some? && Reachable(lib, spec, answers, Target(lib, host).value)
    && exists n: Port :: IsPort(port, n) && PortListed(spec.ports, n)
  }

  lemma PortsMean(lib: Library, spec: SubnetSpec, lists: Lists, port: Port)
    requires Reads(lib, spec, lists)
    ensures AllowsPort(lists.ports, port) <==> PortListed(spec.ports, port)
  {
    if spec.ports == [] {
      assert lists.ports[0] == PortRange(80, 80) && lists.ports[1] == PortRange(443, 443);
    } else {
      ListedPorts(spec.ports, lists.ports, port);
    }
  }

  lemma ListedPorts(texts: seq<string>, ports: seq<PortRange>, port: Port)
    requires texts != [] && ReadPorts(texts, ports)
    ensures AllowsPort(ports, port) <==> PortListed(texts, port)
  {
    if k :| 0 <= k < |ports| && ports[k].Contains(port) {
      assert IsPortRange(TrimSpace(texts[k]), ports[k]);
    }
    if i, r: PortRange :| 0 <= i < |texts| && IsPortRange(TrimSpace(texts[i]), r) && r.Contains(port) {
      RangeUnique(TrimSpace(texts[i]), r, ports[i]);
    }
  }

  lemma AddrPassesAsWritten(lib: Library, spec: SubnetSpec, lists: Lists, a: Addr)
    requires lib.ParsesAddresses() && lib.ReadsAnchors() && Reads(lib, spec, lists)
    ensures AddrPasses(lib, lists, a) <==> AddrConfigured(lib, spec, a)
  {
    ListMeans(lib, spec.allow, lists.allow, "", a);
    ListMeans(lib, spec.deny, lists.deny, "", a);
  }

  lemma LiteralAsWritten(lib: Library, spec: SubnetSpec, lists: Lists, answers: Answers, a: Addr, port: Port)
    requires lib.ParsesAddresses() && lib.ReadsAnchors() && Reads(lib, spec, lists) && AllowsPort(lists.ports, port)
    ensures Admits(lib, lists, answers, Literal(a), port) <==> Reachable(lib, spec, answers, Literal(a))
  {
    AddrPassesAsWritten(lib, spec, lists, a);
    ListMeans(lib, spec.allow, lists.allow, "", a);
    ListMeans(lib, spec.deny, lists.deny, "", a);
  }

  predicate AllPass(lib: Library, lists: Lists, addrs: seq<Addr>) { forall a :: a in addrs ==> AddrPasses(lib, lists, a) }

  lemma AddrsAsWritten(lib: Library, spec: SubnetSpec, lists: Lists, found: seq<Addr>)
    requires lib.ParsesAddresses() && lib.ReadsAnchors() && Reads(lib, spec, lists)
    ensures AllPass(lib, lists, Unmapped(found)) <==>
            forall i :: 0 <= i < |found| ==> AddrConfigured(lib, spec, found[i].Unmap())
  {
    var addrs := Unmapped(found);
    forall i | 0 <= i < |found|
      ensures addrs[i] in addrs && (AddrPasses(lib, lists, addrs[i]) <==> AddrConfigured(lib, spec, found[i].Unmap()))
    {
      AddrPassesAsWritten(lib, spec, lists, addrs[i]);
    }
  }

  lemma NameAdmitted(lib: Library, lists: Lists, answers: Answers, name: string, port: Port)
    requires AllowsPort(lists.ports, port)
    ensures Admits(lib, lists, answers, Name(name), port) <==>
            && SomeMatchesName(lib, lists.allow, name) && !SomeMatchesName(lib, lists.deny, name)
            && answers(name).Some? && answers(name).value != []
            && (forall i :: 0 <= i < |answers(name).value| ==> Usable(answers(name).value[i]))
            && AllPass(lib, lists, Unmapped(answers(name).value))
  {
  }

  lemma NameAsWritten(lib: Library, spec: SubnetSpec, lists: Lists, answers: Answers, name: string, port: Port)
    requires lib.ParsesAddresses() && lib.ReadsAnchors() && Reads(lib, spec, lists) && AllowsPort(lists.ports, port)
    ensures Admits(lib, lists, answers, Name(name), port) <==> Reachable(lib, spec, answers, Name(name))
  {
    NameAdmitted(lib, lists, answers, name, port);
    ListMeans(lib, spec.allow, lists.allow, name, NoAddr);
    ListMeans(lib, spec.deny, lists.deny, name, NoAddr);
    if answers(name).Some? {
      AddrsAsWritten(lib, spec, lists, answers(name).value);
    }
  }

  /** The verdict of the compiled lists is that of the texts. */
  lemma AllowedMeans(lib: Library, spec: SubnetSpec, lists: Lists, answers: Answers, host: string, port: string)
    requires lib.ParsesAddresses() && lib.ReadsAnchors() && Reads(lib, spec, lists)
    ensures Allowed(lib, lists, answers, host, port) <==> AllowedAsWritten(lib, spec, answers, host, port)
  {
    if Target(lib, host).Some? {
      var d := Target(lib, host).value;
      forall n: Port | IsPort(port, n)
        ensures Admits(lib, lists, answers, d, n) <==> Reachable(lib, spec, answers, d) && PortListed(spec.ports, n)
      {
        PortsMean(lib, spec, lists, n);
        if AllowsPort(lists.ports, n) {
          if d.Name? {
            NameAsWritten(lib, spec, lists, answers, d.name, n);
          } else {
            LiteralAsWritten(lib, spec, lists, answers, d.addr, n);
          }
        }
      }
    }
  }

  /** All addresses of a destination, in the order they were found. */
  predicate AllOf(answers: Answers, d: Destination, addrs: seq<Addr>) {
    match d
    case Literal(a) => addrs == [a]
    case Name(name) =>
      && answers(name).Some? && |addrs| == |answers(name).value|
      && forall i :: 0 <= i < |addrs| ==> addrs[i] == answers(name).value[i].Unmap()
  }

  lemma AddressesAreAll(answers: Answers, d: Destination, addrs: seq<Addr>)
    requires Addresses(answers, d) == Some(addrs)
    ensures AllOf(answers, d, addrs)
  {
  }

  /** Decides a request by the lists of a subnet: allowed is exactly what their texts say, with all addresses found. */
  method CheckAsWritten(lib: Library, spec: SubnetSpec, s: Subnet, res: Resolver, host: string, port: string,
                        ghost lists: Lists) returns (r: Decision)
    requires lib.ParsesAddresses() && lib.ReadsAnchors() && Reads(lib, spec, lists) && Compiled(lib, lists, s)
    modifies res
    ensures r.allow <==> AllowedAsWritten(lib, spec, res.answers, host, port)
    ensures r.allow ==> AllOf(res.answers, Target(lib, host).value, r.addrs) && IsPort(port, r.port)
  {
    AllowedMeans(lib, spec, lists, res.answers, host, port);
    r := Check(lib, s, res, host, port, lists);
    if r.allow {
      AddressesAreAll(res.answers, Target(lib, host).value, r.addrs);
    }
  }

  /** Loads a subnet and decides a request of one of its clients. */
  method CheckConfigured(lib: Library, spec: SubnetSpec, res: Resolver, host: string, port: string)
    returns (r: Result<Decision>)
    requires lib.ParsesAddresses() && lib.MatchesExpressions() && lib.ReadsAnchors()
    modifies res
    ensures r.Ok? <==> Acceptable(lib, spec)
    ensures r.Ok? ==> (r.value.allow <==> AllowedAsWritten(lib, spec, res.answers, host, port))
  {
    var s, lists := CompileSubnet(lib, spec);
    if s.Err? {
      return Err(s.error);
    }
    var d := CheckAsWritten(lib, spec, s.value, res, host, port, lists);
    return Ok(d);
  }
}
