/** The compiled policy: choosing a client's subnet and deciding a request. */
module Policies {
  import opened Basics
  import opened Netip
  import opened Text
  import opened Ports
  import opened Foreign
  import opened Hostnames
  import opened Patterns
  import opened Rules
  import opened RuleSets
  import opened Verdicts

  datatype Subnet = Subnet(name: string, prefixes: seq<Prefix>, ports: seq<PortRange>, allow: RuleSet, deny: RuleSet)

  datatype Policy = Policy(subnets: seq<Subnet>)

  // ---------------------------------------------------------------------------------------------
  // What a compiled subnet holds

  predicate ParsedCidrs(lib: Library, cidrs: seq<string>, prefixes: seq<Prefix>) {
    |prefixes| == |cidrs| && forall i :: 0 <= i < |cidrs| ==> ParsePrefix(lib, cidrs[i]) == Some(prefixes[i])
  }

  /** In a deny list `*` is two more rules, one for each family. */
  function CatchAll(any: string): seq<AddrRule> {
    if any == "" then [] else [AddrRule(any, ALL_V4), AddrRule(any, ALL_V6)]
  }

  ghost predicate HoldsDeny(lib: Library, t: Table, rules: seq<Rule>) {
    HoldsNames(lib, t, rules) && t.addrs == Ranges(rules) + CatchAll(t.any)
  }

  /** The subnet decides by these lists. */
  ghost predicate Compiled(lib: Library, lists: Lists, s: Subnet)
    reads s.allow, s.deny
  {
    && s.ports == lists.ports
    && Holds(lib, s.allow.View(), lists.allow)
    && HoldsDeny(lib, s.deny.View(), lists.deny)
  }

  twostate lemma StillCompiled(lib: Library, new lists: Lists, new s: Subnet)
    requires old(allocated(s)) && old(Compiled(lib, lists, s)) && unchanged(s.allow) && unchanged(s.deny)
    ensures Compiled(lib, lists, s)
  {
  }

  ghost predicate IsRangeText(text: string) { exists r :: IsPortRange(TrimSpace(text), r) }

  ghost predicate Acceptable(lib: Library, spec: SubnetSpec) {
    && spec.cidrs != []
    && (forall i :: 0 <= i < |spec.cidrs| ==> ParsePrefix(lib, spec.cidrs[i]).Some?)
    && (forall i :: 0 <= i < |spec.ports| ==> IsRangeText(spec.ports[i]))
    && ParseRules(lib, spec.allow).Some?
    && ParseRules(lib, spec.deny).Some?
  }

  method CompileSubnet(lib: Library, spec: SubnetSpec) returns (r: Result<Subnet>, ghost lists: Lists)
    requires lib.MatchesExpressions()
    ensures r.Ok? <==> Acceptable(lib, spec)
    ensures r.Ok? ==> r.value.name == spec.name && ParsedCidrs(lib, spec.cidrs, r.value.prefixes)
    ensures r.Ok? ==> Reads(lib, spec, lists) && Compiled(lib, lists, r.value)
    ensures r.Ok? ==> fresh(r.value.allow) && fresh(r.value.deny)
  {
    lists := Lists([], [], []);
    if spec.cidrs == [] {
      return Err("no cidrs defined"), lists;
    }
    var prefixes := ParseCidrs(lib, spec.cidrs);
    if prefixes.Err? {
      return Err(prefixes.error), lists;
    }
    var ports := DEFAULT_PORTS;
    if spec.ports != [] {
      var parsed := ParsePorts(spec.ports);
      if parsed.Err? {
        return Err(parsed.error), lists;
      }
      ports := parsed.value;
    }
    var allow := CompileRules(lib, spec.allow);
    if allow.Err? {
      return Err(allow.error), lists;
    }
    var deny := CompileDeny(lib, spec.deny);
    if deny.Err? {
      return Err(deny.error), lists;
    }
    lists := Lists(ports, ParseRules(lib, spec.allow).value, ParseRules(lib, spec.deny).value);
    return Ok(Subnet(spec.name, prefixes.value, ports, allow.value, deny.value)), lists;
  }

  /** Compiles a deny list, in which `*` means addresses as well. */
  method CompileDeny(lib: Library, texts: seq<string>) returns (r: Result<RuleSet>)
    requires lib.MatchesExpressions()
    ensures r.Ok? <==> ParseRules(lib, texts).Some?
    ensures r.Ok? ==> fresh(r.value) && HoldsDeny(lib, r.value.View(), ParseRules(lib, texts).value)
  {
    r := CompileRules(lib, texts);
    if r.Ok? {
      var d := r.value;
      if d.any != "" {
        d.addrs := d.addrs + [AddrRule(d.any, ALL_V4), AddrRule(d.any, ALL_V6)];
      }
    }
  }

  method ParseCidrs(lib: Library, cidrs: seq<string>) returns (r: Result<seq<Prefix>>)
    ensures r.Ok? <==> forall i :: 0 <= i < |cidrs| ==> ParsePrefix(lib, cidrs[i]).Some?
    ensures r.Ok? ==> ParsedCidrs(lib, cidrs, r.value)
  {
    var prefixes := [];
    for i := 0 to |cidrs|
      invariant ParsedCidrs(lib, cidrs[..i], prefixes)
    {
      var prefix := ParsePrefix(lib, cidrs[i]);
      if prefix.None? {
        return Err("not a valid cidr");
      }
      prefixes := prefixes + [prefix.value];
    }
    assert cidrs[..|cidrs|] == cidrs;
    return Ok(prefixes);
  }

  method ParsePorts(texts: seq<string>) returns (r: Result<seq<PortRange>>)
    ensures r.Ok? <==> forall i :: 0 <= i < |texts| ==> IsRangeText(texts[i])
    ensures r.Ok? ==> ReadPorts(texts, r.value)
  {
    var ports := [];
    for i := 0 to |texts|
      invariant ReadPorts(texts[..i], ports)
      invariant forall k :: 0 <= k < i ==> IsRangeText(texts[k])
    {
      var range := ParsePortRange(texts[i]);
      if range.Err? {
        return Err(range.error);
      }
      ports := ports + [range.value];
    }
    assert texts[..|texts|] == texts;
    return Ok(ports);
  }

  // ---------------------------------------------------------------------------------------------
  // Lists and compiled lists agree

  lemma NameMatches(lib: Library, rules: seq<Rule>, name: string, found: Option<string>)
    requires Reports(lib, rules, name, found)
    ensures found.Some? <==> SomeMatchesName(lib, rules, name)
  {
    if found.Some? {
      var i: nat :| Winner(lib, rules, name, i);
      assert MatchesName(lib, rules[i].pattern, name);
    } else if i :| 0 <= i < |rules| && MatchesName(lib, rules[i].pattern, name) {
      assert MatchesAt(lib, rules, name, i);
    }
  }

  lemma FoundAddr(addrs: seq<AddrRule>, a: Addr, found: Option<string>)
    requires ReportsAddr(addrs, a, found)
    ensures found.Some? <==> exists k :: 0 <= k < |addrs| && addrs[k].prefix.Contains(a)
  {
  }

  lemma AllowedAddr(rules: seq<Rule>, t: Table, a: Addr, found: Option<string>)
    requires t.addrs == Ranges(rules) && ReportsAddr(t.addrs, a, found)
    ensures found.Some? <==> SomeMatchesAddr(rules, a)
  {
    FoundAddr(t.addrs, a, found);
    InSomeRange(rules, a);
  }

  lemma DeniedAddr(rules: seq<Rule>, t: Table, a: Addr, found: Option<string>)
    requires HoldsAny(t.any, rules) && t.addrs == Ranges(rules) + CatchAll(t.any) && ReportsAddr(t.addrs, a, found)
    requires a.IsValid() && a.Zone() == ""
    ensures found.Some? <==> DeniesAddr(rules, a)
  {
    var ranges := Ranges(rules);
    FoundAddr(t.addrs, a, found);
    InSomeRange(rules, a);
    if t.any != "" {
      ContainsAll(a);
      assert t.addrs[|ranges|].prefix == ALL_V4 && t.addrs[|ranges| + 1].prefix == ALL_V6;
      assert rules[First(rules, Any).value].pattern == Any;
    } else {
      assert t.addrs == ranges;
    }
  }

  // ---------------------------------------------------------------------------------------------
  // Deciding a request

  datatype Reason =
    | InvalidHost
    | InvalidPort
    | DenyRuleMatched
    | NoAllowRule
    | PortNotAllowed
    | LookupFailed
    | AddressDenied(addr: Addr)
    | AddressNotAllowed(addr: Addr)
    | AllowRuleMatched

  datatype Decision = Decision(allow: bool, rule: string, reason: Reason, addrs: seq<Addr>, port: Port)

  function Refuse(reason: Reason, rule: string): Decision { Decision(false, rule, reason, [], 0) }

  /** A resolver gives the same answer whenever it is asked, and it is recorded what it is asked. */
  class Resolver {
    const answers: Answers
    var asked: seq<string>

    constructor (answers: Answers)
      ensures this.answers == answers && asked == []
    {
      this.answers := answers;
      asked := [];
    }

    method LookupNetIP(name: string) returns (found: Option<seq<Addr>>)
      modifies this
      ensures found == answers(name) && asked == old(asked) + [name]
    {
      asked := asked + [name];
      found := answers(name);
    }
  }

  method Resolve(res: Resolver, name: string) returns (addrs: Option<seq<Addr>>)
    modifies res
    ensures addrs == Addresses(res.answers, Name(name)) && res.asked == old(res.asked) + [name]
  {
    var found := res.LookupNetIP(name);
    if found.None? || found.value == [] {
      return None;
    }
    var out := [];
    for i := 0 to |found.value|
      invariant out == Unmapped(found.value[..i]) && res.asked == old(res.asked) + [name]
      invariant forall k :: 0 <= k < i ==> Usable(found.value[k])
    {
      var a := found.value[i].Unmap();
      if !a.IsValid() || a.Zone() != "" {
        assert !Usable(found.value[i]);
        return None;
      }
      out := out + [a];
    }
    assert found.value[..|found.value|] == found.value;
    return Some(out);
  }

  method IsPublic(lib: Library, a: Addr) returns (public: bool)
    ensures public <==> Public(lib, a)
  {
    for k := 0 to |lib.nonPublic|
      invariant forall m :: 0 <= m < k ==> !lib.nonPublic[m].Contains(a)
    {
      if lib.nonPublic[k].Contains(a) {
        return false;
      }
    }
    return true;
  }

  method PortAllowed(s: Subnet, port: Port) returns (ok: bool)
    ensures ok <==> AllowsPort(s.ports, port)
  {
    for k := 0 to |s.ports|
      invariant forall m :: 0 <= m < k ==> !s.ports[m].Contains(port)
    {
      if s.ports[k].Contains(port) {
        return true;
      }
    }
    return false;
  }

  /** The rule reported for a destination. */
  ghost predicate ReportsFor(lib: Library, t: Table, rules: seq<Rule>, d: Destination, found: Option<string>) {
    match d
    case Name(name) => Reports(lib, rules, name, found)
    case Literal(a) => ReportsAddr(t.addrs, a, found)
  }

  /** The rule that is named when an address is refused. */
  ghost predicate AddrRuleOf(deny: Table, reason: Reason, rule: string) {
    match reason
    case AddressDenied(a) => ReportsAddr(deny.addrs, a, Some(rule))
    case AddressNotAllowed(_) => rule == ""
    case _ => false
  }

  /** The rule that decided, if one did. */
  ghost predicate RuleOf(lib: Library, allow: Table, deny: Table, lists: Lists, d: Destination, reason: Reason, rule: string) {
    match reason
    case AllowRuleMatched => ReportsFor(lib, allow, lists.allow, d, Some(rule))
    case DenyRuleMatched => ReportsFor(lib, deny, lists.deny, d, Some(rule))
    case AddressDenied(_) => AddrRuleOf(deny, reason, rule)
    case _ => rule == ""
  }

  predicate Plain(d: Destination) { d.Literal? ==> d.addr.IsValid() && d.addr.Zone() == "" }

  method Match(lib: Library, rs: RuleSet, d: Destination, ghost rules: seq<Rule>) returns (found: Option<string>)
    requires HoldsNames(lib, rs.View(), rules)
    ensures ReportsFor(lib, rs.View(), rules, d, found)
  {
    if d.Literal? {
      found := rs.MatchAddr(d.addr);
    } else {
      found := rs.MatchName(lib, d.name, rules);
    }
  }

  method MatchDeny(lib: Library, s: Subnet, d: Destination, ghost lists: Lists) returns (found: Option<string>)
    requires Compiled(lib, lists, s) && Plain(d)
    ensures found.Some? <==> Denies(lib, lists.deny, d)
    ensures ReportsFor(lib, s.deny.View(), lists.deny, d, found)
  {
    ghost var rules := lists.deny;
    found := Match(lib, s.deny, d, rules);
    if d.Literal? {
      DeniedAddr(rules, s.deny.View(), d.addr, found);
    } else {
      NameMatches(lib, rules, d.name, found);
    }
  }

  method MatchAllow(lib: Library, s: Subnet, d: Destination, ghost lists: Lists) returns (found: Option<string>)
    requires Compiled(lib, lists, s)
    ensures found.Some? <==> Allows(lib, lists.allow, d)
    ensures ReportsFor(lib, s.allow.View(), lists.allow, d, found)
  {
    ghost var rules := lists.allow;
    found := Match(lib, s.allow, d, rules);
    if d.Literal? {
      AllowedAddr(rules, s.allow.View(), d.addr, found);
    } else {
      NameMatches(lib, rules, d.name, found);
    }
  }

  function BadReason(denied: bool, a: Addr): Reason { if denied then AddressDenied(a) else AddressNotAllowed(a) }

  method CheckAddr(lib: Library, s: Subnet, a: Addr, ghost lists: Lists) returns (bad: Option<Decision>)
    requires Compiled(lib, lists, s) && a.IsValid() && a.Zone() == ""
    ensures bad.None? <==> AddrPasses(lib, lists, a)
    ensures bad.Some? ==> bad.value == Refuse(BadReason(DeniesAddr(lists.deny, a), a), bad.value.rule)
    ensures bad.Some? ==> AddrRuleOf(s.deny.View(), bad.value.reason, bad.value.rule)
  {
    var denied := s.deny.MatchAddr(a);
    DeniedAddr(lists.deny, s.deny.View(), a, denied);
    if denied.Some? {
      return Some(Refuse(AddressDenied(a), denied.value));
    }
    var public := IsPublic(lib, a);
    if !public {
      var allowed := s.allow.MatchAddr(a);
      AllowedAddr(lists.allow, s.allow.View(), a, allowed);
      if allowed.None? {
        return Some(Refuse(AddressNotAllowed(a), ""));
      }
    }
    return None;
  }

  /** The first address, if any, that may not be reached, and why. */
  method CheckAddrs(lib: Library, s: Subnet, addrs: seq<Addr>, ghost lists: Lists) returns (bad: Option<Decision>)
    requires Compiled(lib, lists, s) && forall i :: 0 <= i < |addrs| ==> addrs[i].IsValid() && addrs[i].Zone() == ""
    ensures bad.None? ==> PassUpTo(lib, lists, addrs, |addrs|)
    ensures bad.Some? ==> !bad.value.allow && bad.value.addrs == [] && FirstBad(lib, lists, addrs, bad.value.reason)
    ensures bad.Some? ==> AddrRuleOf(s.deny.View(), bad.value.reason, bad.value.rule)
  {
    for i := 0 to |addrs|
      invariant PassUpTo(lib, lists, addrs, i)
    {
      StillCompiled(lib, lists, s);
      bad := CheckAddr(lib, s, addrs[i], lists);
      if bad.Some? {
        assert IsFirstBad(lib, lists, addrs, bad.value.reason, i);
        return;
      }
      PassNext(lib, lists, addrs, i);
    }
    return None;
  }

  lemma PassNext(lib: Library, lists: Lists, addrs: seq<Addr>, i: nat)
    requires i < |addrs| && PassUpTo(lib, lists, addrs, i) && AddrPasses(lib, lists, addrs[i])
    ensures PassUpTo(lib, lists, addrs, i + 1)
  {
  }

  predicate PassUpTo(lib: Library, lists: Lists, addrs: seq<Addr>, n: nat)
    requires n <= |addrs|
  {
    forall k :: 0 <= k < n ==> AddrPasses(lib, lists, addrs[k])
  }

  predicate IsFirstBad(lib: Library, lists: Lists, addrs: seq<Addr>, reason: Reason, k: nat) {
    && k < |addrs| && PassUpTo(lib, lists, addrs, k) && !AddrPasses(lib, lists, addrs[k])
    && reason == BadReason(DeniesAddr(lists.deny, addrs[k]), addrs[k])
  }

  ghost predicate FirstBad(lib: Library, lists: Lists, addrs: seq<Addr>, reason: Reason) {
    exists k: nat :: IsFirstBad(lib, lists, addrs, reason, k)
  }

  lemma AllPass(lib: Library, lists: Lists, addrs: seq<Addr>)
    requires PassUpTo(lib, lists, addrs, |addrs|)
    ensures forall a :: a in addrs ==> AddrPasses(lib, lists, a)
  {
  }

  lemma FirstBadFails(lib: Library, lists: Lists, addrs: seq<Addr>, reason: Reason)
    requires FirstBad(lib, lists, addrs, reason)
    ensures exists a :: a in addrs && !AddrPasses(lib, lists, a)
  {
    var k: nat :| IsFirstBad(lib, lists, addrs, reason, k);
    assert addrs[k] in addrs;
  }

  ghost function EarlyReason(lib: Library, lists: Lists, d: Destination): Reason {
    if Denies(lib, lists.deny, d) then DenyRuleMatched
    else if !Allows(lib, lists.allow, d) then NoAllowRule
    else PortNotAllowed
  }

  /** When each reason is given: the first of the checks that fails. */
  ghost predicate Explains(lib: Library, lists: Lists, answers: Answers, d: Destination, port: Port, reason: Reason) {
    if !Passes(lib, lists, d, port) then reason == EarlyReason(lib, lists, d)
    else if Addresses(answers, d).None? then reason == LookupFailed
    else if Admits(lib, lists, answers, d, port) then reason == AllowRuleMatched
    else FirstBad(lib, lists, Addresses(answers, d).value, reason)
  }

  lemma AddressesArePlain(answers: Answers, d: Destination)
    requires Plain(d)
    ensures Addresses(answers, d).Some? ==>
              forall i :: 0 <= i < |Addresses(answers, d).value| ==>
                Addresses(answers, d).value[i].IsValid() && Addresses(answers, d).value[i].Zone() == ""
  {
    if d.Name? && Addresses(answers, d).Some? {
      var found := answers(d.name).value;
      forall i | 0 <= i < |found|
        ensures Usable(found[i])
      {
      }
    }
  }

  /** Names are looked up once, and only if the name and the port have passed. */
  function Lookups(passes: bool, d: Destination): seq<string> { if passes && d.Name? then [d.name] else [] }

  /** The checks before any lookup. */
  method CheckName(lib: Library, s: Subnet, d: Destination, port: Port, ghost lists: Lists)
    returns (bad: Option<Decision>, rule: string)
    requires Compiled(lib, lists, s) && Plain(d)
    ensures bad.None? <==> Passes(lib, lists, d, port)
    ensures bad.Some? ==> bad.value == Refuse(EarlyReason(lib, lists, d), rule)
    ensures RuleOf(lib, s.allow.View(), s.deny.View(), lists, d, if bad.Some? then bad.value.reason else AllowRuleMatched, rule)
  {
    var denied := MatchDeny(lib, s, d, lists);
    if denied.Some? {
      return Some(Refuse(DenyRuleMatched, denied.value)), denied.value;
    }
    var allowed := MatchAllow(lib, s, d, lists);
    if allowed.None? {
      return Some(Refuse(NoAllowRule, "")), "";
    }
    var ok := PortAllowed(s, port);
    if !ok {
      return Some(Refuse(PortNotAllowed, "")), "";
    }
    return None, allowed.value;
  }

  /** The part of `Check` after the host and port have been read. */
  method Decide(lib: Library, s: Subnet, res: Resolver, d: Destination, port: Port, ghost lists: Lists)
    returns (r: Decision)
    requires Compiled(lib, lists, s) && Plain(d)
    modifies res
    ensures r.allow <==> Admits(lib, lists, res.answers, d, port)
    ensures r.addrs == if r.allow then Addresses(res.answers, d).value else []
    ensures r.allow ==> r.port == port
    ensures Explains(lib, lists, res.answers, d, port, r.reason)
    ensures RuleOf(lib, s.allow.View(), s.deny.View(), lists, d, r.reason, r.rule)
    ensures res.asked == old(res.asked) + Lookups(Passes(lib, lists, d, port), d)
  {
    var bad, rule := CheckName(lib, s, d, port, lists);
    if bad.Some? {
      return bad.value;
    }
    var addrs := Some([]);
    if d.Literal? {
      addrs := Some([d.addr]);
    } else {
      addrs := Resolve(res, d.name);
      if addrs.None? {
        return Refuse(LookupFailed, "");
      }
    }
    AddressesArePlain(res.answers, d);
    StillCompiled(lib, lists, s);
    bad := CheckAddrs(lib, s, addrs.value, lists);
    if bad.Some? {
      FirstBadFails(lib, lists, addrs.value, bad.value.reason);
      return bad.value;
    }
    AllPass(lib, lists, addrs.value);
    return Decision(true, rule, AllowRuleMatched, addrs.value, port);
  }

  lemma TargetIsPlain(lib: Library, host: string)
    requires lib.ParsesAddresses() && Target(lib, host).Some?
    ensures Plain(Target(lib, host).value)
  {
    if Target(lib, host).value.Literal? {
      LiteralIsPlain(lib, host);
    }
  }

  lemma OnePort(lib: Library, lists: Lists, answers: Answers, host: string, port: string, n: Port)
    requires Target(lib, host).Some? && IsPort(port, n)
    ensures forall m :: IsPort(port, m) ==> m == n
    ensures Allowed(lib, lists, answers, host, port) <==> Admits(lib, lists, answers, Target(lib, host).value, n)
  {
    forall m | IsPort(port, m)
      ensures m == n
    {
      PortUnique(port, m, n);
    }
  }

  /** Decides a request of a client of the subnet. */
  method Check(lib: Library, s: Subnet, res: Resolver, host: string, port: string, ghost lists: Lists)
    returns (r: Decision)
    requires lib.ParsesAddresses() && Compiled(lib, lists, s)
    modifies res
    ensures r.allow <==> Allowed(lib, lists, res.answers, host, port)
    ensures r.allow ==> r.addrs == Addresses(res.answers, Target(lib, host).value).value && IsPort(port, r.port)
    ensures !r.allow ==> r.addrs == []
    ensures match Target(lib, host)
            case Some(d) => RuleOf(lib, s.allow.View(), s.deny.View(), lists, d, r.reason, r.rule)
            case None => r.rule == ""
    ensures r.reason == InvalidHost <==> Target(lib, host).None?
    ensures r.reason == InvalidPort <==> Target(lib, host).Some? && forall n :: !IsPort(port, n)
    ensures Target(lib, host).Some? ==>
              forall n: Port :: IsPort(port, n) ==>
                && Explains(lib, lists, res.answers, Target(lib, host).value, n, r.reason)
                && res.asked == old(res.asked) + Lookups(Passes(lib, lists, Target(lib, host).value, n), Target(lib, host).value)
    ensures r.reason == InvalidHost || r.reason == InvalidPort ==> res.asked == old(res.asked)
  {
    var d := ParseHost(lib, host);
    if d.Err? {
      return Refuse(InvalidHost, "");
    }
    TargetIsPlain(lib, host);
    var n := ParsePort(port);
    if n.Err? {
      return Refuse(InvalidPort, "");
    }
    OnePort(lib, lists, res.answers, host, port, n.value);
    r := Decide(lib, s, res, d.value, n.value, lists);
  }
}
