/** The policy of a subnet as its configuration states it: what may be reached, from the lists alone. */
module Verdicts {
  import opened Basics
  import opened Netip
  import opened Text
  import opened Ports
  import opened Foreign
  import opened Hostnames
  import opened Patterns

  datatype SubnetSpec = SubnetSpec(name: string, cidrs: seq<string>, ports: seq<string>, allow: seq<string>, deny: seq<string>)

  /** What looking up a name gives; `None` is a failed lookup. */
  type Answers = string -> Option<seq<Addr>>

  /** Not in any of the ranges that need a rule of their own. */
  predicate Public(lib: Library, a: Addr) { forall k :: 0 <= k < |lib.nonPublic| ==> !lib.nonPublic[k].Contains(a) }

  // ---------------------------------------------------------------------------------------------
  // Lists

  /** The lists of a subnet, read. */
  datatype Lists = Lists(ports: seq<PortRange>, allow: seq<Rule>, deny: seq<Rule>)

  const DEFAULT_PORTS := [PortRange(80, 80), PortRange(443, 443)]

  predicate ReadPorts(texts: seq<string>, ports: seq<PortRange>) {
    |ports| == |texts| && forall i :: 0 <= i < |texts| ==> IsPortRange(TrimSpace(texts[i]), ports[i])
  }

  /** What a configuration says. Without a list of ports they are 80 and 443. */
  predicate Reads(lib: Library, spec: SubnetSpec, lists: Lists) {
    && (if spec.ports == [] then lists.ports == DEFAULT_PORTS else ReadPorts(spec.ports, lists.ports))
    && ParseRules(lib, spec.allow) == Some(lists.allow)
    && ParseRules(lib, spec.deny) == Some(lists.deny)
  }

  predicate SomeMatchesName(lib: Library, rules: seq<Rule>, name: string) {
    exists i :: 0 <= i < |rules| && MatchesName(lib, rules[i].pattern, name)
  }

  predicate SomeMatchesAddr(rules: seq<Rule>, a: Addr) {
    exists i :: 0 <= i < |rules| && MatchesAddr(rules[i].pattern, a)
  }

  /** In a deny list `*` is for addresses as well. */
  predicate DeniesAddr(rules: seq<Rule>, a: Addr) {
    SomeMatchesAddr(rules, a) || exists i :: 0 <= i < |rules| && rules[i].pattern == Any
  }

  predicate Denies(lib: Library, rules: seq<Rule>, d: Destination) {
    match d case Name(name) => SomeMatchesName(lib, rules, name) case Literal(a) => DeniesAddr(rules, a)
  }

  predicate Allows(lib: Library, rules: seq<Rule>, d: Destination) {
    match d case Name(name) => SomeMatchesName(lib, rules, name) case Literal(a) => SomeMatchesAddr(rules, a)
  }

  predicate AllowsPort(ports: seq<PortRange>, port: Port) { exists k :: 0 <= k < |ports| && ports[k].Contains(port) }

  // ---------------------------------------------------------------------------------------------
  // The verdict

  predicate Usable(a: Addr) { a.Unmap().IsValid() && a.Unmap().Zone() == "" }

  function Unmapped(found: seq<Addr>): seq<Addr> { seq(|found|, i requires 0 <= i < |found| => found[i].Unmap()) }

  /** The addresses of a destination, if it has any and all are usable. */
  function Addresses(answers: Answers, d: Destination): Option<seq<Addr>> {
    match d
    case Literal(a) => Some([a])
    case Name(name) =>
      match answers(name)
      case None => None
      case Some(found) =>
        if found == [] || exists i :: 0 <= i < |found| && !Usable(found[i]) then None else Some(Unmapped(found))
  }

  /** An address that is not public needs a rule that is about addresses. */
  predicate AddrPasses(lib: Library, lists: Lists, a: Addr) {
    !DeniesAddr(lists.deny, a) && (Public(lib, a) || SomeMatchesAddr(lists.allow, a))
  }

  /** What is decided before anything is looked up. */
  predicate Passes(lib: Library, lists: Lists, d: Destination, port: Port) {
    !Denies(lib, lists.deny, d) && Allows(lib, lists.allow, d) && AllowsPort(lists.ports, port)
  }

  predicate Admits(lib: Library, lists: Lists, answers: Answers, d: Destination, port: Port) {
    && Passes(lib, lists, d, port)
    && Addresses(answers, d).Some?
    && (forall a :: a in Addresses(answers, d).value ==> AddrPasses(lib, lists, a))
  }

  ghost predicate Allowed(lib: Library, lists: Lists, answers: Answers, host: string, port: string) {
    && Target(lib, host).Some?
    && (exists n: Port :: IsPort(port, n) && Admits(lib, lists, answers, Target(lib, host).value, n))
  }

  // ---------------------------------------------------------------------------------------------
  // More rules

  predicate Within(rules: seq<Rule>, more: seq<Rule>) { forall r :: r in rules ==> r in more }

  lemma MoreMatches(lib: Library, rules: seq<Rule>, more: seq<Rule>, d: Destination)
    requires Within(rules, more)
    ensures Denies(lib, rules, d) ==> Denies(lib, more, d)
    ensures Allows(lib, rules, d) ==> Allows(lib, more, d)
  {
    forall i | 0 <= i < |rules|
      ensures exists j :: 0 <= j < |more| && more[j] == rules[i]
    {
      assert rules[i] in more;
    }
  }

  lemma MoreAddresses(lib: Library, lists: Lists, other: Lists, a: Addr)
    requires Within(other.deny, lists.deny) && Within(lists.allow, other.allow)
    requires AddrPasses(lib, lists, a)
    ensures AddrPasses(lib, other, a)
  {
    MoreMatches(lib, other.deny, lists.deny, Literal(a));
    MoreMatches(lib, lists.allow, other.allow, Literal(a));
  }

  /** Fewer deny rules and more allow rules never turn a request away that was let through. */
  lemma RulesAreMonotone(lib: Library, lists: Lists, other: Lists, answers: Answers, host: string, port: string)
    requires Within(other.deny, lists.deny) && Within(lists.allow, other.allow) && other.ports == lists.ports
    requires Allowed(lib, lists, answers, host, port)
    ensures Allowed(lib, other, answers, host, port)
  {
    var d := Target(lib, host).value;
    var n: Port :| IsPort(port, n) && Admits(lib, lists, answers, d, n);
    MoreMatches(lib, other.deny, lists.deny, d);
    MoreMatches(lib, lists.allow, other.allow, d);
    forall a | a in Addresses(answers, d).value
      ensures AddrPasses(lib, other, a)
    {
      MoreAddresses(lib, lists, other, a);
    }
    assert Admits(lib, other, answers, d, n);
  }

  /** A list with the same texts in another order, or more often, has the same rules. */
  lemma SameTexts(lib: Library, texts: seq<string>, more: seq<string>, rules: seq<Rule>, others: seq<Rule>)
    requires ParseRules(lib, texts) == Some(rules) && ParseRules(lib, more) == Some(others)
    requires forall t :: t in texts ==> t in more
    ensures Within(rules, others)
  {
    SameImages(t => ParseRule(lib, t), texts, more, rules, others);
  }

  lemma SameImages(parse: string -> Option<Rule>, texts: seq<string>, more: seq<string>, rules: seq<Rule>, others: seq<Rule>)
    requires |rules| == |texts| && (forall i :: 0 <= i < |texts| ==> parse(texts[i]) == Some(rules[i]))
    requires |others| == |more| && (forall i :: 0 <= i < |more| ==> parse(more[i]) == Some(others[i]))
    requires forall t :: t in texts ==> t in more
    ensures Within(rules, others)
  {
    forall i | 0 <= i < |rules|
      ensures rules[i] in others
    {
      assert texts[i] in more;
      var j :| 0 <= j < |more| && more[j] == texts[i];
      assert others[j] == rules[i];
    }
  }

  /** The order of the rules is of no consequence. */
  lemma OrderDoesNotMatter(lib: Library, spec: SubnetSpec, other: SubnetSpec, lists: Lists, lists': Lists, answers: Answers,
                           host: string, port: string)
    requires Reads(lib, spec, lists) && Reads(lib, other, lists') && lists.ports == lists'.ports
    requires multiset(spec.allow) == multiset(other.allow) && multiset(spec.deny) == multiset(other.deny)
    ensures Allowed(lib, lists, answers, host, port) <==> Allowed(lib, lists', answers, host, port)
  {
    SameMembers(spec.allow, other.allow);
    SameMembers(spec.deny, other.deny);
    SameTexts(lib, spec.allow, other.allow, lists.allow, lists'.allow);
    SameTexts(lib, other.allow, spec.allow, lists'.allow, lists.allow);
    SameTexts(lib, spec.deny, other.deny, lists.deny, lists'.deny);
    SameTexts(lib, other.deny, spec.deny, lists'.deny, lists.deny);
    if Allowed(lib, lists, answers, host, port) {
      RulesAreMonotone(lib, lists, lists', answers, host, port);
    }
    if Allowed(lib, lists', answers, host, port) {
      RulesAreMonotone(lib, lists', lists, answers, host, port);
    }
  }

  lemma SameMembers(a: seq<string>, b: seq<string>)
    requires multiset(a) == multiset(b)
    ensures forall t :: t in a <==> t in b
  {
    forall t
      ensures t in a <==> t in b
    {
      assert t in a <==> t in multiset(a);
      assert t in b <==> t in multiset(b);
    }
  }
}
