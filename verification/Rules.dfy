/** A list of patterns compiled for fast lookup, and what a lookup finds. */
module Rules {
  import opened Basics
  import opened Netip
  import opened Foreign
  import opened Patterns

  datatype NameRule = NameRule(pattern: string, matches: string -> bool)

  datatype AddrRule = AddrRule(pattern: string, prefix: Prefix)

  // ---------------------------------------------------------------------------------------------
  // Which rule is reported

  /** Exact names come first, then domains, then wildcards and expressions, then `*`. */
  function Rank(p: Pattern): nat {
    match p
    case Exact(_) => 0
    case Suffix(_) => 1
    case Wildcard(_) => 2
    case Regexp(_) => 2
    case Any => 3
    case Range(_) => 4
  }

  /** Of two domains the longer comes first; otherwise the order of the list decides. */
  predicate Precedes(rules: seq<Rule>, i: nat, j: nat)
    requires i < |rules| && j < |rules|
  {
    var p, q := rules[i].pattern, rules[j].pattern;
    || Rank(p) < Rank(q)
    || (Rank(p) == Rank(q) &&
        if p.Suffix? && q.Suffix? && |p.domain| != |q.domain| then |p.domain| > |q.domain| else i < j)
  }

  predicate MatchesAt(lib: Library, rules: seq<Rule>, name: string, i: nat)
    requires i < |rules|
  {
    MatchesName(lib, rules[i].pattern, name)
  }

  /** Rule `i` matches, and comes before every other rule that does. */
  ghost predicate Winner(lib: Library, rules: seq<Rule>, name: string, i: nat) {
    && i < |rules| && MatchesAt(lib, rules, name, i)
    && (forall j :: 0 <= j < |rules| && j != i && MatchesAt(lib, rules, name, j) ==> Precedes(rules, i, j))
  }

  lemma WinnerUnique(lib: Library, rules: seq<Rule>, name: string, i: nat, j: nat)
    requires Winner(lib, rules, name, i) && Winner(lib, rules, name, j)
    ensures i == j
  {
    assert MatchesAt(lib, rules, name, i) && MatchesAt(lib, rules, name, j);
  }

  // ---------------------------------------------------------------------------------------------
  // What a compiled list holds

  /** The first rule with this pattern. */
  function First(rules: seq<Rule>, p: Pattern): (r: Option<nat>)
    ensures r.Some? ==> r.value < |rules| && rules[r.value].pattern == p
    ensures r.Some? ==> forall j :: 0 <= j < r.value ==> rules[j].pattern != p
    ensures r.None? ==> forall j :: 0 <= j < |rules| ==> rules[j].pattern != p
  {
    if rules == [] then None
    else
      var last := |rules| - 1;
      match First(rules[..last], p)
      case Some(i) => Some(i)
      case None => if rules[last].pattern == p then Some(last) else None
  }

  predicate Tested(p: Pattern) { p.Wildcard? || p.Regexp? }

  /** The rules that have to be tried one by one. */
  function Listed(rules: seq<Rule>): seq<Rule> {
    if rules == [] then []
    else
      var last := |rules| - 1;
      Listed(rules[..last]) + if Tested(rules[last].pattern) then [rules[last]] else []
  }

  function Ranges(rules: seq<Rule>): seq<AddrRule> {
    if rules == [] then []
    else
      var last := |rules| - 1;
      var p := rules[last].pattern;
      Ranges(rules[..last]) + if p.Range? then [AddrRule(rules[last].text, p.prefix)] else []
  }

  predicate FoundIn(m: map<string, string>, name: string, rules: seq<Rule>, p: Pattern) {
    match First(rules, p)
    case Some(i) => name in m && m[name] == rules[i].text
    case None => name !in m
  }

  predicate HoldsAny(any: string, rules: seq<Rule>) {
    match First(rules, Any)
    case Some(i) => any == rules[i].text && any != ""
    case None => any == ""
  }

  ghost predicate Agrees(lib: Library, r: NameRule, rule: Rule) {
    r.pattern == rule.text && forall name :: r.matches(name) <==> MatchesName(lib, rule.pattern, name)
  }

  ghost predicate AgreeAll(lib: Library, names: seq<NameRule>, listed: seq<Rule>) {
    |names| == |listed| && forall k :: 0 <= k < |names| ==> Agrees(lib, names[k], listed[k])
  }

  lemma Extend(rules: seq<Rule>, rule: Rule, p: Pattern)
    ensures First(rules + [rule], p) ==
            if First(rules, p).Some? then First(rules, p) else if rule.pattern == p then Some(|rules|) else None
    ensures Listed(rules + [rule]) == Listed(rules) + if Tested(rule.pattern) then [rule] else []
    ensures Ranges(rules + [rule]) ==
            Ranges(rules) + if rule.pattern.Range? then [AddrRule(rule.text, rule.pattern.prefix)] else []
  {
    assert (rules + [rule])[..|rules|] == rules;
  }

  /** Adding a rule to a map changes nothing about the names it is not for. */
  lemma FoundStep(m: map<string, string>, name: string, rules: seq<Rule>, rule: Rule, p: Pattern)
    requires FoundIn(m, name, rules, p)
    ensures rule.pattern != p ==> FoundIn(m, name, rules + [rule], p)
    ensures rule.pattern == p ==> FoundIn(if name in m then m else m[name := rule.text], name, rules + [rule], p)
  {
    Extend(rules, rule, p);
  }

  // ---------------------------------------------------------------------------------------------
  // The rules that are tried one by one

  lemma {:induction false} ListedAt(rules: seq<Rule>, k: nat) returns (i: nat)
    requires k < |Listed(rules)|
    ensures i < |rules| && Tested(rules[i].pattern) && rules[i] == Listed(rules)[k]
    ensures Listed(rules[..i]) == Listed(rules)[..k]
  {
    var last := |rules| - 1;
    var front := rules[..last];
    if k < |Listed(front)| {
      i := ListedAt(front, k);
      assert front[..i] == rules[..i];
      assert Listed(rules)[..k] == Listed(front)[..k];
    } else {
      i := last;
      assert Listed(rules)[..k] == Listed(front);
    }
  }

  lemma {:induction false} IsListed(rules: seq<Rule>, i: nat)
    requires i < |rules| && Tested(rules[i].pattern)
    ensures rules[i] in Listed(rules)
  {
    var last := |rules| - 1;
    if i < last {
      IsListed(rules[..last], i);
    }
  }

  /** The first of them that matches is the first in the whole list that does. */
  lemma FirstListed(lib: Library, rules: seq<Rule>, name: string, k: nat) returns (i: nat)
    requires k < |Listed(rules)| && MatchesName(lib, Listed(rules)[k].pattern, name)
    requires forall m :: 0 <= m < k ==> !MatchesName(lib, Listed(rules)[m].pattern, name)
    ensures i < |rules| && rules[i] == Listed(rules)[k] && Tested(rules[i].pattern)
    ensures forall j :: 0 <= j < i && Tested(rules[j].pattern) ==> !MatchesAt(lib, rules, name, j)
  {
    i := ListedAt(rules, k);
    forall j | 0 <= j < i && Tested(rules[j].pattern)
      ensures !MatchesAt(lib, rules, name, j)
    {
      IsListed(rules[..i], j);
      assert rules[..i][j] == rules[j];
      var m :| 0 <= m < k && Listed(rules)[m] == rules[j];
    }
  }

  lemma NoneListed(lib: Library, rules: seq<Rule>, name: string)
    requires forall m :: 0 <= m < |Listed(rules)| ==> !MatchesName(lib, Listed(rules)[m].pattern, name)
    ensures forall j :: 0 <= j < |rules| && Tested(rules[j].pattern) ==> !MatchesAt(lib, rules, name, j)
  {
    forall j | 0 <= j < |rules| && Tested(rules[j].pattern)
      ensures !MatchesAt(lib, rules, name, j)
    {
      IsListed(rules, j);
      var m :| 0 <= m < |Listed(rules)| && Listed(rules)[m] == rules[j];
    }
  }

  // ---------------------------------------------------------------------------------------------
  // Domains

  /** `strings.IndexByte(s, '.')`. */
  function IndexOfDot(s: string): (i: int)
    ensures -1 <= i < |s|
    ensures i >= 0 ==> s[i] == '.' && forall k :: 0 <= k < i ==> s[k] != '.'
    ensures i < 0 ==> forall k :: 0 <= k < |s| ==> s[k] != '.'
  {
    if s == "" then -1
    else if s[0] == '.' then 0
    else
      var i := IndexOfDot(s[1..]);
      assert forall k :: 0 < k < |s| ==> s[k] == s[1..][k - 1];
      if i < 0 then -1 else i + 1
  }

  lemma SameDomain(name: string, d: string, e: string)
    requires InDomain(name, d) && InDomain(name, e) && |d| == |e|
    ensures d == e
  {
  }

  /** Cutting a domain after its first dot gives the next longer domain there is. */
  lemma NextDomain(name: string, d: string, e: string)
    requires InDomain(name, d) && InDomain(name, e) && |e| < |d|
    ensures IndexOfDot(d) >= 0 && |e| <= |d| - IndexOfDot(d) - 1
  {
    var k := |d| - |e| - 1;
    assert d[k] == name[|name| - |e| - 1];
  }

  lemma ShorterDomain(name: string, d: string)
    requires InDomain(name, d) && IndexOfDot(d) >= 0
    ensures InDomain(name, d[IndexOfDot(d) + 1..])
  {
    var i := IndexOfDot(d);
    var e := d[i + 1..];
    assert name[|name| - |e|..] == name[|name| - |d|..][i + 1..];
    assert name[|name| - |e| - 1] == name[|name| - |d|..][i];
  }
}
