/** The compiled form of a list: maps for exact names and domains, a list to try, and ranges. */
module RuleSets {
  import opened Basics
  import opened Netip
  import opened Text
  import opened Regexes
  import opened Wildcards
  import opened Foreign
  import opened Hostnames
  import opened Patterns
  import opened Meanings
  import opened Rules

  /** The fields of a rule set at one moment. */
  datatype Table = Table(exact: map<string, string>, suffix: map<string, string>, names: seq<NameRule>, any: string,
                         addrs: seq<AddrRule>)

  /** The name rules of the list, compiled. */
  ghost predicate HoldsNames(lib: Library, t: Table, rules: seq<Rule>) {
    && FindsExact(t.exact, rules)
    && FindsSuffix(t.suffix, rules)
    && HoldsAny(t.any, rules)
    && AgreeAll(lib, t.names, Listed(rules))
  }

  ghost predicate Holds(lib: Library, t: Table, rules: seq<Rule>) {
    HoldsNames(lib, t, rules) && t.addrs == Ranges(rules)
  }

  // ---------------------------------------------------------------------------------------------
  // Compiling

  function AddOnce(m: map<string, string>, name: string, text: string): map<string, string> {
    if name in m then m else m[name := text]
  }

  /** The table after one more rule; `test` is for a rule that has to be tried. */
  function Added(t: Table, rule: Rule, test: string -> bool): Table {
    match rule.pattern
    case Exact(name) => t.(exact := AddOnce(t.exact, name, rule.text))
    case Suffix(domain) => t.(suffix := AddOnce(t.suffix, domain, rule.text))
    case Any => t.(any := if t.any == "" then rule.text else t.any)
    case Range(prefix) => t.(addrs := t.addrs + [AddrRule(rule.text, prefix)])
    case _ => t.(names := t.names + [NameRule(rule.text, test)])
  }

  lemma AddedFields(t: Table, rule: Rule, test: string -> bool)
    ensures var t', p := Added(t, rule, test), rule.pattern;
            && t'.exact == (if p.Exact? then AddOnce(t.exact, p.name, rule.text) else t.exact)
            && t'.suffix == (if p.Suffix? then AddOnce(t.suffix, p.domain, rule.text) else t.suffix)
            && t'.any == (if p.Any? && t.any == "" then rule.text else t.any)
            && t'.names == (if Tested(p) then t.names + [NameRule(rule.text, test)] else t.names)
            && t'.addrs == t.addrs + (if p.Range? then [AddrRule(rule.text, p.prefix)] else [])
  {
  }

  ghost predicate FindsExact(m: map<string, string>, rules: seq<Rule>) { forall n :: FoundIn(m, n, rules, Exact(n)) }

  ghost predicate FindsSuffix(m: map<string, string>, rules: seq<Rule>) { forall d :: FoundIn(m, d, rules, Suffix(d)) }

  lemma AddedExact(m: map<string, string>, rules: seq<Rule>, rule: Rule)
    requires FindsExact(m, rules)
    ensures FindsExact(if rule.pattern.Exact? then AddOnce(m, rule.pattern.name, rule.text) else m, rules + [rule])
  {
    var m' := if rule.pattern.Exact? then AddOnce(m, rule.pattern.name, rule.text) else m;
    forall n
      ensures FoundIn(m', n, rules + [rule], Exact(n))
    {
      FoundStep(m, n, rules, rule, Exact(n));
    }
  }

  lemma AddedSuffix(m: map<string, string>, rules: seq<Rule>, rule: Rule)
    requires FindsSuffix(m, rules)
    ensures FindsSuffix(if rule.pattern.Suffix? then AddOnce(m, rule.pattern.domain, rule.text) else m, rules + [rule])
  {
    var m' := if rule.pattern.Suffix? then AddOnce(m, rule.pattern.domain, rule.text) else m;
    forall d
      ensures FoundIn(m', d, rules + [rule], Suffix(d))
    {
      FoundStep(m, d, rules, rule, Suffix(d));
    }
  }

  /** Every kind of rule goes where a lookup will find it. */
  lemma AddedHolds(lib: Library, t: Table, rules: seq<Rule>, rule: Rule, test: string -> bool)
    requires Holds(lib, t, rules) && rule.text != ""
    requires Tested(rule.pattern) ==> forall name :: test(name) <==> MatchesName(lib, rule.pattern, name)
    ensures Holds(lib, Added(t, rule, test), rules + [rule])
  {
    AddedFields(t, rule, test);
    AddedExact(t.exact, rules, rule);
    AddedSuffix(t.suffix, rules, rule);
    AddedAny(t.any, rules, rule);
    AddedNames(lib, t.names, rules, rule, test);
    Extend(rules, rule, Any);
  }

  lemma AddedNames(lib: Library, names: seq<NameRule>, rules: seq<Rule>, rule: Rule, test: string -> bool)
    requires AgreeAll(lib, names, Listed(rules)) && (Tested(rule.pattern) ==> Agrees(lib, NameRule(rule.text, test), rule))
    ensures AgreeAll(lib, if Tested(rule.pattern) then names + [NameRule(rule.text, test)] else names, Listed(rules + [rule]))
  {
    Extend(rules, rule, Any);
    if Tested(rule.pattern) {
      AgreeMore(lib, names, Listed(rules), NameRule(rule.text, test), rule);
    }
  }

  lemma AddedAny(any: string, rules: seq<Rule>, rule: Rule)
    requires HoldsAny(any, rules) && rule.text != ""
    ensures HoldsAny(if rule.pattern.Any? && any == "" then rule.text else any, rules + [rule])
  {
    Extend(rules, rule, Any);
  }

  lemma AgreeMore(lib: Library, names: seq<NameRule>, listed: seq<Rule>, r: NameRule, rule: Rule)
    requires AgreeAll(lib, names, listed) && Agrees(lib, r, rule)
    ensures AgreeAll(lib, names + [r], listed + [rule])
  {
    forall k | 0 <= k < |names| + 1
      ensures Agrees(lib, (names + [r])[k], (listed + [rule])[k])
    {
      if k < |names| {
        assert Agrees(lib, names[k], listed[k]);
      }
    }
  }

  /** A pattern matches exactly the names that the text means. */
  ghost predicate Agreed(lib: Library, p: string, pattern: Pattern)
    requires p != ""
  {
    forall name :: MatchesName(lib, pattern, name) <==> NameMeans(p, name)
  }

  lemma PatternAgreed(lib: Library, p: string)
    requires p != ""
    ensures NamePattern(p).Some? <==> Writable(p)
    ensures NamePattern(p).Some? ==> Agreed(lib, p, NamePattern(p).value)
  {
    NamePatternMeans(lib, p, "");
    forall name | NamePattern(p).Some?
      ensures MatchesName(lib, NamePattern(p).value, name) <==> NameMeans(p, name)
    {
      NamePatternMeans(lib, p, name);
    }
  }

  /** A name pattern, and the test for it if it has to be tried. `MustCompile` is never called with an
      expression that does not compile. */
  method CompileNamePattern(lib: Library, p: string) returns (r: Result<Pattern>, test: string -> bool)
    requires lib.MatchesExpressions()
    ensures r.Ok? ==> NamePattern(p) == Some(r.value) && !r.value.Regexp? && !r.value.Range?
    ensures r.Err? ==> NamePattern(p) == None
    ensures r.Ok? && r.value.Wildcard? ==> forall name :: test(name) <==> MatchesName(lib, r.value, name)
    ensures p != "" ==> (r.Ok? <==> Writable(p))
    ensures p != "" && r.Ok? ==> Agreed(lib, p, r.value)
  {
    if p != "" {
      PatternAgreed(lib, p);
    }
    test := name => false;
    var ok := CheckHostChars(p, true);
    if !ok {
      return Err("invalid character"), test;
    }
    var q := Normal(p);
    if q == "*" {
      return Ok(Any), test;
    }
    if "." <= q {
      var valid := ValidateHostname(q[1..], false);
      if valid.Err? {
        return Err(valid.error), test;
      }
      return Ok(Suffix(q[1..])), test;
    }
    if '*' !in q {
      var valid := ValidateHostname(q, false);
      if valid.Err? {
        return Err(valid.error), test;
      }
      return Ok(Exact(q)), test;
    }
    if q[0] == '*' && !("*." <= q) {
      return Err("a leading * must be followed by a dot"), test;
    }
    var valid := ValidateHostname(q, true);
    if valid.Err? {
      return Err(valid.error), test;
    }
    WildcardTest(lib, p);
    test := lib.regexp(Expr(q)).value;
    return Ok(Wildcard(q)), test;
  }

  lemma WildcardTest(lib: Library, p: string)
    requires lib.MatchesExpressions() && HostChars(p, true) && |Normal(p)| <= MAX_NAME
    ensures var test := lib.regexp(Expr(Normal(p)));
            test.Some? && forall name :: test.value(name) <==> GlobMatch(Normal(p), name)
  {
    var q := Normal(p);
    forall i | 0 <= i < |q|
      ensures q[i] != '\\'
    {
      assert HostChar(p[i], true);
    }
    assert WellMade(q);
    ExprCompiles(q);
    forall name
      ensures name in Lang(Compile(Expr(q)).value) <==> GlobMatch(q, name)
    {
      WildcardMeaning(q, name);
    }
  }

  // ---------------------------------------------------------------------------------------------
  // Looking up

  /** What is reported for a name: the text of the rule that wins, or nothing if no rule matches. */
  ghost predicate Reports(lib: Library, rules: seq<Rule>, name: string, found: Option<string>) {
    match found
    case Some(text) => exists i: nat :: Winner(lib, rules, name, i) && rules[i].text == text
    case None => forall i :: 0 <= i < |rules| ==> !MatchesAt(lib, rules, name, i)
  }

  lemma ExactWins(lib: Library, t: Table, rules: seq<Rule>, name: string)
    requires HoldsNames(lib, t, rules) && name in t.exact
    ensures Reports(lib, rules, name, Some(t.exact[name]))
  {
    assert FoundIn(t.exact, name, rules, Exact(name));
    var i := First(rules, Exact(name)).value;
    assert Winner(lib, rules, name, i);
  }

  predicate NoExact(lib: Library, rules: seq<Rule>, name: string) {
    forall j :: 0 <= j < |rules| && MatchesAt(lib, rules, name, j) ==> Rank(rules[j].pattern) > 0
  }

  lemma ExactMissing(lib: Library, t: Table, rules: seq<Rule>, name: string)
    requires HoldsNames(lib, t, rules) && name !in t.exact
    ensures NoExact(lib, rules, name)
  {
    assert FoundIn(t.exact, name, rules, Exact(name));
  }

  lemma DomainWins(lib: Library, t: Table, rules: seq<Rule>, name: string, d: string)
    requires HoldsNames(lib, t, rules) && NoExact(lib, rules, name) && InDomain(name, d) && d in t.suffix
    requires forall e :: InDomain(name, e) && |e| > |d| ==> e !in t.suffix
    ensures Reports(lib, rules, name, Some(t.suffix[d]))
  {
    assert FoundIn(t.suffix, d, rules, Suffix(d));
    var i := First(rules, Suffix(d)).value;
    forall j | 0 <= j < |rules| && j != i && MatchesAt(lib, rules, name, j)
      ensures Precedes(rules, i, j)
    {
      var q := rules[j].pattern;
      if q.Suffix? {
        assert FoundIn(t.suffix, q.domain, rules, q);
        if |q.domain| == |d| {
          SameDomain(name, d, q.domain);
        }
      }
    }
    assert Winner(lib, rules, name, i);
  }

  predicate NoDomain(lib: Library, rules: seq<Rule>, name: string) {
    forall j :: 0 <= j < |rules| && MatchesAt(lib, rules, name, j) ==> Rank(rules[j].pattern) > 1
  }

  lemma DomainMissing(lib: Library, t: Table, rules: seq<Rule>, name: string)
    requires HoldsNames(lib, t, rules) && NoExact(lib, rules, name)
    requires forall e :: InDomain(name, e) ==> e !in t.suffix
    ensures NoDomain(lib, rules, name)
  {
    forall j | 0 <= j < |rules| && MatchesAt(lib, rules, name, j)
      ensures Rank(rules[j].pattern) > 1
    {
      if rules[j].pattern.Suffix? {
        assert FoundIn(t.suffix, rules[j].pattern.domain, rules, rules[j].pattern);
      }
    }
  }

  lemma ListedWins(lib: Library, t: Table, rules: seq<Rule>, name: string, k: nat)
    requires HoldsNames(lib, t, rules) && NoDomain(lib, rules, name) && k < |t.names| && t.names[k].matches(name)
    requires forall m :: 0 <= m < k ==> !t.names[m].matches(name)
    ensures Reports(lib, rules, name, Some(t.names[k].pattern))
  {
    assert forall m :: 0 <= m <= k ==> Agrees(lib, t.names[m], Listed(rules)[m]);
    var i := FirstListed(lib, rules, name, k);
    forall j | 0 <= j < |rules| && j != i && MatchesAt(lib, rules, name, j)
      ensures Precedes(rules, i, j)
    {
    }
    assert Winner(lib, rules, name, i);
  }

  lemma AnyWins(lib: Library, t: Table, rules: seq<Rule>, name: string)
    requires HoldsNames(lib, t, rules) && NoDomain(lib, rules, name)
    requires forall m :: 0 <= m < |t.names| ==> !t.names[m].matches(name)
    ensures Reports(lib, rules, name, if t.any != "" then Some(t.any) else None)
  {
    assert forall m :: 0 <= m < |t.names| ==> Agrees(lib, t.names[m], Listed(rules)[m]);
    NoneListed(lib, rules, name);
    if t.any != "" {
      assert Winner(lib, rules, name, First(rules, Any).value);
    }
  }

  /** The first range an address is in. */
  ghost predicate ReportsAddr(addrs: seq<AddrRule>, a: Addr, found: Option<string>) {
    match found
    case Some(text) =>
      exists k :: 0 <= k < |addrs| && addrs[k].prefix.Contains(a) && addrs[k].pattern == text
                  && forall m :: 0 <= m < k ==> !addrs[m].prefix.Contains(a)
    case None => forall k :: 0 <= k < |addrs| ==> !addrs[k].prefix.Contains(a)
  }

  lemma {:induction false} InSomeRange(rules: seq<Rule>, a: Addr)
    ensures (exists k :: 0 <= k < |Ranges(rules)| && Ranges(rules)[k].prefix.Contains(a)) <==>
            (exists i :: 0 <= i < |rules| && MatchesAddr(rules[i].pattern, a))
  {
    if rules != [] {
      var last := |rules| - 1;
      var front := rules[..last];
      InSomeRange(front, a);
      assert Ranges(front) <= Ranges(rules);
      if i :| 0 <= i < |rules| && MatchesAddr(rules[i].pattern, a) {
        if i < last {
          assert MatchesAddr(front[i].pattern, a);
          var k :| 0 <= k < |Ranges(front)| && Ranges(front)[k].prefix.Contains(a);
          assert Ranges(rules)[k].prefix.Contains(a);
        } else {
          assert Ranges(rules)[|Ranges(front)|].prefix.Contains(a);
        }
      }
      if k :| 0 <= k < |Ranges(rules)| && Ranges(rules)[k].prefix.Contains(a) {
        if k < |Ranges(front)| {
          assert Ranges(front)[k].prefix.Contains(a);
          var i :| 0 <= i < |front| && MatchesAddr(front[i].pattern, a);
          assert MatchesAddr(rules[i].pattern, a);
        } else {
          assert MatchesAddr(rules[last].pattern, a);
        }
      }
    }
  }

  // ---------------------------------------------------------------------------------------------

  class RuleSet {
    var exact: map<string, string>
    var suffix: map<string, string>
    var names: seq<NameRule>
    var any: string
    var addrs: seq<AddrRule>

    function View(): Table
      reads this
    {
      Table(exact, suffix, names, any, addrs)
    }

    constructor ()
      ensures View() == Table(map[], map[], [], "", [])
    {
      exact, suffix, names, any, addrs := map[], map[], [], "", [];
    }

    /** Compiles one more pattern, or leaves the set as it is if it cannot be read. */
    method Add(lib: Library, pattern: string, ghost rules: seq<Rule>) returns (r: Result<()>)
      requires lib.MatchesExpressions() && Holds(lib, View(), rules)
      modifies this
      ensures r.Ok? <==> ParseRule(lib, pattern).Some?
      ensures r.Ok? ==> Holds(lib, View(), rules + [ParseRule(lib, pattern).value])
      ensures r.Err? ==> View() == old(View())
    {
      var p := TrimSpace(pattern);
      if p == "" {
        return Err("empty pattern");
      }
      ghost var rule := ParseRule(lib, pattern);
      if p[0] == '~' {
        if p == "~" {
          return Err("empty regex");
        }
        var test := lib.regexp(UserExpr(p[1..]));
        if test.None? {
          return Err("not a regular expression");
        }
        AddedHolds(lib, View(), rules, rule.value, test.value);
        names := names + [NameRule(p, test.value)];
        return Ok(());
      }
      if ':' in p || '/' in p || lib.parseAddr(p).Some? {
        var prefix := ParsePrefix(lib, p);
        if prefix.None? {
          return Err("not a valid IP or CIDR");
        }
        AddedHolds(lib, View(), rules, rule.value, name => false);
        addrs := addrs + [AddrRule(p, prefix.value)];
        return Ok(());
      }
      r := AddName(lib, p, rules);
    }

    method AddName(lib: Library, p: string, ghost rules: seq<Rule>) returns (r: Result<()>)
      requires lib.MatchesExpressions() && Holds(lib, View(), rules) && p != ""
      modifies this
      ensures r.Ok? <==> NamePattern(p).Some?
      ensures r.Ok? ==> Holds(lib, View(), rules + [Rule(p, NamePattern(p).value)])
      ensures r.Err? ==> View() == old(View())
    {
      var compiled, test := CompileNamePattern(lib, p);
      if compiled.Err? {
        return Err(compiled.error);
      }
      AddedHolds(lib, View(), rules, Rule(p, compiled.value), test);
      if compiled.value.Exact? {
        if compiled.value.name !in exact {
          exact := exact[compiled.value.name := p];
        }
      } else if compiled.value.Suffix? {
        if compiled.value.domain !in suffix {
          suffix := suffix[compiled.value.domain := p];
        }
      } else if compiled.value.Any? {
        if any == "" {
          any := p;
        }
      } else {
        names := names + [NameRule(p, test)];
      }
      return Ok(());
    }

    /** The most specific rule for a name. */
    method MatchName(lib: Library, name: string, ghost rules: seq<Rule>) returns (found: Option<string>)
      requires HoldsNames(lib, View(), rules)
      ensures Reports(lib, rules, name, found)
    {
      if name in exact {
        ExactWins(lib, View(), rules, name);
        return Some(exact[name]);
      }
      ExactMissing(lib, View(), rules, name);
      if |suffix| > 0 {
        var domain := LongestDomain(name);
        if domain.Some? {
          DomainWins(lib, View(), rules, name, domain.value);
          return Some(suffix[domain.value]);
        }
      }
      DomainMissing(lib, View(), rules, name);
      for k := 0 to |names|
        invariant forall m :: 0 <= m < k ==> !names[m].matches(name)
      {
        if names[k].matches(name) {
          ListedWins(lib, View(), rules, name, k);
          return Some(names[k].pattern);
        }
      }
      AnyWins(lib, View(), rules, name);
      return if any != "" then Some(any) else None;
    }

    /** The longest listed domain that a name is in. */
    method LongestDomain(name: string) returns (r: Option<string>)
      ensures r.Some? ==> InDomain(name, r.value) && r.value in suffix
      ensures r.Some? ==> forall e :: InDomain(name, e) && |e| > |r.value| ==> e !in suffix
      ensures r.None? ==> forall e :: InDomain(name, e) ==> e !in suffix
    {
      var d := name;
      while true
        invariant InDomain(name, d)
        invariant forall e :: InDomain(name, e) && |e| > |d| ==> e !in suffix
        decreases |d|
      {
        if d in suffix {
          return Some(d);
        }
        forall e | InDomain(name, e) && |e| == |d|
          ensures e == d
        {
          SameDomain(name, d, e);
        }
        forall e | InDomain(name, e) && |e| < |d|
          ensures IndexOfDot(d) >= 0 && |e| <= |d| - IndexOfDot(d) - 1
        {
          NextDomain(name, d, e);
        }
        var i := IndexOfDot(d);
        if i < 0 {
          return None;
        }
        ShorterDomain(name, d);
        d := d[i + 1..];
      }
    }

    method MatchAddr(a: Addr) returns (found: Option<string>)
      ensures ReportsAddr(addrs, a, found)
    {
      for k := 0 to |addrs|
        invariant forall m :: 0 <= m < k ==> !addrs[m].prefix.Contains(a)
      {
        if addrs[k].prefix.Contains(a) {
          return Some(addrs[k].pattern);
        }
      }
      return None;
    }
  }

  /** Compiles a whole list, or nothing if some pattern cannot be read. */
  method CompileRules(lib: Library, patterns: seq<string>) returns (r: Result<RuleSet>)
    requires lib.MatchesExpressions()
    ensures r.Ok? <==> ParseRules(lib, patterns).Some?
    ensures r.Ok? ==> fresh(r.value) && Holds(lib, r.value.View(), ParseRules(lib, patterns).value)
  {
    var rs := new RuleSet();
    EmptyHolds(lib, rs.View());
    ghost var rules: seq<Rule> := [];
    for i := 0 to |patterns|
      invariant Holds(lib, rs.View(), rules) && fresh(rs)
      invariant ParseRules(lib, patterns[..i]) == Some(rules)
    {
      ParseRulesStep(lib, patterns, i);
      var added := rs.Add(lib, patterns[i], rules);
      if added.Err? {
        return Err(added.error);
      }
      rules := rules + [ParseRule(lib, patterns[i]).value];
    }
    assert patterns[..|patterns|] == patterns;
    return Ok(rs);
  }

  lemma EmptyHolds(lib: Library, t: Table)
    requires t == Table(map[], map[], [], "", [])
    ensures Holds(lib, t, [])
  {
  }

  lemma ParseRulesStep(lib: Library, patterns: seq<string>, i: nat)
    requires i < |patterns| && ParseRules(lib, patterns[..i]).Some?
    ensures ParseRule(lib, patterns[i]).Some? ==>
              ParseRules(lib, patterns[..i + 1]) == Some(ParseRules(lib, patterns[..i]).value + [ParseRule(lib, patterns[i]).value])
    ensures ParseRule(lib, patterns[i]).None? ==> ParseRules(lib, patterns).None?
  {
    assert patterns[..i + 1][..i] == patterns[..i];
  }
}
