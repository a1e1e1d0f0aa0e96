/** What the patterns of an allow or deny list mean. */
module Patterns {
  import opened Basics
  import opened Netip
  import opened Text
  import opened Wildcards
  import opened Foreign
  import opened Hostnames

  datatype Pattern =
    | Exact(name: string)
    | Suffix(domain: string)
    | Any
    | Wildcard(glob: string)
    | Regexp(expr: string)
    | Range(prefix: Prefix)

  /** A pattern and the text it was written as, without the spaces around it. */
  datatype Rule = Rule(text: string, pattern: Pattern)

  // ---------------------------------------------------------------------------------------------
  // Meanings

  /** A name is the domain itself, or ends in a dot and the domain. */
  predicate InDomain(name: string, domain: string) {
    && |domain| <= |name| && name[|name| - |domain|..] == domain
    && (|domain| == |name| || name[|name| - |domain| - 1] == '.')
  }

  /** A user's expression has to match the whole name, in upper or lower case. */
  function UserExpr(expr: string): string { "(?i)^(?:" + expr + ")$" }

  predicate MatchesName(lib: Library, p: Pattern, name: string) {
    match p
    case Exact(n) => name == n
    case Suffix(domain) => InDomain(name, domain)
    case Any => true
    case Wildcard(glob) => GlobMatch(glob, name)
    case Regexp(expr) => var test := lib.regexp(UserExpr(expr)); test.Some? && test.value(name)
    case Range(_) => false
  }

  predicate MatchesAddr(p: Pattern, a: Addr) { p.Range? && p.prefix.Contains(a) }

  predicate LabelSuffix(domain: seq<string>, name: seq<string>) {
    |domain| <= |name| && name[|name| - |domain|..] == domain
  }

  /** Being in a domain is a matter of labels: `evilexample.com` is not in `example.com`. */
  lemma {:induction false} InDomainByLabels(name: string, domain: string)
    ensures InDomain(name, domain) <==> LabelSuffix(Labels(domain), Labels(name))
    decreases |name|
  {
    if name == domain {
      assert name[0..] == name && Labels(name)[0..] == Labels(name);
    } else {
      SameLabelsSameText(name, domain);
      if '.' in name {
        var x, y := AtFirstDot(name);
        InDomainByLabels(y, domain);
        InDomainLater(x, y, domain);
        LabelSuffixLater(x, Labels(y), Labels(domain));
      } else {
        FirstLabel(name, "");
        NoDomain(name, domain);
      }
    }
  }

  lemma SameLabelsSameText(a: string, b: string)
    ensures Labels(a) == Labels(b) ==> a == b
  {
    JoinLabels(a);
    JoinLabels(b);
  }

  lemma NoDomain(name: string, domain: string)
    requires NoDot(name) && name != domain
    ensures !InDomain(name, domain)
  {
    if |domain| < |name| {
      assert name[|name| - |domain| - 1] in name;
    } else if |domain| == |name| {
      assert name[0..] == name;
    }
  }

  lemma InDomainLater(x: string, y: string, domain: string)
    requires NoDot(x) && x + "." + y != domain
    ensures InDomain(x + "." + y, domain) <==> InDomain(y, domain)
  {
    var name := x + "." + y;
    var k := |name| - |domain|;
    if |domain| <= |y| {
      assert name[k..] == y[|y| - |domain|..];
      if |domain| < |y| {
        assert name[k - 1] == y[|y| - |domain| - 1];
      }
    } else if 0 < k {
      assert name[k - 1] == x[k - 1] && x[k - 1] in x;
    } else if k == 0 {
      assert name[0..] == name;
    }
  }

  lemma LabelSuffixLater(x: string, ls: seq<string>, domain: seq<string>)
    requires [x] + ls != domain
    ensures LabelSuffix(domain, [x] + ls) <==> LabelSuffix(domain, ls)
  {
    var all := [x] + ls;
    if |domain| <= |ls| {
      assert all[|all| - |domain|..] == ls[|ls| - |domain|..];
    } else if |domain| == |all| {
      assert all[0..] == all;
    }
  }

  // ---------------------------------------------------------------------------------------------
  // Reading a pattern

  /** A range, or one address. Bits after the prefix must be zero, and IPv4 must be written as IPv4. */
  function ParsePrefix(lib: Library, text: string): (r: Option<Prefix>)
    ensures lib.ParsesAddresses() && r.Some? ==> r.value.IsValid() && r.value.IsMasked() && !r.value.addr.Is4In6()
  {
    var s := TrimSpace(text);
    var parsed :=
      if '/' in s then lib.parsePrefix(s)
      else
        match lib.parseAddr(s)
        case Some(a) => if a.Zone() == "" then Some(Prefix(a, a.BitLen())) else None
        case None => None;
    match parsed
    case None => None
    case Some(p) => if p.addr.Is4In6() || !p.IsValid() || !p.IsMasked() then None else Some(p)
  }

  /** What the library reads in a text: a range, or an address without a zone as a range of its own. */
  predicate WritesPrefix(lib: Library, s: string, p: Prefix) {
    if '/' in s then lib.parsePrefix(s) == Some(p)
    else p.bits == p.addr.BitLen() && p.addr.Zone() == "" && lib.parseAddr(s) == Some(p.addr)
  }

  /** Accepted are exactly the ranges without host bits, and single addresses, that are not IPv4 written as IPv6. */
  lemma PrefixExactly(lib: Library, text: string, p: Prefix)
    requires lib.ParsesAddresses()
    ensures ParsePrefix(lib, text) == Some(p) <==>
            WritesPrefix(lib, TrimSpace(text), p) && !p.addr.Is4In6() && p.IsMasked()
  {
  }

  /** A single address is a range that has that address and no other. */
  lemma SingleAddress(lib: Library, text: string, a: Addr, b: Addr)
    requires lib.ParsesAddresses() && '/' !in TrimSpace(text) && lib.parseAddr(TrimSpace(text)) == Some(a)
    ensures ParsePrefix(lib, text).Some? <==> a.Zone() == "" && !a.Is4In6()
    ensures ParsePrefix(lib, text).Some? ==> (ParsePrefix(lib, text).value.Contains(b) <==> b == a)
  {
    var p := Prefix(a, a.BitLen());
    assert Pow2(0) == 1;
    PrefixExactly(lib, text, p);
    if p.IsValid() && b.Zone() == "" && b.BitLen() == a.BitLen() {
      MaskedIsRange(p, b);
    }
  }

  function NamePattern(p: string): Option<Pattern> {
    var q := Normal(p);
    if !HostChars(p, true) then None
    else if q == "*" then Some(Any)
    else if "." <= q then if ValidHostname(q[1..], false) then Some(Suffix(q[1..])) else None
    else if '*' !in q then if ValidHostname(q, false) then Some(Exact(q)) else None
    else if q[0] == '*' && !("*." <= q) then None
    else if ValidHostname(q, true) then Some(Wildcard(q))
    else None
  }

  function ParsePattern(lib: Library, p: string): Option<Pattern>
    requires p != ""
  {
    if p[0] == '~' then
      if p == "~" || lib.regexp(UserExpr(p[1..])).None? then None else Some(Regexp(p[1..]))
    else if ':' in p || '/' in p || lib.parseAddr(p).Some? then
      match ParsePrefix(lib, p) case Some(prefix) => Some(Range(prefix)) case None => None
    else NamePattern(p)
  }

  function ParseRule(lib: Library, text: string): (r: Option<Rule>)
    ensures r.Some? ==> r.value.text != ""
  {
    var p := TrimSpace(text);
    if p == "" then None
    else match ParsePattern(lib, p) case Some(pattern) => Some(Rule(p, pattern)) case None => None
  }

  /** The rules of a list, if all of it can be read. */
  function ParseRules(lib: Library, texts: seq<string>): (r: Option<seq<Rule>>)
    ensures r.Some? ==> |r.value| == |texts|
    ensures r.Some? ==> forall i :: 0 <= i < |texts| ==> ParseRule(lib, texts[i]) == Some(r.value[i])
    ensures r.None? ==> exists i :: 0 <= i < |texts| && ParseRule(lib, texts[i]) == None
  {
    if texts == [] then Some([])
    else
      var last := |texts| - 1;
      match ParseRules(lib, texts[..last])
      case None => None
      case Some(rules) =>
        match ParseRule(lib, texts[last]) case Some(rule) => Some(rules + [rule]) case None => None
  }
}
