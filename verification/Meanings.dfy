/** What a list means as it is written: which names and addresses a text stands for, from the text alone. */
module Meanings {
  import opened Netip
  import opened Text
  import opened Wildcards
  import opened Foreign
  import opened Hostnames
  import opened Patterns

  // ---------------------------------------------------------------------------------------------
  // One pattern

  /** Written with a colon or a slash, or as an address: a range, and nothing to do with names. */
  predicate WrittenAsRange(lib: Library, p: string) { ':' in p || '/' in p || lib.parseAddr(p).Some? }

  /** The expression after a tilde fits the whole name. One that is no expression by itself is taken as it compiles. */
  predicate FitsName(lib: Library, expr: string, name: string) {
    if lib.regexp(expr).Some? then lib.fits(expr, name, 0, |name|)
    else lib.regexp(UserExpr(expr)).Some? && lib.regexp(UserExpr(expr)).value(name)
  }

  /** `*` is every name; with a leading dot, the domain and all below it; without a star, the one name; and else a
      pattern in which `*` stands for part of a label, or at the front for whole labels. Case and a dot at the end
      do not count. */
  predicate NameMeans(p: string, name: string)
    requires p != ""
  {
    if Normal(p) == "*" then true
    else if p[0] == '.' then LabelSuffix(Labels(Normal(p[1..])), Labels(name))
    else if '*' !in p then name == Normal(p)
    else GlobMatch(Normal(p), name)
  }

  predicate MeansName(lib: Library, text: string, name: string) {
    var p := TrimSpace(text);
    && p != ""
    && if p[0] == '~' then FitsName(lib, p[1..], name) else !WrittenAsRange(lib, p) && NameMeans(p, name)
  }

  ghost predicate MeansAddr(lib: Library, text: string, a: Addr) {
    var p := TrimSpace(text);
    p != "" && p[0] != '~' && WrittenAsRange(lib, p) && exists prefix :: WritesPrefix(lib, p, prefix) && prefix.Contains(a)
  }

  predicate MeansAll(lib: Library, text: string) {
    var p := TrimSpace(text);
    p != "" && p[0] != '~' && !WrittenAsRange(lib, p) && Normal(p) == "*"
  }

  /** The texts that can be read as name patterns. */
  predicate Writable(p: string)
    requires p != ""
  {
    && HostChars(p, true)
    && (|| Normal(p) == "*"
        || (p[0] == '.' && ValidHostname(Normal(p[1..]), false))
        || (p[0] != '.' && '*' !in p && ValidHostname(Normal(p), false))
        || (p[0] != '.' && '*' in p && ("*" <= p ==> "*." <= p) && ValidHostname(Normal(p), true)))
  }

  // ---------------------------------------------------------------------------------------------
  // Reading gives that meaning

  /** A user's expression, as it is compiled, has to fit the whole name. */
  lemma UserExprFitsWhole(lib: Library, expr: string, name: string)
    requires lib.ReadsAnchors() && lib.regexp(expr).Some? && lib.regexp(UserExpr(expr)).Some?
    ensures lib.regexp(UserExpr(expr)).value(name) <==> lib.fits(expr, name, 0, |name|)
  {
    var anchored := Anchored(Group(expr));
    assert UserExpr(expr) == FoldCase(anchored);
    assert lib.fits(anchored, name, 0, |name|) <==> lib.fits(Group(expr), name, 0, |name|);
    if lib.FitsSomewhere(anchored, name) {
      var i, j :| 0 <= i <= j <= |name| && lib.fits(anchored, name, i, j);
    }
  }

  lemma LowerKeeps(c: char)
    ensures LowerChar(c) == '*' <==> c == '*'
    ensures LowerChar(c) == '.' <==> c == '.'
  {
  }

  lemma StarsKept(p: string)
    ensures '*' in Normal(p) <==> '*' in p
  {
    var q := Normal(p);
    forall i | 0 <= i < |q|
      ensures q[i] == '*' <==> p[i] == '*'
    {
      LowerKeeps(p[i]);
      assert q[i] == LowerChar(p[i]);
    }
    if i :| 0 <= i < |p| && p[i] == '*' {
      assert q[i] in q;
    }
    if i :| 0 <= i < |q| && q[i] == '*' {
      assert p[i] in p;
    }
  }

  /** A first character that is not the last is kept, and so is what becomes of the others. */
  lemma FirstKept(p: string)
    requires |p| > 1
    ensures |Normal(p)| > 0 && Normal(p)[0] == LowerChar(p[0]) && Normal(p)[1..] == Normal(p[1..])
  {
    var q, r := Normal(p), Normal(p[1..]);
    assert |q| == |r| + 1 && forall i :: 0 <= i < |r| ==> q[i + 1] == LowerChar(p[i + 1]) == r[i];
  }

  lemma LeadingStar(p: string)
    requires |p| > 1 && Normal(p) != "*"
    ensures "." <= Normal(p) <==> p[0] == '.'
    ensures "*." <= Normal(p) <==> "*." <= p
    ensures Normal(p)[0] == '*' <==> "*" <= p
  {
    FirstKept(p);
    LowerKeeps(p[0]);
    LowerKeeps(p[1]);
    var q := Normal(p);
    if |q| > 1 {
      assert q[1] == LowerChar(p[1]);
    } else {
      assert |p| == 2 && p[1] == '.' && p[0] != '*';
    }
  }

  lemma OneChar(p: string)
    requires |p| == 1
    ensures Normal(p) == if p == "." then "" else [LowerChar(p[0])]
  {
  }

  /** Which texts are name patterns, and what they match. */
  lemma NamePatternMeans(lib: Library, p: string, name: string)
    requires p != ""
    ensures NamePattern(p).Some? <==> Writable(p)
    ensures NamePattern(p).Some? ==> !NamePattern(p).value.Range? && (NamePattern(p).value.Any? <==> Normal(p) == "*")
    ensures NamePattern(p).Some? ==> (MatchesName(lib, NamePattern(p).value, name) <==> NameMeans(p, name))
  {
    if |p| == 1 {
      OneCharMeans(lib, p, name);
    } else if Normal(p) != "*" {
      StarsKept(p);
      FirstKept(p);
      LeadingStar(p);
      LongMeans(lib, p, name);
    }
  }

  lemma OneCharMeans(lib: Library, p: string, name: string)
    requires |p| == 1
    ensures NamePattern(p).Some? <==> Writable(p)
    ensures NamePattern(p).Some? ==> !NamePattern(p).value.Range? && (NamePattern(p).value.Any? <==> Normal(p) == "*")
    ensures NamePattern(p).Some? ==> (MatchesName(lib, NamePattern(p).value, name) <==> NameMeans(p, name))
  {
    OneChar(p);
    StarsKept(p);
    NoName("");
  }

  lemma NoName(name: string)
    requires name == ""
    ensures !ValidHostname(name, false) && !ValidHostname(name, true)
  {
    assert Labels(name)[0] == "";
  }

  lemma LongMeans(lib: Library, p: string, name: string)
    requires |p| > 1 && Normal(p) != "*"
    requires "." <= Normal(p) <==> p[0] == '.'
    requires "*." <= Normal(p) <==> "*." <= p
    requires Normal(p) != "" && (Normal(p)[0] == '*' <==> "*" <= p)
    requires Normal(p)[1..] == Normal(p[1..]) && ('*' in Normal(p) <==> '*' in p)
    ensures NamePattern(p).Some? <==> Writable(p)
    ensures NamePattern(p).Some? ==> !NamePattern(p).value.Range? && !NamePattern(p).value.Any?
    ensures NamePattern(p).Some? ==> (MatchesName(lib, NamePattern(p).value, name) <==> NameMeans(p, name))
  {
    if p[0] == '.' {
      InDomainByLabels(name, Normal(p)[1..]);
    }
  }

  /** A text that can be read matches exactly the names and the addresses that it means. */
  lemma RuleMeans(lib: Library, text: string, name: string, a: Addr)
    requires lib.ParsesAddresses() && lib.ReadsAnchors() && ParseRule(lib, text).Some?
    ensures var p := ParseRule(lib, text).value.pattern;
            && (MatchesName(lib, p, name) <==> MeansName(lib, text, name))
            && (MatchesAddr(p, a) <==> MeansAddr(lib, text, a))
            && (p.Any? <==> MeansAll(lib, text))
  {
    var p := TrimSpace(text);
    TrimTwice(text);
    if p[0] == '~' {
      if lib.regexp(p[1..]).Some? {
        UserExprFitsWhole(lib, p[1..], name);
      }
    } else if WrittenAsRange(lib, p) {
      RangeMeans(lib, p, a);
    } else {
      NamePatternMeans(lib, p, name);
    }
  }

  lemma RangeMeans(lib: Library, p: string, a: Addr)
    requires lib.ParsesAddresses() && TrimSpace(p) == p && ParsePrefix(lib, p).Some?
    ensures ParsePrefix(lib, p).value.Contains(a) <==> exists prefix :: WritesPrefix(lib, p, prefix) && prefix.Contains(a)
  {
    var prefix := ParsePrefix(lib, p).value;
    PrefixExactly(lib, p, prefix);
    assert WritesPrefix(lib, p, prefix);
  }

  lemma {:induction false} TrimLeftTwice(s: string)
    ensures TrimLeft(s) == "" || !IsSpace(TrimLeft(s)[0])
    ensures TrimLeft(TrimLeft(s)) == TrimLeft(s)
  {
    if s != "" && IsSpace(s[0]) {
      TrimLeftTwice(s[1..]);
    }
  }

  lemma {:induction false} TrimRightTwice(s: string)
    ensures TrimRight(s) == "" || (s != "" && TrimRight(s)[0] == s[0])
    ensures TrimRight(TrimRight(s)) == TrimRight(s)
  {
    if s != "" && IsSpace(s[|s| - 1]) {
      TrimRightTwice(s[..|s| - 1]);
    }
  }

  lemma TrimTwice(s: string)
    ensures TrimSpace(TrimSpace(s)) == TrimSpace(s)
  {
    TrimLeftTwice(s);
    TrimRightTwice(TrimLeft(s));
    assert TrimLeft(TrimSpace(s)) == TrimSpace(s);
  }
}
