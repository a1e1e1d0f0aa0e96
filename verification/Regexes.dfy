/**
 The part of the regular expression language that wildcard patterns are turned into: what a text of it
 stands for, and which strings that accepts. The meanings are the usual ones.
 */
module Regexes {
  import opened Basics

  datatype Regex =
    | Empty
    | Char(c: char)
    | NotDot
    | Cat(first: Regex, second: Regex)
    | Star(body: Regex)

  function Plus(r: Regex): Regex { Cat(r, Star(r)) }

  // ---------------------------------------------------------------------------------------------
  // Languages

  type Language = iset<string>

  ghost function Concat(a: Language, b: Language): Language { iset x, y | x in a && y in b :: x + y }

  ghost function Power(a: Language, n: nat): Language {
    if n == 0 then iset{""} else Concat(a, Power(a, n - 1))
  }

  /** Any number of strings of `a`, one after the other. */
  ghost function Closure(a: Language): Language { iset n: nat, s | s in Power(a, n) :: s }

  /** The strings that the expression matches as a whole. */
  ghost function Lang(r: Regex): Language {
    match r
    case Empty => iset{""}
    case Char(c) => iset{[c]}
    case NotDot => iset s: string | |s| == 1 && s[0] != '.'
    case Cat(a, b) => Concat(Lang(a), Lang(b))
    case Star(a) => Closure(Lang(a))
  }

  // ---------------------------------------------------------------------------------------------
  // Reading an expression

  const META := "\\.+*?()|[]{}^$"

  /** One or more of something that has just been read, or one. */
  function Repeated(r: Regex, t: string): (Regex, string) {
    if t != "" && t[0] == '*' then (Star(r), t[1..])
    else if t != "" && t[0] == '+' then (Plus(r), t[1..])
    else (r, t)
  }

  /** The expression at the front of `t`, up to the end of its group or of the text, and what follows.
      `None` for anything that is not of this part of the language. */
  function ReadSeq(t: string): (r: Option<(Regex, string)>)
    ensures r.Some? ==> |r.value.1| <= |t|
    decreases |t|, 1
  {
    if t == "" || t[0] in ")$" then Some((Empty, t))
    else
      match ReadAtom(t)
      case None => None
      case Some((atom, t1)) =>
        var (item, t2) := Repeated(atom, t1);
        match ReadSeq(t2)
        case None => None
        case Some((rest, t3)) => Some((Cat(item, rest), t3))
  }

  function ReadAtom(t: string): (r: Option<(Regex, string)>)
    requires t != ""
    ensures r.Some? ==> |r.value.1| < |t|
    decreases |t|, 0
  {
    if "(?:" <= t then
      match ReadSeq(t[3..])
      case None => None
      case Some((body, rest)) => if rest != "" && rest[0] == ')' then Some((body, rest[1..])) else None
    else if "[^.]" <= t then Some((NotDot, t[4..]))
    else if t[0] == '\\' then
      if |t| >= 2 && t[1] in META then Some((Char(t[1]), t[2..])) else None
    else if t[0] in META then None
    else Some((Char(t[0]), t[1..]))
  }

  /** An expression anchored at both ends, as `regexp.Compile` understands it: matching it anywhere
      is matching the whole. */
  function Compile(text: string): Option<Regex> {
    if text == "" || text[0] != '^' then None
    else
      match ReadSeq(text[1..])
      case None => None
      case Some((r, rest)) => if rest == "$" then Some(r) else None
  }

  // ---------------------------------------------------------------------------------------------
  // Laws of languages

  lemma ClosureSplit(g: Language, s: string) returns (x: string, y: string)
    requires s in Closure(g) && s != ""
    ensures s == x + y && x in g && y in Closure(g)
  {
    var n: nat :| s in Power(g, n);
    x, y :| x in g && y in Power(g, n - 1) && s == x + y;
  }

  lemma ClosureOf(g: Language, x: string, y: string)
    requires x in g && y in Closure(g)
    ensures x + y in Closure(g)
  {
    var n: nat :| y in Power(g, n);
    assert x + y in Power(g, n + 1);
  }

  /** One or more and then `r` is one and then any number and `r`. */
  lemma PlusSplit(g: Language, r: Language, s: string) returns (x: string, y: string)
    requires s in Concat(Concat(g, Closure(g)), r)
    ensures s == x + y && x in g && y in Concat(Closure(g), r)
  {
    var u, v :| u in Concat(g, Closure(g)) && v in r && s == u + v;
    var w;
    x, w :| x in g && w in Closure(g) && u == x + w;
    y := w + v;
    assert s == x + y;
  }

  lemma PlusOf(g: Language, r: Language, x: string, y: string)
    requires x in g && y in Concat(Closure(g), r)
    ensures x + y in Concat(Concat(g, Closure(g)), r)
  {
    var u, v :| u in Closure(g) && v in r && y == u + v;
    assert x + u in Concat(g, Closure(g));
    assert x + y == (x + u) + v;
  }

  /** Any number and then `r` is `r`, or one and then any number and `r`. */
  lemma MoreSplit(g: Language, r: Language, s: string) returns (none: bool, x: string, y: string)
    requires s in Concat(Closure(g), r)
    ensures none ==> s in r
    ensures !none ==> s == x + y && x in g && y in Concat(Closure(g), r)
  {
    var u, v :| u in Closure(g) && v in r && s == u + v;
    none, x, y := u == "", "", "";
    if none {
      assert s == v;
    } else {
      var w;
      x, w := ClosureSplit(g, u);
      y := w + v;
      assert s == x + y;
    }
  }

  lemma MoreOf(g: Language, r: Language, x: string, y: string)
    requires x in g && y in Concat(Closure(g), r)
    ensures x + y in Concat(Closure(g), r)
  {
    var u, v :| u in Closure(g) && v in r && y == u + v;
    ClosureOf(g, x, u);
    assert x + y == (x + u) + v;
  }

  lemma NoneOf(g: Language, r: Language, s: string)
    requires s in r
    ensures s in Concat(Closure(g), r)
  {
    assert "" in Power(g, 0);
    assert "" in Closure(g);
    assert s == "" + s;
  }

  // ---------------------------------------------------------------------------------------------
  // Expressions about dots

  lemma Unfold(g: Regex, r: Regex)
    ensures Lang(Cat(Star(g), r)) == Concat(Closure(Lang(g)), Lang(r))
    ensures Lang(Cat(Plus(g), r)) == Concat(Concat(Lang(g), Closure(Lang(g))), Lang(r))
  {
    assert Lang(Star(g)) == Closure(Lang(g));
    assert Lang(Plus(g)) == Concat(Lang(g), Lang(Star(g)));
  }

  lemma CatChar(c: char, r: Regex, s: string)
    ensures s in Lang(Cat(Char(c), r)) <==> s != "" && s[0] == c && s[1..] in Lang(r)
  {
    if s in Lang(Cat(Char(c), r)) {
      var x, y :| x in Lang(Char(c)) && y in Lang(r) && s == x + y;
      assert s[1..] == y;
    }
    if s != "" && s[0] == c && s[1..] in Lang(r) {
      assert s == [c] + s[1..];
    }
  }

  /** A run of characters other than the dot may be empty or start with one of them. */
  lemma CatRun(r: Regex, s: string)
    ensures var run := Lang(Cat(Star(NotDot), r));
            s in run <==> s in Lang(r) || (s != "" && s[0] != '.' && s[1..] in run)
  {
    var run := Lang(Cat(Star(NotDot), r));
    Unfold(NotDot, r);
    if s in Lang(r) {
      NoneOf(Lang(NotDot), Lang(r), s);
    }
    if s != "" && s[0] != '.' && s[1..] in run {
      MoreOf(Lang(NotDot), Lang(r), [s[0]], s[1..]);
      assert s == [s[0]] + s[1..];
    }
    if s in run {
      var none, x, y := MoreSplit(Lang(NotDot), Lang(r), s);
      assert !none ==> y == s[1..];
    }
  }

  lemma {:induction false} RunOfNotDot(s: string)
    ensures s in Closure(Lang(NotDot)) <==> '.' !in s
  {
    if s == "" {
      assert s in Power(Lang(NotDot), 0);
    } else {
      RunOfNotDot(s[1..]);
      assert s == [s[0]] + s[1..];
      if s in Closure(Lang(NotDot)) {
        var x, y := ClosureSplit(Lang(NotDot), s);
        assert y == s[1..];
      }
      if '.' !in s {
        ClosureOf(Lang(NotDot), [s[0]], s[1..]);
      }
    }
  }

  lemma PlusNotDot(s: string)
    ensures s in Lang(Plus(NotDot)) <==> s != "" && '.' !in s
  {
    if s in Lang(Plus(NotDot)) {
      var x, y :| x in Lang(NotDot) && y in Closure(Lang(NotDot)) && s == x + y;
      RunOfNotDot(y);
    }
    if s != "" && '.' !in s {
      RunOfNotDot(s[1..]);
      assert s == [s[0]] + s[1..];
    }
  }
}
