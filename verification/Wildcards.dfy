/**
 Hostname patterns with `*`. The program turns one into the text of a regular expression; here is what
 that expression means label by label.
 */
module Wildcards {
  import opened Basics
  import opened Text
  import opened Regexes

  /** `regexp.QuoteMeta`. */
  function QuoteMeta(s: string): string {
    if s == "" then ""
    else (if s[0] in META then ['\\', s[0]] else [s[0]]) + QuoteMeta(s[1..])
  }

  /** `strings.ReplaceAll` of an escaped `*`. */
  function ReplaceStars(s: string): string {
    if s == "" then ""
    else if "\\*" <= s then "[^.]*" + ReplaceStars(s[2..])
    else [s[0]] + ReplaceStars(s[1..])
  }

  /** The expression for a pattern. */
  function Expr(p: string): string {
    var (lead, rest) := if "*." <= p then ("(?:[^.]+\\.)+", p[2..]) else ("", p);
    "^" + lead + ReplaceStars(QuoteMeta(rest)) + "$"
  }

  // ---------------------------------------------------------------------------------------------
  // What a pattern is documented to mean

  /** A `*` stands for any characters within a label. */
  predicate LabelGlob(p: string, l: string)
    decreases |p| + |l|
  {
    if p == "" then l == ""
    else if p[0] == '*' then LabelGlob(p[1..], l) || (l != "" && LabelGlob(p, l[1..]))
    else l != "" && l[0] == p[0] && LabelGlob(p[1..], l[1..])
  }

  predicate LabelsGlob(ps: seq<string>, ls: seq<string>) {
    |ps| == |ls| && forall i :: 0 <= i < |ps| ==> LabelGlob(ps[i], ls[i])
  }

  /** Some labels that are not empty, at least `least` of them, and then the labels of the pattern. */
  predicate ExtraLabels(ps: seq<string>, ls: seq<string>, least: nat) {
    var extra := |ls| - |ps|;
    && extra >= least
    && (forall i :: 0 <= i < extra ==> ls[i] != "")
    && LabelsGlob(ps, ls[extra..])
  }

  /** A leading `*.` stands for one or more labels; any other `*` stays within its label. */
  predicate GlobMatch(p: string, name: string) {
    if "*." <= p then ExtraLabels(Labels(p[2..]), Labels(name), 1) else LabelsGlob(Labels(p), Labels(name))
  }

  // ---------------------------------------------------------------------------------------------
  // The expression for a pattern can be read back

  /** What the text for a pattern stands for. */
  function Globbed(p: string): Regex {
    if p == "" then Empty
    else Cat(if p[0] == '*' then Star(NotDot) else Char(p[0]), Globbed(p[1..]))
  }

  /** One or more characters other than the dot, and a dot. */
  const GROUP := Cat(Plus(NotDot), Cat(Char('.'), Empty))

  function Meaning(p: string): Regex {
    if "*." <= p then Cat(Plus(GROUP), Globbed(p[2..])) else Globbed(p)
  }

  function Token(c: char): string {
    if c == '*' then "[^.]*" else if c in META then ['\\', c] else [c]
  }

  function Quoted(p: string): string { ReplaceStars(QuoteMeta(p)) }

  lemma KeptEscape(c: char, rest: string)
    requires c != '*' && c != '\\'
    ensures ReplaceStars(['\\', c] + rest) == ['\\', c] + ReplaceStars(rest)
  {
    var s, t := ['\\', c] + rest, [c] + rest;
    assert s[1] == c && s[1..] == t && t[0] == c && t[1..] == rest;
    assert ReplaceStars(t) == [c] + ReplaceStars(rest);
    assert ReplaceStars(s) == ['\\'] + ReplaceStars(t);
  }

  lemma QuotedStep(p: string)
    requires p != "" && '\\' !in p
    ensures Quoted(p) == Token(p[0]) + Quoted(p[1..])
  {
    var c, rest := p[0], QuoteMeta(p[1..]);
    assert c in p;
    if c == '*' {
      assert ("\\*" + rest)[2..] == rest;
    } else if c in META {
      KeptEscape(c, rest);
    } else {
      assert ([c] + rest)[1..] == rest;
    }
  }

  lemma NotRepeated(p: string)
    requires '\\' !in p
    ensures var t := Quoted(p) + "$"; t[0] != '*' && t[0] != '+'
  {
    if p != "" {
      QuotedStep(p);
    }
  }

  /** One token is read off the front. */
  lemma ReadToken(c: char, t: string)
    requires c != '\\' && t != "" && t[0] != '*' && t[0] != '+' && ReadSeq(t).Some?
    ensures var (rest, left) := ReadSeq(t).value;
            ReadSeq(Token(c) + t) == Some((Cat(if c == '*' then Star(NotDot) else Char(c), rest), left))
  {
    if c == '*' {
      ReadStar(t);
    } else {
      var s := Token(c) + t;
      assert s[|Token(c)|..] == t && s[0] == Token(c)[0];
      assert ReadAtom(s) == Some((Char(c), t));
    }
  }

  lemma ReadStar(t: string)
    requires ReadSeq(t).Some?
    ensures var (rest, left) := ReadSeq(t).value;
            ReadSeq("[^.]*" + t) == Some((Cat(Star(NotDot), rest), left))
  {
    StarText(t);
    ReadClass("*" + t);
  }

  lemma StarText(t: string)
    ensures "[^.]*" + t == "[^.]" + ("*" + t) && ("*" + t)[0] == '*' && ("*" + t)[1..] == t
  {
  }

  /** A class is read off the front, whatever follows. */
  lemma ReadClass(t: string)
    ensures ReadAtom("[^.]" + t) == Some((NotDot, t)) && ("[^.]" + t)[0] == '['
  {
    var s := "[^.]" + t;
    assert s[..4] == "[^.]" && s[4..] == t && s[0] == '[';
    assert !("(?:" <= s);
  }

  lemma {:induction false} ReadQuoted(p: string)
    requires '\\' !in p
    ensures ReadSeq(Quoted(p) + "$") == Some((Globbed(p), "$"))
  {
    if p != "" {
      assert p[0] in p;
      var t := Quoted(p[1..]) + "$";
      ReadQuoted(p[1..]);
      NotRepeated(p[1..]);
      QuotedStep(p);
      ReadToken(p[0], t);
      assert Quoted(p) + "$" == Token(p[0]) + t;
    } else {
      assert Quoted(p) + "$" == "$";
    }
  }

  lemma ReadLabel(t: string)
    requires ReadSeq(t).Some?
    ensures var (rest, left) := ReadSeq(t).value;
            ReadSeq("[^.]+" + t) == Some((Cat(Plus(NotDot), rest), left))
  {
    PlusText(t);
    ReadClass("+" + t);
  }

  lemma PlusText(t: string)
    ensures "[^.]+" + t == "[^.]" + ("+" + t) && ("+" + t)[0] == '+' && ("+" + t)[1..] == t
  {
  }

  lemma ReadDot(t: string)
    requires t != "" && t[0] == ')'
    ensures ReadSeq("\\." + t) == Some((Cat(Char('.'), Empty), t))
  {
    var s := "\\." + t;
    assert s[0] == '\\' && s[1] == '.' && s[2..] == t;
    assert ReadAtom(s) == Some((Char('.'), t));
  }

  lemma ReadOpen(body: string, r: Regex, t: string)
    requires ReadSeq(body) == Some((r, ")+" + t)) && ReadSeq(t).Some?
    ensures var (rest, left) := ReadSeq(t).value;
            ReadSeq("(?:" + body) == Some((Cat(Plus(r), rest), left))
  {
    var s := "(?:" + body;
    assert "(?:" <= s && s[3..] == body;
    assert (")+" + t)[1..] == "+" + t && ("+" + t)[1..] == t;
    assert ReadAtom(s) == Some((r, "+" + t));
  }

  lemma ReadGroup(t: string)
    requires ReadSeq(t).Some?
    ensures var (rest, left) := ReadSeq(t).value;
            ReadSeq("(?:[^.]+\\.)+" + t) == Some((Cat(Plus(GROUP), rest), left))
  {
    var close := ")+" + t;
    ReadDot(close);
    ReadLabel("\\." + close);
    ReadOpen("[^.]+" + ("\\." + close), GROUP, t);
    GroupText(t);
  }

  lemma GroupText(t: string)
    ensures "(?:[^.]+\\.)+" + t == "(?:" + ("[^.]+" + ("\\." + (")+" + t)))
  {
  }

  /** The text compiles, to the expression meant. */
  lemma ExprCompiles(p: string)
    requires '\\' !in p
    ensures Compile(Expr(p)) == Some(Meaning(p))
  {
    if "*." <= p {
      var t := Quoted(p[2..]) + "$";
      ReadQuoted(p[2..]);
      ReadGroup(t);
      ExprText("(?:[^.]+\\.)+", Quoted(p[2..]));
    } else {
      ReadQuoted(p);
      ExprText("", Quoted(p));
      assert "" + (Quoted(p) + "$") == Quoted(p) + "$";
    }
  }

  lemma ExprText(lead: string, text: string)
    ensures "^" + lead + text + "$" == "^" + (lead + (text + "$")) && ("^" + (lead + (text + "$")))[1..] == lead + (text + "$")
  {
  }

  // ---------------------------------------------------------------------------------------------
  // A pattern without a leading star matches label by label

  /** Matching from the left, where `*` does not cross a dot. */
  predicate Flat(p: string, s: string)
    decreases |p| + |s|
  {
    if p == "" then s == ""
    else if p[0] == '*' then Flat(p[1..], s) || (s != "" && s[0] != '.' && Flat(p, s[1..]))
    else s != "" && s[0] == p[0] && Flat(p[1..], s[1..])
  }

  lemma {:induction false} GlobbedIsFlat(p: string, s: string)
    ensures s in Lang(Globbed(p)) <==> Flat(p, s)
    decreases |p| + |s|
  {
    if p != "" {
      if p[0] == '*' {
        CatRun(Globbed(p[1..]), s);
        GlobbedIsFlat(p[1..], s);
        if s != "" {
          GlobbedIsFlat(p, s[1..]);
        }
      } else {
        CatChar(p[0], Globbed(p[1..]), s);
        if s != "" {
          GlobbedIsFlat(p[1..], s[1..]);
        }
      }
    }
  }

  /** Matching the first labels and the others apart. */
  lemma LabelsGlobSplit(ps: seq<string>, ls: seq<string>)
    requires |ps| > 0 && |ls| > 0
    ensures LabelsGlob(ps, ls) <==> LabelGlob(ps[0], ls[0]) && LabelsGlob(ps[1..], ls[1..])
  {
    if LabelGlob(ps[0], ls[0]) && LabelsGlob(ps[1..], ls[1..]) {
      forall i | 0 <= i < |ps|
        ensures LabelGlob(ps[i], ls[i])
      {
        if i > 0 {
          assert LabelGlob(ps[1..][i - 1], ls[1..][i - 1]);
        }
      }
    }
  }

  /** One more character in the first label. */
  lemma LabelsOf(s: string)
    requires s != ""
    ensures var rest := Labels(s[1..]);
            if s[0] == '.' then Labels(s)[0] == "" && Labels(s)[1..] == rest
            else Labels(s)[0] == [s[0]] + rest[0] && Labels(s)[1..] == rest[1..]
  {
  }

  lemma {:induction false} FlatByLabels(p: string, s: string)
    ensures Flat(p, s) <==> LabelsGlob(Labels(p), Labels(s))
    decreases |p| + |s|
  {
    LabelsGlobSplit(Labels(p), Labels(s));
    if p != "" {
      LabelsOf(p);
      if s != "" {
        LabelsOf(s);
      }
      if p[0] == '*' {
        FlatByLabels(p[1..], s);
        LabelsGlobSplit(Labels(p[1..]), Labels(s));
        if s != "" && s[0] != '.' {
          FlatByLabels(p, s[1..]);
          LabelsGlobSplit(Labels(p), Labels(s[1..]));
        }
      } else if s != "" {
        FlatByLabels(p[1..], s[1..]);
        LabelsGlobSplit(Labels(p[1..]), Labels(s[1..]));
      }
    } else if s != "" {
      LabelsOf(s);
    }
  }

  // ---------------------------------------------------------------------------------------------
  // A leading star adds labels

  lemma GroupOf(x: string)
    requires NoDot(x) && x != ""
    ensures x + "." in Lang(GROUP)
  {
    PlusNotDot(x);
    CatChar('.', Empty, ".");
    assert "."[1..] == "";
    assert "." in Lang(Cat(Char('.'), Empty));
  }

  lemma GroupSplit(s: string) returns (x: string)
    requires s in Lang(GROUP)
    ensures s == x + "." && NoDot(x) && x != ""
  {
    var y;
    x, y :| x in Lang(Plus(NotDot)) && y in Lang(Cat(Char('.'), Empty)) && s == x + y;
    PlusNotDot(x);
    CatChar('.', Empty, y);
    assert y == ".";
  }

  lemma SameFirstDot(a: string, v: string, x: string, y: string)
    requires NoDot(a) && NoDot(x) && a + "." + v == x + "." + y
    ensures a == x && v == y
  {
    FirstLabel(a, v);
    FirstLabel(x, y);
    assert a == Labels(a + "." + v)[0];
    assert v == (a + "." + v)[|a| + 1..] && y == (x + "." + y)[|x| + 1..];
  }

  /** A group at the front takes the first label and its dot. */
  lemma GroupIsFirst(u: string, v: string, x: string, y: string)
    requires NoDot(x) && u in Lang(GROUP) && u + v == x + "." + y
    ensures x != "" && v == y
  {
    var a := GroupSplit(u);
    SameFirstDot(a, v, x, y);
  }

  lemma StarGroup(r: Regex, x: string, y: string)
    requires NoDot(x)
    ensures var more := Lang(Cat(Star(GROUP), r));
            x + "." + y in more <==> x + "." + y in Lang(r) || (x != "" && y in more)
  {
    var n, more := x + "." + y, Lang(Cat(Star(GROUP), r));
    Unfold(GROUP, r);
    if n in Lang(r) {
      NoneOf(Lang(GROUP), Lang(r), n);
    }
    if x != "" && y in more {
      GroupOf(x);
      MoreOf(Lang(GROUP), Lang(r), x + ".", y);
    }
    if n in more {
      var none, u, v := MoreSplit(Lang(GROUP), Lang(r), n);
      if !none {
        GroupIsFirst(u, v, x, y);
      }
    }
  }

  lemma PlusGroup(r: Regex, x: string, y: string)
    requires NoDot(x)
    ensures x + "." + y in Lang(Cat(Plus(GROUP), r)) <==> x != "" && y in Lang(Cat(Star(GROUP), r))
  {
    var n := x + "." + y;
    Unfold(GROUP, r);
    if x != "" && y in Lang(Cat(Star(GROUP), r)) {
      GroupOf(x);
      PlusOf(Lang(GROUP), Lang(r), x + ".", y);
    }
    if n in Lang(Cat(Plus(GROUP), r)) {
      var u, v := PlusSplit(Lang(GROUP), Lang(r), n);
      GroupIsFirst(u, v, x, y);
    }
  }

  /** A group needs a dot. */
  lemma GroupHasDot(u: string, v: string)
    requires u in Lang(GROUP)
    ensures '.' in u + v
  {
    var a := GroupSplit(u);
    assert (u + v)[|a|] == '.';
  }

  lemma NoGroup(r: Regex, x: string)
    requires NoDot(x)
    ensures x in Lang(Cat(Star(GROUP), r)) <==> x in Lang(r)
    ensures x !in Lang(Cat(Plus(GROUP), r))
  {
    Unfold(GROUP, r);
    if x in Lang(r) {
      NoneOf(Lang(GROUP), Lang(r), x);
    }
    if x in Lang(Cat(Star(GROUP), r)) {
      var none, u, v := MoreSplit(Lang(GROUP), Lang(r), x);
      if !none {
        GroupHasDot(u, v);
      }
    }
    if x in Lang(Cat(Plus(GROUP), r)) {
      var u, v := PlusSplit(Lang(GROUP), Lang(r), x);
      GroupHasDot(u, v);
    }
  }

  lemma GlobbedByLabels(p: string, s: string)
    ensures s in Lang(Globbed(p)) <==> LabelsGlob(Labels(p), Labels(s))
  {
    GlobbedIsFlat(p, s);
    FlatByLabels(p, s);
  }

  /** The text up to the first dot and after it. */
  lemma {:induction false} AtFirstDot(s: string) returns (x: string, y: string)
    requires '.' in s
    ensures s == x + "." + y && NoDot(x)
    ensures Labels(s) == [x] + Labels(y)
  {
    if s[0] == '.' {
      x, y := "", s[1..];
      assert s == "." + y;
    } else {
      assert s == [s[0]] + s[1..];
      x, y := AtFirstDot(s[1..]);
      x := [s[0]] + x;
      assert s == x + "." + y;
    }
    FirstLabel(x, y);
  }

  lemma ExtraStep(ps: seq<string>, x: string, ls: seq<string>)
    requires |ps| > 0 && |ls| > 0
    ensures ExtraLabels(ps, [x] + ls, 0) <==> LabelsGlob(ps, [x] + ls) || (x != "" && ExtraLabels(ps, ls, 0))
    ensures ExtraLabels(ps, [x] + ls, 1) <==> x != "" && ExtraLabels(ps, ls, 0)
  {
    var all := [x] + ls;
    var extra := |all| - |ps|;
    if extra == 0 {
      assert all[0..] == all;
    } else if extra > 0 {
      assert all[extra..] == ls[extra - 1..];
      if x != "" && ExtraLabels(ps, ls, 0) {
        forall i | 0 <= i < extra
          ensures all[i] != ""
        {
          assert i > 0 ==> all[i] == ls[i - 1];
        }
      }
      if forall i :: 0 <= i < extra ==> all[i] != "" {
        assert all[0] == x;
        forall i | 0 <= i < extra - 1
          ensures ls[i] != ""
        {
          assert ls[i] == all[i + 1];
        }
      }
    }
  }

  lemma {:induction false} StarGroupByLabels(p: string, s: string)
    ensures s in Lang(Cat(Star(GROUP), Globbed(p))) <==> ExtraLabels(Labels(p), Labels(s), 0)
    decreases |s|
  {
    GlobbedByLabels(p, s);
    if '.' in s {
      var x, y := AtFirstDot(s);
      StarGroup(Globbed(p), x, y);
      StarGroupByLabels(p, y);
      ExtraStep(Labels(p), x, Labels(y));
    } else {
      NoGroup(Globbed(p), s);
      FirstLabel(s, "");
      assert [s][0..] == [s];
    }
  }

  lemma PlusGroupByLabels(p: string, s: string)
    ensures s in Lang(Cat(Plus(GROUP), Globbed(p))) <==> ExtraLabels(Labels(p), Labels(s), 1)
  {
    if '.' in s {
      var x, y := AtFirstDot(s);
      PlusGroup(Globbed(p), x, y);
      StarGroupByLabels(p, y);
      ExtraStep(Labels(p), x, Labels(y));
    } else {
      NoGroup(Globbed(p), s);
      FirstLabel(s, "");
    }
  }

  /** The expression made for a pattern matches exactly the names that the pattern means. */
  lemma WildcardMeaning(p: string, name: string)
    requires '\\' !in p
    ensures Compile(Expr(p)).Some?
    ensures name in Lang(Compile(Expr(p)).value) <==> GlobMatch(p, name)
  {
    ExprCompiles(p);
    if "*." <= p {
      PlusGroupByLabels(p[2..], name);
    } else {
      GlobbedByLabels(p, name);
    }
  }
}
