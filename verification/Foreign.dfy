/** What the policy relies on and does not define: `net/netip`, `regexp` and a table of address ranges. */
module Foreign {
  import opened Basics
  import opened Netip
  import opened Text
  import opened Regexes
  import opened Wildcards

  /** Parsing addresses and prefixes, compiling a regular expression to a test of a string, and the table of
      ranges that are not public. What is proved holds whatever the table lists. `fits(e, s, i, j)` is whether the
      expression `e` fits `s[i..j]`, in upper or lower case. */
  datatype Library = Library(
    parseAddr: string -> Option<Addr>,
    parsePrefix: string -> Option<Prefix>,
    regexp: string -> Option<string -> bool>,
    fits: (string, string, nat, nat) -> bool,
    nonPublic: seq<Prefix>)
  {
    /** An IPv6 address is written with a colon, an IPv4 address ends in a decimal number, and neither has
        other characters unless it has a zone. */
    ghost predicate ParsesAddresses() {
      && (forall s :: parseAddr(s).Some? ==> parseAddr(s).value.IsValid())
      && (forall s :: parseAddr(s).Some? ==>
            ':' in s || (LastLabel(s) != "" && forall c :: c in LastLabel(s) ==> IsDigit(c)))
      && (forall s :: parseAddr(s).Some? && parseAddr(s).value.Zone() == "" ==> forall c :: c in s ==> IsAddrChar(c))
      && (forall s :: parsePrefix(s).Some? ==> parsePrefix(s).value.IsValid())
    }

    /** The texts that are made for wildcard patterns mean what such a text means as a regular expression. */
    ghost predicate MatchesExpressions() {
      forall p :: WellMade(p) && Compile(Expr(p)).Some? ==>
        && regexp(Expr(p)).Some?
        && forall s :: regexp(Expr(p)).value(s) <==> s in Lang(Compile(Expr(p)).value)
    }

    /** A group fits what is in it, anchors tie a group to both ends of a text, and an expression without regard to
        case matches a text if it fits some part of it. */
    ghost predicate ReadsAnchors() {
      && (forall e, s, i, j :: regexp(e).Some? ==> (fits(Group(e), s, i, j) <==> fits(e, s, i, j)))
      && (forall e, s, i, j :: regexp(e).Some? ==>
            (fits(Anchored(Group(e)), s, i, j) <==> i == 0 && j == |s| && fits(Group(e), s, i, j)))
      && (forall e, s :: regexp(FoldCase(e)).Some? ==> (regexp(FoldCase(e)).value(s) <==> FitsSomewhere(e, s)))
    }

    predicate FitsSomewhere(e: string, s: string) { exists i, j :: 0 <= i <= j <= |s| && fits(e, s, i, j) }
  }

  function Group(e: string): string { "(?:" + e + ")" }

  function Anchored(e: string): string { "^" + e + "$" }

  function FoldCase(e: string): string { "(?i)" + e }

  /** Not too long for a hostname, and without a backslash. */
  predicate WellMade(p: string) { |p| <= MAX_NAME && '\\' !in p }

  predicate IsAddrChar(c: char) { IsDigit(c) || 'a' <= c <= 'f' || 'A' <= c <= 'F' || c == ':' || c == '.' }

  function LastLabel(s: string): string { Labels(s)[|Labels(s)| - 1] }
}
