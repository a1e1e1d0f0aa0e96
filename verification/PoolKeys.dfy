/** The key of an upstream pool: equal keys mean equal destinations. */
module PoolKeys {
  import opened Netip
  import opened Text
  import opened Foreign
  import opened Verdicts
  import opened HostPort
  import opened Vetted

  // ---------------------------------------------------------------------------------------------
  // Sorting strings

  predicate Leq(a: string, b: string) {
    a == "" || (b != "" && (a[0] < b[0] || (a[0] == b[0] && Leq(a[1..], b[1..]))))
  }

  lemma {:induction false} LeqTotal(a: string, b: string)
    ensures Leq(a, b) || Leq(b, a)
    ensures Leq(a, b) && Leq(b, a) ==> a == b
  {
    if a != "" && b != "" && a[0] == b[0] {
      LeqTotal(a[1..], b[1..]);
      assert a == [a[0]] + a[1..] && b == [b[0]] + b[1..];
    }
  }

  lemma {:induction false} LeqTransitive(a: string, b: string, c: string)
    requires Leq(a, b) && Leq(b, c)
    ensures Leq(a, c)
  {
    if a != "" && b != "" && c != "" && a[0] == b[0] == c[0] {
      LeqTransitive(a[1..], b[1..], c[1..]);
    }
  }

  predicate Sorted(s: seq<string>) { forall i, j :: 0 <= i < j < |s| ==> Leq(s[i], s[j]) }

  function Insert(x: string, s: seq<string>): (r: seq<string>)
    requires Sorted(s)
    ensures Sorted(r) && multiset(r) == multiset(s) + multiset{x}
  {
    if s == [] then [x]
    else if Leq(x, s[0]) then
      InsertFirst(x, s);
      [x] + s
    else
      var rest := Insert(x, s[1..]);
      InsertLater(x, s, rest);
      [s[0]] + rest
  }

  lemma InsertFirst(x: string, s: seq<string>)
    requires Sorted(s) && s != [] && Leq(x, s[0])
    ensures Sorted([x] + s) && multiset([x] + s) == multiset(s) + multiset{x}
  {
    forall j | 0 <= j < |s|
      ensures Leq(x, s[j])
    {
      if j > 0 {
        LeqTransitive(x, s[0], s[j]);
      }
    }
  }

  lemma InsertLater(x: string, s: seq<string>, rest: seq<string>)
    requires Sorted(s) && s != [] && !Leq(x, s[0]) && Sorted(rest) && multiset(rest) == multiset(s[1..]) + multiset{x}
    ensures Sorted([s[0]] + rest) && multiset([s[0]] + rest) == multiset(s) + multiset{x}
  {
    LeqTotal(x, s[0]);
    assert s == [s[0]] + s[1..];
    forall j | 0 <= j < |rest|
      ensures Leq(s[0], rest[j])
    {
      assert rest[j] in multiset(rest);
      if rest[j] != x {
        assert rest[j] in s[1..];
      }
    }
  }

  /** `slices.Sort`. */
  function Sort(s: seq<string>): (r: seq<string>)
    ensures Sorted(r) && multiset(r) == multiset(s)
  {
    if s == [] then []
    else
      assert s == [s[0]] + s[1..];
      Insert(s[0], Sort(s[1..]))
  }

  /** There is one way to sort. */
  lemma {:induction false} SortedUnique(a: seq<string>, b: seq<string>)
    requires Sorted(a) && Sorted(b) && multiset(a) == multiset(b)
    ensures a == b
  {
    assert |multiset(a)| == |a| && |multiset(b)| == |b|;
    if a != [] {
      FirstIsLeast(a, b);
      assert a == [a[0]] + a[1..] && b == [b[0]] + b[1..];
      assert multiset(a[1..]) == multiset(a) - multiset{a[0]};
      assert multiset(b[1..]) == multiset(b) - multiset{b[0]};
      SortedUnique(a[1..], b[1..]);
    }
  }

  lemma FirstIsLeast(a: seq<string>, b: seq<string>)
    requires Sorted(a) && Sorted(b) && multiset(a) == multiset(b) && a != [] && b != []
    ensures a[0] == b[0]
  {
    assert a[0] in multiset(b) && b[0] in multiset(a);
    var i :| 0 <= i < |b| && b[i] == a[0];
    var j :| 0 <= j < |a| && a[j] == b[0];
    LeqTotal(a[0], b[0]);
  }

  // ---------------------------------------------------------------------------------------------
  // Lists and fields

  /** `strings.Join(parts, ",")`. */
  function JoinComma(parts: seq<string>): string {
    if parts == [] then "" else if |parts| == 1 then parts[0] else parts[0] + "," + JoinComma(parts[1..])
  }

  lemma CutAt(a: string, b: string, c: char)
    requires c !in a
    ensures Index(a + [c] + b, c) == |a|
  {
    var s := a + [c] + b;
    assert s[|a|] == c && s[|a|] in s;
    forall k | 0 <= k < |a|
      ensures s[k] != c
    {
      assert s[k] == a[k] && a[k] in a;
    }
  }

  /** A text is cut at its first `c` in one way only. */
  lemma SameCut(a: string, b: string, x: string, y: string, c: char)
    requires c !in a && c !in x && a + [c] + b == x + [c] + y
    ensures a == x && b == y
  {
    CutAt(a, b, c);
    CutAt(x, y, c);
    var s, t := a + [c] + b, x + [c] + y;
    assert a == s[..|a|] && x == t[..|x|];
    assert b == s[|a| + 1..] && y == t[|x| + 1..];
  }

  predicate Part(s: string) { s != "" && ',' !in s }

  lemma {:induction false} JoinInjective(a: seq<string>, b: seq<string>)
    requires (forall s :: s in a ==> Part(s)) && (forall s :: s in b ==> Part(s))
    requires JoinComma(a) == JoinComma(b)
    ensures a == b
  {
    JoinShape(a);
    JoinShape(b);
    if |a| >= 2 && |b| >= 2 {
      assert a[0] in a && b[0] in b;
      SameCut(a[0], JoinComma(a[1..]), b[0], JoinComma(b[1..]), ',');
      JoinInjective(a[1..], b[1..]);
      assert a == [a[0]] + a[1..] && b == [b[0]] + b[1..];
    }
  }

  lemma JoinShape(a: seq<string>)
    requires forall s :: s in a ==> Part(s)
    ensures JoinComma(a) == "" <==> a == []
    ensures ',' in JoinComma(a) <==> |a| >= 2
    ensures |a| == 1 ==> a == [JoinComma(a)]
  {
    if a != [] {
      assert a[0] in a;
      if |a| >= 2 {
        assert JoinComma(a)[|a[0]|] == ',';
      }
    }
  }

  // ---------------------------------------------------------------------------------------------
  // Printed addresses

  /** `netip.Addr.String`: different addresses look different, and no address has a comma or a bar. */
  ghost predicate PrintsApart(show: Addr -> string) {
    && (forall a: Addr, b: Addr :: Plain(a) && Plain(b) && show(a) == show(b) ==> a == b)
    && (forall a: Addr :: Plain(a) ==> Part(show(a)) && '|' !in show(a))
  }

  predicate Plain(a: Addr) { a.IsValid() && a.Zone() == "" }

  function Printed(show: Addr -> string, addrs: seq<Addr>): seq<string> {
    seq(|addrs|, i requires 0 <= i < |addrs| => show(addrs[i]))
  }

  lemma {:induction false} PrintedCount(show: Addr -> string, addrs: seq<Addr>, a: Addr)
    requires PrintsApart(show) && Plain(a) && forall x :: x in addrs ==> Plain(x)
    ensures multiset(Printed(show, addrs))[show(a)] == multiset(addrs)[a]
  {
    if addrs != [] {
      var last := |addrs| - 1;
      var front, texts := addrs[..last], Printed(show, addrs);
      PrintedCount(show, front, a);
      assert addrs == front + [addrs[last]] && addrs[last] in addrs;
      assert texts == Printed(show, front) + [show(addrs[last])];
    }
  }

  lemma SamePrinted(show: Addr -> string, a: seq<Addr>, b: seq<Addr>)
    requires PrintsApart(show) && (forall x :: x in a ==> Plain(x)) && (forall x :: x in b ==> Plain(x))
    requires multiset(Printed(show, a)) == multiset(Printed(show, b))
    ensures multiset(a) == multiset(b)
  {
    forall x: Addr
      ensures multiset(a)[x] == multiset(b)[x]
    {
      if Plain(x) {
        PrintedCount(show, a, x);
        PrintedCount(show, b, x);
      } else {
        assert x !in a && x !in b;
      }
    }
  }

  function Without(s: seq<Addr>, k: nat): seq<Addr>
    requires k < |s|
  {
    s[..k] + s[k + 1..]
  }

  lemma WithoutOne(show: Addr -> string, s: seq<Addr>, k: nat)
    requires k < |s|
    ensures multiset(s) == multiset(Without(s, k)) + multiset{s[k]}
    ensures multiset(Printed(show, s)) == multiset(Printed(show, Without(s, k))) + multiset{show(s[k])}
  {
    var front, back := s[..k], s[k + 1..];
    assert s == front + [s[k]] + back;
    assert Printed(show, s) == Printed(show, front) + [show(s[k])] + Printed(show, back);
    assert Printed(show, Without(s, k)) == Printed(show, front) + Printed(show, back);
  }

  lemma {:induction false} PrintedTogether(show: Addr -> string, a: seq<Addr>, b: seq<Addr>)
    requires multiset(a) == multiset(b)
    ensures multiset(Printed(show, a)) == multiset(Printed(show, b))
    decreases |a|
  {
    assert |multiset(a)| == |a| && |multiset(b)| == |b|;
    if a != [] {
      assert a[0] in multiset(b);
      var k :| 0 <= k < |b| && b[k] == a[0];
      WithoutOne(show, a, 0);
      WithoutOne(show, b, k);
      assert multiset(Without(a, 0)) == multiset(a) - multiset{a[0]};
      assert multiset(Without(b, k)) == multiset(b) - multiset{a[0]};
      PrintedTogether(show, Without(a, 0), Without(b, k));
    }
  }

  // ---------------------------------------------------------------------------------------------
  // Keys

  function Key(show: Addr -> string, scheme: string, v: Vetted): string {
    scheme + "|" + v.host + "|" + Decimal(v.port) + "|" + JoinComma(Sort(Printed(show, v.addrs)))
  }

  /** What an approved request comes with: nothing in it can be taken for a separator. */
  predicate Fit(scheme: string, v: Vetted) {
    '|' !in scheme && '|' !in v.host && forall a :: a in v.addrs ==> Plain(a)
  }

  /** The same place, whatever the order of the addresses. */
  predicate SameDestination(v: Vetted, w: Vetted) {
    v.host == w.host && v.port == w.port && multiset(v.addrs) == multiset(w.addrs)
  }

  lemma PartsOfKey(show: Addr -> string, v: Vetted)
    requires PrintsApart(show) && forall a :: a in v.addrs ==> Plain(a)
    ensures forall s :: s in Sort(Printed(show, v.addrs)) ==> Part(s)
  {
    forall s | s in Sort(Printed(show, v.addrs))
      ensures Part(s)
    {
      assert s in multiset(Sort(Printed(show, v.addrs)));
      assert s in Printed(show, v.addrs);
      var i :| 0 <= i < |v.addrs| && s == show(v.addrs[i]);
      assert v.addrs[i] in v.addrs;
    }
  }

  lemma FieldsOfKey(a: string, b: string, c: string, d: string, a': string, b': string, c': string, d': string)
    requires '|' !in a && '|' !in b && '|' !in c && '|' !in a' && '|' !in b' && '|' !in c'
    requires a + "|" + b + "|" + c + "|" + d == a' + "|" + b' + "|" + c' + "|" + d'
    ensures a == a' && b == b' && c == c' && d == d'
  {
    var t, t' := c + "|" + d, c' + "|" + d';
    var u, u' := b + "|" + t, b' + "|" + t';
    assert a + "|" + b + "|" + c + "|" + d == a + "|" + u;
    assert a' + "|" + b' + "|" + c' + "|" + d' == a' + "|" + u';
    SameCut(a, u, a', u', '|');
    SameCut(b, t, b', t', '|');
    SameCut(c, d, c', d', '|');
  }

  /** Two requests share a pool exactly when they have the same scheme and destination. */
  lemma KeysApart(show: Addr -> string, scheme: string, v: Vetted, scheme': string, w: Vetted)
    requires PrintsApart(show) && Fit(scheme, v) && Fit(scheme', w)
    ensures Key(show, scheme, v) == Key(show, scheme', w) <==> scheme == scheme' && SameDestination(v, w)
  {
    var a, b := Sort(Printed(show, v.addrs)), Sort(Printed(show, w.addrs));
    if Key(show, scheme, v) == Key(show, scheme', w) {
      PlainDecimal(v.port);
      PlainDecimal(w.port);
      FieldsOfKey(scheme, v.host, Decimal(v.port), JoinComma(a), scheme', w.host, Decimal(w.port), JoinComma(b));
      ValueOfDecimal(v.port);
      ValueOfDecimal(w.port);
      PartsOfKey(show, v);
      PartsOfKey(show, w);
      JoinInjective(a, b);
      SamePrinted(show, v.addrs, w.addrs);
    }
    if scheme == scheme' && SameDestination(v, w) {
      PrintedTogether(show, v.addrs, w.addrs);
      SortedUnique(a, b);
    }
  }

  /** Approved requests are fit: the proxy takes no other schemes than these. */
  lemma ApprovedIsFit(lib: Library, lists: Lists, answers: Answers, port: string, scheme: string, v: Vetted)
    requires lib.ParsesAddresses() && Approved(lib, lists, answers, port, v) && (scheme == "http" || scheme == "https")
    ensures Fit(scheme, v)
  {
    ApprovedHost(lib, v.host);
    ApprovedAddresses(lib, lists, answers, port, v);
  }

  /** `poolKey`: prints the addresses, sorts them and joins the fields. */
  method PoolKey(show: Addr -> string, scheme: string, v: Vetted) returns (key: string)
    ensures key == Key(show, scheme, v)
  {
    var addrs := new string[|v.addrs|];
    for i := 0 to |v.addrs|
      invariant forall k :: 0 <= k < i ==> addrs[k] == show(v.addrs[k])
    {
      addrs[i] := show(v.addrs[i]);
    }
    assert addrs[..] == Printed(show, v.addrs);
    key := scheme + "|" + v.host + "|" + Decimal(v.port) + "|" + JoinComma(Sort(addrs[..]));
  }
}
