/** Loading a policy, and choosing the subnet of a client by its address. */
module Subnets {
  import opened Basics
  import opened Netip
  import opened Text
  import opened Foreign
  import opened Patterns
  import opened Verdicts
  import opened Policies

  // ---------------------------------------------------------------------------------------------
  // Which policies are accepted

  function Numbered(i: nat): string { "subnet[" + Decimal(i) + "]" }

  /** A subnet without a name is called by its place in the list. */
  function NameAt(specs: seq<SubnetSpec>, i: nat): string
    requires i < |specs|
  {
    if specs[i].name == "" then Numbered(i) else specs[i].name
  }

  function SpecAt(specs: seq<SubnetSpec>, i: nat): SubnetSpec
    requires i < |specs|
  {
    specs[i].(name := NameAt(specs, i))
  }

  predicate NamesDiffer(specs: seq<SubnetSpec>, n: nat)
    requires n <= |specs|
  {
    forall i, k :: 0 <= i < k < n ==> NameAt(specs, i) != NameAt(specs, k)
  }

  predicate At(groups: seq<seq<Prefix>>, i: int, j: int, p: Prefix) {
    0 <= i < |groups| && 0 <= j < |groups[i]| && groups[i][j] == p
  }

  /** No prefix is in two places. */
  ghost predicate AllDiffer(groups: seq<seq<Prefix>>) {
    forall p, i, j, k, l :: At(groups, i, j, p) && At(groups, k, l, p) ==> i == k && j == l
  }

  predicate CidrAt(lib: Library, specs: seq<SubnetSpec>, i: int, j: int, p: Prefix) {
    0 <= i < |specs| && 0 <= j < |specs[i].cidrs| && ParsePrefix(lib, specs[i].cidrs[j]) == Some(p)
  }

  ghost predicate CidrsDiffer(lib: Library, specs: seq<SubnetSpec>) {
    forall p, i, j, k, l :: CidrAt(lib, specs, i, j, p) && CidrAt(lib, specs, k, l, p) ==> i == k && j == l
  }

  ghost predicate Accepted(lib: Library, specs: seq<SubnetSpec>) {
    && specs != []
    && NamesDiffer(specs, |specs|)
    && (forall i :: 0 <= i < |specs| ==> Acceptable(lib, specs[i]))
    && CidrsDiffer(lib, specs)
  }

  function Groups(subnets: seq<Subnet>): seq<seq<Prefix>> { seq(|subnets|, i requires 0 <= i < |subnets| => subnets[i].prefixes) }

  /** Loaded from this part of the configuration. */
  ghost predicate LoadedAt(lib: Library, spec: SubnetSpec, lists: Lists, s: Subnet)
    reads s.allow, s.deny
  {
    s.name == spec.name && ParsedCidrs(lib, spec.cidrs, s.prefixes) && Reads(lib, spec, lists) && Compiled(lib, lists, s)
  }

  // ---------------------------------------------------------------------------------------------
  // Claiming prefixes

  ghost predicate Has(groups: seq<seq<Prefix>>, p: Prefix) { exists i, j :: At(groups, i, j, p) }

  ghost predicate Owns(owner: map<Prefix, string>, groups: seq<seq<Prefix>>) {
    forall p :: p in owner <==> Has(groups, p)
  }

  lemma OneMore(groups: seq<seq<Prefix>>, group: seq<Prefix>, m: nat, i: int, j: int, p: Prefix)
    requires m < |group|
    ensures At(groups + [group[..m + 1]], i, j, p) <==>
            At(groups + [group[..m]], i, j, p) || (i == |groups| && j == m && p == group[m])
    ensures At(groups + [group[..m]], i, j, p) ==> At(groups + [group], i, j, p)
    ensures At(groups + [group], |groups|, m, group[m])
  {
  }

  lemma Claimed(owner: map<Prefix, string>, groups: seq<seq<Prefix>>, group: seq<Prefix>, m: nat, name: string)
    requires m < |group| && group[m] !in owner
    requires Owns(owner, groups + [group[..m]]) && AllDiffer(groups + [group[..m]])
    ensures Owns(owner[group[m] := name], groups + [group[..m + 1]]) && AllDiffer(groups + [group[..m + 1]])
  {
    var before, after := groups + [group[..m]], groups + [group[..m + 1]];
    forall p, i, j
      ensures At(after, i, j, p) <==> At(before, i, j, p) || (i == |groups| && j == m && p == group[m])
    {
      OneMore(groups, group, m, i, j, p);
    }
    Extended(owner, before, after, |groups|, m, group[m], name);
  }

  lemma Extended(owner: map<Prefix, string>, before: seq<seq<Prefix>>, after: seq<seq<Prefix>>, x: int, y: int, q: Prefix,
                 name: string)
    requires Owns(owner, before) && AllDiffer(before) && q !in owner
    requires forall p, i, j :: At(after, i, j, p) <==> At(before, i, j, p) || (i == x && j == y && p == q)
    ensures Owns(owner[q := name], after) && AllDiffer(after)
  {
    var owner' := owner[q := name];
    forall p
      ensures p in owner' <==> Has(after, p)
    {
      if p == q {
        assert At(after, x, y, q);
      } else if p in owner {
        assert Has(before, p);
        var i, j :| At(before, i, j, p);
        assert At(after, i, j, p);
      }
    }
  }

  lemma Taken(owner: map<Prefix, string>, groups: seq<seq<Prefix>>, group: seq<Prefix>, m: nat)
    requires m < |group| && group[m] in owner && Owns(owner, groups + [group[..m]])
    ensures !AllDiffer(groups + [group])
  {
    assert Has(groups + [group[..m]], group[m]);
    var i, j :| At(groups + [group[..m]], i, j, group[m]);
    OneMore(groups, group, m, i, j, group[m]);
  }

  /** Records the prefixes of one more subnet, unless one of them is taken. */
  method Claim(owner: map<Prefix, string>, s: Subnet, ghost groups: seq<seq<Prefix>>)
    returns (ok: bool, owner': map<Prefix, string>)
    requires Owns(owner, groups) && AllDiffer(groups)
    ensures ok <==> AllDiffer(groups + [s.prefixes])
    ensures ok ==> Owns(owner', groups + [s.prefixes])
  {
    owner' := owner;
    NothingYet(owner, groups, s.prefixes);
    for m := 0 to |s.prefixes|
      invariant Owns(owner', groups + [s.prefixes[..m]]) && AllDiffer(groups + [s.prefixes[..m]])
    {
      var p := s.prefixes[m];
      if p in owner' {
        Taken(owner', groups, s.prefixes, m);
        return false, owner';
      }
      Claimed(owner', groups, s.prefixes, m, s.name);
      owner' := owner'[p := s.name];
    }
    assert s.prefixes[..|s.prefixes|] == s.prefixes;
    return true, owner';
  }

  lemma NothingYet(owner: map<Prefix, string>, groups: seq<seq<Prefix>>, group: seq<Prefix>)
    requires Owns(owner, groups) && AllDiffer(groups)
    ensures Owns(owner, groups + [group[..0]]) && AllDiffer(groups + [group[..0]])
  {
    assert forall i, j, p :: At(groups + [group[..0]], i, j, p) <==> At(groups, i, j, p);
  }

  // ---------------------------------------------------------------------------------------------
  // Loading

  /** The prefixes of the first subnets, as the configuration lists them. */
  ghost predicate ParsedGroups(lib: Library, specs: seq<SubnetSpec>, groups: seq<seq<Prefix>>) {
    |groups| <= |specs| && forall i :: 0 <= i < |groups| ==> ParsedCidrs(lib, specs[i].cidrs, groups[i])
  }

  lemma GroupsAreCidrs(lib: Library, specs: seq<SubnetSpec>, groups: seq<seq<Prefix>>)
    requires ParsedGroups(lib, specs, groups)
    ensures forall i, j, p :: At(groups, i, j, p) ==> CidrAt(lib, specs, i, j, p)
    ensures |groups| == |specs| ==> forall i, j, p :: CidrAt(lib, specs, i, j, p) ==> At(groups, i, j, p)
  {
    forall i, j, p | At(groups, i, j, p)
      ensures CidrAt(lib, specs, i, j, p)
    {
      assert ParsedCidrs(lib, specs[i].cidrs, groups[i]);
    }
    if |groups| == |specs| {
      forall i, j, p | CidrAt(lib, specs, i, j, p)
        ensures At(groups, i, j, p)
      {
        assert ParsedCidrs(lib, specs[i].cidrs, groups[i]);
      }
    }
  }

  /** A prefix used twice so far is used twice in the whole. */
  lemma NotAccepted(lib: Library, specs: seq<SubnetSpec>, groups: seq<seq<Prefix>>)
    requires ParsedGroups(lib, specs, groups)
    ensures !AllDiffer(groups) ==> !CidrsDiffer(lib, specs)
    ensures |groups| == |specs| && AllDiffer(groups) ==> CidrsDiffer(lib, specs)
  {
    GroupsAreCidrs(lib, specs, groups);
  }

  /** The first subnets have been loaded, and their names and prefixes are recorded. */
  ghost predicate Loaded(lib: Library, specs: seq<SubnetSpec>, lists: seq<Lists>, subnets: seq<Subnet>)
    reads set s | s in subnets :: s.allow, set s | s in subnets :: s.deny
  {
    && |subnets| == |lists| <= |specs|
    && (forall i :: 0 <= i < |subnets| ==> LoadedAt(lib, SpecAt(specs, i), lists[i], subnets[i]))
  }

  lemma LoadedMore(lib: Library, specs: seq<SubnetSpec>, lists: seq<Lists>, subnets: seq<Subnet>, list: Lists, s: Subnet)
    requires Loaded(lib, specs, lists, subnets) && |subnets| < |specs| && LoadedAt(lib, SpecAt(specs, |subnets|), list, s)
    ensures Loaded(lib, specs, lists + [list], subnets + [s])
  {
    forall i: nat | i < |subnets| + 1
      ensures LoadedAt(lib, SpecAt(specs, i), (lists + [list])[i], (subnets + [s])[i])
    {
      if i < |subnets| {
        LoadedBefore(lib, specs, lists, subnets, i, (lists + [list])[i], (subnets + [s])[i]);
      }
    }
  }

  lemma LoadedBefore(lib: Library, specs: seq<SubnetSpec>, lists: seq<Lists>, subnets: seq<Subnet>, i: nat, list: Lists, s: Subnet)
    requires Loaded(lib, specs, lists, subnets) && i < |subnets| && list == lists[i] && s == subnets[i]
    ensures LoadedAt(lib, SpecAt(specs, i), list, s)
  {
  }

  ghost predicate AcceptableUpTo(lib: Library, specs: seq<SubnetSpec>, n: nat)
    requires n <= |specs|
  {
    forall i :: 0 <= i < n ==> Acceptable(lib, specs[i])
  }

  ghost predicate Recorded(specs: seq<SubnetSpec>, n: nat, names: set<string>)
    requires n <= |specs|
  {
    && NamesDiffer(specs, n)
    && (forall name :: name in names <==> exists i :: 0 <= i < n && NameAt(specs, i) == name)
  }

  lemma RecordedMore(specs: seq<SubnetSpec>, n: nat, names: set<string>)
    requires n < |specs| && Recorded(specs, n, names)
    ensures NameAt(specs, n) in names ==> !NamesDiffer(specs, |specs|)
    ensures NameAt(specs, n) !in names ==> Recorded(specs, n + 1, names + {NameAt(specs, n)})
  {
    if NameAt(specs, n) !in names {
      forall i, k | 0 <= i < k < n + 1
        ensures NameAt(specs, i) != NameAt(specs, k)
      {
        assert k == n ==> NameAt(specs, i) in names;
      }
    }
  }

  lemma GroupsMore(lib: Library, specs: seq<SubnetSpec>, subnets: seq<Subnet>, s: Subnet)
    requires ParsedGroups(lib, specs, Groups(subnets)) && |subnets| < |specs|
    requires ParsedCidrs(lib, specs[|subnets|].cidrs, s.prefixes)
    ensures Groups(subnets + [s]) == Groups(subnets) + [s.prefixes]
    ensures ParsedGroups(lib, specs, Groups(subnets + [s]))
  {
    var more := Groups(subnets) + [s.prefixes];
    assert Groups(subnets + [s]) == more;
    forall i | 0 <= i < |more|
      ensures ParsedCidrs(lib, specs[i].cidrs, more[i])
    {
      if i < |subnets| {
        assert more[i] == Groups(subnets)[i];
      }
    }
  }

  /** Loads a policy if every part of it can be read and no name and no prefix is used twice. */
  method New(lib: Library, specs: seq<SubnetSpec>) returns (r: Result<Policy>, ghost lists: seq<Lists>)
    requires lib.MatchesExpressions()
    ensures r.Ok? <==> Accepted(lib, specs)
    ensures r.Ok? ==> |r.value.subnets| == |specs| && Loaded(lib, specs, lists, r.value.subnets)
    ensures r.Ok? ==> ParsedGroups(lib, specs, Groups(r.value.subnets)) && AllDiffer(Groups(r.value.subnets))
  {
    lists := [];
    if specs == [] {
      return Err("no subnets defined"), lists;
    }
    var subnets: seq<Subnet> := [];
    var names: set<string> := {};
    var owner: map<Prefix, string> := map[];
    assert Groups(subnets) == [];
    for i := 0 to |specs|
      invariant |subnets| == i && Loaded(lib, specs, lists, subnets)
      invariant Recorded(specs, i, names)
      invariant Claims(lib, specs, subnets, owner)
    {
      var spec := SpecAt(specs, i);
      RecordedMore(specs, i, names);
      if spec.name in names {
        return Err("duplicate subnet name"), lists;
      }
      names := names + {spec.name};
      var s;
      ghost var list;
      s, owner, list := Load(lib, specs, i, subnets, owner, lists);
      if s.Err? {
        return Err(s.error), lists;
      }
      subnets, lists := subnets + [s.value], lists + [list];
    }
    AllAccepted(lib, specs, subnets, names, owner);
    return Ok(Policy(subnets)), lists;
  }

  ghost predicate Claims(lib: Library, specs: seq<SubnetSpec>, subnets: seq<Subnet>, owner: map<Prefix, string>) {
    && |subnets| <= |specs| && AcceptableUpTo(lib, specs, |subnets|)
    && Owns(owner, Groups(subnets)) && AllDiffer(Groups(subnets)) && ParsedGroups(lib, specs, Groups(subnets))
  }

  lemma AllAccepted(lib: Library, specs: seq<SubnetSpec>, subnets: seq<Subnet>, names: set<string>, owner: map<Prefix, string>)
    requires specs != [] && |subnets| == |specs| && Recorded(specs, |specs|, names) && Claims(lib, specs, subnets, owner)
    ensures Accepted(lib, specs)
  {
    NotAccepted(lib, specs, Groups(subnets));
  }

  /** One more subnet. */
  method Load(lib: Library, specs: seq<SubnetSpec>, i: nat, subnets: seq<Subnet>, owner: map<Prefix, string>,
              ghost lists: seq<Lists>)
    returns (r: Result<Subnet>, owner': map<Prefix, string>, ghost list: Lists)
    requires lib.MatchesExpressions() && i < |specs| && |subnets| == i && Claims(lib, specs, subnets, owner)
    requires Loaded(lib, specs, lists, subnets)
    ensures r.Err? ==> !Accepted(lib, specs)
    ensures r.Ok? ==> Claims(lib, specs, subnets + [r.value], owner')
    ensures r.Ok? ==> Loaded(lib, specs, lists + [list], subnets + [r.value])
  {
    owner' := owner;
    SameButName(lib, specs[i], NameAt(specs, i));
    r, list := CompileSubnet(lib, SpecAt(specs, i));
    if r.Ok? {
      var s := r.value;
      var ok;
      ok, owner' := ClaimNext(lib, specs, i, subnets, owner, s);
      if !ok {
        return Err("cidr already used"), owner', list;
      }
      StillLoaded(lib, specs, lists, subnets);
      assert LoadedAt(lib, SpecAt(specs, i), list, s);
      LoadedMore(lib, specs, lists, subnets, list, s);
    }
  }

  twostate lemma StillLoaded(lib: Library, new specs: seq<SubnetSpec>, new lists: seq<Lists>, new subnets: seq<Subnet>)
    requires old(allocated(subnets)) && old(Loaded(lib, specs, lists, subnets))
    requires forall s :: s in subnets ==> unchanged(s.allow) && unchanged(s.deny)
    ensures Loaded(lib, specs, lists, subnets)
  {
    forall i | 0 <= i < |subnets|
      ensures LoadedAt(lib, SpecAt(specs, i), lists[i], subnets[i])
    {
      assert old(LoadedAt(lib, SpecAt(specs, i), lists[i], subnets[i]));
    }
  }

  lemma SameButName(lib: Library, spec: SubnetSpec, name: string)
    ensures Acceptable(lib, spec.(name := name)) <==> Acceptable(lib, spec)
  {
  }

  method ClaimNext(ghost lib: Library, ghost specs: seq<SubnetSpec>, ghost i: nat, ghost subnets: seq<Subnet>,
                   owner: map<Prefix, string>, s: Subnet)
    returns (ok: bool, owner': map<Prefix, string>)
    requires i < |specs| && |subnets| == i && Claims(lib, specs, subnets, owner)
    requires Acceptable(lib, specs[i]) && ParsedCidrs(lib, specs[i].cidrs, s.prefixes)
    ensures !ok ==> !Accepted(lib, specs)
    ensures ok ==> Claims(lib, specs, subnets + [s], owner')
  {
    GroupsMore(lib, specs, subnets, s);
    ok, owner' := Claim(owner, s, Groups(subnets));
    NotAccepted(lib, specs, Groups(subnets + [s]));
  }

  // ---------------------------------------------------------------------------------------------
  // The subnet of a client

  /** This prefix contains the address, and no longer one does. */
  ghost predicate Longest(groups: seq<seq<Prefix>>, a: Addr, i: int, j: int, p: Prefix) {
    && At(groups, i, j, p) && p.Contains(a)
    && (forall k, l, q :: At(groups, k, l, q) && q.Contains(a) ==> q.bits <= p.bits)
  }

  ghost predicate Masked(groups: seq<seq<Prefix>>) { forall i, j, p :: At(groups, i, j, p) ==> p.IsValid() && p.IsMasked() }

  /** Every accepted policy has masked prefixes only. */
  lemma LoadedAreMasked(lib: Library, specs: seq<SubnetSpec>, groups: seq<seq<Prefix>>)
    requires lib.ParsesAddresses() && ParsedGroups(lib, specs, groups)
    ensures Masked(groups)
  {
    forall i, j, p | At(groups, i, j, p)
      ensures p.IsValid() && p.IsMasked()
    {
      assert ParsedCidrs(lib, specs[i].cidrs, groups[i]);
      assert ParsePrefix(lib, specs[i].cidrs[j]) == Some(p);
    }
  }

  /** The longest match is one prefix of one subnet. */
  lemma LongestUnique(groups: seq<seq<Prefix>>, a: Addr, i: int, j: int, p: Prefix, k: int, l: int, q: Prefix)
    requires Masked(groups) && AllDiffer(groups)
    requires Longest(groups, a, i, j, p) && Longest(groups, a, k, l, q)
    ensures i == k && j == l && p == q
  {
    assert p.bits == q.bits;
    MaskedPrefixUnique(p, q, a);
  }

  /** The same prefixes in any other order and grouping have the same longest match. */
  lemma LongestAnyOrder(groups: seq<seq<Prefix>>, others: seq<seq<Prefix>>, a: Addr, i: int, j: int, p: Prefix, k: int, l: int,
                        q: Prefix)
    requires Masked(groups)
    requires forall r :: Has(groups, r) <==> Has(others, r)
    requires Longest(groups, a, i, j, p) && Longest(others, a, k, l, q)
    ensures p == q
  {
    assert Has(groups, p) && Has(others, q);
    assert p.bits == q.bits;
    MaskedPrefixUnique(p, q, a);
  }

  /** A subnet of this name has this prefix. */
  ghost predicate Assigns(p: Policy, name: string, prefix: Prefix) {
    exists i, j :: At(Groups(p.subnets), i, j, prefix) && p.subnets[i].name == name
  }

  lemma SamePrefixes(p: Policy, q: Policy)
    requires forall name, r :: Assigns(p, name, r) <==> Assigns(q, name, r)
    ensures forall r :: Has(Groups(p.subnets), r) ==> Has(Groups(q.subnets), r)
  {
    var groups, others := Groups(p.subnets), Groups(q.subnets);
    forall r | Has(groups, r)
      ensures Has(others, r)
    {
      var x, y :| At(groups, x, y, r);
      assert Assigns(p, p.subnets[x].name, r);
      assert Assigns(q, p.subnets[x].name, r);
    }
  }

  /** The name of the subnet that an address is in, if it is in one. */
  ghost predicate InSubnet(p: Policy, a: Addr, name: Option<string>) {
    match name
    case Some(n) => exists i, j, prefix :: Longest(Groups(p.subnets), a, i, j, prefix) && p.subnets[i].name == n
    case None => forall prefix :: Has(Groups(p.subnets), prefix) ==> !prefix.Contains(a)
  }

  /** Two accepted policies that give the same prefixes to the same names, in whatever order, put every client in
      the same subnet, or both in none. */
  lemma SubnetAnyOrder(p: Policy, q: Policy, a: Addr, name: Option<string>, name': Option<string>)
    requires Masked(Groups(p.subnets)) && AllDiffer(Groups(q.subnets))
    requires forall n, r :: Assigns(p, n, r) <==> Assigns(q, n, r)
    requires InSubnet(p, a, name) && InSubnet(q, a, name')
    ensures name == name'
  {
    SamePrefixes(p, q);
    SamePrefixes(q, p);
    if name.Some? {
      var i, j, prefix :| Longest(Groups(p.subnets), a, i, j, prefix) && p.subnets[i].name == name.value;
      assert Has(Groups(p.subnets), prefix);
      if name'.Some? {
        var k, l, prefix' :| Longest(Groups(q.subnets), a, k, l, prefix') && q.subnets[k].name == name'.value;
        LongestAnyOrder(Groups(p.subnets), Groups(q.subnets), a, i, j, prefix, k, l, prefix');
        assert Assigns(p, p.subnets[i].name, prefix);
        assert Assigns(q, p.subnets[i].name, prefix);
      }
    }
  }

  /** The longest prefix that contains the client's address decides. */
  method SubnetOf(p: Policy, client: Addr) returns (best: Option<Subnet>, ghost at: (int, int, Prefix))
    ensures best.None? ==> forall i, j, q :: At(Groups(p.subnets), i, j, q) ==> !q.Contains(client.Unmap())
    ensures best.Some? ==> Longest(Groups(p.subnets), client.Unmap(), at.0, at.1, at.2) && best.value == p.subnets[at.0]
    ensures InSubnet(p, client.Unmap(), if best.Some? then Some(best.value.name) else None)
  {
    var a := client.Unmap();
    ghost var groups := Groups(p.subnets);
    best := None;
    at := (0, 0, ALL_V4);
    var bestBits: int := -1;
    for i := 0 to |p.subnets|
      invariant BestSoFar(groups, a, i, 0, bestBits, at) && (best.Some? <==> bestBits >= 0)
      invariant best.Some? ==> best.value == p.subnets[at.0]
    {
      var s := p.subnets[i];
      for j := 0 to |s.prefixes|
        invariant BestSoFar(groups, a, i, j, bestBits, at) && (best.Some? <==> bestBits >= 0)
        invariant best.Some? ==> best.value == p.subnets[at.0]
      {
        var prefix := s.prefixes[j];
        assert At(groups, i, j, prefix);
        if prefix.bits > bestBits && prefix.Contains(a) {
          best, bestBits, at := Some(s), prefix.bits, (i, j, prefix);
        }
      }
    }
    if best.None? {
      NoneContains(p, a);
    }
  }

  lemma NoneContains(p: Policy, a: Addr)
    requires forall i, j, q :: At(Groups(p.subnets), i, j, q) ==> !q.Contains(a)
    ensures InSubnet(p, a, None)
  {
    forall q | Has(Groups(p.subnets), q)
      ensures !q.Contains(a)
    {
      var i, j :| At(Groups(p.subnets), i, j, q);
    }
  }

  predicate Before(k: int, l: int, i: int, j: int) { k < i || (k == i && l < j) }

  /** The best of the prefixes before a place in the list, or none of them. */
  ghost predicate BestSoFar(groups: seq<seq<Prefix>>, a: Addr, i: int, j: int, bits: int, at: (int, int, Prefix)) {
    && bits >= -1
    && (forall k, l, q :: At(groups, k, l, q) && Before(k, l, i, j) && q.Contains(a) ==> q.bits <= bits)
    && (bits >= 0 ==> At(groups, at.0, at.1, at.2) && at.2.Contains(a) && at.2.bits == bits)
  }

  // ---------------------------------------------------------------------------------------------
  // The order of the configuration

  /** A way to put `n` things in another order. */
  predicate IsOrder(order: seq<nat>, n: nat) {
    && |order| == n && (forall i :: 0 <= i < n ==> order[i] < n)
    && (forall i, k :: 0 <= i < k < n ==> order[i] != order[k])
  }

  function Reordered<T>(s: seq<T>, order: seq<nat>): seq<T>
    requires IsOrder(order, |s|)
  {
    seq(|s|, i requires 0 <= i < |s| => s[order[i]])
  }

  /** All subnets have names, or no name is one that a subnet without a name could be given. */
  predicate OrderFree(specs: seq<SubnetSpec>) {
    || (forall i :: 0 <= i < |specs| ==> specs[i].name != "")
    || (forall i, k :: 0 <= i < |specs| && 0 <= k < |specs| ==> specs[i].name != Numbered(k))
  }

  lemma NumberedApart(i: nat, k: nat)
    requires Numbered(i) == Numbered(k)
    ensures i == k
  {
    assert Decimal(i) == Numbered(i)[7..|Numbered(i)| - 1];
    assert Decimal(k) == Numbered(k)[7..|Numbered(k)| - 1];
    ValueOfDecimal(i);
    ValueOfDecimal(k);
  }

  lemma NumberedIsName(i: nat)
    ensures Numbered(i) != ""
  {
  }

  lemma ReorderedNames(specs: seq<SubnetSpec>, order: seq<nat>, i: nat, k: nat)
    requires NamesDiffer(specs, |specs|) && OrderFree(specs) && IsOrder(order, |specs|) && i < k < |specs|
    ensures NameAt(Reordered(specs, order), i) != NameAt(Reordered(specs, order), k)
  {
    var x, y := specs[order[i]], specs[order[k]];
    if x.name == "" && y.name == "" {
      if Numbered(i) == Numbered(k) {
        NumberedApart(i, k);
      }
    } else if x.name != "" && y.name != "" {
      assert NameAt(specs, order[i]) != NameAt(specs, order[k]);
    }
  }

  lemma ReorderedCidrs(lib: Library, specs: seq<SubnetSpec>, order: seq<nat>)
    requires CidrsDiffer(lib, specs) && IsOrder(order, |specs|)
    ensures CidrsDiffer(lib, Reordered(specs, order))
  {
    var specs' := Reordered(specs, order);
    forall p, i, j, k, l | CidrAt(lib, specs', i, j, p) && CidrAt(lib, specs', k, l, p)
      ensures i == k && j == l
    {
      assert CidrAt(lib, specs, order[i], j, p) && CidrAt(lib, specs, order[k], l, p);
    }
  }

  lemma ReorderedAccepted(lib: Library, specs: seq<SubnetSpec>, order: seq<nat>)
    requires Accepted(lib, specs) && OrderFree(specs) && IsOrder(order, |specs|)
    ensures Accepted(lib, Reordered(specs, order))
  {
    forall i: nat, k: nat | i < k < |specs|
      ensures NameAt(Reordered(specs, order), i) != NameAt(Reordered(specs, order), k)
    {
      ReorderedNames(specs, order, i, k);
    }
    ReorderedCidrs(lib, specs, order);
  }

  function Swapped(n: nat, i: nat, k: nat): (order: seq<nat>)
    requires i < n && k < n
    ensures IsOrder(order, n)
  {
    seq(n, x requires 0 <= x < n => if x == i then k else if x == k then i else x)
  }

  /** A subnet without a name moves to the number that another one is called by. */
  lemma SomeOrderRefused(lib: Library, specs: seq<SubnetSpec>) returns (order: seq<nat>)
    requires Accepted(lib, specs) && !OrderFree(specs)
    ensures IsOrder(order, |specs|) && !Accepted(lib, Reordered(specs, order))
  {
    var bare: nat :| bare < |specs| && specs[bare].name == "";
    var i: nat, k: nat :| i < |specs| && k < |specs| && specs[i].name == Numbered(k);
    NumberedIsName(k);
    order := Swapped(|specs|, bare, k);
    var specs' := Reordered(specs, order);
    var there := if i == k then bare else i;
    NumberTaken(specs, i, k, bare);
    assert specs'[k] == specs[bare] && specs'[there] == specs[i];
    assert NameAt(specs', k) == NameAt(specs', there);
  }

  lemma NumberTaken(specs: seq<SubnetSpec>, i: nat, k: nat, bare: nat)
    requires NamesDiffer(specs, |specs|) && i < |specs| && k < |specs| && bare < |specs|
    requires specs[i].name == Numbered(k) && specs[bare].name == ""
    ensures i != bare && bare != k
  {
    NumberedIsName(k);
    DifferAt(specs, i, bare);
  }

  lemma DifferAt(specs: seq<SubnetSpec>, i: nat, k: nat)
    requires NamesDiffer(specs, |specs|) && i < |specs| && k < |specs| && i != k
    ensures NameAt(specs, i) != NameAt(specs, k)
  {
  }

  /** An accepted configuration is accepted in every other order of its subnets exactly if all of them have names, or
      none has a name like `subnet[0]`: the number in it may be given to another. */
  lemma AcceptedAnyOrder(lib: Library, specs: seq<SubnetSpec>)
    requires Accepted(lib, specs)
    ensures (forall order :: IsOrder(order, |specs|) ==> Accepted(lib, Reordered(specs, order))) <==> OrderFree(specs)
  {
    if OrderFree(specs) {
      forall order | IsOrder(order, |specs|)
        ensures Accepted(lib, Reordered(specs, order))
      {
        ReorderedAccepted(lib, specs, order);
      }
    } else {
      var order := SomeOrderRefused(lib, specs);
    }
  }

  /** A configuration that is accepted, and is refused the other way round. */
  lemma OrderCanMatter(lib: Library, c: string, d: string) returns (bare: SubnetSpec, named: SubnetSpec)
    requires ParsePrefix(lib, c).Some? && ParsePrefix(lib, d).Some? && ParsePrefix(lib, c) != ParsePrefix(lib, d)
    ensures Accepted(lib, [bare, named]) && !OrderFree([bare, named]) && !Accepted(lib, [named, bare])
  {
    bare, named := SubnetSpec("", [c], [], [], []), SubnetSpec(Numbered(1), [d], [], [], []);
    var specs, other := [bare, named], [named, bare];
    NumberedIsName(1);
    assert NameAt(other, 0) == NameAt(other, 1);
    assert specs[0].name == "" && specs[1].name == Numbered(1);
    TwoAccepted(lib, bare, named);
  }

  lemma TwoAccepted(lib: Library, bare: SubnetSpec, named: SubnetSpec)
    requires bare.name == "" && named.name == Numbered(1) && |bare.cidrs| == |named.cidrs| == 1
    requires bare == SubnetSpec("", bare.cidrs, [], [], []) && named == SubnetSpec(Numbered(1), named.cidrs, [], [], [])
    requires var p, q := ParsePrefix(lib, bare.cidrs[0]), ParsePrefix(lib, named.cidrs[0]); p.Some? && q.Some? && p != q
    ensures Accepted(lib, [bare, named])
  {
    var specs := [bare, named];
    NumberedIsName(1);
    if NameAt(specs, 0) == NameAt(specs, 1) {
      NumberedApart(0, 1);
    }
    JustCidrs(lib, bare);
    JustCidrs(lib, named);
    TwoCidrs(lib, specs);
  }

  lemma JustCidrs(lib: Library, spec: SubnetSpec)
    requires |spec.cidrs| == 1 && spec.ports == [] && spec.allow == [] && spec.deny == []
    requires ParsePrefix(lib, spec.cidrs[0]).Some?
    ensures Acceptable(lib, spec)
  {
  }

  lemma TwoCidrs(lib: Library, specs: seq<SubnetSpec>)
    requires |specs| == 2 && |specs[0].cidrs| == |specs[1].cidrs| == 1
    requires ParsePrefix(lib, specs[0].cidrs[0]) != ParsePrefix(lib, specs[1].cidrs[0])
    ensures CidrsDiffer(lib, specs)
  {
  }

  /** The order of the prefixes of a subnet never matters. */
  lemma AcceptedAnyCidrOrder(lib: Library, specs: seq<SubnetSpec>, x: nat, order: seq<nat>)
    requires Accepted(lib, specs) && x < |specs| && IsOrder(order, |specs[x].cidrs|)
    ensures Accepted(lib, specs[x := specs[x].(cidrs := Reordered(specs[x].cidrs, order))])
  {
    var specs' := specs[x := specs[x].(cidrs := Reordered(specs[x].cidrs, order))];
    forall i: nat, k: nat | i < k < |specs'|
      ensures NameAt(specs', i) != NameAt(specs', k)
    {
      assert NameAt(specs, i) != NameAt(specs, k);
    }
    assert Acceptable(lib, specs[x]);
    AcceptableOrder(lib, specs[x], order);
    forall p, i, j, k, l | CidrAt(lib, specs', i, j, p) && CidrAt(lib, specs', k, l, p)
      ensures i == k && j == l
    {
      var j', l' := if i == x then order[j] else j, if k == x then order[l] else l;
      assert CidrAt(lib, specs, i, j', p) && CidrAt(lib, specs, k, l', p);
    }
  }

  lemma AcceptableOrder(lib: Library, spec: SubnetSpec, order: seq<nat>)
    requires Acceptable(lib, spec) && IsOrder(order, |spec.cidrs|)
    ensures Acceptable(lib, spec.(cidrs := Reordered(spec.cidrs, order)))
  {
    var cidrs := Reordered(spec.cidrs, order);
    forall i | 0 <= i < |cidrs|
      ensures ParsePrefix(lib, cidrs[i]).Some?
    {
      assert cidrs[i] == spec.cidrs[order[i]];
    }
  }
}
