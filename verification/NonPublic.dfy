/** The ranges that a hostname may not lead to unless a rule about addresses says so. */
module NonPublic {
  import opened Netip
  import opened Foreign
  import opened Hostnames
  import opened Patterns
  import opened Ports
  import opened Verdicts

  const NON_PUBLIC: seq<Prefix> := [
    Prefix(V4(0x0000_0000), 8), Prefix(V4(0x0a00_0000), 8), Prefix(V4(0x6440_0000), 10), Prefix(V4(0x7f00_0000), 8),
    Prefix(V4(0xa9fe_0000), 16), Prefix(V4(0xac10_0000), 12), Prefix(V4(0xc000_0000), 24), Prefix(V4(0xc058_6300), 24),
    Prefix(V4(0xc0a8_0000), 16), Prefix(V4(0xc612_0000), 15), Prefix(V4(0xe000_0000), 4), Prefix(V4(0xf000_0000), 4),
    Prefix(V6(0, ""), 96),
    Prefix(V6(0xffff_0000_0000, ""), 96),
    Prefix(V6(0x0064_ff9b_0000_0000_0000_0000_0000_0000, ""), 96),
    Prefix(V6(0x0064_ff9b_0001_0000_0000_0000_0000_0000, ""), 48),
    Prefix(V6(0x2001_0000_0000_0000_0000_0000_0000_0000, ""), 32),
    Prefix(V6(0x2002_0000_0000_0000_0000_0000_0000_0000, ""), 16),
    Prefix(V6(0xfc00_0000_0000_0000_0000_0000_0000_0000, ""), 7),
    Prefix(V6(0xfe80_0000_0000_0000_0000_0000_0000_0000, ""), 10),
    Prefix(V6(0xfec0_0000_0000_0000_0000_0000_0000_0000, ""), 10),
    Prefix(V6(0xff00_0000_0000_0000_0000_0000_0000_0000, ""), 8)]

  /** The entry for IPv4-mapped addresses. */
  const MAPPED := NON_PUBLIC[13]

  /** The program's table in place of any other. */
  function Program(lib: Library): Library { lib.(nonPublic := NON_PUBLIC) }

  /** The same without that entry. */
  function Without(lib: Library, entry: Prefix): Library { lib.(nonPublic := Others(lib.nonPublic, entry)) }

  function Others(table: seq<Prefix>, entry: Prefix): (rest: seq<Prefix>)
    ensures forall p :: p in rest <==> p in table && p != entry
  {
    if table == [] then []
    else
      assert table == [table[0]] + table[1..];
      if table[0] == entry then Others(table[1..], entry) else [table[0]] + Others(table[1..], entry)
  }

  lemma MappedEntry(entry: Prefix)
    requires entry == Prefix(V6(0xffff_0000_0000, ""), 96)
    ensures entry == MAPPED
  {
  }

  /** What is in the entry is IPv4 in disguise, and no address is that once it is unmapped. */
  lemma MappedMeans(entry: Prefix, a: Addr, size: nat)
    requires entry == Prefix(V6(0xffff_0000_0000, ""), 96) && size == Pow2(32) == 0x1_0000_0000
    ensures entry.Contains(a) <==> a.Is4In6() && a.Zone() == ""
    ensures !entry.Contains(a.Unmap())
  {
    UnmapIdempotent(a);
  }

  lemma PublicWithout(lib: Library, entry: Prefix, a: Addr)
    requires !entry.Contains(a)
    ensures Public(lib, a) <==> Public(Without(lib, entry), a)
  {
    var table, rest := lib.nonPublic, Without(lib, entry).nonPublic;
    forall k | 0 <= k < |table| && table[k].Contains(a)
      ensures exists m :: 0 <= m < |rest| && rest[m].Contains(a)
    {
      assert table[k] in rest;
      var m :| 0 <= m < |rest| && rest[m] == table[k];
    }
    forall k | 0 <= k < |rest| && rest[k].Contains(a)
      ensures exists m :: 0 <= m < |table| && table[m].Contains(a)
    {
      assert rest[k] in table;
      var m :| 0 <= m < |table| && table[m] == rest[k];
    }
  }

  /** The addresses of a destination are never IPv4-mapped. */
  lemma AddressesUnmapped(lib: Library, answers: Answers, host: string, i: nat)
    requires Target(lib, host).Some? && Addresses(answers, Target(lib, host).value).Some?
    requires i < |Addresses(answers, Target(lib, host).value).value|
    ensures exists a: Addr :: Addresses(answers, Target(lib, host).value).value[i] == a.Unmap()
  {
    var d := Target(lib, host).value;
    if d.Literal? {
      assert Addresses(answers, d).value[i] == lib.parseAddr(host).value.Unmap();
    } else {
      assert Addresses(answers, d).value[i] == answers(d.name).value[i].Unmap();
    }
  }

  lemma SameNames(lib: Library, lib': Library, rules: seq<Rule>, d: Destination)
    requires lib' == lib.(nonPublic := lib'.nonPublic)
    ensures Denies(lib, rules, d) <==> Denies(lib', rules, d)
    ensures Allows(lib, rules, d) <==> Allows(lib', rules, d)
  {
    forall p: Pattern, name: string
      ensures MatchesName(lib, p, name) <==> MatchesName(lib', p, name)
    {
    }
  }

  lemma SameAdmits(lib: Library, lib': Library, lists: Lists, answers: Answers, d: Destination, n: Port)
    requires lib' == lib.(nonPublic := lib'.nonPublic)
    requires Addresses(answers, d).Some? ==>
               forall a :: a in Addresses(answers, d).value ==> (Public(lib, a) <==> Public(lib', a))
    ensures Admits(lib, lists, answers, d, n) <==> Admits(lib', lists, answers, d, n)
  {
    SameNames(lib, lib', lists.deny, d);
    SameNames(lib, lib', lists.allow, d);
  }

  /** The entry is a backstop that never decides: without it every request gets the same verdict, under the program's
      table and under any other. */
  lemma MappedNeverDecides(lib: Library, lists: Lists, answers: Answers, host: string, port: string)
    ensures Allowed(Program(lib), lists, answers, host, port) <==>
            Allowed(Without(Program(lib), MAPPED), lists, answers, host, port)
    ensures Allowed(lib, lists, answers, host, port) <==> Allowed(Without(lib, MAPPED), lists, answers, host, port)
  {
    var entry := Prefix(V6(0xffff_0000_0000, ""), 96);
    MappedEntry(entry);
    WithoutMapped(Program(lib), entry, lists, answers, host, port);
    WithoutMapped(lib, entry, lists, answers, host, port);
  }

  lemma WithoutMapped(lib: Library, entry: Prefix, lists: Lists, answers: Answers, host: string, port: string)
    requires entry == Prefix(V6(0xffff_0000_0000, ""), 96)
    ensures Allowed(lib, lists, answers, host, port) <==> Allowed(Without(lib, entry), lists, answers, host, port)
  {
    var lib' := Without(lib, entry);
    assert Target(lib', host) == Target(lib, host);
    if Target(lib, host).Some? {
      var d := Target(lib, host).value;
      SamePublic(lib, entry, answers, host);
      forall n: Port
        ensures Admits(lib, lists, answers, d, n) <==> Admits(lib', lists, answers, d, n)
      {
        SameAdmits(lib, lib', lists, answers, d, n);
      }
    }
  }

  lemma SamePublic(lib: Library, entry: Prefix, answers: Answers, host: string)
    requires entry == Prefix(V6(0xffff_0000_0000, ""), 96) && Target(lib, host).Some?
    ensures var found := Addresses(answers, Target(lib, host).value);
            found.Some? ==> forall a :: a in found.value ==> (Public(lib, a) <==> Public(Without(lib, entry), a))
  {
    var found := Addresses(answers, Target(lib, host).value);
    FamilySizes(8);
    if found.Some? {
      forall i | 0 <= i < |found.value|
        ensures Public(lib, found.value[i]) <==> Public(Without(lib, entry), found.value[i])
      {
        AddressesUnmapped(lib, answers, host, i);
        var a: Addr :| found.value[i] == a.Unmap();
        MappedMeans(entry, a, Pow2(32));
        PublicWithout(lib, entry, found.value[i]);
      }
    }
  }
}
