/** Addresses and prefixes as `net/netip` keeps them: a family, a number and, for IPv6, a zone. */
module Netip {

  type U32 = n: nat | n < 0x1_0000_0000
  type U128 = n: nat | n < 0x1_0000_0000_0000_0000_0000_0000_0000_0000

  /** `NoAddr` is the zero `netip.Addr`, which is not a valid address. */
  datatype Addr = NoAddr | V4(v4: U32) | V6(v6: U128, zone: string) {
    predicate IsValid() { !NoAddr? }

    function Zone(): string { if V6? then zone else "" }

    /** IPv4-mapped IPv6, `::ffff:0:0/96`. */
    predicate Is4In6() { V6? && v6 / 0x1_0000_0000 == 0xffff }

    /** The IPv4 address inside an IPv4-mapped one; every other address as it is. */
    function Unmap(): Addr { if Is4In6() then V4(v6 % 0x1_0000_0000) else this }

    function BitLen(): nat { match this case NoAddr => 0 case V4(_) => 32 case V6(_, _) => 128 }

    function Number(): nat { match this case NoAddr => 0 case V4(n) => n case V6(n, _) => n }
  }

  /** `bits` leading bits of `addr`; a prefix carries no zone. */
  datatype Prefix = Prefix(addr: Addr, bits: nat) {
    predicate IsValid() { addr.IsValid() && addr.Zone() == "" && bits <= addr.BitLen() }

    /** The size of the address block the prefix covers. */
    function Block(): nat
      requires IsValid()
    {
      Pow2(addr.BitLen() - bits)
    }

    /** Whether all bits after the prefix are zero. */
    predicate IsMasked()
      requires IsValid()
    {
      addr.Number() % Block() == 0
    }

    /** Same family, no zone, and the same leading bits. */
    predicate Contains(a: Addr) {
      && IsValid()
      && a.Zone() == ""
      && a.BitLen() == addr.BitLen()
      && a.Number() / Block() == addr.Number() / Block()
    }
  }

  function Pow2(k: nat): (p: nat)
    ensures p > 0
  {
    if k == 0 then 1 else 2 * Pow2(k - 1)
  }

  lemma {:induction false} Pow2Sum(a: nat, b: nat)
    ensures Pow2(a + b) == Pow2(a) * Pow2(b)
  {
    if a > 0 {
      Pow2Sum(a - 1, b);
    }
  }

  lemma Squared(a: nat, p: nat)
    requires Pow2(a) == p
    ensures Pow2(a + a) == p * p
  {
    Pow2Sum(a, a);
  }

  lemma FamilySizes(a: nat)
    requires a == 8
    ensures Pow2(4 * a) == 0x1_0000_0000
    ensures Pow2(16 * a) == 0x1_0000_0000_0000_0000_0000_0000_0000_0000
  {
    assert Pow2(8) == 256;
    Squared(a, 256);
    Squared(2 * a, 0x1_0000);
    Squared(4 * a, 0x1_0000_0000);
    Squared(8 * a, 0x1_0000_0000_0000_0000);
  }

  const ALL_V4 := Prefix(V4(0), 0)
  const ALL_V6 := Prefix(V6(0, ""), 0)

  /** Every address without a zone is in the prefix of length zero of its family. */
  lemma ContainsAll(a: Addr)
    requires a.IsValid() && a.Zone() == ""
    ensures ALL_V4.Contains(a) || ALL_V6.Contains(a)
  {
    FamilySizes(8);
  }

  lemma UnmapIdempotent(a: Addr)
    ensures a.Unmap().Unmap() == a.Unmap()
    ensures !a.Unmap().Is4In6()
  {
  }

  /** Two masked prefixes of one length that share an address are the same prefix. */
  lemma MaskedPrefixUnique(p: Prefix, q: Prefix, a: Addr)
    requires p.Contains(a) && q.Contains(a)
    requires p.IsMasked() && q.IsMasked()
    requires p.bits == q.bits
    ensures p == q
  {
    var block := p.Block();
    assert q.Block() == block;
    assert p.addr.Number() == p.addr.Number() / block * block;
    assert q.addr.Number() == q.addr.Number() / block * block;
  }

  /** A masked prefix is the addresses from its own on, as many as its block. */
  lemma MaskedIsRange(p: Prefix, a: Addr)
    requires p.IsValid() && p.IsMasked() && a.Zone() == "" && a.BitLen() == p.addr.BitLen()
    ensures p.Contains(a) <==> p.addr.Number() <= a.Number() < p.addr.Number() + p.Block()
  {
    var block, start, n := p.Block(), p.addr.Number(), a.Number();
    BlockOf(start, n, block);
  }

  lemma BlockOf(start: nat, n: nat, block: nat)
    requires block > 0 && start % block == 0
    ensures n / block == start / block <==> start <= n < start + block
  {
    var q := start / block;
    assert start == q * block;
    QuotientIs(n, block, q);
  }

  lemma QuotientIs(n: nat, block: nat, q: nat)
    requires block > 0
    ensures n / block == q <==> q * block <= n < q * block + block
  {
    var r := n / block;
    assert r * block <= n < r * block + block;
    if r < q {
      assert (r + 1) * block <= q * block;
    } else if r > q {
      assert (q + 1) * block <= r * block;
    }
  }
}
