/** Ports and port ranges as the configuration and the requests write them. */
module Ports {
  import opened Basics
  import opened Text

  type Port = n: nat | n < 0x1_0000

  datatype PortRange = PortRange(lo: Port, hi: Port) {
    predicate Contains(p: Port) { lo <= p <= hi }
  }

  /** The one way to write a port. */
  predicate IsPort(s: string, n: nat) { 1 <= n <= 65535 && s == Decimal(n) }

  /** A text writes at most one port. */
  lemma PortUnique(s: string, n: nat, m: nat)
    requires IsPort(s, n) && IsPort(s, m)
    ensures n == m
  {
    ValueOfDecimal(n);
    ValueOfDecimal(m);
  }

  /** Accepts exactly what printing a port number gives, and reads back that number. */
  method ParsePort(s: string) returns (r: Result<Port>)
    ensures r.Ok? ==> IsPort(s, r.value)
    ensures r.Err? ==> forall n :: !IsPort(s, n)
  {
    if s == "" || |s| > 5 || s[0] == '0' {
      forall n | IsPort(s, n)
        ensures false
      {
        PortLength(n);
      }
      return Err("invalid port");
    }
    for i := 0 to |s|
      invariant forall k :: 0 <= k < i ==> IsDigit(s[k])
    {
      if s[i] < '0' || s[i] > '9' {
        assert s[i] in s && !IsDigit(s[i]);
        return Err("invalid port");
      }
    }
    var n := Value(s);
    DecimalOfValue(s);
    if n < 1 || n > 65535 {
      forall m | IsPort(s, m)
        ensures m == n
      {
        ValueOfDecimal(m);
      }
      return Err("port out of range");
    }
    return Ok(n);
  }

  lemma PortLength(n: nat)
    requires n <= 65535
    ensures |Decimal(n)| <= 5
  {
    assert |Decimal(n / 10000)| == 1;
    if n >= 10 {
      assert |Decimal(n / 10 / 10 / 10)| <= 2;
      assert |Decimal(n / 10 / 10)| <= 3;
    }
  }

  /** `strings.Cut(s, "-")`: the text up to the first hyphen, and what follows it if there is one. */
  function CutAtHyphen(s: string): (cut: (string, Option<string>))
    ensures '-' !in cut.0
    ensures cut.1.Some? ==> s == cut.0 + "-" + cut.1.value
    ensures cut.1.None? ==> s == cut.0
  {
    if s == "" then ("", None)
    else if s[0] == '-' then ("", Some(s[1..]))
    else
      var (before, after) := CutAtHyphen(s[1..]);
      ([s[0]] + before, after)
  }

  /** `lo`, or `lo-hi` with `lo` at most `hi`, each the one way to write it. */
  predicate IsPortRange(s: string, r: PortRange) {
    || (IsPort(s, r.lo) && r.hi == r.lo)
    || (1 <= r.lo <= r.hi && s == Decimal(r.lo) + "-" + Decimal(r.hi))
  }

  lemma {:induction false} CutUnique(a: string, b: string)
    requires '-' !in a
    ensures CutAtHyphen(a + "-" + b) == (a, Some(b))
    ensures CutAtHyphen(a) == (a, None)
  {
    var s := a + "-" + b;
    if a == "" {
      assert s[1..] == b;
    } else {
      assert a[0] in a && a == [a[0]] + a[1..];
      CutUnique(a[1..], b);
      assert s[1..] == a[1..] + "-" + b;
    }
  }

  /** What a range must look like for the parser to take it apart. */
  lemma RangeParts(s: string, r: PortRange)
    requires IsPortRange(s, r)
    ensures var (before, after) := CutAtHyphen(s);
            && IsPort(before, r.lo)
            && match after { case None => r.hi == r.lo case Some(end) => IsPort(end, r.hi) && r.lo <= r.hi }
  {
    CutUnique(Decimal(r.lo), Decimal(r.hi));
  }

  lemma RangeUnique(s: string, r: PortRange, q: PortRange)
    requires IsPortRange(s, r) && IsPortRange(s, q)
    ensures r == q
  {
    RangeParts(s, r);
    RangeParts(s, q);
    PortUnique(CutAtHyphen(s).0, r.lo, q.lo);
    if CutAtHyphen(s).1.Some? {
      PortUnique(CutAtHyphen(s).1.value, r.hi, q.hi);
    }
  }

  /** Spaces around the whole are ignored, spaces around the hyphen are not. */
  method ParsePortRange(text: string) returns (r: Result<PortRange>)
    ensures r.Ok? ==> IsPortRange(TrimSpace(text), r.value)
    ensures r.Err? ==> forall q :: !IsPortRange(TrimSpace(text), q)
  {
    var s := TrimSpace(text);
    forall q | IsPortRange(s, q)
      ensures IsPort(CutAtHyphen(s).0, q.lo)
      ensures CutAtHyphen(s).1.Some? ==> IsPort(CutAtHyphen(s).1.value, q.hi) && q.lo <= q.hi
    {
      RangeParts(s, q);
    }
    var (start, end) := CutAtHyphen(s);
    var lo := ParsePort(start);
    if lo.Err? {
      return Err(lo.error);
    }
    var hi := lo;
    if end.Some? {
      hi := ParsePort(end.value);
      if hi.Err? {
        return Err(hi.error);
      }
      if hi.value < lo.value {
        forall q | IsPortRange(s, q)
          ensures false
        {
          PortUnique(start, q.lo, lo.value);
          PortUnique(end.value, q.hi, hi.value);
        }
        return Err("range end before start");
      }
    }
    return Ok(PortRange(lo.value, hi.value));
  }
}
