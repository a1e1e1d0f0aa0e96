/** Which names are hostnames, and what a requested host is taken for. */
module Hostnames {
  import opened Basics
  import opened Netip
  import opened Text
  import opened Foreign

  const MAX_LABEL := 63

  predicate HostChar(c: char, wildcard: bool) {
    'a' <= c <= 'z' || 'A' <= c <= 'Z' || IsDigit(c) || c in "-_." || (c == '*' && wildcard)
  }

  predicate HostChars(s: string, wildcard: bool) { forall i :: 0 <= i < |s| ==> HostChar(s[i], wildcard) }

  method CheckHostChars(s: string, wildcard: bool) returns (ok: bool)
    ensures ok <==> HostChars(s, wildcard)
  {
    for i := 0 to |s|
      invariant forall k :: 0 <= k < i ==> HostChar(s[k], wildcard)
    {
      var c := s[i];
      if !('a' <= c <= 'z' || 'A' <= c <= 'Z' || '0' <= c <= '9' || c == '-' || c == '_' || c == '.' ||
           (c == '*' && wildcard)) {
        return false;
      }
    }
    return true;
  }

  predicate IsHexDigit(c: char) { IsDigit(c) || 'a' <= c <= 'f' }

  /** A decimal number, or `0x` and hexadecimal digits, if any. */
  predicate Numeric(l: string) {
    if "0x" <= l then forall i :: 2 <= i < |l| ==> IsHexDigit(l[i])
    else l != "" && forall i :: 0 <= i < |l| ==> IsDigit(l[i])
  }

  method IsNumeric(l: string) returns (numeric: bool)
    ensures numeric <==> Numeric(l)
  {
    if "0x" <= l {
      var h := l[2..];
      if h == "" {
        return true;
      }
      for i := 0 to |h|
        invariant forall k :: 2 <= k < i + 2 ==> IsHexDigit(l[k])
      {
        if !('0' <= h[i] <= '9' || 'a' <= h[i] <= 'f') {
          assert l[i + 2] == h[i];
          return false;
        }
      }
      return true;
    }
    for i := 0 to |l|
      invariant forall k :: 0 <= k < i ==> IsDigit(l[k])
    {
      if l[i] < '0' || l[i] > '9' {
        return false;
      }
    }
    return l != "";
  }

  predicate ValidLabel(l: string, wildcard: bool) {
    0 < |l| <= MAX_LABEL && (wildcard || '*' !in l) && l[0] != '-' && l[|l| - 1] != '-'
  }

  /** Some label is neither a number nor a star, so the whole cannot be taken for an address. */
  predicate SomeName(labels: seq<string>) {
    exists i :: 0 <= i < |labels| && !Numeric(labels[i]) && labels[i] != "*"
  }

  predicate ValidHostname(name: string, wildcard: bool) {
    && |name| <= MAX_NAME
    && (forall i :: 0 <= i < |Labels(name)| ==> ValidLabel(Labels(name)[i], wildcard))
    && !Numeric(LastLabel(name))
    && (wildcard ==> SomeName(Labels(name)))
  }

  method ValidateHostname(name: string, wildcard: bool) returns (r: Result<()>)
    ensures r.Ok? <==> ValidHostname(name, wildcard)
  {
    if name == "" {
      return Err("empty hostname");
    }
    if |name| > MAX_NAME {
      return Err("hostname too long");
    }
    var labels := Labels(name);
    var allNumeric := true;
    for i := 0 to |labels|
      invariant forall k :: 0 <= k < i ==> ValidLabel(labels[k], wildcard)
      invariant allNumeric <==> !SomeName(labels[..i])
    {
      var l := labels[i];
      if l == "" {
        return Err("empty label");
      }
      if |l| > MAX_LABEL {
        return Err("label too long");
      }
      if '*' in l && !wildcard {
        return Err("* not allowed here");
      }
      if l[0] == '-' || l[|l| - 1] == '-' {
        return Err("label starts or ends with a hyphen");
      }
      var numeric := IsNumeric(l);
      SomeNameStep(labels, i);
      if !numeric && l != "*" {
        allNumeric := false;
      }
    }
    assert labels[..|labels|] == labels;
    var numeric := IsNumeric(labels[|labels| - 1]);
    if numeric {
      return Err("numeric top-level label");
    }
    if wildcard && allNumeric {
      return Err("looks like an IP wildcard");
    }
    return Ok(());
  }

  lemma SomeNameStep(labels: seq<string>, i: nat)
    requires i < |labels|
    ensures SomeName(labels[..i + 1]) <==> SomeName(labels[..i]) || (!Numeric(labels[i]) && labels[i] != "*")
  {
    var front, more := labels[..i], labels[..i + 1];
    if SomeName(front) {
      var k :| 0 <= k < |front| && !Numeric(front[k]) && front[k] != "*";
      assert more[k] == front[k];
    }
    if SomeName(more) {
      var k :| 0 <= k < |more| && !Numeric(more[k]) && more[k] != "*";
      if k < i {
        assert front[k] == more[k];
      }
    }
    assert more[i] == labels[i];
  }

  // ---------------------------------------------------------------------------------------------
  // The requested host

  datatype Destination = Name(name: string) | Literal(addr: Addr)

  /** Without a trailing dot and in lower case. */
  function Normal(h: string): string { Lower(TrimDot(h)) }

  /** What a requested host stands for: an address if it can be read as one, or else a hostname. */
  function Target(lib: Library, h: string): Option<Destination> {
    match lib.parseAddr(h)
    case Some(a) => if a.Zone() == "" then Some(Literal(a.Unmap())) else None
    case None => if HostChars(h, false) && ValidHostname(Normal(h), false) then Some(Name(Normal(h))) else None
  }

  method ParseHost(lib: Library, h: string) returns (r: Result<Destination>)
    ensures r.Ok? ==> Target(lib, h) == Some(r.value)
    ensures r.Err? ==> Target(lib, h) == None
  {
    var a := lib.parseAddr(h);
    if a.Some? {
      if a.value.Zone() != "" {
        return Err("zoned address");
      }
      return Ok(Literal(a.value.Unmap()));
    }
    var ok := CheckHostChars(h, false);
    if !ok {
      return Err("invalid character");
    }
    var name := Normal(h);
    var valid := ValidateHostname(name, false);
    if valid.Err? {
      return Err(valid.error);
    }
    return Ok(Name(name));
  }

  // ---------------------------------------------------------------------------------------------
  // Hostnames and addresses are kept apart

  lemma NormalChars(h: string)
    requires HostChars(h, false)
    ensures HostChars(Normal(h), false)
    ensures Lower(Normal(h)) == Normal(h)
  {
  }

  /** A first character is part of the last label only if there is no other label. */
  lemma LastLabelStep(s: string)
    requires s != ""
    ensures LastLabel(s) == LastLabel(s[1..]) || LastLabel(s) == s
  {
    if |Labels(s)| == 1 {
      FirstOfOne(s);
    }
  }

  lemma {:induction false} LastLabelEnds(s: string)
    ensures var l := LastLabel(s); |l| <= |s| && s[|s| - |l|..] == l
  {
    if s != "" {
      LastLabelEnds(s[1..]);
      LastLabelStep(s);
    }
  }

  /** A single label is the whole text. */
  lemma FirstOfOne(s: string)
    requires |Labels(s)| == 1
    ensures Labels(s)[0] == s
  {
    JoinLabels(s);
  }

  /** A valid name ends in a character of its last label, so there is no dot left to cut off. */
  lemma NoTrailingDot(name: string, wildcard: bool)
    requires ValidHostname(name, wildcard)
    ensures name != "" && name[|name| - 1] != '.' && TrimDot(name) == name
  {
    var labels := Labels(name);
    var l := LastLabel(name);
    assert ValidLabel(labels[|labels| - 1], wildcard);
    LastLabelEnds(name);
    JoinLabels(name);
    assert l in labels && l[|l| - 1] in l;
    assert name[|name| - 1] == name[|name| - |l|..][|l| - 1];
  }

  /** No accepted hostname can be read as an address. */
  lemma NameIsNoAddress(lib: Library, name: string)
    requires lib.ParsesAddresses() && HostChars(name, false) && ValidHostname(name, false)
    ensures lib.parseAddr(name) == None
  {
    forall i | 0 <= i < |name|
      ensures name[i] != ':'
    {
      assert HostChar(name[i], false);
    }
    if forall c :: c in LastLabel(name) ==> IsDigit(c) {
      DigitsAreNumeric(LastLabel(name));
    }
  }

  lemma DigitsAreNumeric(l: string)
    requires forall c :: c in l ==> IsDigit(c)
    ensures l == "" || Numeric(l)
  {
    if |l| >= 2 {
      assert l[1] in l;
    }
  }

  /** A name that has been accepted and normalised is accepted again, as itself. */
  lemma TargetIdempotent(lib: Library, h: string)
    requires lib.ParsesAddresses() && Target(lib, h).Some? && Target(lib, h).value.Name?
    ensures Target(lib, Target(lib, h).value.name) == Target(lib, h)
  {
    var name := Normal(h);
    NormalChars(h);
    NoTrailingDot(name, false);
    NameIsNoAddress(lib, name);
  }

  /** A name is kept as it was written but for capitals and a dot at the end. */
  lemma NormalExactly(h: string)
    ensures var n := Normal(h);
            && |n| == (if h != "" && h[|h| - 1] == '.' then |h| - 1 else |h|)
            && forall i :: 0 <= i < |n| ==>
                 n[i] as int == h[i] as int + if 'A' <= h[i] <= 'Z' then 32 else 0
  {
  }

  /** An accepted literal is a plain address: it has no zone and is not IPv4 in disguise. */
  lemma LiteralIsPlain(lib: Library, h: string)
    requires lib.ParsesAddresses() && Target(lib, h).Some? && Target(lib, h).value.Literal?
    ensures var a := Target(lib, h).value.addr; a.IsValid() && a.Zone() == "" && a.Unmap() == a
  {
    UnmapIdempotent(lib.parseAddr(h).value);
  }
}
