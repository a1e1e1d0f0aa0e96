/** Joining a host and a port, and taking them apart again, as package `net` does. */
module HostPort {
  import opened Basics

  function JoinHostPort(host: string, port: string): string {
    if ':' in host then "[" + host + "]:" + port else host + ":" + port
  }

  /** The place of the last `c`, or -1. */
  function LastIndex(s: string, c: char): (i: int)
    ensures -1 <= i < |s|
    ensures i >= 0 ==> s[i] == c
    ensures forall k :: i < k < |s| ==> s[k] != c
  {
    if s == "" then -1
    else if s[|s| - 1] == c then |s| - 1
    else LastIndex(s[..|s| - 1], c)
  }

  /** The place of the first `c`, or -1. */
  function Index(s: string, c: char): (i: int)
    ensures -1 <= i < |s|
    ensures i >= 0 ==> s[i] == c && forall k :: 0 <= k < i ==> s[k] != c
    ensures i < 0 ==> c !in s
  {
    if s == "" then -1
    else if s[0] == c then 0
    else
      var i := Index(s[1..], c);
      if i < 0 then -1 else i + 1
  }

  /** `None` for a missing port, too many colons, or brackets in the wrong places. */
  function SplitHostPort(s: string): Option<(string, string)> {
    var i := LastIndex(s, ':');
    if i < 0 then None
    else if s[0] == '[' then
      var end := Index(s, ']');
      if end < 0 || end + 1 != i then None
      else if '[' in s[1..] || ']' in s[end + 1..] then None
      else Some((s[1..end], s[i + 1..]))
    else
      if ':' in s[..i] || '[' in s || ']' in s then None
      else Some((s[..i], s[i + 1..]))
  }

  predicate NoneOf(s: string, chars: string) { forall c :: c in s ==> c !in chars }

  lemma LastColon(s: string, i: nat)
    requires i < |s| && s[i] == ':' && forall k :: i < k < |s| ==> s[k] != ':'
    ensures LastIndex(s, ':') == i
  {
  }

  lemma FirstBracket(s: string, i: nat)
    requires i < |s| && s[i] == ']' && forall k :: 0 <= k < i ==> s[k] != ']'
    ensures Index(s, ']') == i
  {
    assert s[i] in s;
  }

  lemma InPart(s: string, a: nat, b: nat, chars: string)
    requires a <= b <= |s| && forall k :: a <= k < b ==> s[k] !in chars
    ensures NoneOf(s[a..b], chars)
  {
  }

  /** What has been joined comes apart in the same place. */
  lemma SplitJoined(host: string, port: string)
    requires NoneOf(host, "[]") && NoneOf(port, ":[]")
    ensures SplitHostPort(JoinHostPort(host, port)) == Some((host, port))
  {
    var s := JoinHostPort(host, port);
    forall k | 0 <= k < |host|
      ensures host[k] !in "[]"
    {
      assert host[k] in host;
    }
    forall k | 0 <= k < |port|
      ensures port[k] !in ":[]"
    {
      assert port[k] in port;
    }
    if ':' in host {
      var end := |host| + 1;
      assert s[1..end] == host && s[end + 2..] == port;
      LastColon(s, end + 1);
      FirstBracket(s, end);
      InPart(s, 1, |s|, "[");
      InPart(s, end + 1, |s|, "]");
    } else {
      var i := |host|;
      assert s[..i] == host && s[i + 1..] == port;
      LastColon(s, i);
      InPart(s, 0, |s|, "[]");
      assert s[0..|s|] == s;
    }
  }

  /** A host in brackets comes apart as well, whether it needs them or not. */
  lemma SplitBracketed(host: string, port: string)
    requires NoneOf(host, "[]") && NoneOf(port, ":[]")
    ensures SplitHostPort("[" + host + "]:" + port) == Some((host, port))
  {
    var s, end := "[" + host + "]:" + port, |host| + 1;
    forall k | 0 <= k < |host|
      ensures host[k] !in "[]"
    {
      assert host[k] in host;
    }
    forall k | 0 <= k < |port|
      ensures port[k] !in ":[]"
    {
      assert port[k] in port;
    }
    assert s[1..end] == host && s[end + 2..] == port;
    LastColon(s, end + 1);
    FirstBracket(s, end);
    InPart(s, 1, |s|, "[");
    InPart(s, end + 1, |s|, "]");
  }

  /** What comes apart was a host and a port with a colon between them, the host in brackets or without a colon. */
  lemma SplitWas(s: string)
    requires SplitHostPort(s).Some?
    ensures var (host, port) := SplitHostPort(s).value;
            s == "[" + host + "]:" + port || (':' !in host && s == host + ":" + port)
  {
    var i := LastIndex(s, ':');
    if s[0] == '[' {
      var end := Index(s, ']');
      assert s[..1] == "[" && s[end..i + 1] == "]:";
      assert s == s[..1] + s[1..end] + s[end..i + 1] + s[i + 1..];
    } else {
      assert s[i..i + 1] == ":";
      assert s == s[..i] + s[i..i + 1] + s[i + 1..];
    }
  }

  /** The texts that stand for a host and a port. */
  lemma SplitExactly(s: string, host: string, port: string)
    requires NoneOf(host, "[]") && NoneOf(port, ":[]")
    ensures SplitHostPort(s) == Some((host, port)) <==>
            s == "[" + host + "]:" + port || (':' !in host && s == host + ":" + port)
  {
    SplitBracketed(host, port);
    SplitJoined(host, port);
    if SplitHostPort(s) == Some((host, port)) {
      SplitWas(s);
    }
  }
}
