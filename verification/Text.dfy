/** The string operations the program uses. A string is a sequence of Unicode characters. */
module Text {

  /** `unicode.IsSpace`. */
  predicate IsSpace(c: char) {
    var code := c as int;
    || 0x09 <= code <= 0x0d || code == 0x20 || code == 0x85 || code == 0xa0
    || code == 0x1680 || 0x2000 <= code <= 0x200a || code == 0x2028 || code == 0x2029
    || code == 0x202f || code == 0x205f || code == 0x3000
  }

  function TrimLeft(s: string): string {
    if s != "" && IsSpace(s[0]) then TrimLeft(s[1..]) else s
  }

  function TrimRight(s: string): string {
    if s != "" && IsSpace(s[|s| - 1]) then TrimRight(s[..|s| - 1]) else s
  }

  /** `strings.TrimSpace`. */
  function TrimSpace(s: string): string { TrimRight(TrimLeft(s)) }

  /** `strings.TrimSuffix(s, ".")`. */
  function TrimDot(s: string): string {
    if s != "" && s[|s| - 1] == '.' then s[..|s| - 1] else s
  }

  function LowerChar(c: char): char {
    if 'A' <= c <= 'Z' then (c as int - 'A' as int + 'a' as int) as char else c
  }

  /** `strings.ToLower`, of ASCII text. */
  function Lower(s: string): string { seq(|s|, i requires 0 <= i < |s| => LowerChar(s[i])) }

  // ---------------------------------------------------------------------------------------------
  // Labels

  /** `strings.Split(s, ".")`. */
  function Labels(s: string): (labels: seq<string>)
    ensures |labels| > 0
  {
    if s == "" then [""]
    else
      var rest := Labels(s[1..]);
      if s[0] == '.' then [""] + rest else [[s[0]] + rest[0]] + rest[1..]
  }

  /** `strings.Join(labels, ".")`. */
  function Join(labels: seq<string>): string {
    if |labels| == 0 then ""
    else if |labels| == 1 then labels[0]
    else labels[0] + "." + Join(labels[1..])
  }

  /** The longest hostname there is. */
  const MAX_NAME := 253

  predicate NoDot(s: string) { '.' !in s }

  /** Splitting cuts at every dot and nowhere else. */
  lemma {:induction false} JoinLabels(s: string)
    ensures Join(Labels(s)) == s
    ensures forall l :: l in Labels(s) ==> NoDot(l)
  {
    if s != "" {
      JoinLabels(s[1..]);
      var rest := Labels(s[1..]);
      var labels := Labels(s);
      assert s == [s[0]] + s[1..];
      if s[0] == '.' {
        assert labels[1..] == rest;
        assert Join(labels) == "" + "." + Join(rest);
      } else {
        assert labels[1..] == rest[1..];
        assert rest[0] in rest && forall l :: l in labels ==> l == labels[0] || l in rest;
      }
    }
  }

  /** A text with a dot, split at its first dot. */
  lemma {:induction false} FirstLabel(a: string, b: string)
    requires NoDot(a)
    ensures Labels(a + "." + b) == [a] + Labels(b)
    ensures Labels(a) == [a]
  {
    var s := a + "." + b;
    if a == "" {
      assert s[1..] == b;
    } else {
      FirstLabel(a[1..], b);
      assert s[1..] == a[1..] + "." + b;
      assert a == [a[0]] + a[1..];
      assert a[0] in a;
    }
  }

  lemma {:induction false} LabelsJoin(labels: seq<string>)
    requires |labels| > 0 && forall l :: l in labels ==> NoDot(l)
    ensures Labels(Join(labels)) == labels
  {
    if |labels| == 1 {
      FirstLabel(labels[0], "");
      assert labels == [labels[0]];
    } else {
      LabelsJoin(labels[1..]);
      FirstLabel(labels[0], Join(labels[1..]));
    }
  }

  // ---------------------------------------------------------------------------------------------
  // Numbers

  predicate IsDigit(c: char) { '0' <= c <= '9' }

  function Digit(d: nat): char
    requires d < 10
  {
    ('0' as int + d) as char
  }

  /** `strconv.Itoa`, of a number that is not negative. */
  function Decimal(n: nat): (s: string)
    ensures s != "" && (forall c :: c in s ==> IsDigit(c))
    ensures s[0] == '0' ==> n == 0
  {
    if n < 10 then [Digit(n)] else Decimal(n / 10) + [Digit(n % 10)]
  }

  /** The number that a string of digits stands for, read from the left. */
  function Value(s: string): nat
    requires forall c :: c in s ==> IsDigit(c)
  {
    if s == "" then 0
    else
      assert s[|s| - 1] in s && IsDigit(s[|s| - 1]);
      10 * Value(s[..|s| - 1]) + (s[|s| - 1] as int - '0' as int)
  }

  lemma {:induction false} ValueOfDecimal(n: nat)
    ensures Value(Decimal(n)) == n
  {
    if n >= 10 {
      ValueOfDecimal(n / 10);
      assert Decimal(n)[..|Decimal(n)| - 1] == Decimal(n / 10);
    } else {
      assert Decimal(n)[..0] == "";
    }
  }

  /** Only the numeral without leading zeros is printed. */
  lemma {:induction false} DecimalOfValue(s: string)
    requires s != "" && (forall c :: c in s ==> IsDigit(c)) && (s[0] == '0' ==> |s| == 1)
    ensures Decimal(Value(s)) == s
  {
    var front, last := s[..|s| - 1], s[|s| - 1];
    assert last in s;
    if |s| == 1 {
      assert s == [last];
    } else {
      forall c | c in front
        ensures IsDigit(c)
      {
        assert c in s;
      }
      assert front[0] == s[0];
      if |front| > 1 || s[0] != '0' {
        DecimalOfValue(front);
      }
      ValuePositive(front);
      assert s == front + [last];
    }
  }

  lemma {:induction false} ValuePositive(s: string)
    requires s != "" && (forall c :: c in s ==> IsDigit(c)) && s[0] != '0'
    ensures Value(s) > 0
  {
    var front := s[..|s| - 1];
    assert s[|s| - 1] in s;
    if |s| > 1 {
      forall c | c in front
        ensures IsDigit(c)
      {
        assert c in s;
      }
      ValuePositive(front);
    }
  }
}
