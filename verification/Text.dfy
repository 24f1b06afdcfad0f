/** The text primitives the service relies on: decimal printing, trimming, truncation, and ':'-joined keys. */
module Text {

  // ---------- decimal printing (strconv.FormatInt(v, 10) and the %d verb) ----------

  function Digit(d: int): (c: char)
    requires 0 <= d < 10
    ensures '0' <= c <= '9'
    ensures (c as int) - ('0' as int) == d
  {
    (('0' as int) + d) as char
  }

  function FormatNat(n: nat): (s: string)
    ensures |s| > 0
    ensures forall i | 0 <= i < |s| :: '0' <= s[i] <= '9'
  {
    if n < 10 then [Digit(n)] else FormatNat(n / 10) + [Digit(n % 10)]
  }

  function FormatInt(v: int): (s: string)
    ensures |s| > 0
    ensures ':' !in s && 'n' !in s
  {
    if v < 0 then "-" + FormatNat(-v) else FormatNat(v)
  }

  function ParseNat(s: string): (n: int)
  {
    if s == "" then 0 else 10 * ParseNat(s[..|s| - 1]) + (s[|s| - 1] as int) - ('0' as int)
  }

  function ParseInt(s: string): int
  {
    if s != "" && s[0] == '-' then -ParseNat(s[1..]) else ParseNat(s)
  }

  lemma {:induction false} ParseFormatNat(n: nat)
    ensures ParseNat(FormatNat(n)) == n
  {
    var s := FormatNat(n);
    if n >= 10 {
      ParseFormatNat(n / 10);
      assert s[..|s| - 1] == FormatNat(n / 10);
    } else {
      assert s[..|s| - 1] == "";
    }
  }

  /** Parsing what was printed gives the number back, for every integer. */
  lemma ParseFormat(v: int)
    ensures ParseInt(FormatInt(v)) == v
  {
    if v < 0 {
      ParseFormatNat(-v);
      assert FormatInt(v)[1..] == FormatNat(-v);
    } else {
      ParseFormatNat(v);
    }
  }

  /** Two integers print alike only if they are equal. */
  lemma FormatInjective(a: int, b: int)
    requires FormatInt(a) == FormatInt(b)
    ensures a == b
  {
    ParseFormat(a);
    ParseFormat(b);
  }

  /** The digits are decimal, the most significant first, after a minus sign for negative numbers. */
  lemma Decimals(n: nat, d: nat)
    requires d < 10
    ensures FormatNat(d) == [('0' as int + d) as char]
    ensures n > 0 ==> FormatNat(10 * n + d) == FormatNat(n) + FormatNat(d)
    ensures n > 0 ==> FormatInt(0 - n) == "-" + FormatInt(n)
  {
    assert n > 0 ==> (10 * n + d) / 10 == n && (10 * n + d) % 10 == d;
  }

  // ---------- strings.TrimSpace and truncation by runes ----------

  /** The code points that Go's unicode.IsSpace accepts. */
  predicate IsSpace(c: char) {
    var r := c as int;
    9 <= r <= 13 || r == 32 || r == 0x85 || r == 0xA0 || r == 0x1680 || 0x2000 <= r <= 0x200A
    || r == 0x2028 || r == 0x2029 || r == 0x202F || r == 0x205F || r == 0x3000
  }

  lemma UsualSpaces()
    ensures forall c: char :: c <= '~' ==> (IsSpace(c) <==> c in [' ', '\t', '\n', '\r', 11 as char, 12 as char])
  {
  }

  function TrimSpace(s: string): (t: string)
    ensures t != "" ==> !IsSpace(t[0]) && !IsSpace(t[|t| - 1])
    ensures t == "" <==> forall i | 0 <= i < |s| :: IsSpace(s[i])
    ensures |t| <= |s|
  {
    if s == "" then ""
    else if IsSpace(s[0]) then
      var t := TrimSpace(s[1..]);
      assert t == "" ==> forall i | 0 <= i < |s| :: i == 0 || s[i] == s[1..][i - 1];
      assert t != "" ==> exists i | 0 <= i < |s[1..]| :: !IsSpace(s[1..][i]) && !IsSpace(s[i + 1]);
      t
    else if IsSpace(s[|s| - 1]) then
      TrimSpace(s[..|s| - 1])
    else s
  }

  /** The text between i and j, with nothing but white space around it. */
  predicate IsMiddle(s: string, i: nat, j: nat) {
    i <= j <= |s| && (forall k | 0 <= k < i :: IsSpace(s[k])) && (forall k | j <= k < |s| :: IsSpace(s[k]))
  }

  lemma MiddleOfRest(s: string, i: nat, j: nat)
    requires s != "" && IsSpace(s[0]) && IsMiddle(s[1..], i, j)
    ensures IsMiddle(s, i + 1, j + 1) && s[i + 1..j + 1] == s[1..][i..j]
  {
    assert forall k | 1 <= k < |s| :: s[k] == s[1..][k - 1];
  }

  lemma MiddleOfFront(s: string, i: nat, j: nat)
    requires s != "" && IsSpace(s[|s| - 1]) && IsMiddle(s[..|s| - 1], i, j)
    ensures IsMiddle(s, i, j) && s[i..j] == s[..|s| - 1][i..j]
  {
  }

  /** Trimming cuts white space, and nothing else, from both ends. */
  lemma {:induction false} TrimIsMiddle(s: string) returns (i: nat, j: nat)
    ensures IsMiddle(s, i, j) && TrimSpace(s) == s[i..j]
  {
    if s == "" {
      i, j := 0, 0;
    } else if IsSpace(s[0]) {
      i, j := TrimIsMiddle(s[1..]);
      MiddleOfRest(s, i, j);
      i, j := i + 1, j + 1;
    } else if IsSpace(s[|s| - 1]) {
      i, j := TrimIsMiddle(s[..|s| - 1]);
      MiddleOfFront(s, i, j);
    } else {
      i, j := 0, |s|;
    }
  }

  /** The first `max` characters of a text. */
  function Truncate(s: string, max: nat): (t: string)
    ensures |t| <= max && t <= s
    ensures |s| <= max ==> t == s
    ensures |s| > max ==> |t| == max
  {
    if |s| <= max then s else s[..max]
  }

  // ---------- texts joined with ':' ----------

  function Join(parts: seq<string>): string
    requires |parts| > 0
  {
    if |parts| == 1 then parts[0] else parts[0] + ":" + Join(parts[1..])
  }

  /** The first ':' splits a text in exactly one way. */
  lemma SplitUnique(a: string, x: string, b: string, y: string)
    requires ':' !in a && ':' !in b
    requires a + ":" + x == b + ":" + y
    ensures a == b && x == y
  {
    var s, t := a + ":" + x, b + ":" + y;
    assert s[|a|] == ':' && t[|b|] == ':';
    assert forall i | 0 <= i < |a| :: s[i] == a[i] && a[i] in a;
    assert forall i | 0 <= i < |b| :: t[i] == b[i] && b[i] in b;
    assert a == s[..|a|] == t[..|b|] == b;
    assert x == s[|a| + 1..] == t[|b| + 1..] == y;
  }

  lemma JoinColon(parts: seq<string>)
    requires |parts| > 0
    requires ':' !in parts[0]
    ensures ':' in Join(parts) <==> |parts| > 1
  {
    if |parts| > 1 {
      assert Join(parts)[|parts[0]|] == ':';
    }
  }

  /** Joining colon-free parts loses nothing: the parts, and how many there are, can be read back. */
  lemma {:induction false} JoinInjective(p: seq<string>, q: seq<string>)
    requires |p| > 0 && |q| > 0
    requires forall i | 0 <= i < |p| :: ':' !in p[i]
    requires forall i | 0 <= i < |q| :: ':' !in q[i]
    requires Join(p) == Join(q)
    ensures p == q
  {
    JoinColon(p);
    JoinColon(q);
    if |p| > 1 {
      SplitUnique(p[0], Join(p[1..]), q[0], Join(q[1..]));
      JoinInjective(p[1..], q[1..]);
      assert p == [p[0]] + p[1..] == [q[0]] + q[1..] == q;
    }
  }
}
