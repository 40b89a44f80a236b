/** The JavaScript string primitives the application relies on, over `string`
    (a sequence of Unicode scalar values): `toLowerCase`, `trim`, `includes`,
    `split` / `join` on a one-character separator, and `parseInt`. */
module Text {
  import opened Common

  /** The characters `String.prototype.trim` removes: the ECMAScript
      WhiteSpace and LineTerminator code points. */
  predicate IsSpace(c: char) {
    var n := c as int;
    n == 9 || n == 10 || n == 11 || n == 12 || n == 13 || n == 32 || n == 160
    || n == 5760 || (8192 <= n <= 8202) || n == 8232 || n == 8233 || n == 8239
    || n == 8287 || n == 12288 || n == 65279
  }

  predicate AllSpace(s: string) {
    forall i :: 0 <= i < |s| ==> IsSpace(s[i])
  }

  /** Neither starts nor ends with white space. */
  predicate IsTrimmed(s: string) {
    s == [] || (!IsSpace(s[0]) && !IsSpace(s[|s| - 1]))
  }

  // ---------------------------------------------------------------- case

  /** Lower-casing of one character (ASCII letters; every other character is
      its own lower case in this model). */
  function LowerChar(c: char): (r: char)
    ensures 'A' <= c <= 'Z' ==> r as int == c as int + 32
    ensures !('A' <= c <= 'Z') ==> r == c
    ensures !('A' <= r <= 'Z')
  {
    if 'A' <= c <= 'Z' then (c as int + 32) as char else c
  }

  /** `s.toLowerCase()`. */
  function Lower(s: string): (r: string)
    ensures |r| == |s|
    ensures forall i :: 0 <= i < |s| ==> r[i] == LowerChar(s[i])
  {
    seq(|s|, i requires 0 <= i < |s| => LowerChar(s[i]))
  }

  lemma LowerIdempotent(s: string)
    ensures Lower(Lower(s)) == Lower(s)
  {
  }

  lemma LowerAppend(a: string, b: string)
    ensures Lower(a + b) == Lower(a) + Lower(b)
  {
  }

  /** Lower-casing never turns white space into something else. */
  lemma LowerKeepsSpace(s: string)
    requires AllSpace(s)
    ensures Lower(s) == s
  {
  }

  // ---------------------------------------------------------------- trim

  /** Drops the leading white space. */
  function TrimStart(s: string): string
    decreases |s|
  {
    if |s| > 0 && IsSpace(s[0]) then TrimStart(s[1..]) else s
  }

  /** Drops the trailing white space. */
  function TrimEnd(s: string): string
    decreases |s|
  {
    if |s| > 0 && IsSpace(s[|s| - 1]) then TrimEnd(s[..|s| - 1]) else s
  }

  /** `s.trim()`. */
  function Trim(s: string): string {
    TrimEnd(TrimStart(s))
  }

  /** TrimStart keeps a suffix that does not start with white space, and
      everything it drops is white space. */
  lemma {:induction false} TrimStartSpec(s: string)
    ensures var r := TrimStart(s);
      && |r| <= |s| && r == s[|s| - |r|..]
      && (r == [] || !IsSpace(r[0]))
      && AllSpace(s[..|s| - |r|])
    decreases |s|
  {
    if |s| > 0 && IsSpace(s[0]) {
      TrimStartSpec(s[1..]);
      var r := TrimStart(s[1..]);
      assert s[..|s| - |r|] == [s[0]] + s[1..][..|s| - 1 - |r|];
    }
  }

  /** TrimEnd keeps a prefix that does not end with white space, and
      everything it drops is white space. */
  lemma {:induction false} TrimEndSpec(s: string)
    ensures var r := TrimEnd(s);
      && |r| <= |s| && r == s[..|r|]
      && (r == [] || !IsSpace(r[|r| - 1]))
      && AllSpace(s[|r|..])
    decreases |s|
  {
    if |s| > 0 && IsSpace(s[|s| - 1]) {
      TrimEndSpec(s[..|s| - 1]);
      var r := TrimEnd(s[..|s| - 1]);
      assert s[|r|..] == s[..|s| - 1][|r|..] + [s[|s| - 1]];
    }
  }

  /** The result of `trim` neither starts nor ends with white space. */
  lemma TrimIsTrimmed(s: string)
    ensures IsTrimmed(Trim(s))
  {
    TrimStartSpec(s);
    TrimEndSpec(TrimStart(s));
  }

  lemma {:induction false} TrimStartSkips(p: string, u: string)
    requires AllSpace(p)
    requires u == [] || !IsSpace(u[0])
    ensures TrimStart(p + u) == u
    decreases |p|
  {
    if p == [] {
      assert p + u == u;
    } else {
      assert (p + u)[1..] == p[1..] + u;
      TrimStartSkips(p[1..], u);
    }
  }

  lemma {:induction false} TrimEndSkips(u: string, q: string)
    requires AllSpace(q)
    requires u == [] || !IsSpace(u[|u| - 1])
    ensures TrimEnd(u + q) == u
    decreases |q|
  {
    if q == [] {
      assert u + q == u;
    } else {
      assert (u + q)[..|u + q| - 1] == u + q[..|q| - 1];
      TrimEndSkips(u, q[..|q| - 1]);
    }
  }

  /** A trimmed core surrounded by white space is exactly what `trim` keeps. */
  lemma TrimUnique(p: string, t: string, q: string)
    requires AllSpace(p) && AllSpace(q) && IsTrimmed(t)
    ensures Trim(p + t + q) == t
  {
    if t == [] {
      assert p + t + q == (p + q) + [];
      TrimStartSkips(p + q, []);
    } else {
      assert p + t + q == p + (t + q);
      TrimStartSkips(p, t + q);
      TrimEndSkips(t, q);
    }
  }

  /** Every string is its trimmed core between two runs of white space. */
  lemma TrimDecompose(s: string) returns (p: string, q: string)
    ensures AllSpace(p) && AllSpace(q)
    ensures s == p + Trim(s) + q
  {
    var u := TrimStart(s);
    TrimStartSpec(s);
    TrimEndSpec(u);
    TrimIsTrimmed(s);
    p := s[..|s| - |u|];
    q := u[|TrimEnd(u)|..];
    assert u == TrimEnd(u) + q;
  }

  /** `trim` is idempotent, and the identity on a trimmed string. */
  lemma TrimTrimmed(s: string)
    requires IsTrimmed(s)
    ensures Trim(s) == s
  {
    TrimUnique([], s, []);
    assert [] + s + [] == s;
  }

  /** Surrounding white space does not change the trimmed value. */
  lemma TrimIgnoresPadding(p: string, s: string, q: string)
    requires AllSpace(p) && AllSpace(q)
    ensures Trim(p + s + q) == Trim(s)
  {
    var p', q' := TrimDecompose(s);
    var t := Trim(s);
    TrimIsTrimmed(s);
    AllSpaceAppend(p, p');
    AllSpaceAppend(q', q);
    calc {
      p + s + q;
      p + (p' + t + q') + q;
      { SeqAssoc(p, p', t, q', q); }
      (p + p') + t + (q' + q);
    }
    TrimUnique(p + p', t, q' + q);
  }

  lemma AllSpaceAppend(a: string, b: string)
    requires AllSpace(a) && AllSpace(b)
    ensures AllSpace(a + b)
  {
    forall i | 0 <= i < |a + b|
      ensures IsSpace((a + b)[i])
    {
      if i >= |a| {
        assert (a + b)[i] == b[i - |a|];
      }
    }
  }

  lemma SeqAssoc(a: string, b: string, c: string, d: string, e: string)
    ensures a + (b + c + d) + e == (a + b) + c + (d + e)
  {
  }

  /** Trimming never introduces a character. */
  lemma TrimKeepsOut(s: string, c: char)
    requires c !in s
    ensures c !in Trim(s)
  {
    var p, q := TrimDecompose(s);
  }

  // ---------------------------------------------------------------- includes

  /** n occurs in h starting at position k. */
  predicate OccursAt(h: string, n: string, k: int) {
    0 <= k <= |h| - |n| && h[k..k + |n|] == n
  }

  /** `h.includes(n)`: n occurs in h as a contiguous block. */
  function Contains(h: string, n: string): (b: bool)
    ensures b <==> exists k :: OccursAt(h, n, k)
    decreases |h|
  {
    if |n| <= |h| && h[..|n|] == n then
      assert OccursAt(h, n, 0);
      true
    else if |h| == 0 then false
    else
      ContainsShift(h, n);
      Contains(h[1..], n)
  }

  /** An occurrence in h that is not at the front is an occurrence in h[1..]. */
  lemma ContainsShift(h: string, n: string)
    requires |h| > 0
    requires !(|n| <= |h| && h[..|n|] == n)
    ensures (exists k :: OccursAt(h, n, k)) <==> (exists k :: OccursAt(h[1..], n, k))
  {
    if exists k :: OccursAt(h, n, k) {
      var k :| OccursAt(h, n, k);
      assert k != 0;
      assert h[1..][k - 1..k - 1 + |n|] == n;
      assert OccursAt(h[1..], n, k - 1);
    }
    if exists k :: OccursAt(h[1..], n, k) {
      var k :| OccursAt(h[1..], n, k);
      assert h[k + 1..k + 1 + |n|] == n;
      assert OccursAt(h, n, k + 1);
    }
  }

  lemma ContainsEmpty(h: string)
    ensures Contains(h, "")
  {
    assert OccursAt(h, "", 0);
  }

  lemma ContainsSelf(h: string)
    ensures Contains(h, h)
  {
    assert OccursAt(h, h, 0);
  }

  // ---------------------------------------------------------------- split / join

  /** `s.split(sep)`: the maximal separator-free pieces, in order; an empty
      string gives one empty piece. */
  function Split(s: string, sep: char): (parts: seq<string>)
    ensures |parts| >= 1
    ensures forall i :: 0 <= i < |parts| ==> sep !in parts[i]
    decreases |s|
  {
    if |s| == 0 then [""]
    else
      var rest := Split(s[1..], sep);
      if s[0] == sep then [""] + rest
      else [[s[0]] + rest[0]] + rest[1..]
  }

  /** `parts.join(sep)`. */
  function Join(parts: seq<string>, sep: string): string
    decreases |parts|
  {
    if |parts| == 0 then ""
    else if |parts| == 1 then parts[0]
    else parts[0] + sep + Join(parts[1..], sep)
  }

  lemma {:induction false} JoinCons(p: string, parts: seq<string>, sep: string)
    requires |parts| >= 1
    ensures Join([p] + parts, sep) == p + sep + Join(parts, sep)
  {
    assert ([p] + parts)[1..] == parts;
  }

  /** Joining the pieces gives back the original string. */
  lemma {:induction false} JoinSplit(s: string, sep: char)
    ensures Join(Split(s, sep), [sep]) == s
    decreases |s|
  {
    if |s| > 0 {
      var rest := Split(s[1..], sep);
      JoinSplit(s[1..], sep);
      if s[0] == sep {
        JoinCons("", rest, [sep]);
        assert s == [sep] + s[1..];
      } else {
        var head := [s[0]] + rest[0];
        if |rest| == 1 {
          assert Split(s, sep) == [head];
          assert s == [s[0]] + s[1..];
        } else {
          assert rest == [rest[0]] + rest[1..];
          JoinCons(rest[0], rest[1..], [sep]);
          JoinCons(head, rest[1..], [sep]);
          assert s == [s[0]] + s[1..];
        }
      }
    }
  }

  lemma {:induction false} SplitPrefix(a: string, s: string, sep: char)
    requires sep !in a
    ensures Split(a + s, sep) == [a + Split(s, sep)[0]] + Split(s, sep)[1..]
    decreases |a|
  {
    if a == [] {
      assert a + s == s;
      var parts := Split(s, sep);
      assert parts == [parts[0]] + parts[1..];
      assert a + parts[0] == parts[0];
    } else {
      assert (a + s)[0] == a[0];
      assert (a + s)[1..] == a[1..] + s;
      SplitPrefix(a[1..], s, sep);
      assert [a[0]] + (a[1..] + Split(s, sep)[0]) == a + Split(s, sep)[0];
    }
  }

  lemma SplitNoSep(a: string, sep: char)
    requires sep !in a
    ensures Split(a, sep) == [a]
  {
    SplitPrefix(a, "", sep);
    assert a + "" == a;
  }

  lemma SplitAtSep(a: string, s: string, sep: char)
    requires sep !in a
    ensures Split(a + [sep] + s, sep) == [a] + Split(s, sep)
  {
    var t := [sep] + s;
    assert a + [sep] + s == a + t;
    assert t[0] == sep && t[1..] == s;
    assert Split(t, sep) == [""] + Split(s, sep);
    SplitPrefix(a, t, sep);
    assert a + "" == a;
  }

  /** A string made only of separators splits into empty pieces only. */
  lemma {:induction false} SplitOnlySeparators(s: string, sep: char)
    requires forall i :: 0 <= i < |s| ==> s[i] == sep
    ensures forall j :: 0 <= j < |Split(s, sep)| ==> Split(s, sep)[j] == ""
    decreases |s|
  {
    if |s| > 0 {
      SplitOnlySeparators(s[1..], sep);
    }
  }

  /** Splitting a join of separator-free pieces recovers the pieces. */
  lemma {:induction false} SplitJoin(parts: seq<string>, sep: char)
    requires |parts| >= 1
    requires forall i :: 0 <= i < |parts| ==> sep !in parts[i]
    ensures Split(Join(parts, [sep]), sep) == parts
    decreases |parts|
  {
    if |parts| == 1 {
      SplitNoSep(parts[0], sep);
    } else {
      SplitJoin(parts[1..], sep);
      SplitAtSep(parts[0], Join(parts[1..], [sep]), sep);
      assert parts == [parts[0]] + parts[1..];
    }
  }

  // ---------------------------------------------------------------- parseInt

  predicate IsDigit(c: char) {
    '0' <= c <= '9'
  }

  predicate AllDigits(s: string) {
    forall i :: 0 <= i < |s| ==> IsDigit(s[i])
  }

  function DigitChar(d: nat): (c: char)
    requires d < 10
    ensures IsDigit(c) && c as int - '0' as int == d
  {
    ('0' as int + d) as char
  }

  /** The decimal value of a digit string, most significant digit first. */
  function DigitsValue(ds: string): nat
    requires AllDigits(ds)
    decreases |ds|
  {
    if |ds| == 0 then 0
    else DigitsValue(ds[..|ds| - 1]) * 10 + (ds[|ds| - 1] as int - '0' as int)
  }

  /** The longest prefix of s made of decimal digits. */
  function LeadingDigits(s: string): (r: string)
    ensures AllDigits(r) && r <= s
    ensures |r| < |s| ==> !IsDigit(s[|r|])
    decreases |s|
  {
    if |s| > 0 && IsDigit(s[0]) then [s[0]] + LeadingDigits(s[1..]) else ""
  }

  /** `parseInt(s)` in base 10: leading white space skipped, an optional sign,
      then the longest run of digits; no digit at all gives NaN (None). */
  function ParseInt(s: string): (r: Option<int>)
    ensures r.None? <==> LeadingDigits(SignFree(TrimStart(s))) == ""
  {
    var t := TrimStart(s);
    var digits := LeadingDigits(SignFree(t));
    if digits == "" then None
    else if |t| > 0 && t[0] == '-' then Some(0 - DigitsValue(digits))
    else Some(DigitsValue(digits))
  }

  /** The text after an optional leading `+` or `-`. */
  function SignFree(t: string): (r: string)
    ensures r == t || (|t| > 0 && r == t[1..])
  {
    if |t| > 0 && (t[0] == '-' || t[0] == '+') then t[1..] else t
  }

  /** The decimal numeral of n, as a client would write it in a URL. */
  function NatToString(n: nat): (s: string)
    ensures |s| >= 1 && AllDigits(s)
    ensures DigitsValue(s) == n
    decreases n
  {
    if n < 10 then [DigitChar(n)]
    else
      var s := NatToString(n / 10) + [DigitChar(n % 10)];
      assert s[..|s| - 1] == NatToString(n / 10);
      s
  }

  lemma LeadingDigitsAll(s: string)
    requires AllDigits(s)
    ensures LeadingDigits(s) == s
    decreases |s|
  {
    if |s| > 0 {
      LeadingDigitsAll(s[1..]);
    }
  }

  /** `parseInt` reads back the numeral of every natural number. */
  lemma ParseNatToString(n: nat)
    ensures ParseInt(NatToString(n)) == Some(n)
  {
    var s := NatToString(n);
    TrimStartSkips([], s);
    assert [] + s == s;
    assert IsDigit(s[0]);
    assert SignFree(TrimStart(s)) == s;
    LeadingDigitsAll(s);
  }

  // ---------------------------------------------------------------- numbers

  /** `String(h / 100)` for a whole number h of hundredths: the sign, the
      whole part, and the fraction without trailing zeros. */
  function HundredthsText(h: int): (r: string)
    ensures h >= 0 && h % 100 == 0 ==> r == NatToString(h / 100)
    ensures h < 0 <==> |r| > 0 && r[0] == '-'
    ensures forall i :: 0 <= i < |r| ==> IsDigit(r[i]) || r[i] == '-' || r[i] == '.'
  {
    var a := if h < 0 then -h else h;
    var whole := NatToString(a / 100);
    (if h < 0 then "-" else "") + whole + FractionText(a % 100)
  }

  /** The digits after the point of a value in hundredths. */
  function FractionText(f: nat): (r: string)
    requires f < 100
    ensures f == 0 <==> r == ""
    ensures r != "" ==> r[0] == '.' && 2 <= |r| <= 3 && AllDigits(r[1..])
  {
    if f == 0 then ""
    else if f % 10 == 0 then "." + [DigitChar(f / 10)]
    else "." + [DigitChar(f / 10), DigitChar(f % 10)]
  }
}
