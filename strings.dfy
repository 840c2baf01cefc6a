/**
  String behaviour the server relies on: JavaScript's `parseInt` (one argument),
  decimal rendering of a number, `String.prototype.replace` with a string pattern
  (first occurrence only), and the store's `LIKE` pattern match.
 */
module Strings {
  import opened Wrappers

  /** `pat` occurs in `s` starting at position `k`. */
  predicate OccursAt(pat: string, s: string, k: int) {
    0 <= k <= |s| - |pat| && s[k..k + |pat|] == pat
  }

  /** `pat` occurs somewhere in `s`. */
  predicate Occurs(pat: string, s: string) {
    exists k :: 0 <= k <= |s| - |pat| && OccursAt(pat, s, k)
  }

  // ---------------------------------------------------------------------------
  // parseInt

  /**
    The white space `parseInt` skips before the number: ECMAScript's StrWhiteSpaceChar,
    that is tab, vertical tab, form feed, U+FEFF, every Zs space separator, and the
    line terminators LF, CR, U+2028 and U+2029.
   */
  predicate IsJsSpace(c: char) {
    || c == '\t' || c == '\U{0B}' || c == '\U{0C}' || c == '\U{FEFF}'
    || c == ' ' || c == '\U{A0}' || c == '\U{1680}' || ('\U{2000}' <= c <= '\U{200A}')
    || c == '\U{202F}' || c == '\U{205F}' || c == '\U{3000}'
    || c == '\n' || c == '\r' || c == '\U{2028}' || c == '\U{2029}'
  }

  function TrimStart(s: string): (r: string)
    ensures |r| <= |s| && r == s[|s| - |r|..]
    ensures r == [] || !IsJsSpace(r[0])
    ensures forall i :: 0 <= i < |s| - |r| ==> IsJsSpace(s[i])
  {
    if s != [] && IsJsSpace(s[0]) then TrimStart(s[1..]) else s
  }

  /** The value of a digit in bases up to 16; 16 for anything that is not one. */
  function DigitValue(c: char): (d: nat)
    ensures d <= 16
  {
    if '0' <= c <= '9' then c as int - '0' as int
    else if 'a' <= c <= 'f' then c as int - 'a' as int + 10
    else if 'A' <= c <= 'F' then c as int - 'A' as int + 10
    else 16
  }

  predicate IsDigit(c: char, radix: nat) {
    DigitValue(c) < radix
  }

  /** The length of the longest prefix of `s` made of digits of `radix`. */
  function DigitPrefixLength(s: string, radix: nat): (n: nat)
    ensures n <= |s|
    ensures forall i :: 0 <= i < n ==> IsDigit(s[i], radix)
    ensures n < |s| ==> !IsDigit(s[n], radix)
  {
    if s != [] && IsDigit(s[0], radix) then 1 + DigitPrefixLength(s[1..], radix) else 0
  }

  /** The number a digit string denotes in `radix`, most significant digit first. */
  function DigitsValue(d: string, radix: nat): nat {
    if d == [] then 0 else DigitsValue(d[..|d| - 1], radix) * radix + DigitValue(d[|d| - 1])
  }

  /**
    `parseInt(s)`: skip leading white space, take an optional sign, then the digits.
    `None` stands for `NaN` (no digit at all). JavaScript's -0 is 0 here; both are falsy.
   */
  function ParseInt(s: string): Option<int> {
    ParseSigned(TrimStart(s))
  }

  function ParseSigned(t: string): Option<int> {
    if t != [] && t[0] == '-' then
      match ParseMagnitude(t[1..])
      case None => None
      case Some(v) => Some(-(v as int))
    else if t != [] && t[0] == '+' then ParseMagnitude(t[1..])
    else ParseMagnitude(t)
  }

  /** Base 16 after a `0x`/`0X` prefix, base 10 otherwise; reading stops at the first non-digit. */
  function ParseMagnitude(u: string): Option<nat> {
    if |u| >= 2 && u[0] == '0' && (u[1] == 'x' || u[1] == 'X') then ParseDigits(u[2..], 16)
    else ParseDigits(u, 10)
  }

  function ParseDigits(d: string, radix: nat): Option<nat> {
    var n := DigitPrefixLength(d, radix);
    if n == 0 then None else Some(DigitsValue(d[..n], radix))
  }

  // ---------------------------------------------------------------------------
  // Decimal rendering (`String(n)`, `${n}` for a non-negative integer)

  function DecimalDigit(d: nat): (c: char)
    requires d < 10
    ensures '0' <= c <= '9' && DigitValue(c) == d
  {
    ('0' as int + d) as char
  }

  function NatToDecimal(n: nat): (r: string)
    ensures |r| >= 1
    ensures forall i :: 0 <= i < |r| ==> '0' <= r[i] <= '9'
    ensures r[0] == '0' ==> n == 0
  {
    if n < 10 then [DecimalDigit(n)] else NatToDecimal(n / 10) + [DecimalDigit(n % 10)]
  }

  lemma {:induction false} DecimalValue(n: nat)
    ensures DigitsValue(NatToDecimal(n), 10) == n
  {
    if n >= 10 {
      var d := NatToDecimal(n);
      var prefix := NatToDecimal(n / 10);
      assert d[..|d| - 1] == prefix;
      DecimalValue(n / 10);
    }
  }

  /** Reading the digits of a rendering gives back the number. */
  lemma ParseDigitsOfDecimal(n: nat)
    ensures ParseDigits(NatToDecimal(n), 10) == Some(n)
  {
    var d := NatToDecimal(n);
    DigitPrefixAll(d, 10);
    assert d[..|d|] == d;
    DecimalValue(n);
  }

  /** A rendering is never mistaken for a hexadecimal literal. */
  lemma ParseMagnitudeOfDecimal(n: nat)
    ensures ParseMagnitude(NatToDecimal(n)) == Some(n)
  {
    ParseDigitsOfDecimal(n);
    var d := NatToDecimal(n);
    assert |d| >= 2 ==> d[1] != 'x' && d[1] != 'X';
  }

  /** `parseInt` reads back the rendering of a non-negative integer. */
  lemma ParseIntOfDecimal(n: nat)
    ensures ParseInt(NatToDecimal(n)) == Some(n)
  {
    var d := NatToDecimal(n);
    assert !IsJsSpace(d[0]);
    assert TrimStart(d) == d;
    ParseMagnitudeOfDecimal(n);
  }

  /** `parseInt` reads back the rendering of a negative integer. */
  lemma ParseIntOfNegativeDecimal(n: nat)
    ensures ParseInt("-" + NatToDecimal(n)) == Some(-(n as int))
  {
    var s := "-" + NatToDecimal(n);
    assert !IsJsSpace(s[0]);
    assert TrimStart(s) == s;
    assert s[1..] == NatToDecimal(n);
    ParseMagnitudeOfDecimal(n);
  }

  /** Different numbers render differently, so rendered keys never collide. */
  lemma DecimalInjective(a: nat, b: nat)
    requires a != b
    ensures NatToDecimal(a) != NatToDecimal(b)
  {
    ParseIntOfDecimal(a);
    ParseIntOfDecimal(b);
  }

  /** A string without any decimal digit is `NaN` to `parseInt` ("abc", "", "-"). */
  lemma ParseIntWithoutDigits(s: string)
    requires forall i :: 0 <= i < |s| ==> !('0' <= s[i] <= '9')
    ensures ParseInt(s) == None
  {
    var t := TrimStart(s);
    var u := if t != [] && (t[0] == '-' || t[0] == '+') then t[1..] else t;
    assert u == s[|s| - |u|..];
    if u != [] {
      assert u[0] == s[|s| - |u|];
      assert DigitValue(u[0]) >= 10;
    }
    assert ParseDigits(u, 10) == None;
    assert ParseMagnitude(u) == None;
  }

  /** Leading white space is skipped: `parseInt("\u3000 5")` is 5. */
  lemma {:induction false} ParseIntSkipsWhiteSpace(ws: string, n: nat)
    requires forall i :: 0 <= i < |ws| ==> IsJsSpace(ws[i])
    ensures ParseInt(ws + NatToDecimal(n)) == ParseInt(NatToDecimal(n)) == Some(n)
    decreases |ws|
  {
    ParseIntOfDecimal(n);
    if ws != [] {
      assert (ws + NatToDecimal(n))[1..] == ws[1..] + NatToDecimal(n);
      ParseIntSkipsWhiteSpace(ws[1..], n);
    } else {
      assert ws + NatToDecimal(n) == NatToDecimal(n);
    }
  }

  /** `parseInt` stops at the first non-digit: `parseInt("12abc")` is 12. */
  lemma ParseIntIgnoresSuffix(n: nat, rest: string)
    requires rest == [] || !IsDigit(rest[0], 10)
    requires n != 0 || rest == [] || (rest[0] != 'x' && rest[0] != 'X')
    ensures ParseInt(NatToDecimal(n) + rest) == Some(n)
  {
    var d := NatToDecimal(n);
    var s := d + rest;
    assert s[0] == d[0];
    assert !IsJsSpace(s[0]);
    assert TrimStart(s) == s;
    assert !(|s| >= 2 && s[0] == '0' && (s[1] == 'x' || s[1] == 'X')) by {
      if |d| >= 2 { assert s[1] == d[1]; }
    }
    DigitPrefixAll(d, 10);
    DigitPrefixConcat(d, rest, 10);
    assert s[..|d|] == d;
    DecimalValue(n);
  }

  lemma {:induction false} DigitPrefixAll(s: string, radix: nat)
    requires forall i :: 0 <= i < |s| ==> IsDigit(s[i], radix)
    ensures DigitPrefixLength(s, radix) == |s|
  {
    if s != [] {
      DigitPrefixAll(s[1..], radix);
    }
  }

  lemma {:induction false} DigitPrefixConcat(d: string, rest: string, radix: nat)
    requires DigitPrefixLength(d, radix) == |d|
    requires rest == [] || !IsDigit(rest[0], radix)
    ensures DigitPrefixLength(d + rest, radix) == |d|
  {
    if d != [] {
      assert (d + rest)[1..] == d[1..] + rest;
      DigitPrefixConcat(d[1..], rest, radix);
    } else {
      assert d + rest == rest;
    }
  }

  // ---------------------------------------------------------------------------
  // String.prototype.replace(pattern: string, replacement: string)

  /** Replaces the FIRST occurrence of `pat` in `s` by `rep`; `s` itself when there is none. */
  function ReplaceFirst(s: string, pat: string, rep: string): string
    decreases |s|
  {
    if |s| < |pat| then s
    else if s[..|pat|] == pat then rep + s[|pat|..]
    else [s[0]] + ReplaceFirst(s[1..], pat, rep)
  }

  /** A pattern at the very start is the one replaced. */
  lemma ReplaceFirstAtStart(pat: string, t: string, rep: string)
    ensures ReplaceFirst(pat + t, pat, rep) == rep + t
  {
    assert (pat + t)[..|pat|] == pat;
    assert (pat + t)[|pat|..] == t;
  }

  /** `replace` replaces the first occurrence, wherever it is, and leaves the rest as it was. */
  lemma {:induction false} ReplaceFirstAt(s: string, pat: string, rep: string, k: nat)
    requires OccursAt(pat, s, k)
    requires forall j :: 0 <= j < k ==> !OccursAt(pat, s, j)
    ensures ReplaceFirst(s, pat, rep) == s[..k] + rep + s[k + |pat|..]
    decreases k
  {
    if k == 0 {
      assert s[..|pat|] == s[0..0 + |pat|];
      assert s[..0] == [];
    } else {
      var t := s[1..];
      ReplaceFirstSkips(s, pat, rep);
      OccursAtTail(s, pat, k - 1);
      forall j | 0 <= j < k - 1 ensures !OccursAt(pat, t, j) {
        OccursAtTail(s, pat, j);
      }
      ReplaceFirstAt(t, pat, rep, k - 1);
      assert [s[0]] + t[..k - 1] == s[..k];
      assert t[k - 1 + |pat|..] == s[k + |pat|..];
    }
  }

  /** No occurrence at the start: `replace` keeps the first character and goes on with the rest. */
  lemma ReplaceFirstSkips(s: string, pat: string, rep: string)
    requires |s| > |pat| && !OccursAt(pat, s, 0)
    ensures ReplaceFirst(s, pat, rep) == [s[0]] + ReplaceFirst(s[1..], pat, rep)
  {
    assert s[..|pat|] == s[0..0 + |pat|];
  }

  /** An occurrence in the tail is an occurrence one position further in the whole. */
  lemma OccursAtTail(s: string, pat: string, j: nat)
    requires s != []
    ensures OccursAt(pat, s[1..], j) <==> OccursAt(pat, s, j + 1)
  {
    if j + 1 <= |s| - |pat| {
      assert s[1..][j..j + |pat|] == s[j + 1..j + 1 + |pat|];
    }
  }

  /** Without an occurrence of `pat`, `replace` returns its input. */
  lemma {:induction false} ReplaceFirstWithoutOccurrence(s: string, pat: string, rep: string)
    requires !Occurs(pat, s)
    ensures ReplaceFirst(s, pat, rep) == s
    decreases |s|
  {
    if |s| >= |pat| {
      assert !OccursAt(pat, s, 0);
      assert s[0..0 + |pat|] == s[..|pat|];
      assert !Occurs(pat, s[1..]) by {
        forall k | OccursAt(pat, s[1..], k) ensures OccursAt(pat, s, k + 1) {
          assert s[1..][k..k + |pat|] == s[k + 1..k + 1 + |pat|];
        }
      }
      ReplaceFirstWithoutOccurrence(s[1..], pat, rep);
      assert s == [s[0]] + s[1..];
    }
  }

  // ---------------------------------------------------------------------------
  // SQL LIKE with the default escape character

  /** The characters that `LIKE` does not take literally: the two wildcards and the escape. */
  predicate NoWildcards(v: string) {
    forall i :: 0 <= i < |v| ==> v[i] != '%' && v[i] != '_' && v[i] != '\\'
  }

  /**
    `s LIKE p`: `%` matches any run of characters, `_` exactly one, and a backslash makes
    the next pattern character literal. A lone backslash at the end of a pattern is an
    error in PostgreSQL; the patterns the store builds never end that way, and it is
    read as a literal backslash here.
   */
  function Like(s: string, p: string): bool
    decreases |s| + |p|
  {
    if p == [] then s == []
    else if p[0] == '%' then Like(s, p[1..]) || (s != [] && Like(s[1..], p))
    else if p[0] == '_' then s != [] && Like(s[1..], p[1..])
    else if p[0] == '\\' && |p| >= 2 then s != [] && s[0] == p[1] && Like(s[1..], p[2..])
    else s != [] && s[0] == p[0] && Like(s[1..], p[1..])
  }

  /** The pattern the store uses for a partial match: `%value%`. */
  function ContainsPattern(value: string): string {
    "%" + value + "%"
  }

  lemma {:induction false} LikeAnything(s: string)
    ensures Like(s, "%")
    decreases |s|
  {
    assert "%"[1..] == [];
    if s != [] {
      LikeAnything(s[1..]);
    }
  }

  lemma {:induction false} LikeLiteralPrefix(s: string, v: string, q: string)
    requires NoWildcards(v)
    ensures Like(s, v + q) <==> |v| <= |s| && s[..|v|] == v && Like(s[|v|..], q)
    decreases |v|
  {
    if v == [] {
      assert v + q == q;
      assert s[..0] == v && s[0..] == s;
    } else {
      var p := v + q;
      assert p[0] == v[0];
      assert p[1..] == v[1..] + q;
      assert NoWildcards(v[1..]) by {
        forall i | 0 <= i < |v[1..]| ensures v[1..][i] != '%' && v[1..][i] != '_' && v[1..][i] != '\\' {
          assert v[1..][i] == v[i + 1];
        }
      }
      assert v[0] != '%' && v[0] != '_' && v[0] != '\\';
      if s != [] {
        LikeLiteralPrefix(s[1..], v[1..], q);
        if |v| <= |s| {
          assert s[1..][..|v| - 1] == s[1..|v|];
          assert s[..|v|] == [s[0]] + s[1..|v|];
          assert v == [v[0]] + v[1..];
          assert s[1..][|v| - 1..] == s[|v|..];
        }
      }
    }
  }

  lemma {:induction false} LikeLeadingPercent(s: string, q: string)
    ensures Like(s, "%" + q) <==> exists k :: 0 <= k <= |s| && Like(s[k..], q)
    decreases |s|
  {
    var p := "%" + q;
    assert p[0] == '%' && p[1..] == q;
    assert s[0..] == s;
    if s != [] {
      LikeLeadingPercent(s[1..], q);
      if exists k :: 0 <= k <= |s| && Like(s[k..], q) {
        var k :| 0 <= k <= |s| && Like(s[k..], q);
        if k > 0 {
          assert s[1..][k - 1..] == s[k..];
        }
      }
      if exists k :: 0 <= k <= |s[1..]| && Like(s[1..][k..], q) {
        var k :| 0 <= k <= |s[1..]| && Like(s[1..][k..], q);
        assert s[1..][k..] == s[k + 1..];
      }
    }
  }

  /**
    For a value without wildcard or escape characters, `LIKE '%value%'` is
    exactly "contains `value` as a substring".
   */
  lemma LikeContainsPattern(s: string, v: string)
    requires NoWildcards(v)
    ensures Like(s, ContainsPattern(v)) <==> Occurs(v, s)
  {
    assert ContainsPattern(v) == "%" + (v + "%");
    LikeLeadingPercent(s, v + "%");
    if Occurs(v, s) {
      var k :| 0 <= k <= |s| - |v| && OccursAt(v, s, k);
      LikeLiteralPrefix(s[k..], v, "%");
      assert s[k..][..|v|] == v;
      LikeAnything(s[k..][|v|..]);
    }
    if exists k :: 0 <= k <= |s| && Like(s[k..], v + "%") {
      var k :| 0 <= k <= |s| && Like(s[k..], v + "%");
      LikeLiteralPrefix(s[k..], v, "%");
      assert s[k..][..|v|] == s[k..k + |v|];
      assert OccursAt(v, s, k);
    }
  }
}
