/**
 * String operations the endpoints rely on, with the semantics of their
 * JavaScript counterparts: `String.prototype.trim`, `startsWith`/`endsWith`,
 * `Array.prototype.join`, and the whitespace class `\s` of regular expressions.
 */
module Text {

  /** The characters JavaScript treats as white space or line terminators:
      the set both `trim` removes and the regular-expression class `\s` matches. */
  predicate IsSpace(c: char)
    ensures IsSpace(c) ==> c <= ' ' || c >= '\U{00A0}'
  {
    || c == '\t' || c == '\n' || c == '\U{000B}' || c == '\U{000C}' || c == '\r' || c == ' '
    || c == '\U{00A0}' || c == '\U{1680}' || ('\U{2000}' <= c <= '\U{200A}')
    || c == '\U{2028}' || c == '\U{2029}' || c == '\U{202F}' || c == '\U{205F}'
    || c == '\U{3000}' || c == '\U{FEFF}'
  }

  predicate AllSpace(s: string) {
    forall i :: 0 <= i < |s| ==> IsSpace(s[i])
  }

  /** White space followed by white space is white space. */
  lemma AllSpaceConcat(a: string, b: string)
    requires AllSpace(a) && AllSpace(b)
    ensures AllSpace(a + b)
  {
    forall i | 0 <= i < |a + b| ensures IsSpace((a + b)[i]) {
      if i < |a| { assert (a + b)[i] == a[i]; } else { assert (a + b)[i] == b[i - |a|]; }
    }
  }

  /** Neither end of `s` is white space. */
  predicate Trimmed(s: string) {
    s == [] || (!IsSpace(s[0]) && !IsSpace(s[|s| - 1]))
  }

  predicate StartsWith(s: string, prefix: string) {
    prefix <= s
  }

  predicate EndsWith(s: string, suffix: string) {
    |suffix| <= |s| && s[|s| - |suffix|..] == suffix
  }

  /** `sub` occurs somewhere in `s`. */
  predicate IsInfix(sub: string, s: string)
    decreases |s|
  {
    sub <= s || (s != [] && IsInfix(sub, s[1..]))
  }

  /** Removes the leading white space. */
  function TrimStart(s: string): (r: string)
    ensures |r| <= |s| && r == s[|s| - |r|..]
    ensures AllSpace(s[..|s| - |r|])
    ensures r == [] || !IsSpace(r[0])
    decreases |s|
  {
    if s != [] && IsSpace(s[0]) then
      var r := TrimStart(s[1..]);
      assert s[..|s| - |r|] == [s[0]] + s[1..][..|s| - 1 - |r|];
      AllSpaceConcat([s[0]], s[1..][..|s| - 1 - |r|]);
      r
    else
      s
  }

  /** Removes the trailing white space. */
  function TrimEnd(s: string): (r: string)
    ensures |r| <= |s| && r == s[..|r|]
    ensures AllSpace(s[|r|..])
    ensures r == [] || !IsSpace(r[|r| - 1])
    decreases |s|
  {
    if s != [] && IsSpace(s[|s| - 1]) then
      var r := TrimEnd(s[..|s| - 1]);
      assert s[|r|..] == s[..|s| - 1][|r|..] + [s[|s| - 1]];
      AllSpaceConcat(s[..|s| - 1][|r|..], [s[|s| - 1]]);
      r
    else
      s
  }

  /** `String.prototype.trim`. */
  function Trim(s: string): (r: string)
    ensures Trimmed(r)
    ensures IsInfix(r, s)
  {
    var t := TrimStart(s);
    var r := TrimEnd(t);
    InfixOfSlices(s, t, r);
    r
  }

  /** `x` occurs in any string built around it. */
  lemma {:induction false} InfixOfConcat(a: string, x: string, b: string)
    ensures IsInfix(x, a + x + b)
    decreases |a|
  {
    if a == [] {
      assert a + x + b == x + b;
    } else {
      InfixOfConcat(a[1..], x, b);
      assert (a + x + b)[1..] == a[1..] + x + b;
    }
  }

  /** An occurrence is never longer than the text it occurs in. */
  lemma {:induction false} InfixShorter(sub: string, s: string)
    requires IsInfix(sub, s)
    ensures |sub| <= |s|
    decreases |s|
  {
    if !(sub <= s) {
      InfixShorter(sub, s[1..]);
    }
  }

  /** An occurrence in `s` is one in any text that starts with `s`. */
  lemma {:induction false} InfixOfPrefix(x: string, s: string, t: string)
    requires IsInfix(x, s) && s <= t
    ensures IsInfix(x, t)
    decreases |s|
  {
    if x <= s {
      assert t[..|x|] == s[..|x|];
    } else {
      assert s[1..] <= t[1..];
      InfixOfPrefix(x, s[1..], t[1..]);
    }
  }

  /** An occurrence of an occurrence is an occurrence. */
  lemma {:induction false} InfixTransitive(x: string, s: string, t: string)
    requires IsInfix(x, s) && IsInfix(s, t)
    ensures IsInfix(x, t)
    decreases |t|
  {
    if s <= t {
      InfixOfPrefix(x, s, t);
    } else {
      InfixTransitive(x, s, t[1..]);
    }
  }

  /** A prefix of a suffix of `s` occurs in `s`. */
  lemma InfixOfSlices(s: string, u: string, r: string)
    requires |u| <= |s| && u == s[|s| - |u|..] && |r| <= |u| && r == u[..|r|]
    ensures IsInfix(r, s)
  {
    var a, b := s[..|s| - |u|], u[|r|..];
    assert s == a + r + b;
    InfixOfConcat(a, r, b);
  }

  lemma {:induction false} TrimStartExact(a: string, m: string)
    requires AllSpace(a) && (m == [] || !IsSpace(m[0]))
    ensures TrimStart(a + m) == m
    decreases |a|
  {
    if a != [] {
      assert (a + m)[1..] == a[1..] + m;
      TrimStartExact(a[1..], m);
    } else {
      assert a + m == m;
    }
  }

  lemma {:induction false} TrimEndExact(m: string, b: string)
    requires AllSpace(b) && (m == [] || !IsSpace(m[|m| - 1]))
    ensures TrimEnd(m + b) == m
    decreases |b|
  {
    if b != [] {
      assert (m + b)[..|m + b| - 1] == m + b[..|b| - 1];
      TrimEndExact(m, b[..|b| - 1]);
    } else {
      assert m + b == m;
    }
  }

  /** `trim` removes exactly the white space around the text and nothing of it. */
  lemma TrimExact(a: string, m: string, b: string)
    requires AllSpace(a) && AllSpace(b) && Trimmed(m)
    ensures Trim(a + m + b) == m
  {
    if m == [] {
      assert AllSpace(a + b);
      TrimStartExact(a + b, []);
      assert a + m + b == (a + b) + [];
      TrimEndExact([], []);
    } else {
      assert a + m + b == a + (m + b);
      TrimStartExact(a, m + b);
      TrimEndExact(m, b);
    }
  }

  /** Text that starts and ends with non-space characters is what `trim` leaves
      of it with any white space around it. */
  lemma TrimAround(a: string, x: string, m: string, z: string, b: string)
    requires AllSpace(a) && AllSpace(b)
    requires x != [] && z != [] && !IsSpace(x[0]) && !IsSpace(z[|z| - 1])
    ensures Trim(a + x + m + z + b) == x + m + z
  {
    var t := x + m + z;
    assert t[0] == x[0] && t[|t| - 1] == z[|z| - 1];
    assert a + x + m + z + b == a + t + b;
    TrimExact(a, t, b);
  }

  /** Trimming twice is trimming once. */
  lemma TrimIdempotent(s: string)
    ensures Trim(Trim(s)) == Trim(s)
  {
    var r := Trim(s);
    var none: string := [];
    assert AllSpace(none) && Trimmed(r);
    assert none + r + none == r;
    TrimExact(none, r, none);
  }

  /** `Array.prototype.join` over strings. */
  function Join(xs: seq<string>, sep: string): (r: string)
    ensures |xs| == 1 ==> r == xs[0]
    decreases |xs|
  {
    if xs == [] then ""
    else if |xs| == 1 then xs[0]
    else xs[0] + sep + Join(xs[1..], sep)
  }

  /** An occurrence in `s` is still one after text is put in front. */
  lemma {:induction false} InfixAfter(a: string, x: string, s: string)
    requires IsInfix(x, s)
    ensures IsInfix(x, a + s)
    decreases |a|
  {
    if a == [] {
      assert a + s == s;
    } else {
      InfixAfter(a[1..], x, s);
      assert (a + s)[1..] == a[1..] + s;
    }
  }

  /** Every occurrence in `s` is still one after text is put in front. */
  lemma InfixAfterAll(a: string, s: string)
    ensures forall x :: IsInfix(x, s) ==> IsInfix(x, a + s)
  {
    forall x | IsInfix(x, s) ensures IsInfix(x, a + s) {
      InfixAfter(a, x, s);
    }
  }

  function DigitChar(d: nat): (c: char)
    requires d < 10
    ensures '0' <= c <= '9'
  {
    "0123456789"[d]
  }

  lemma DigitCharInjective(d: nat, e: nat)
    requires d < 10 && e < 10 && DigitChar(d) == DigitChar(e)
    ensures d == e
  {
  }

  /** Decimal notation of a natural number, as `String(n)` writes it. */
  function NatToString(n: nat): (r: string)
    ensures |r| >= 1
    ensures n >= 10 <==> |r| >= 2
    ensures forall i :: 0 <= i < |r| ==> '0' <= r[i] <= '9'
  {
    if n < 10 then [DigitChar(n)] else NatToString(n / 10) + [DigitChar(n % 10)]
  }

  /** Different numbers are written differently. */
  lemma {:induction false} NatToStringInjective(a: nat, b: nat)
    requires NatToString(a) == NatToString(b)
    ensures a == b
    decreases a
  {
    var r := NatToString(a);
    if a < 10 {
      assert r[0] == DigitChar(a) == DigitChar(b);
      DigitCharInjective(a, b);
    } else {
      var k := |r| - 1;
      assert r[k] == DigitChar(a % 10) == DigitChar(b % 10);
      DigitCharInjective(a % 10, b % 10);
      assert r[..k] == NatToString(a / 10) == NatToString(b / 10);
      NatToStringInjective(a / 10, b / 10);
    }
  }

  function IntToString(i: int): string {
    if i < 0 then "-" + NatToString(-i) else NatToString(i)
  }
}
