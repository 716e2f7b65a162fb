/**
 * The quiz endpoint's repair of the token `undefined` that the model writes
 * for "no feedback": two global replacements, first of
 * /"errorFeedback":\s*undefined/g and then of /"errorFeedback":\s*"undefined"/g,
 * each by `"errorFeedback": null`. A global `replace` scans left to right,
 * replaces each match and resumes after it, so matches never overlap.
 */
module UndefinedRepair {
  import opened Wrappers
  import opened Text

  const Key := "\"errorFeedback\":"
  const Replacement := "\"errorFeedback\": null"

  /** Which of the two patterns: the bare word or the quoted string. */
  datatype Token = Bare | Quoted

  function TokenText(k: Token): string {
    match k
    case Bare => "undefined"
    case Quoted => "\"undefined\""
  }

  /** Length of the white space at the start of `s`. */
  function SpaceRun(s: string): (n: nat)
    ensures n <= |s| && AllSpace(s[..n])
    ensures n == |s| || !IsSpace(s[n])
  {
    var r := TrimStart(s);
    assert r != [] ==> s[|s| - |r|] == r[0];
    |s| - |TrimStart(s)|
  }

  lemma SpaceRunExact(z: string, w: nat)
    requires w < |z| && AllSpace(z[..w]) && !IsSpace(z[w])
    ensures SpaceRun(z) == w
  {
    assert z == z[..w] + z[w..];
    TrimStartExact(z[..w], z[w..]);
  }

  /** The length of the match of /"errorFeedback":\s*<token>/ at the very start
      of `s`, if there is one. */
  function MatchAt(s: string, k: Token): (m: Option<nat>)
    ensures m.Some? ==> |Key| + |TokenText(k)| <= m.value <= |s|
  {
    FramedAt(s, Key, TokenText(k))
  }

  /** The length of the match of `key`, then `\s*`, then `t` at the very start
      of `s`. `\s*` is greedy; when `t` does not start with white space the
      longest run of white space is the only one that can be followed by `t`
      (see FramedNeedsLongestSpaceRun). */
  function FramedAt(s: string, key: string, t: string): (m: Option<nat>)
    ensures m.Some? ==> |key| + |t| <= m.value <= |s|
  {
    if !StartsWith(s, key) then None
    else
      var w := SpaceRun(s[|key|..]);
      if StartsWith(s[|key| + w..], t) then Some(|key| + w + |t|) else None
  }

  /** Some position of `s` starts a match. */
  predicate HasMatch(s: string, k: Token)
    decreases |s|
  {
    MatchAt(s, k).Some? || (s != [] && HasMatch(s[1..], k))
  }

  /** `s.replace(/"errorFeedback":\s*<token>/g, '"errorFeedback": null')`. */
  function ReplaceAll(s: string, k: Token): (r: string)
    ensures |r| <= |s|
    decreases |s|
  {
    if s == [] then []
    else
      match MatchAt(s, k)
      case Some(n) =>
        assert |Replacement| <= |Key| + |TokenText(k)|;
        Replacement + ReplaceAll(s[n..], k)
      case None => [s[0]] + ReplaceAll(s[1..], k)
  }

  /** Both repairs, in the order the endpoint applies them. */
  function Repair(s: string): (r: string)
    ensures |r| <= |s|
  {
    ReplaceAll(ReplaceAll(s, Bare), Quoted)
  }

  /** `m` is, as a whole, one match of /"errorFeedback":\s*<token>/. */
  predicate IsMatch(m: string, k: Token) {
    Framed(m, Key, TokenText(k))
  }

  /** `m` is `key`, then white space, then `t`. */
  predicate Framed(m: string, key: string, t: string) {
    && |key| + |t| <= |m|
    && key <= m
    && AllSpace(m[|key|..|m| - |t|])
    && t <= m[|m| - |t|..]
  }

  /** Neither token starts with white space. */
  lemma TokenStartsSolid(k: Token)
    ensures TokenText(k) != [] && !IsSpace(TokenText(k)[0])
  {
  }

  /** A shorter run of white space before the token cannot match either: the
      regular expression's backtracking finds no other match than MatchAt's. */
  lemma MatchNeedsLongestSpaceRun(s: string, k: Token, j: nat)
    requires StartsWith(s, Key) && |Key| + j <= |s|
    requires AllSpace(s[|Key|..|Key| + j]) && StartsWith(s[|Key| + j..], TokenText(k))
    ensures j == SpaceRun(s[|Key|..])
  {
    TokenStartsSolid(k);
    FramedNeedsLongestSpaceRun(s, Key, TokenText(k), j);
  }

  lemma FramedNeedsLongestSpaceRun(s: string, key: string, t: string, j: nat)
    requires t != [] && !IsSpace(t[0])
    requires key <= s && |key| + j <= |s|
    requires AllSpace(s[|key|..|key| + j]) && t <= s[|key| + j..]
    ensures j == SpaceRun(s[|key|..])
  {
    var z := s[|key|..];
    assert z[..j] == s[|key|..|key| + j];
    assert z[j] == t[0];
    SpaceRunExact(z, j);
  }

  /** What MatchAt finds is a match. */
  lemma MatchAtSound(s: string, k: Token)
    requires MatchAt(s, k).Some?
    ensures IsMatch(s[..MatchAt(s, k).value], k)
  {
    FramedAtSound(s, Key, TokenText(k));
  }

  lemma FramedAtSound(s: string, key: string, t: string)
    requires FramedAt(s, key, t).Some?
    ensures Framed(s[..FramedAt(s, key, t).value], key, t)
  {
    var z := s[|key|..];
    var w := SpaceRun(z);
    assert key <= s && t <= s[|key| + w..];
    FramedOfParts(s, key, w, t);
  }

  lemma FramedOfParts(s: string, key: string, w: nat, t: string)
    requires key <= s && |key| + w <= |s| && AllSpace(s[|key|..][..w]) && t <= s[|key| + w..]
    ensures Framed(s[..|key| + w + |t|], key, t)
  {
    var m := s[..|key| + w + |t|];
    assert m[..|key|] == s[..|key|];
    assert m[|key|..|m| - |t|] == s[|key|..][..w];
    assert m[|m| - |t|..] == s[|key| + w..][..|t|];
  }

  /** Every match at the start of `s` is the one MatchAt finds. */
  lemma MatchAtComplete(s: string, k: Token, len: nat)
    requires len <= |s| && IsMatch(s[..len], k)
    ensures MatchAt(s, k) == Some(len)
  {
    TokenStartsSolid(k);
    FramedAtComplete(s, Key, TokenText(k), len);
  }

  lemma FramedAtComplete(s: string, key: string, t: string, len: nat)
    requires t != [] && !IsSpace(t[0])
    requires len <= |s| && Framed(s[..len], key, t)
    ensures FramedAt(s, key, t) == Some(len)
  {
    var m := s[..len];
    var j := len - |key| - |t|;
    assert m[..|key|] == s[..|key|];
    assert m[|key|..|m| - |t|] == s[|key|..|key| + j];
    assert m[|m| - |t|..] == s[|key| + j..len];
    FramedNeedsLongestSpaceRun(s, key, t, j);
  }

  lemma KeyHasNoInnerKey(i: nat)
    requires 1 <= i < |Key| - 1
    ensures Key[i] != '"' || Key[i + 1] != 'e'
  {
  }

  lemma TokenHasNoInnerKey(k: Token, j: nat)
    requires j + 1 < |TokenText(k)|
    ensures TokenText(k)[j] != '"' || TokenText(k)[j + 1] != 'e'
  {
  }

  /** Inside a match, a quote is never followed by the letter e, except at
      its very start. */
  lemma NoInnerKey(m: string, k: Token, i: nat)
    requires IsMatch(m, k)
    requires 1 <= i && i + 1 < |m| && m[i] == '"'
    ensures m[i + 1] != 'e'
  {
    var t := TokenText(k);
    var sp := |m| - |t|;
    if i + 1 < |Key| {
      assert m[i] == m[..|Key|][i];
      assert m[i + 1] == m[..|Key|][i + 1];
      KeyHasNoInnerKey(i);
    } else if i + 1 == |Key| {
      assert false;
    } else if i < sp {
      InSpaceRun(m, k, i);
      assert false;
    } else {
      var j := i - sp;
      assert m[i] == m[sp..][j] == t[j];
      assert m[i + 1] == m[sp..][j + 1] == t[j + 1];
      TokenHasNoInnerKey(k, j);
    }
  }

  lemma InSpaceRun(m: string, k: Token, i: nat)
    requires IsMatch(m, k) && |Key| <= i < |m| - |TokenText(k)|
    ensures IsSpace(m[i])
  {
    assert m[i] == m[|Key|..|m| - |TokenText(k)|][i - |Key|];
  }

  /** Whether a match starts at the front depends only on the characters it covers. */
  lemma PrefixDetermines(x: string, y: string, k: Token, len: nat)
    requires MatchAt(x, k) == Some(len)
    requires len <= |y| && x[..len] == y[..len]
    ensures MatchAt(y, k) == Some(len)
  {
    MatchAtSound(x, k);
    MatchAtComplete(y, k, len);
  }

  lemma ReplacementHasNoInnerKey(j: nat)
    requires 1 <= j < |Replacement| - 1
    ensures Replacement[j] != '"' || Replacement[j + 1] != 'e'
  {
  }

  /** The replacement itself is not a match: it has `null` where a token would be. */
  lemma ReplacementStartsNoMatch(z: string, k: Token)
    ensures MatchAt(Replacement + z, k).None?
  {
    var x := Replacement + z;
    assert x[..|Key|] == Key;
    var rest := x[|Key|..];
    assert rest == " null" + z;
    assert rest[..1] == " ";
    SpaceRunExact(rest, 1);
    assert x[|Key| + 1..][0] == 'n';
    assert TokenText(k)[0] != 'n';
  }

  /** No match starts inside the replacement. */
  lemma ReplacementInsideNoMatch(j: nat, z: string, k: Token)
    requires 1 <= j < |Replacement|
    ensures MatchAt(Replacement[j..] + z, k).None?
  {
    var x := Replacement[j..] + z;
    assert x[0] == Replacement[j];
    if j + 1 < |Replacement| {
      assert x[1] == Replacement[j + 1];
      ReplacementHasNoInnerKey(j);
    } else {
      assert Replacement[j] == 'l';
    }
    assert x[0] != Key[0] || x[1] != Key[1];
  }

  lemma NoMatchStep(x: string, k: Token)
    requires x != [] && MatchAt(x, k).None? && !HasMatch(x[1..], k)
    ensures !HasMatch(x, k)
  {
  }

  /** No match starts at any position of `p` in the text `p + z`. */
  predicate NoMatchStartsIn(p: string, z: string, k: Token)
    decreases |p|
  {
    p == [] || (MatchAt(p + z, k).None? && NoMatchStartsIn(p[1..], z, k))
  }

  lemma {:induction false} NoMatchAcross(p: string, z: string, k: Token)
    requires NoMatchStartsIn(p, z, k) && !HasMatch(z, k)
    ensures !HasMatch(p + z, k)
    decreases |p|
  {
    if p == [] {
      assert p + z == z;
    } else {
      NoMatchAcross(p[1..], z, k);
      DropFirst(p, z);
      NoMatchStep(p + z, k);
    }
  }

  lemma DropFirst(p: string, z: string)
    requires p != []
    ensures (p + z)[1..] == p[1..] + z
  {
  }

  /** No match starts at or after position `j` of the replacement text. */
  lemma {:induction false} ReplacementStartsNone(j: nat, z: string, k: Token)
    requires j <= |Replacement|
    ensures NoMatchStartsIn(Replacement[j..], z, k)
    decreases |Replacement| - j
  {
    if j < |Replacement| {
      ReplacementStartsNone(j + 1, z, k);
      if j == 0 {
        ReplacementStartsNoMatch(z, k);
      } else {
        ReplacementInsideNoMatch(j, z, k);
      }
      assert Replacement[j..][1..] == Replacement[j + 1..];
    }
  }

  /** A replacement shields the text after it: it starts no match of either pattern. */
  lemma Shield(z: string, k: Token)
    requires !HasMatch(z, k)
    ensures !HasMatch(Replacement + z, k)
  {
    ReplacementStartsNone(0, z, k);
    assert Replacement[0..] == Replacement;
    NoMatchAcross(Replacement, z, k);
  }

  /** How many leading characters `ReplaceAll` copies before its first replacement. */
  function Copied(t: string, k: Token): (n: nat)
    ensures n <= |t|
    decreases |t|
  {
    if t == [] || MatchAt(t, k).Some? then 0 else 1 + Copied(t[1..], k)
  }

  /** Every match, and the replacement, begins with a quote and the letter e. */
  lemma MatchStartsQuoteE(s: string, k: Token)
    requires MatchAt(s, k).Some?
    ensures 2 <= |s| && s[0] == '"' && s[1] == 'e'
  {
    assert StartsWith(s, Key);
    assert s[0] == Key[0] && s[1] == Key[1];
  }

  lemma ReplacementStartsQuoteE(rest: string)
    ensures var o := Replacement + rest; 2 <= |o| && o[0] == '"' && o[1] == 'e'
  {
  }

  lemma {:induction false} ReplaceAllStartsQuoteE(s: string, k: Token)
    requires MatchAt(s, k).Some?
    ensures var o := ReplaceAll(s, k); 2 <= |o| && o[0] == '"' && o[1] == 'e'
  {
    var n := MatchAt(s, k).value;
    var o := ReplaceAll(s, k);
    assert o == Replacement + ReplaceAll(s[n..], k);
    ReplacementStartsQuoteE(ReplaceAll(s[n..], k));
  }

  /** `o` and `t` are equal when `n` covers all of `t`; otherwise they agree on
      their first `n` characters and both continue with a quote and the letter e. */
  predicate AgreeUpToQuoteE(o: string, t: string, n: nat) {
    && n <= |t|
    && (n == |t| ==> o == t)
    && (n < |t| ==> n + 2 <= |t| && n + 2 <= |o| && o[..n + 2] == t[..n + 2] && t[n] == '"' && t[n + 1] == 'e')
  }

  /** `ReplaceAll` copies the text up to its first replacement; there the
      original and the result both continue with a quote and the letter e. */
  lemma {:induction false} Front(t: string, k: Token)
    ensures AgreeUpToQuoteE(ReplaceAll(t, k), t, Copied(t, k))
    decreases |t|
  {
    if t == [] {
    } else if MatchAt(t, k).Some? {
      FrontAtMatch(t, k);
    } else {
      Front(t[1..], k);
      FrontStep(t, k);
    }
  }

  lemma FrontStep(t: string, k: Token)
    requires t != [] && MatchAt(t, k).None?
    requires AgreeUpToQuoteE(ReplaceAll(t[1..], k), t[1..], Copied(t[1..], k))
    ensures AgreeUpToQuoteE(ReplaceAll(t, k), t, Copied(t, k))
  {
    var o, o' := ReplaceAll(t, k), ReplaceAll(t[1..], k);
    CopyStep(t, k);
    CopiedStep(t, k);
    AgreeTailAt(t, o, o', Copied(t[1..], k), Copied(t, k));
  }

  lemma AgreeTailAt(t: string, o: string, o': string, n: nat, m: nat)
    requires t != [] && o == [t[0]] + o' && AgreeUpToQuoteE(o', t[1..], n) && m == n + 1
    ensures AgreeUpToQuoteE(o, t, m)
  {
    AgreeTail(t, o, o', n);
  }

  lemma FrontAtMatch(t: string, k: Token)
    requires MatchAt(t, k).Some?
    ensures AgreeUpToQuoteE(ReplaceAll(t, k), t, Copied(t, k))
  {
    MatchStartsQuoteE(t, k);
    ReplaceAllStartsQuoteE(t, k);
    StartQuoteE(ReplaceAll(t, k), t);
  }

  lemma StartQuoteE(o: string, t: string)
    requires 2 <= |o| && o[0] == '"' && o[1] == 'e'
    requires 2 <= |t| && t[0] == '"' && t[1] == 'e'
    ensures AgreeUpToQuoteE(o, t, 0)
  {
    assert o[..2] == [o[0], o[1]];
    assert t[..2] == [t[0], t[1]];
  }

  lemma AgreeTail(t: string, o: string, o': string, n: nat)
    requires t != [] && o == [t[0]] + o' && AgreeUpToQuoteE(o', t[1..], n)
    ensures AgreeUpToQuoteE(o, t, n + 1)
  {
    AgreeCons(t[0], o', t[1..], n);
    assert [t[0]] + t[1..] == t;
  }

  lemma AgreeCons(c: char, o: string, t: string, n: nat)
    requires AgreeUpToQuoteE(o, t, n)
    ensures AgreeUpToQuoteE([c] + o, [c] + t, n + 1)
  {
    if n < |t| {
      ConsPrefix(c, o, t, n + 2);
    }
  }

  lemma ConsPrefix(c: char, o: string, t: string, len: nat)
    requires len <= |o| && len <= |t| && o[..len] == t[..len]
    ensures ([c] + o)[..len + 1] == ([c] + t)[..len + 1]
  {
    assert ([c] + o)[..len + 1] == [c] + o[..len];
    assert ([c] + t)[..len + 1] == [c] + t[..len];
  }

  /** The first character of a quote-e pair inside a match can only be the last
      character before it ends. */
  lemma StraddleBound(x: string, k: Token, len: nat, i: nat)
    requires MatchAt(x, k) == Some(len)
    requires 1 <= i && i + 1 < |x| && x[i] == '"' && x[i + 1] == 'e'
    ensures len <= i + 1
  {
    MatchAtSound(x, k);
    if i + 1 < len {
      assert x[..len][i] == '"' && x[..len][i + 1] == 'e';
      NoInnerKey(x[..len], k, i);
      assert false;
    }
  }

  /** A text that starts no match still starts none when it is changed only
      from a quote-e pair on. */
  lemma NoMatchKept(x: string, y: string, i: nat, k2: Token)
    requires MatchAt(y, k2).None?
    requires 1 <= i && i + 2 <= |x| && i + 2 <= |y| && x[..i + 2] == y[..i + 2]
    requires y[i] == '"' && y[i + 1] == 'e'
    ensures MatchAt(x, k2).None?
  {
    if MatchAt(x, k2).Some? {
      MatchCarries(x, y, i, k2, MatchAt(x, k2).value);
      assert false;
    }
  }

  lemma AgreeNoMatch(x: string, y: string, n: nat, k2: Token)
    requires AgreeUpToQuoteE(x, y, n) && 1 <= n && MatchAt(y, k2).None?
    ensures MatchAt(x, k2).None?
  {
    if n < |y| {
      NoMatchKept(x, y, n, k2);
    }
  }

  lemma MatchCarries(x: string, y: string, i: nat, k2: Token, len: nat)
    requires MatchAt(x, k2) == Some(len)
    requires 1 <= i && i + 2 <= |x| && i + 2 <= |y| && x[..i + 2] == y[..i + 2]
    requires y[i] == '"' && y[i + 1] == 'e'
    ensures MatchAt(y, k2) == Some(len)
  {
    CarriedPrefix(x, y, i, k2, len);
    PrefixDetermines(x, y, k2, len);
  }

  lemma CarriedPrefix(x: string, y: string, i: nat, k2: Token, len: nat)
    requires MatchAt(x, k2) == Some(len)
    requires 1 <= i && i + 2 <= |x| && i + 2 <= |y| && x[..i + 2] == y[..i + 2]
    requires y[i] == '"' && y[i + 1] == 'e'
    ensures len <= i + 2 && x[..len] == y[..len]
  {
    SharedQuoteE(x, y, i);
    StraddleBound(x, k2, len, i);
    ShorterPrefix(x, y, i + 2, len);
  }

  /** Two texts agreeing on their first `i + 2` characters share a quote-e
      pair at `i`. */
  lemma SharedQuoteE(x: string, y: string, i: nat)
    requires i + 2 <= |x| && i + 2 <= |y| && x[..i + 2] == y[..i + 2]
    requires y[i] == '"' && y[i + 1] == 'e'
    ensures x[i] == '"' && x[i + 1] == 'e'
  {
    assert x[i] == x[..i + 2][i] && x[i + 1] == x[..i + 2][i + 1];
  }

  lemma ShorterPrefix(x: string, y: string, n: nat, len: nat)
    requires n <= |x| && n <= |y| && x[..n] == y[..n] && len <= n
    ensures x[..len] == y[..len]
  {
    assert x[..len] == x[..n][..len];
    assert y[..len] == y[..n][..len];
  }

  lemma CopiedHeadNoMatch(c: char, t: string, k: Token, k2: Token)
    requires MatchAt([c] + t, k2).None?
    ensures MatchAt([c] + ReplaceAll(t, k), k2).None?
  {
    Front(t, k);
    HeadKept(c, ReplaceAll(t, k), t, Copied(t, k), k2);
  }

  lemma HeadKept(c: char, o: string, t: string, n: nat, k2: Token)
    requires AgreeUpToQuoteE(o, t, n) && MatchAt([c] + t, k2).None?
    ensures MatchAt([c] + o, k2).None?
  {
    AgreeCons(c, o, t, n);
    AgreeNoMatch([c] + o, [c] + t, n + 1, k2);
  }

  /** A character that starts no match stays match-free in front of a replaced text. */
  lemma CopiedHead(c: char, t: string, k: Token, k2: Token)
    requires MatchAt([c] + t, k2).None?
    requires !HasMatch(ReplaceAll(t, k), k2)
    ensures !HasMatch([c] + ReplaceAll(t, k), k2)
  {
    CopiedHeadNoMatch(c, t, k, k2);
    assert ([c] + ReplaceAll(t, k))[1..] == ReplaceAll(t, k);
  }

  lemma {:induction false} SuffixMatch(s: string, i: nat, k: Token)
    requires i <= |s| && HasMatch(s[i..], k)
    ensures HasMatch(s, k)
    decreases i
  {
    if i > 0 {
      assert s[1..][i - 1..] == s[i..];
      SuffixMatch(s[1..], i - 1, k);
    }
  }

  /** After a global replacement no match of its pattern is left. */
  lemma {:induction false} ReplaceAllLeavesNoMatch(s: string, k: Token)
    ensures !HasMatch(ReplaceAll(s, k), k)
    decreases |s|
  {
    if s != [] {
      match MatchAt(s, k)
      case Some(n) =>
        ReplaceAllLeavesNoMatch(s[n..], k);
        Shield(ReplaceAll(s[n..], k), k);
      case None =>
        ReplaceAllLeavesNoMatch(s[1..], k);
        assert [s[0]] + s[1..] == s;
        CopiedHead(s[0], s[1..], k, k);
    }
  }

  /** A global replacement creates no match of another pattern that the text did not have. */
  lemma {:induction false} ReplaceAllKeepsNoMatch(s: string, k: Token, k2: Token)
    requires !HasMatch(s, k2)
    ensures !HasMatch(ReplaceAll(s, k), k2)
    decreases |s|
  {
    if s != [] {
      match MatchAt(s, k)
      case Some(n) =>
        if HasMatch(s[n..], k2) {
          SuffixMatch(s, n, k2);
        }
        ReplaceAllKeepsNoMatch(s[n..], k, k2);
        Shield(ReplaceAll(s[n..], k), k2);
      case None =>
        ReplaceAllKeepsNoMatch(s[1..], k, k2);
        assert [s[0]] + s[1..] == s;
        CopiedHead(s[0], s[1..], k, k2);
    }
  }

  /** On text without a match the replacement changes nothing. */
  lemma {:induction false} ReplaceAllIdentity(s: string, k: Token)
    requires !HasMatch(s, k)
    ensures ReplaceAll(s, k) == s
    decreases |s|
  {
    if s != [] {
      ReplaceAllIdentity(s[1..], k);
      assert [s[0]] + s[1..] == s;
    }
  }

  /** Text before the first match is copied unchanged. */
  lemma {:induction false} ReplaceAllCopiesUnmatched(t: string, n: nat, k: Token)
    requires n <= Copied(t, k)
    ensures n <= |t| && ReplaceAll(t, k) == t[..n] + ReplaceAll(t[n..], k)
    decreases n
  {
    if n == 0 {
      assert t[..0] == [] && t[0..] == t;
    } else {
      CopiedStep(t, k);
      CopyStep(t, k);
      ReplaceAllCopiesUnmatched(t[1..], n - 1, k);
      assert t[1..][n - 1..] == t[n..];
      var whole, tail, rest := ReplaceAll(t, k), ReplaceAll(t[1..], k), ReplaceAll(t[n..], k);
      ConsCompose(t, n, whole, tail, rest);
    }
  }

  lemma CopiedStep(t: string, k: Token)
    requires 0 < Copied(t, k) || (t != [] && MatchAt(t, k).None?)
    ensures t != [] && MatchAt(t, k).None? && Copied(t, k) == 1 + Copied(t[1..], k)
  {
  }

  lemma ConsCompose(t: string, n: nat, whole: string, tail: string, rest: string)
    requires 1 <= n <= |t| && whole == [t[0]] + tail && tail == t[1..][..n - 1] + rest
    ensures whole == t[..n] + rest
  {
    assert [t[0]] + t[1..][..n - 1] == t[..n];
  }

  /** Where no match starts, `ReplaceAll` copies one character. */
  lemma CopyStep(s: string, k: Token)
    requires s != [] && MatchAt(s, k).None?
    ensures ReplaceAll(s, k) == [s[0]] + ReplaceAll(s[1..], k)
  {
  }

  /** After the repair neither pattern matches anywhere. */
  lemma RepairLeavesNoUndefined(s: string)
    ensures !HasMatch(Repair(s), Bare) && !HasMatch(Repair(s), Quoted)
  {
    var once := ReplaceAll(s, Bare);
    ReplaceAllLeavesNoMatch(s, Bare);
    ReplaceAllKeepsNoMatch(once, Quoted, Bare);
    ReplaceAllLeavesNoMatch(once, Quoted);
  }

  /** Repairing twice is repairing once. */
  lemma RepairIdempotent(s: string)
    ensures Repair(Repair(s)) == Repair(s)
  {
    var r := Repair(s);
    RepairLeavesNoUndefined(s);
    ReplaceAllIdentity(r, Bare);
    ReplaceAllIdentity(r, Quoted);
  }
}
