/**
  Python's character-set stripping (`str.strip`, `str.lstrip`, `str.rstrip`),
  the substring test behind `"x" in some_str`, and `str()` of a non-negative
  `int`, over Dafny strings (`seq<char>`).

  `s.lstrip(chars)` drops the longest prefix made only of characters in
  `chars`; `chars` is a SET of characters, not a prefix to match.
*/
module PyStr {

  /** The characters `str.isspace()` accepts, which `str.strip()` with no
      argument removes: ASCII 9-13 and 28-32, and the Unicode separators. */
  predicate IsSpace(c: char)
  {
    || '\t' <= c <= '\r'
    || '\U{001C}' <= c <= ' '
    || c == '\U{0085}' || c == '\U{00A0}' || c == '\U{1680}'
    || '\U{2000}' <= c <= '\U{200A}'
    || c == '\U{2028}' || c == '\U{2029}' || c == '\U{202F}' || c == '\U{205F}'
    || c == '\U{3000}'
  }

  const Whitespace: set<char> := set c: char | IsSpace(c)

  /** `r` occurs in `s` starting at index `k`. */
  ghost predicate InfixAt(r: string, s: string, k: int)
  {
    0 <= k && k + |r| <= |s| && s[k..k + |r|] == r
  }

  ghost predicate IsInfix(r: string, s: string)
  {
    exists k :: InfixAt(r, s, k)
  }

  /** Every character of `s` lies in `cs`. */
  ghost predicate AllIn(s: string, cs: set<char>)
  {
    forall i :: 0 <= i < |s| ==> s[i] in cs
  }

  /** `r` is `s` with a prefix of length `k` and some suffix removed, and every
      removed character lies in `cs`. */
  ghost predicate TrimOf(r: string, s: string, k: int, cs: set<char>)
  {
    && InfixAt(r, s, k)
    && (forall i :: 0 <= i < k ==> s[i] in cs)
    && (forall i :: k + |r| <= i < |s| ==> s[i] in cs)
  }

  /** Neither end of `r` lies in `cs` (vacuous for the empty string). */
  ghost predicate EndsOutside(r: string, cs: set<char>)
  {
    r == [] || (r[0] !in cs && r[|r| - 1] !in cs)
  }

  /** The first index from `i` on whose character is not in `cs`, or `|s|`:
      the forward scan of CPython's strip. */
  function SkipForward(s: string, cs: set<char>, i: nat): (j: nat)
    requires i <= |s|
    ensures i <= j <= |s|
    ensures forall k :: i <= k < j ==> s[k] in cs
    ensures j == |s| || s[j] !in cs
    decreases |s| - i
  {
    if i < |s| && s[i] in cs then SkipForward(s, cs, i + 1) else i
  }

  /** The least `j <= i` with `s[j..i]` all in `cs`: the backward scan of
      CPython's strip. */
  function SkipBackward(s: string, cs: set<char>, i: nat): (j: nat)
    requires i <= |s|
    ensures j <= i
    ensures forall k :: j <= k < i ==> s[k] in cs
    ensures j == 0 || s[j - 1] !in cs
    decreases i
  {
    if i > 0 && s[i - 1] in cs then SkipBackward(s, cs, i - 1) else i
  }

  /** `s.lstrip(chars)` where `cs` is the set of characters of `chars`. */
  function StripLeft(s: string, cs: set<char>): (r: string)
    ensures |r| <= |s| && r == s[|s| - |r|..]
    ensures forall i :: 0 <= i < |s| - |r| ==> s[i] in cs
    ensures r == [] || r[0] !in cs
  {
    s[SkipForward(s, cs, 0)..]
  }

  /** `s.rstrip(chars)` where `cs` is the set of characters of `chars`. */
  function StripRight(s: string, cs: set<char>): (r: string)
    ensures |r| <= |s| && r == s[..|r|]
    ensures forall i :: |r| <= i < |s| ==> s[i] in cs
    ensures r == [] || r[|r| - 1] !in cs
  {
    s[..SkipBackward(s, cs, |s|)]
  }

  /** `s.strip(chars)`: both ends stripped. */
  function Strip(s: string, cs: set<char>): (r: string)
    ensures |r| <= |s|
    ensures EndsOutside(r, cs)
  {
    StripRight(StripLeft(s, cs), cs)
  }

  /** `s.strip()`: both ends stripped of whitespace. */
  function StripWs(s: string): string
  {
    Strip(s, Whitespace)
  }

  /** The converse of `StripTrims` with the ensures of `Strip`: the only
      infix of `s` whose cut-off ends lie in `cs` and whose own ends lie
      outside `cs` is `Strip(s, cs)`. */
  lemma {:induction false} StripUnique(r: string, s: string, k: int, cs: set<char>)
    requires TrimOf(r, s, k, cs)
    requires EndsOutside(r, cs)
    ensures r == Strip(s, cs)
  {
    var l := StripLeft(s, cs);
    if r == [] {
      assert AllIn(s, cs) by {
        forall i | 0 <= i < |s| ensures s[i] in cs {
          if i >= k {
            assert k + |r| <= i;
          }
        }
      }
      StripLeftAll(s, cs);
    } else {
      assert s[k] == r[0];
      // StripLeft stops exactly at s[k]: everything before it is in cs, s[k] is not
      assert |l| == |s| - k;
      assert l == r + s[k + |r|..];
      StripRightSuffix(r, s[k + |r|..], cs);
    }
  }

  /** Stripping removes exactly margins made of `cs` around a text whose
      ends lie outside `cs`. */
  lemma StripMargins(pre: string, mid: string, post: string, cs: set<char>)
    requires AllIn(pre, cs) && AllIn(post, cs)
    requires EndsOutside(mid, cs)
    ensures Strip(pre + mid + post, cs) == mid
  {
    var s := pre + mid + post;
    assert s[|pre|..|pre| + |mid|] == mid;
    forall i | 0 <= i < |pre| ensures s[i] in cs {
      assert s[i] == pre[i];
    }
    forall i | |pre| + |mid| <= i < |s| ensures s[i] in cs {
      assert s[i] == post[i - |pre| - |mid|];
    }
    StripUnique(mid, s, |pre|, cs);
  }

  /** Stripping a string made only of `cs` characters leaves nothing. */
  lemma {:induction false} StripLeftAll(s: string, cs: set<char>)
    requires AllIn(s, cs)
    ensures StripLeft(s, cs) == []
    ensures Strip(s, cs) == []
    decreases |s|
  {
    if |s| > 0 {
      StripLeftAll(s[1..], cs);
    }
  }

  /** `(p + q).lstrip(cs) == q` when `p` is all `cs` and `q` does not start in `cs`. */
  lemma {:induction false} StripLeftPrefix(p: string, q: string, cs: set<char>)
    requires AllIn(p, cs)
    requires q == [] || q[0] !in cs
    ensures StripLeft(p + q, cs) == q
    decreases |p|
  {
    if p != [] {
      assert (p + q)[1..] == p[1..] + q;
      StripLeftPrefix(p[1..], q, cs);
    }
  }

  /** `(p + q).rstrip(cs) == p` when `q` is all `cs` and `p` does not end in `cs`. */
  lemma {:induction false} StripRightSuffix(p: string, q: string, cs: set<char>)
    requires AllIn(q, cs)
    requires p == [] || p[|p| - 1] !in cs
    ensures StripRight(p + q, cs) == p
    decreases |q|
  {
    if q != [] {
      assert (p + q)[..|p + q| - 1] == p + q[..|q| - 1];
      StripRightSuffix(p, q[..|q| - 1], cs);
    }
  }

  /** `lstrip` leaves a string alone when its first character is outside the set. */
  lemma StripLeftNoop(s: string, cs: set<char>)
    requires s == [] || s[0] !in cs
    ensures StripLeft(s, cs) == s
  {
  }

  /** A leading margin of `cs` characters makes no difference to `strip`. */
  lemma StripSkipsMargin(pre: string, x: string, cs: set<char>)
    requires AllIn(pre, cs)
    requires x == [] || x[0] !in cs
    ensures Strip(pre + x, cs) == Strip(x, cs)
  {
    StripLeftPrefix(pre, x, cs);
    StripLeftNoop(x, cs);
  }

  /** Stripping is a no-op on a string whose ends lie outside the set. */
  lemma StripNoop(s: string, cs: set<char>)
    requires EndsOutside(s, cs)
    ensures StripLeft(s, cs) == s
    ensures Strip(s, cs) == s
  {
  }

  /** Stripping twice is stripping once. */
  lemma StripIdempotent(s: string, cs: set<char>)
    ensures Strip(Strip(s, cs), cs) == Strip(s, cs)
  {
    StripNoop(Strip(s, cs), cs);
  }

  /** Occurrence is transitive: an infix of an infix is an infix. */
  lemma InfixTrans(a: string, b: string, c: string, i: int, j: int)
    requires InfixAt(a, b, i)
    requires InfixAt(b, c, j)
    ensures InfixAt(a, c, i + j)
  {
    forall t | 0 <= t < |a|
      ensures c[i + j + t] == a[t]
    {
      assert b[i + t] == a[t];
      assert c[j + i + t] == b[i + t];
    }
  }

  /** `Strip` only cuts characters of `cs` off the two ends: its result
      occurs in `s` at offset `k`, and all of `s` around it lies in `cs`. */
  lemma StripTrims(s: string, cs: set<char>) returns (k: nat)
    ensures TrimOf(Strip(s, cs), s, k, cs)
  {
    k := |s| - |StripLeft(s, cs)|;
  }

  /** The result of `StripLeft` is a suffix, hence an infix, of its input. */
  lemma StripLeftInfix(s: string, cs: set<char>) returns (k: nat)
    ensures InfixAt(StripLeft(s, cs), s, k)
  {
    k := |s| - |StripLeft(s, cs)|;
  }

  /** Four successive cuts leave an infix of the original. */
  lemma InfixChain(s: string, a: string, b: string, c: string, d: string, i: int, j: int, k: int, l: int)
    requires InfixAt(a, s, i) && InfixAt(b, a, j) && InfixAt(c, b, k) && InfixAt(d, c, l)
    ensures IsInfix(d, s)
  {
    InfixTrans(b, a, s, j, i);
    InfixTrans(c, b, s, k, j + i);
    InfixTrans(d, c, s, l, k + j + i);
  }

  /** `p in t` for two Python strings: does `p` occur in `t`? */
  function HasInfix(p: string, t: string): (b: bool)
    ensures b <==> exists k :: InfixAt(p, t, k)
    decreases |t|
  {
    if |p| > |t| then
      false
    else if t[..|p|] == p then
      assert InfixAt(p, t, 0);
      true
    else
      var b := HasInfix(p, t[1..]);
      assert b ==> exists k :: InfixAt(p, t, k) by {
        if b {
          var k :| InfixAt(p, t[1..], k);
          assert t[1..][k..k + |p|] == t[k + 1..k + 1 + |p|];
          assert InfixAt(p, t, k + 1);
        }
      }
      assert (exists k :: InfixAt(p, t, k)) ==> b by {
        if exists k :: InfixAt(p, t, k) {
          var k :| InfixAt(p, t, k);
          assert k != 0;
          assert t[1..][k - 1..k - 1 + |p|] == t[k..k + |p|];
          assert InfixAt(p, t[1..], k - 1);
        }
      }
      b
  }

  function DigitChar(d: nat): char
    requires d < 10
  {
    ('0' as int + d) as char
  }

  /** `str(n)` for a non-negative Python `int`: its decimal digits. */
  function Decimal(n: nat): (r: string)
    ensures |r| >= 1
    ensures forall i :: 0 <= i < |r| ==> '0' <= r[i] <= '9'
    ensures |r| > 1 ==> r[0] != '0'
    decreases n
  {
    if n < 10 then [DigitChar(n)] else Decimal(n / 10) + [DigitChar(n % 10)]
  }

  /** The number a string of decimal digits denotes. */
  function DigitsValue(s: string): nat
    requires forall i :: 0 <= i < |s| ==> '0' <= s[i] <= '9'
  {
    if s == [] then 0 else 10 * DigitsValue(s[..|s| - 1]) + (s[|s| - 1] - '0') as nat
  }

  /** Reading `str(n)` back as a decimal numeral gives `n`. */
  lemma {:induction false} DecimalRoundTrip(n: nat)
    ensures DigitsValue(Decimal(n)) == n
    decreases n
  {
    var r := Decimal(n);
    if n >= 10 {
      assert r[..|r| - 1] == Decimal(n / 10);
      assert (r[|r| - 1] - '0') as nat == n % 10;
      DecimalRoundTrip(n / 10);
    }
  }

  /** `str` is injective on non-negative integers. */
  lemma DecimalInjective(m: nat, n: nat)
    requires Decimal(m) == Decimal(n)
    ensures m == n
  {
    DecimalRoundTrip(m);
    DecimalRoundTrip(n);
  }
}
