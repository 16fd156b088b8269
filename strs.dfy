/** The pieces of Go's `strings` and `fmt` packages that the core relies on:
    `strings.TrimPrefix`, `strings.TrimSpace` and the `%06d` verb. */
module Strs {

  predicate HasPrefix(s: string, prefix: string)
  {
    |prefix| <= |s| && s[..|prefix|] == prefix
  }

  /** `strings.TrimPrefix`: removes one leading copy of `prefix`, if present. */
  function TrimPrefix(s: string, prefix: string): (r: string)
    ensures HasPrefix(s, prefix) ==> prefix + r == s
    ensures !HasPrefix(s, prefix) ==> r == s
  {
    if HasPrefix(s, prefix) then s[|prefix|..] else s
  }

  /** `unicode.IsSpace`: the Latin-1 spaces and the other White_Space code points. */
  predicate IsSpace(c: char)
  {
    var n := c as int;
    (0x09 <= n <= 0x0D) || n == 0x20 || n == 0x85 || n == 0xA0
    || n == 0x1680 || (0x2000 <= n <= 0x200A)
    || n == 0x2028 || n == 0x2029 || n == 0x202F || n == 0x205F || n == 0x3000
  }

  predicate AllSpace(s: string)
  {
    forall i :: 0 <= i < |s| ==> IsSpace(s[i])
  }

  /** Neither end of `s` is white space. */
  predicate Trimmed(s: string)
  {
    s == [] || (!IsSpace(s[0]) && !IsSpace(s[|s| - 1]))
  }

  /** The index of the first character at or after `k` that is not white space
      (`|s|` when there is none). */
  function SpacesFrom(s: string, k: nat): (n: nat)
    requires k <= |s|
    ensures k <= n <= |s|
    ensures forall i :: k <= i < n ==> IsSpace(s[i])
    ensures n == |s| || !IsSpace(s[n])
    decreases |s| - k
  {
    if k < |s| && IsSpace(s[k]) then SpacesFrom(s, k + 1) else k
  }

  /** The index just after the last character before `k` that is not white space
      (0 when there is none). */
  function SpacesBefore(s: string, k: nat): (n: nat)
    requires k <= |s|
    ensures n <= k
    ensures forall i :: n <= i < k ==> IsSpace(s[i])
    ensures n == 0 || !IsSpace(s[n - 1])
  {
    if k > 0 && IsSpace(s[k - 1]) then SpacesBefore(s, k - 1) else k
  }

  function TrimLeftSpace(s: string): (r: string)
    ensures |r| <= |s| && r == s[|s| - |r|..]
    ensures AllSpace(s[..|s| - |r|])
    ensures r == [] || !IsSpace(r[0])
  {
    s[SpacesFrom(s, 0)..]
  }

  function TrimRightSpace(s: string): (r: string)
    ensures |r| <= |s| && r == s[..|r|]
    ensures AllSpace(s[|r|..])
    ensures r == [] || !IsSpace(r[|r| - 1])
  {
    s[..SpacesBefore(s, |s|)]
  }

  /** `strings.TrimSpace`: the longest middle slice of `s` between white space
      on both sides. */
  function TrimSpace(s: string): (r: string)
    ensures Trimmed(r)
    ensures exists i, j :: 0 <= i <= j <= |s| && r == s[i..j] && AllSpace(s[..i]) && AllSpace(s[j..])
  {
    var l := TrimLeftSpace(s);
    var r := TrimRightSpace(l);
    var i := |s| - |l|;
    assert s[i..i + |r|] == r;
    assert s[i + |r|..] == l[|r|..];
    r
  }

  /** White space followed by a string that starts with something else loses
      exactly the white space on the left. */
  lemma TrimLeftOfSpacesPrefix(a: string, u: string)
    requires AllSpace(a) && (u == [] || !IsSpace(u[0]))
    ensures TrimLeftSpace(a + u) == u
  {
    var s := a + u;
    var n := SpacesFrom(s, 0);
    assert forall i :: 0 <= i < |a| ==> s[i] == a[i];
    assert |a| < |s| ==> s[|a|] == u[0];
    assert n == |a|;
    assert s[|a|..] == u;
  }

  /** A string that ends in something else followed by white space loses
      exactly the white space on the right. */
  lemma TrimRightOfSpaces(t: string, b: string)
    requires AllSpace(b) && (t == [] || !IsSpace(t[|t| - 1]))
    ensures TrimRightSpace(t + b) == t
  {
    var s := t + b;
    var n := SpacesBefore(s, |s|);
    assert forall i :: |t| <= i < |s| ==> s[i] == b[i - |t|];
    assert |t| > 0 ==> s[|t| - 1] == t[|t| - 1];
    assert n == |t|;
    assert s[..|t|] == t;
  }

  /** Trimming removes exactly the white space around a trimmed middle. */
  lemma TrimSpaceSurrounded(a: string, t: string, b: string)
    requires AllSpace(a) && AllSpace(b) && Trimmed(t)
    ensures TrimSpace(a + t + b) == t
  {
    assert a + t + b == a + (t + b);
    if t == [] {
      assert AllSpace(a + b);
      TrimLeftOfSpacesPrefix(a + b, []);
      assert a + b + [] == a + b;
      TrimRightOfSpaces([], []);
    } else {
      assert (t + b)[0] == t[0];
      TrimLeftOfSpacesPrefix(a, t + b);
      TrimRightOfSpaces(t, b);
    }
  }

  /** Trimming is idempotent. */
  lemma TrimSpaceIdempotent(s: string)
    ensures TrimSpace(TrimSpace(s)) == TrimSpace(s)
  {
    var t := TrimSpace(s);
    assert [] + t + [] == t;
    TrimSpaceSurrounded([], t, []);
  }

  // ---------------------------------------------------------------- %06d

  predicate IsDigit(c: char)
  {
    '0' <= c <= '9'
  }

  predicate AllDigits(s: string)
  {
    forall i :: 0 <= i < |s| ==> IsDigit(s[i])
  }

  function Digit(d: int): (c: char)
    requires 0 <= d < 10
    ensures IsDigit(c) && c as int - '0' as int == d
  {
    ('0' as int + d) as char
  }

  /** The number a string of decimal digits denotes. */
  function DecimalValue(s: string): (n: nat)
    requires AllDigits(s)
  {
    if s == [] then 0 else 10 * DecimalValue(s[..|s| - 1]) + (s[|s| - 1] as int - '0' as int)
  }

  function Pow10(w: nat): (p: nat)
    ensures p >= 1
  {
    if w == 0 then 1 else 10 * Pow10(w - 1)
  }

  /** `fmt.Sprintf("%0<w>d", n)` for a number with at most `w` digits: the decimal
      digits of `n`, zero-padded on the left to width `w`. */
  function ZeroPadded(n: nat, w: nat): (s: string)
    ensures |s| == w && AllDigits(s)
  {
    if w == 0 then [] else ZeroPadded(n / 10, w - 1) + [Digit(n % 10)]
  }

  /** `%06d` of a draw below one million: always six decimal digits. */
  function Pad6(n: int): (s: string)
    requires 0 <= n < 1_000_000
    ensures |s| == 6 && AllDigits(s)
  {
    ZeroPadded(n, 6)
  }

  /** Zero padding loses nothing: reading the digits back gives the number. */
  lemma {:induction false} ZeroPaddedRoundTrip(n: nat, w: nat)
    requires n < Pow10(w)
    ensures DecimalValue(ZeroPadded(n, w)) == n
  {
    if w > 0 {
      var s := ZeroPadded(n, w);
      assert s[..|s| - 1] == ZeroPadded(n / 10, w - 1);
      ZeroPaddedRoundTrip(n / 10, w - 1);
    }
  }

  /** The six-digit code read back as a number is the draw it was made from. */
  lemma Pad6RoundTrip(n: int)
    requires 0 <= n < 1_000_000
    ensures DecimalValue(Pad6(n)) == n
  {
    assert Pow10(6) == 1_000_000;
    ZeroPaddedRoundTrip(n, 6);
  }

  /** Distinct draws give distinct codes. */
  lemma Pad6Injective(m: int, n: int)
    requires 0 <= m < 1_000_000 && 0 <= n < 1_000_000
    requires Pad6(m) == Pad6(n)
    ensures m == n
  {
    Pad6RoundTrip(m);
    Pad6RoundTrip(n);
  }
}
