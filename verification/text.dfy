/**
 * Character-sequence helpers shared by the feed rewrite and the file naming:
 * literal search (the building block of the first-match search that stands in
 * for the regular expression of `update_html_on_server`) and the decimal
 * rendering of naturals that Python's f-strings perform.
 */
module Text {

  datatype Option<T> = None | Some(value: T)

  /** `lit` occurs in `s` starting at position `i`. */
  predicate OccursAt(s: string, lit: string, i: nat)
  {
    i + |lit| <= |s| && forall k :: 0 <= k < |lit| ==> s[i + k] == lit[k]
  }

  /** The same, stated on the slice of `s` the occurrence covers. */
  lemma OccursAtSlice(s: string, lit: string, i: nat)
    ensures OccursAt(s, lit, i) <==> i + |lit| <= |s| && s[i..i + |lit|] == lit
  {
    if i + |lit| <= |s| && s[i..i + |lit|] == lit {
      forall k | 0 <= k < |lit|
        ensures s[i + k] == lit[k]
      {
        assert s[i..i + |lit|][k] == s[i + k];
      }
    }
  }

  /** `c` is not one of the characters of `s`. */
  predicate NoChar(s: string, c: char)
  {
    forall k :: 0 <= k < |s| ==> s[k] != c
  }

  /**
   * The first occurrence of `lit` in `s` at or after position `i`
   * (the `str.find(lit, i)` of Python, with None for -1).
   */
  function FindFrom(s: string, lit: string, i: nat): Option<nat>
    decreases |s| - i
  {
    if |s| < i + |lit| then None
    else if OccursAt(s, lit, i) then Some(i)
    else FindFrom(s, lit, i + 1)
  }

  /** What FindFrom finds is the first occurrence from `i` on; None means there is none. */
  ghost predicate IsFirstFrom(s: string, lit: string, i: nat, r: Option<nat>)
  {
    match r
    case Some(j) =>
      i <= j && OccursAt(s, lit, j) && forall k: nat :: i <= k < j ==> !OccursAt(s, lit, k)
    case None =>
      forall k: nat :: i <= k ==> !OccursAt(s, lit, k)
  }

  lemma {:induction false} FindFromFirst(s: string, lit: string, i: nat)
    ensures IsFirstFrom(s, lit, i, FindFrom(s, lit, i))
    decreases |s| - i
  {
    if |s| >= i + |lit| && !OccursAt(s, lit, i) {
      FindFromFirst(s, lit, i + 1);
    }
  }

  /** An occurrence with none before it (from `i` on) is the one FindFrom finds. */
  lemma FindFromIs(s: string, lit: string, i: nat, j: nat)
    requires i <= j && OccursAt(s, lit, j)
    requires forall k: nat :: i <= k < j ==> !OccursAt(s, lit, k)
    ensures FindFrom(s, lit, i) == Some(j)
  {
    FindFromFirst(s, lit, i);
  }

  /** An occurrence of a literal that starts with `c` needs `c` at its start. */
  lemma OccursAtHead(s: string, lit: string, j: nat)
    requires |lit| > 0 && OccursAt(s, lit, j)
    ensures s[j] == lit[0]
  {
  }

  /** Each character of an occurrence is the literal's. */
  lemma OccursAtIndex(s: string, lit: string, j: nat, i: nat)
    ensures OccursAt(s, lit, j) && i < |lit| ==> s[j + i] == lit[i]
  {
  }

  /** A slice of a slice is a slice. */
  lemma SliceOfSlice(s: string, i: nat, j: nat, k: nat, l: nat)
    requires i <= j <= |s| && k <= l <= j - i
    ensures s[i..j][k..l] == s[i + k..i + l]
  {
    forall x | 0 <= x < l - k
      ensures s[i..j][k..l][x] == s[i + k..i + l][x]
    {
      assert s[i..j][k..l][x] == s[i..j][k + x];
    }
  }

  /** A window is decided by the characters it covers. */
  lemma OccursAtSame(s: string, t: string, lit: string, j: nat, n: nat)
    requires j + |lit| <= n <= |s| && n <= |t| && s[..n] == t[..n]
    ensures OccursAt(s, lit, j) <==> OccursAt(t, lit, j)
  {
    forall k | 0 <= k < |lit|
      ensures s[j + k] == lit[k] <==> t[j + k] == lit[k]
    {
      assert s[j + k] == s[..n][j + k];
      assert t[j + k] == t[..n][j + k];
    }
  }

  /** An occurrence of `a + b` is one of `a` followed by one of `b`. */
  lemma OccursAtSplit(s: string, a: string, b: string, p: nat)
    requires OccursAt(s, a + b, p)
    ensures OccursAt(s, a, p) && OccursAt(s, b, p + |a|)
  {
    forall k | 0 <= k < |a|
      ensures s[p + k] == a[k]
    {
      assert (a + b)[k] == a[k];
    }
    forall k | 0 <= k < |b|
      ensures s[p + |a| + k] == b[k]
    {
      assert (a + b)[|a| + k] == b[k];
    }
  }

  /** An occurrence of `w + x + y + z` is one of each piece, in turn. */
  lemma OccursAtSplit4(s: string, w: string, x: string, y: string, z: string, p: nat)
    requires OccursAt(s, w + x + y + z, p)
    ensures OccursAt(s, w, p) && OccursAt(s, x, p + |w|)
    ensures OccursAt(s, y, p + |w| + |x|) && OccursAt(s, z, p + |w| + |x| + |y|)
  {
    OccursAtSplit(s, w + x + y, z, p);
    OccursAtSplit(s, w + x, y, p);
    OccursAtSplit(s, w, x, p);
  }

  /**
   * Replacing the text from an occurrence of `lit` on by a `b` that starts with
   * `lit` adds no occurrence of `lit` before that position.
   */
  lemma NoneBeforeReplace(s: string, p: nat, lit: string, b: string, post: string)
    requires OccursAt(s, lit, p) && OccursAt(b, lit, 0)
    requires forall j: nat :: j < p ==> !OccursAt(s, lit, j)
    ensures forall j: nat :: j < p ==> !OccursAt(s[..p] + b + post, lit, j)
  {
    var t := s[..p] + b + post;
    var n := p + |lit|;
    forall k | 0 <= k < n
      ensures t[k] == s[k]
    {
      if k < p {
        assert t[k] == s[..p][k];
      } else {
        assert t[k] == b[k - p];
        assert b[0 + (k - p)] == lit[k - p];
        assert s[p + (k - p)] == lit[k - p];
      }
    }
    assert t[..n] == s[..n];
    forall j: nat | j < p
      ensures !OccursAt(t, lit, j)
    {
      OccursAtSame(s, t, lit, j, n);
    }
  }

  /** Occurrences of `lit` in `a` are occurrences in `p + a + q`, shifted by |p|. */
  lemma OccursAtShift(p: string, a: string, q: string, lit: string, j: nat)
    requires j + |lit| <= |a|
    ensures OccursAt(p + a + q, lit, |p| + j) <==> OccursAt(a, lit, j)
  {
    forall k | 0 <= k < |lit|
      ensures (p + a + q)[|p| + j + k] == lit[k] <==> a[j + k] == lit[k]
    {
      assert (p + a + q)[|p| + j + k] == a[j + k];
    }
  }

  /** Concatenation is associative. */
  lemma ConcatAssoc(a: string, b: string, c: string)
    ensures a + (b + c) == (a + b) + c
  {
  }

  lemma NoCharConcat(a: string, b: string, c: char)
    requires NoChar(a, c) && NoChar(b, c)
    ensures NoChar(a + b, c)
  {
    forall k | 0 <= k < |a + b|
      ensures (a + b)[k] != c
    {
      if k >= |a| {
        assert (a + b)[k] == b[k - |a|];
      }
    }
  }

  /**
   * A literal cannot occur at a position whose character differs from its
   * first one: no window of `s[lo..hi]` holding no `lit[0]` starts an occurrence.
   */
  lemma NoLitWindow(s: string, lit: string, lo: nat, hi: nat)
    requires |lit| > 0 && lo <= hi <= |s| && NoChar(s[lo..hi], lit[0])
    ensures forall k: nat :: lo <= k < hi ==> !OccursAt(s, lit, k)
  {
    forall k: nat | lo <= k < hi && OccursAt(s, lit, k)
      ensures false
    {
      OccursAtHead(s, lit, k);
    }
  }

  // ----- Decimal rendering -----

  predicate IsDigit(c: char)
  {
    '0' <= c <= '9'
  }

  function DigitChar(d: nat): (c: char)
    requires d < 10
    ensures IsDigit(c) && DigitValue(c) == d
  {
    ('0' as int + d) as char
  }

  /** Python's `str(n)` for a natural number: decimal digits, no leading zero. */
  function NatToString(n: nat): (r: string)
    ensures |r| >= 1 && forall k :: 0 <= k < |r| ==> IsDigit(r[k])
    ensures r[0] == '0' ==> n == 0
    decreases n
  {
    if n < 10 then [DigitChar(n)] else NatToString(n / 10) + [DigitChar(n % 10)]
  }

  function DigitValue(c: char): (d: nat)
    requires IsDigit(c)
    ensures d < 10
  {
    c as int - '0' as int
  }

  /** The number a string of decimal digits denotes. */
  function DecimalValue(s: string): nat
    requires forall k :: 0 <= k < |s| ==> IsDigit(s[k])
  {
    if s == [] then 0
    else DecimalValue(s[..|s| - 1]) * 10 + DigitValue(s[|s| - 1])
  }

  /** Reading the rendering back gives the number: the rendering loses nothing. */
  lemma {:induction false} DecimalRoundTrip(n: nat)
    ensures DecimalValue(NatToString(n)) == n
    decreases n
  {
    var r := NatToString(n);
    if n >= 10 {
      DecimalRoundTrip(n / 10);
      assert r[..|r| - 1] == NatToString(n / 10);
    }
  }

  /** Distinct naturals render as distinct strings. */
  lemma NatToStringInjective(m: nat, n: nat)
    requires NatToString(m) == NatToString(n)
    ensures m == n
  {
    DecimalRoundTrip(m);
    DecimalRoundTrip(n);
  }
}
