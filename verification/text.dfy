/**
 * The string operations of Python that the core relies on: str.strip, str.rstrip,
 * str.lower, the `in` substring test, str.count, str.join, str.startswith,
 * str.split(marker)[-1] and the decimal rendering of a non-negative int.
 */
module Text {

  /** Python's str.isspace() on a single character (the full set Python 3 treats as whitespace). */
  predicate IsSpace(c: char) {
    var n := c as int;
    n == 0x20 || 0x09 <= n <= 0x0D || 0x1C <= n <= 0x1F || n == 0x85 || n == 0xA0 || n == 0x1680
    || 0x2000 <= n <= 0x200A || n == 0x2028 || n == 0x2029 || n == 0x202F || n == 0x205F || n == 0x3000
  }

  /** Every character is whitespace (this includes the empty string). */
  predicate IsBlank(s: string) {
    forall i :: 0 <= i < |s| ==> IsSpace(s[i])
  }

  function StripLeft(s: string): (r: string)
    ensures |r| <= |s| && r == s[|s| - |r|..]
    ensures r == [] || !IsSpace(r[0])
    ensures forall i :: 0 <= i < |s| - |r| ==> IsSpace(s[i])
  {
    if s != [] && IsSpace(s[0]) then StripLeft(s[1..]) else s
  }

  function StripRight(s: string): (r: string)
    ensures |r| <= |s| && r == s[..|r|]
    ensures r == [] || !IsSpace(r[|r| - 1])
    ensures forall i :: |r| <= i < |s| ==> IsSpace(s[i])
  {
    if s != [] && IsSpace(s[|s| - 1]) then StripRight(s[..|s| - 1]) else s
  }

  /** Python's str.strip(): the longest slice of `s` with no whitespace at either end. */
  function Strip(s: string): (r: string)
    ensures r == [] <==> IsBlank(s)
    ensures r == [] || (!IsSpace(r[0]) && !IsSpace(r[|r| - 1]))
    ensures |r| <= |s|
  {
    var l := StripLeft(s);
    var r := StripRight(l);
    assert r == [] ==> IsBlank(s) by {
      if r == [] {
        assert l == [];
      }
    }
    r
  }

  /** Python's str.rstrip(c) for a single character c. */
  function StripTrailing(s: string, c: char): (r: string)
    ensures |r| <= |s| && r == s[..|r|]
    ensures r == [] || r[|r| - 1] != c
    ensures forall i :: |r| <= i < |s| ==> s[i] == c
  {
    if s != [] && s[|s| - 1] == c then StripTrailing(s[..|s| - 1], c) else s
  }

  /** ASCII case folding; characters outside 'A'..'Z' are kept. */
  function LowerChar(c: char): char {
    if 'A' <= c <= 'Z' then (c as int + 32) as char else c
  }

  /** Python's str.lower(), restricted to ASCII letters. */
  function Lower(s: string): (r: string)
    ensures |r| == |s|
    ensures forall i :: 0 <= i < |s| ==> r[i] == LowerChar(s[i])
  {
    seq(|s|, i requires 0 <= i < |s| => LowerChar(s[i]))
  }

  /** Case folding treats a common prefix alike. */
  lemma LowerSamePrefix(p: string, a: string, b: string)
    requires Lower(a) == Lower(b)
    ensures Lower(p + a) == Lower(p + b)
  {
    assert |a| == |b|;
    forall i | 0 <= i < |p + a| ensures Lower(p + a)[i] == Lower(p + b)[i] {
      if i >= |p| {
        assert (p + a)[i] == a[i - |p|] && (p + b)[i] == b[i - |p|];
        assert Lower(a)[i - |p|] == Lower(b)[i - |p|];
      }
    }
  }

  predicate StartsWith(s: string, p: string) {
    |p| <= |s| && s[..|p|] == p
  }

  predicate OccursAt(s: string, m: string, i: int) {
    0 <= i && i + |m| <= |s| && s[i..i + |m|] == m
  }

  /** Python's `m in s` for strings. */
  predicate Contains(s: string, m: string) {
    exists i | 0 <= i <= |s| - |m| :: OccursAt(s, m, i)
  }

  /** Python's `any(m in s for m in ms)`. */
  predicate ContainsAny(s: string, ms: seq<string>) {
    exists k | 0 <= k < |ms| :: Contains(s, ms[k])
  }

  /** Python's str.count(c) for a one-character argument. */
  function CountChar(s: string, c: char): (r: nat)
    ensures r <= |s|
  {
    if s == [] then 0 else CountChar(s[..|s| - 1], c) + (if s[|s| - 1] == c then 1 else 0)
  }

  /** Python's sep.join(parts). */
  function Join(sep: string, parts: seq<string>): string
    decreases |parts|
  {
    if |parts| == 0 then ""
    else if |parts| == 1 then parts[0]
    else Join(sep, parts[..|parts| - 1]) + sep + parts[|parts| - 1]
  }

  predicate IsDigit(c: char) {
    '0' <= c <= '9'
  }

  function DigitChar(d: nat): (c: char)
    requires d < 10
    ensures IsDigit(c)
  {
    ('0' as int + d) as char
  }

  /** Python's str(n) for n >= 0: decimal digits, no sign, no leading zero. */
  function NatToString(n: nat): (r: string)
    ensures |r| >= 1
    ensures forall i :: 0 <= i < |r| ==> IsDigit(r[i])
    decreases n
  {
    if n < 10 then [DigitChar(n)] else NatToString(n / 10) + [DigitChar(n % 10)]
  }

  /** Reads back a string of decimal digits. */
  function DigitValue(c: char): (d: nat)
    requires IsDigit(c)
    ensures d < 10
  {
    c as int - '0' as int
  }

  function ParseNat(s: string): nat
    requires forall i :: 0 <= i < |s| ==> IsDigit(s[i])
  {
    if s == [] then 0 else ParseNat(s[..|s| - 1]) * 10 + DigitValue(s[|s| - 1])
  }

  /** The largest position below `bound` where `m` occurs in `s`, or -1. */
  function LastOccurrenceBelow(s: string, m: string, bound: int): (r: int)
    ensures r == -1 || (0 <= r < bound && OccursAt(s, m, r))
    ensures forall j :: r < j < bound ==> !OccursAt(s, m, j)
    decreases bound
  {
    if bound <= 0 then -1
    else if OccursAt(s, m, bound - 1) then bound - 1
    else LastOccurrenceBelow(s, m, bound - 1)
  }

  /** The position of the last occurrence of `m` in `s`, or -1 when there is none. */
  function LastOccurrence(s: string, m: string): (r: int)
    ensures r == -1 <==> !Contains(s, m)
    ensures r >= 0 ==> OccursAt(s, m, r) && forall j :: r < j ==> !OccursAt(s, m, j)
  {
    LastOccurrenceBelow(s, m, |s| - |m| + 1)
  }

  /**
   * What follows the last occurrence of `m` in `s`; for a marker that cannot overlap
   * itself this is Python's s.split(m)[-1].
   */
  function AfterLast(s: string, m: string): (r: string)
    requires Contains(s, m)
    ensures |r| <= |s| && r == s[|s| - |r|..]
    ensures |m| <= |s| - |r| && s[|s| - |r| - |m|..|s| - |r|] == m
  {
    var i := LastOccurrence(s, m);
    s[i + |m|..]
  }

  // ---------------------------------------------------------------------------
  // Lemmas about these operations
  // ---------------------------------------------------------------------------

  lemma SliceOfSlice<T>(s: seq<T>, a: nat, b: nat, c: nat, d: nat)
    requires a <= b <= |s| && c <= d <= b - a
    ensures s[a..b][c..d] == s[a + c..a + d]
  {
    forall k | 0 <= k < d - c
      ensures s[a..b][c..d][k] == s[a + c..a + d][k]
    {
      assert s[a..b][c..d][k] == s[a..b][c + k] == s[a + c + k];
    }
  }

  /** A prefix one longer is the prefix followed by the next element. */
  lemma PrefixSnoc<T>(s: seq<T>, i: nat)
    requires i < |s|
    ensures s[..i + 1] == s[..i] + [s[i]]
  {
  }

  /** A sequence is its prefix followed by the rest. */
  lemma SplitAt<T>(s: seq<T>, k: nat)
    requires k <= |s|
    ensures s[..k] + s[k..] == s
  {
  }

  /** The prefix as long as the sequence is the sequence. */
  lemma PrefixAll<T>(s: seq<T>)
    ensures s[..|s|] == s
  {
  }

  /** A suffix is split in two at any later position. */
  lemma SplitFrom<T>(s: seq<T>, a: nat, b: nat)
    requires a <= b <= |s|
    ensures s[a..] == s[a..b] + s[b..]
  {
  }

  /** Dropping nothing keeps the whole sequence. */
  lemma SuffixAll<T>(s: seq<T>)
    ensures s[0..] == s
  {
  }

  /** Appending a non-empty sequence is appending its front, then its last element. */
  lemma AppendSnoc<T>(a: seq<T>, b: seq<T>)
    requires b != []
    ensures a + b == (a + b[..|b| - 1]) + [b[|b| - 1]]
  {
  }

  lemma OccursInConcat(a: string, m: string, b: string)
    ensures OccursAt(a + m + b, m, |a|) && Contains(a + m + b, m)
  {
    assert (a + m + b)[|a|..|a| + |m|] == m;
    assert OccursAt(a + m + b, m, |a|);
  }

  /** An occurrence of `m` in `s` survives adding text on either side of `s`. */
  lemma {:induction false} ContainsWithin(a: string, s: string, b: string, m: string)
    requires Contains(s, m)
    ensures Contains(a + s + b, m)
  {
    OccursInConcat(a, s, b);
    ContainsTransitive(a + s + b, s, m);
  }

  /** A string occurs at the end of anything it is appended to. */
  lemma ContainsAtEnd(a: string, m: string)
    ensures Contains(a + m, m)
  {
    assert (a + m)[|a|..|a| + |m|] == m;
    assert OccursAt(a + m, m, |a|);
  }

  /** An occurrence survives appending text. */
  lemma {:induction false} ContainsExtended(s: string, rest: string, m: string)
    requires Contains(s, m)
    ensures Contains(s + rest, m)
  {
    var i :| 0 <= i <= |s| - |m| && OccursAt(s, m, i);
    assert (s + rest)[i..i + |m|] == s[i..i + |m|];
    assert OccursAt(s + rest, m, i);
  }

  /** Every part of a join occurs in the joined text. */
  lemma {:induction false} JoinContainsPart(sep: string, parts: seq<string>, i: nat)
    requires i < |parts|
    ensures Contains(Join(sep, parts), parts[i])
    decreases |parts|
  {
    var n := |parts|;
    if n == 1 {
      ContainsSelf(parts[0]);
    } else {
      var init := Join(sep, parts[..n - 1]);
      assert Join(sep, parts) == init + sep + parts[n - 1];
      if i == n - 1 {
        ContainsAtEnd(init + sep, parts[i]);
      } else {
        assert parts[..n - 1][i] == parts[i];
        JoinContainsPart(sep, parts[..n - 1], i);
        ContainsExtended(init, sep + parts[n - 1], parts[i]);
        assert init + (sep + parts[n - 1]) == init + sep + parts[n - 1];
      }
    }
  }

  lemma ContainsSelf(s: string)
    ensures Contains(s, s)
  {
    assert OccursAt(s, s, 0);
  }

  /** A string that lacks the character m[j] does not contain m. */
  lemma {:induction false} MissingCharExcludes(s: string, m: string, j: nat)
    requires j < |m| && forall i :: 0 <= i < |s| ==> s[i] != m[j]
    ensures !Contains(s, m)
  {
    forall i | 0 <= i <= |s| - |m| ensures !OccursAt(s, m, i) {
      assert s[i..i + |m|][j] == s[i + j];
    }
  }

  /** The i-th piece of fixed text, or "" past the last one. */
  function Piece(fixed: seq<string>, i: nat): string {
    if i < |fixed| then fixed[i] else ""
  }

  /**
   * The text of an f-string: fixed[0] + holes[0] + fixed[1] + ... + holes[n-1] + fixed[n],
   * where `fixed` is its literal text and `holes` the values of its placeholders.
   */
  function Interleave(fixed: seq<string>, holes: seq<string>): string
    decreases |holes|
  {
    if holes == [] then Piece(fixed, 0)
    else Interleave(fixed, holes[..|holes| - 1]) + holes[|holes| - 1] + Piece(fixed, |holes|)
  }

  /** Every placeholder's value, and every piece of fixed text up to the last placeholder's, occurs in the filled-in f-string. */
  lemma {:induction false} InterleaveContains(fixed: seq<string>, holes: seq<string>, i: nat)
    ensures i < |holes| ==> Contains(Interleave(fixed, holes), holes[i])
    ensures i <= |holes| ==> Contains(Interleave(fixed, holes), Piece(fixed, i))
    decreases |holes|
  {
    var n := |holes|;
    if n == 0 {
      ContainsSelf(Piece(fixed, 0));
    } else {
      var pre := Interleave(fixed, holes[..n - 1]);
      var whole := Interleave(fixed, holes);
      var post := holes[n - 1] + Piece(fixed, n);
      assert "" + pre + post == whole;
      if i < n {
        InterleaveContains(fixed, holes[..n - 1], i);
        if i < n - 1 {
          assert holes[..n - 1][i] == holes[i];
          ContainsWithin("", pre, post, holes[i]);
        } else {
          OccursInConcat(pre, holes[i], Piece(fixed, n));
        }
        ContainsWithin("", pre, post, Piece(fixed, i));
      } else if i == n {
        OccursInConcat(pre + holes[n - 1], Piece(fixed, n), "");
        assert pre + holes[n - 1] + Piece(fixed, n) + "" == whole;
      }
    }
  }

  /** Containment bounds the length. */
  lemma ContainsShorter(s: string, m: string)
    requires Contains(s, m)
    ensures |m| <= |s|
  {
  }

  lemma ConcatAssoc(a: string, b: string, c: string, d: string)
    ensures a + (b + c + d) == a + b + c + d
  {
  }

  /** Joining one more part appends the separator and the part. */
  lemma JoinSnoc(sep: string, parts: seq<string>, p: string)
    requires parts != []
    ensures Join(sep, parts + [p]) == Join(sep, parts) + sep + p
  {
    assert (parts + [p])[..|parts|] == parts;
  }

  /** A substring of a substring is a substring. */
  lemma {:induction false} ContainsTransitive(s: string, m: string, n: string)
    requires Contains(s, m) && Contains(m, n)
    ensures Contains(s, n)
  {
    var i :| 0 <= i <= |s| - |m| && OccursAt(s, m, i);
    var j :| 0 <= j <= |m| - |n| && OccursAt(m, n, j);
    SliceOfSlice(s, i, i + |m|, j, j + |n|);
    assert OccursAt(s, n, i + j);
  }

  /** Nothing occurs in the text after the last occurrence of a non-empty marker. */
  lemma {:induction false} AfterLastHasNoMarker(s: string, m: string)
    requires |m| > 0 && Contains(s, m)
    ensures !Contains(AfterLast(s, m), m)
  {
    var r := AfterLast(s, m);
    var i := LastOccurrence(s, m);
    if Contains(r, m) {
      var j :| 0 <= j <= |r| - |m| && OccursAt(r, m, j);
      assert r == s[i + |m|..];
      assert s[i + |m| + j..i + |m| + j + |m|] == r[j..j + |m|];
      assert OccursAt(s, m, i + |m| + j);
      assert false;
    }
  }

  /** Strip(s) is a slice of s. */
  lemma StripIsSlice(s: string) returns (lo: nat)
    ensures lo + |Strip(s)| <= |s| && Strip(s) == s[lo..lo + |Strip(s)|]
  {
    var l := StripLeft(s);
    lo := |s| - |l|;
  }

  /** A slice never contains a marker that the whole string does not. */
  lemma {:induction false} ContainsInSlice(s: string, lo: nat, hi: nat, m: string)
    requires lo <= hi <= |s| && Contains(s[lo..hi], m)
    ensures Contains(s, m)
  {
    var t := s[lo..hi];
    var j :| 0 <= j <= |t| - |m| && OccursAt(t, m, j);
    SliceOfSlice(s, lo, hi, j, j + |m|);
    assert OccursAt(s, m, lo + j);
  }

  /** Stripping never adds an occurrence of a marker. */
  lemma {:induction false} StripKeepsAbsence(s: string, m: string)
    requires !Contains(s, m)
    ensures !Contains(Strip(s), m)
  {
    var lo := StripIsSlice(s);
    if Contains(Strip(s), m) {
      ContainsInSlice(s, lo, lo + |Strip(s)|, m);
    }
  }

  lemma LowerCharIdempotent(c: char)
    ensures LowerChar(LowerChar(c)) == LowerChar(c)
  {
  }

  lemma LowerIdempotent(s: string)
    ensures Lower(Lower(s)) == Lower(s)
  {
  }

  /** Folding case never creates or removes a space. */
  lemma {:induction false} CountSpacesUnderLower(s: string)
    ensures CountChar(Lower(s), ' ') == CountChar(s, ' ')
  {
    if s != [] {
      CountSpacesUnderLower(s[..|s| - 1]);
      assert Lower(s)[..|s| - 1] == Lower(s[..|s| - 1]);
    }
  }

  /** Folding case never turns a non-blank string blank or the other way round. */
  lemma BlankUnderLower(s: string)
    ensures IsBlank(Lower(s)) <==> IsBlank(s)
  {
    assert forall i :: 0 <= i < |s| ==> (IsSpace(Lower(s)[i]) <==> IsSpace(s[i]));
  }

  /** Decimal rendering has an inverse, so a rendered number is read back unchanged. */
  lemma {:induction false} ParseNatToString(n: nat)
    ensures ParseNat(NatToString(n)) == n
    decreases n
  {
    if n >= 10 {
      ParseNatToString(n / 10);
      var s := NatToString(n);
      assert s[..|s| - 1] == NatToString(n / 10);
    }
  }

  /** Two rendered digits read back to the two-digit number they spell. */
  lemma ParseTwoDigits(a: nat, b: nat)
    requires a < 10 && b < 10
    ensures ParseNat([DigitChar(a), DigitChar(b)]) == a * 10 + b
  {
    var s := [DigitChar(a), DigitChar(b)];
    assert s[..1] == [DigitChar(a)];
    assert [DigitChar(a)][..0] == [];
    assert ParseNat([DigitChar(a)]) == DigitValue(DigitChar(a)) == a;
    assert DigitValue(DigitChar(b)) == b;
  }

  function Pow10(k: nat): (p: nat)
    ensures p >= 1
  {
    if k == 0 then 1 else 10 * Pow10(k - 1)
  }

  /** A number below 10^k has at most k digits. */
  lemma {:induction false} NatToStringBound(n: nat, k: nat)
    requires k >= 1 && n < Pow10(k)
    ensures |NatToString(n)| <= k
    decreases n
  {
    if n >= 10 {
      assert k >= 2;
      assert n / 10 < Pow10(k - 1);
      NatToStringBound(n / 10, k - 1);
    }
  }
}
