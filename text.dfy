/** The Python string operations the service relies on, stated over Dafny
    strings: `str.startswith`, `str.replace(old, "")`, `str.isspace` and
    `str.strip()` with no argument. */
module Text {

  /** Python's `str.isspace()` for one character: the characters with
      bidirectional class WS, B or S, or general category Zs. */
  predicate IsSpace(c: char) {
    var n := c as int;
    || 0x09 <= n <= 0x0D
    || 0x1C <= n <= 0x20
    || n == 0x85
    || n == 0xA0
    || n == 0x1680
    || 0x2000 <= n <= 0x200A
    || n == 0x2028
    || n == 0x2029
    || n == 0x202F
    || n == 0x205F
    || n == 0x3000
  }

  ghost predicate AllSpace(s: string) {
    forall k :: 0 <= k < |s| ==> IsSpace(s[k])
  }

  /** Python's `s.startswith(prefix)`. */
  predicate StartsWith(s: string, prefix: string) {
    |prefix| <= |s| && s[..|prefix|] == prefix
  }

  /** `p` occurs in `s` starting at index `i`. */
  predicate OccursAt(s: string, p: string, i: nat) {
    i + |p| <= |s| && s[i..i + |p|] == p
  }

  /** Python's `p in s`. */
  ghost predicate Contains(s: string, p: string) {
    exists i: nat :: OccursAt(s, p, i)
  }

  /** Python's `s.replace(p, "")` for a non-empty `p`: scanning left to right,
      every non-overlapping occurrence of `p` is deleted. The result only ever
      loses characters of `s`. */
  function RemoveAll(s: string, p: string): (r: string)
    requires p != []
    ensures |r| <= |s|
    ensures multiset(r) <= multiset(s)
    decreases |s|
  {
    if StartsWith(s, p) then
      assert s == s[..|p|] + s[|p|..];
      RemoveAll(s[|p|..], p)
    else if s == [] then
      []
    else
      assert s == [s[0]] + s[1..];
      [s[0]] + RemoveAll(s[1..], p)
  }

  /** A string in which `p` does not occur is left unchanged by `RemoveAll`. */
  lemma {:induction false} RemoveAllWithoutOccurrence(s: string, p: string)
    requires p != []
    requires !Contains(s, p)
    ensures RemoveAll(s, p) == s
    decreases |s|
  {
    assert !OccursAt(s, p, 0);
    if s != [] {
      forall i: nat ensures !OccursAt(s[1..], p, i) {
        assert !OccursAt(s, p, i + 1);
        if i + |p| <= |s[1..]| {
          assert s[1..][i..i + |p|] == s[i + 1..i + 1 + |p|];
        }
      }
      RemoveAllWithoutOccurrence(s[1..], p);
      assert s == [s[0]] + s[1..];
    }
  }

  /** A leading occurrence of `p` is deleted and the scan resumes after it. */
  lemma RemoveAllLeading(p: string, s: string)
    requires p != []
    ensures RemoveAll(p + s, p) == RemoveAll(s, p)
  {
    assert (p + s)[..|p|] == p;
    assert (p + s)[|p|..] == s;
  }

  /** For a pattern whose first character does not recur in it, two
      occurrences never overlap, so an occurrence after any prefix `a` is
      deleted and the scans of `a` and `b` go on as if each stood alone. */
  lemma {:induction false} RemoveAllAround(a: string, p: string, b: string)
    requires p != [] && p[0] !in p[1..]
    ensures RemoveAll(a + p + b, p) == RemoveAll(a, p) + RemoveAll(b, p)
    decreases |a|
  {
    var t := p + b;
    ConcatAssoc(a, p, b);
    RemoveAllLeading(p, b);
    if a == [] {
      assert a + t == t;
    } else if StartsWith(a, p) {
      RemoveAllAround(a[|p|..], p, b);
      ConcatAssoc(a[|p|..], p, b);
      AppendAfterLeading(a, t, p);
    } else {
      RemoveAllAround(a[1..], p, b);
      ConcatAssoc(a[1..], p, b);
      NoStraddle(a, p, b);
      AppendAfterFirstChar(a, t, p);
    }
  }

  /** The step of `RemoveAllAround` for an `a` that starts with `p`. */
  lemma AppendAfterLeading(a: string, t: string, p: string)
    requires p != [] && StartsWith(a, p)
    requires RemoveAll(a[|p|..] + t, p) == RemoveAll(a[|p|..], p) + RemoveAll(t, p)
    ensures RemoveAll(a + t, p) == RemoveAll(a, p) + RemoveAll(t, p)
  {
    var s := a + t;
    SliceOfAppend(a, t, |p|);
    RemoveAllSkip(s, p);
    RemoveAllSkip(a, p);
  }

  /** The step of `RemoveAllAround` for a non-empty `a` where `a + t` does
      not start with `p`. */
  lemma AppendAfterFirstChar(a: string, t: string, p: string)
    requires p != [] && a != [] && !StartsWith(a, p) && !StartsWith(a + t, p)
    requires RemoveAll(a[1..] + t, p) == RemoveAll(a[1..], p) + RemoveAll(t, p)
    ensures RemoveAll(a + t, p) == RemoveAll(a, p) + RemoveAll(t, p)
  {
    SliceOfAppend(a, t, 1);
    KeptFirstChar(a + t, a, t, p);
  }

  /** `s` agrees with `a + t`: its first character is kept, as is `a`'s. */
  lemma KeptFirstChar(s: string, a: string, t: string, p: string)
    requires p != [] && a != [] && s != [] && !StartsWith(a, p) && !StartsWith(s, p)
    requires s[..1] == a[..1] && s[1..] == a[1..] + t
    requires RemoveAll(s[1..], p) == RemoveAll(a[1..], p) + RemoveAll(t, p)
    ensures RemoveAll(s, p) == RemoveAll(a, p) + RemoveAll(t, p)
  {
    RemoveAllKeep(s, p);
    RemoveAllKeep(a, p);
    ConcatAssoc(a[..1], RemoveAll(a[1..], p), RemoveAll(t, p));
  }

  /** Concatenation is associative. */
  lemma ConcatAssoc(x: string, y: string, z: string)
    ensures x + (y + z) == (x + y) + z
  {
  }

  /** One step of the scan over a string that starts with `p`. */
  lemma RemoveAllSkip(s: string, p: string)
    requires p != [] && StartsWith(s, p)
    ensures RemoveAll(s, p) == RemoveAll(s[|p|..], p)
  {
  }

  /** One step of the scan over a non-empty string that does not start with `p`. */
  lemma RemoveAllKeep(s: string, p: string)
    requires p != [] && s != [] && !StartsWith(s, p)
    ensures RemoveAll(s, p) == s[..1] + RemoveAll(s[1..], p)
  {
    assert s[..1] == [s[0]];
  }

  /** Slicing `a + t` within `a` only slices `a`. */
  lemma SliceOfAppend(a: string, t: string, k: nat)
    requires k <= |a|
    ensures (a + t)[..k] == a[..k] && (a + t)[k..] == a[k..] + t
  {
  }

  /** With `a` non-empty and not starting with `p`, `a + p + b` does not start
      with `p`: the inner occurrence's first character would have to recur in `p`. */
  lemma NoStraddle(a: string, p: string, b: string)
    requires p != [] && p[0] !in p[1..]
    requires a != [] && !StartsWith(a, p)
    ensures !StartsWith(a + (p + b), p)
  {
    var s := a + (p + b);
    if |a| < |p| {
      assert s[|a|] == p[0];
      assert p[1..][|a| - 1] == p[|a|];
    } else {
      assert s[..|p|] == a[..|p|];
    }
  }

  /** If the first character of `p` never appears in `s`, `p` does not occur in `s`. */
  lemma NotContainedWithoutFirstChar(s: string, p: string)
    requires p != [] && p[0] !in s
    ensures !Contains(s, p)
  {
    forall i: nat ensures !OccursAt(s, p, i) {
      if i + |p| <= |s| {
        assert s[i..i + |p|][0] == s[i];
      }
    }
  }

  /** Every character of `s` from index `lo` up to `hi` is white space. */
  ghost predicate SpaceBetween(s: string, lo: nat, hi: nat)
    requires lo <= hi <= |s|
  {
    forall k :: lo <= k < hi ==> IsSpace(s[k])
  }

  /** Python's `s.lstrip()`: the longest suffix of `s` that does not start
      with white space; everything dropped is white space. */
  function TrimStart(s: string): (r: string)
    ensures |r| <= |s| && r == s[|s| - |r|..]
    ensures SpaceBetween(s, 0, |s| - |r|)
    ensures r != [] ==> !IsSpace(s[|s| - |r|])
  {
    if s != [] && IsSpace(s[0]) then TrimStart(s[1..]) else s
  }

  /** Python's `s.rstrip()`: the longest prefix of `s` that does not end with
      white space; everything dropped is white space. */
  function TrimEnd(s: string): (r: string)
    ensures |r| <= |s| && r == s[..|r|]
    ensures SpaceBetween(s, |r|, |s|)
    ensures r != [] ==> !IsSpace(s[|r| - 1])
  {
    if s != [] && IsSpace(s[|s| - 1]) then TrimEnd(s[..|s| - 1]) else s
  }

  /** Python's `s.strip()`: empty exactly when `s` is all white space, and
      otherwise starting and ending with a character that is not white space. */
  function Strip(s: string): (r: string)
    ensures |r| <= |s|
    ensures r == [] <==> AllSpace(s)
    ensures r != [] ==> !IsSpace(r[0]) && !IsSpace(r[|r| - 1])
  {
    var t := TrimStart(s);
    var r := TrimEnd(t);
    StripEnds(s, t, r);
    r
  }

  /** A left strip `t` of `s` followed by a right strip `r` of `t` is empty
      exactly when `s` is all white space, and otherwise bounded by
      characters that are not white space. */
  lemma StripEnds(s: string, t: string, r: string)
    requires |t| <= |s| && t == s[|s| - |t|..] && SpaceBetween(s, 0, |s| - |t|)
    requires t != [] ==> !IsSpace(s[|s| - |t|])
    requires |r| <= |t| && r == t[..|r|] && SpaceBetween(t, |r|, |t|)
    requires r != [] ==> !IsSpace(t[|r| - 1])
    ensures r == [] <==> AllSpace(s)
    ensures r != [] ==> !IsSpace(r[0]) && !IsSpace(r[|r| - 1])
  {
    if t != [] {
      assert t[0] == s[|s| - |t|];
    }
    if r != [] {
      assert r[0] == t[0];
    }
  }

  /** What `Strip` keeps is a slice of `s` with only white space outside it. */
  lemma StripIsSlice(s: string)
    ensures exists i, j :: 0 <= i <= j <= |s| && Strip(s) == s[i..j] && SpaceBetween(s, 0, i) && SpaceBetween(s, j, |s|)
  {
    var t := TrimStart(s);
    var i := |s| - |t|;
    var r := TrimEnd(t);
    assert Strip(s) == r;
    var j := i + |r|;
    TrimEndOfSlice(s, i, t);
    assert r == s[i..j];
    assert SpaceBetween(s, 0, i);
    assert SpaceBetween(s, j, |s|);
  }

  /** Right-stripping the suffix `t` of `s` from `i` leaves a slice of `s`
      that ends where the white space at the end of `s` begins. */
  lemma TrimEndOfSlice(s: string, i: nat, t: string)
    requires i <= |s| && t == s[i..]
    ensures i + |TrimEnd(t)| <= |s|
    ensures TrimEnd(t) == s[i..i + |TrimEnd(t)|]
    ensures SpaceBetween(s, i + |TrimEnd(t)|, |s|)
  {
    var j := i + |TrimEnd(t)|;
    forall k | j <= k < |s| ensures IsSpace(s[k]) { assert s[k] == t[k - i]; }
  }

  /** Left strip stops at the first character that is not white space. */
  lemma TrimStartAt(s: string, i: nat)
    requires i <= |s| && SpaceBetween(s, 0, i)
    requires i < |s| ==> !IsSpace(s[i])
    ensures TrimStart(s) == s[i..]
  {
  }

  /** Right strip stops at the last character that is not white space. */
  lemma TrimEndAt(s: string, j: nat)
    requires j <= |s| && SpaceBetween(s, j, |s|)
    requires 0 < j ==> !IsSpace(s[j - 1])
    ensures TrimEnd(s) == s[..j]
  {
  }

  /** `Strip` is the only slice that satisfies its contract: whenever `s[i..j]`
      has only white space around it and is empty or bounded by characters
      that are not white space, it is `Strip(s)`. */
  lemma StripUnique(s: string, i: nat, j: nat)
    requires i <= j <= |s|
    requires SpaceBetween(s, 0, i) && SpaceBetween(s, j, |s|)
    requires i < j ==> !IsSpace(s[i]) && !IsSpace(s[j - 1])
    ensures Strip(s) == s[i..j]
  {
    if i == j {
      SpaceAround(s, i);
    } else {
      TrimStartAt(s, i);
      TrimEndOfSuffix(s, i, j);
    }
  }

  /** Right-stripping `s[i..]` stops at the last character of `s` before `j`
      that is not white space. */
  lemma TrimEndOfSuffix(s: string, i: nat, j: nat)
    requires i < j <= |s| && SpaceBetween(s, j, |s|)
    requires !IsSpace(s[j - 1])
    ensures TrimEnd(s[i..]) == s[i..j]
  {
    var t := s[i..];
    SpaceBetweenSuffix(s, i, j);
    assert t[j - i - 1] == s[j - 1];
    TrimEndAt(t, j - i);
  }

  /** White space up to `i` and from `i` on is white space throughout. */
  lemma SpaceAround(s: string, i: nat)
    requires i <= |s| && SpaceBetween(s, 0, i) && SpaceBetween(s, i, |s|)
    ensures AllSpace(s)
  {
  }

  /** White space from `j` on in `s` is white space from `j - i` on in `s[i..]`. */
  lemma SpaceBetweenSuffix(s: string, i: nat, j: nat)
    requires i <= j <= |s| && SpaceBetween(s, j, |s|)
    ensures SpaceBetween(s[i..], j - i, |s| - i)
  {
  }

  /** Stripping twice is stripping once. */
  lemma StripIdempotent(s: string)
    ensures Strip(Strip(s)) == Strip(s)
  {
    StripTrimmed(Strip(s));
  }

  /** A string with no white space at either end is its own strip. */
  lemma StripTrimmed(s: string)
    requires s != [] ==> !IsSpace(s[0]) && !IsSpace(s[|s| - 1])
    ensures Strip(s) == s
  {
    StripUnique(s, 0, |s|);
  }
}
