/**
 * `limpiar_comentario`: drop every character outside the class
 * `[a-zA-Z0-9\s.,!?]`, then strip surrounding whitespace.
 */
module Cleaning {

  /**
   * Whitespace as Python's `str.strip()` and the regex class `\s` (on `str`
   * patterns) both understand it: the characters for which `str.isspace()`
   * holds.
   */
  predicate IsWhitespace(c: char)
  {
    c == ' ' || c == '\t' || c == '\n' || c == '\r'
    || c == '\U{000B}' || c == '\U{000C}'
    || ('\U{001C}' <= c <= '\U{001F}')
    || c == '\U{0085}' || c == '\U{00A0}' || c == '\U{1680}'
    || ('\U{2000}' <= c <= '\U{200A}')
    || c == '\U{2028}' || c == '\U{2029}' || c == '\U{202F}'
    || c == '\U{205F}' || c == '\U{3000}'
  }

  /** Membership in the character class `[a-zA-Z0-9\s.,!?]`. */
  predicate IsKept(c: char)
  {
    ('a' <= c <= 'z') || ('A' <= c <= 'Z') || ('0' <= c <= '9')
    || IsWhitespace(c)
    || c == '.' || c == ',' || c == '!' || c == '?'
  }

  predicate AllKept(s: string)
  {
    forall i :: 0 <= i < |s| ==> IsKept(s[i])
  }

  predicate AllWhitespace(s: string)
  {
    forall i :: 0 <= i < |s| ==> IsWhitespace(s[i])
  }

  /** Neither the first nor the last character is whitespace. */
  predicate Stripped(s: string)
  {
    s == [] || (!IsWhitespace(s[0]) && !IsWhitespace(s[|s| - 1]))
  }

  /** `a` can be obtained from `b` by deleting characters. */
  predicate IsSubsequence(a: string, b: string)
    decreases |b|
  {
    if a == [] then true
    else if b == [] then false
    else (a[0] == b[0] && IsSubsequence(a[1..], b[1..])) || IsSubsequence(a, b[1..])
  }

  /**
   * `re.sub(r'[^a-zA-Z0-9\s.,!?]', '', s)`: the characters of the class, in
   * order, each exactly as often as in `s`.
   */
  function Filter(s: string): (r: string)
    ensures |r| <= |s|
  {
    if s == [] then [] else (if IsKept(s[0]) then [s[0]] else []) + Filter(s[1..])
  }

  /** The filter keeps exactly the characters of the class, each as often as `s` has it. */
  lemma {:induction false} FilterSpec(s: string)
    ensures AllKept(Filter(s))
    ensures forall c :: multiset(Filter(s))[c] == if IsKept(c) then multiset(s)[c] else 0
    decreases |s|
  {
    if s != [] {
      FilterSpec(s[1..]);
      assert s == [s[0]] + s[1..];
    }
  }

  /** `str.lstrip()`: drops the leading whitespace and nothing else. */
  function TrimStart(s: string): (r: string)
    ensures |r| <= |s|
  {
    if s != [] && IsWhitespace(s[0]) then TrimStart(s[1..]) else s
  }

  /** `TrimStart` keeps a suffix, drops only whitespace, and stops at the first other character. */
  lemma {:induction false} TrimStartSpec(s: string)
    ensures |TrimStart(s)| <= |s| && TrimStart(s) == s[|s| - |TrimStart(s)|..]
    ensures AllWhitespace(s[..|s| - |TrimStart(s)|])
    ensures TrimStart(s) == [] || !IsWhitespace(TrimStart(s)[0])
    decreases |s|
  {
    if s != [] && IsWhitespace(s[0]) {
      TrimStartSpec(s[1..]);
      var k := |s| - |TrimStart(s)|;
      assert s[1..][..k - 1] == s[1..k];
    }
  }

  /** `str.rstrip()`: drops the trailing whitespace and nothing else. */
  function TrimEnd(s: string): (r: string)
    ensures |r| <= |s|
  {
    if s != [] && IsWhitespace(s[|s| - 1]) then TrimEnd(s[..|s| - 1]) else s
  }

  /** `TrimEnd` keeps a prefix, drops only whitespace, and stops at the last other character. */
  lemma {:induction false} TrimEndSpec(s: string)
    ensures |TrimEnd(s)| <= |s| && TrimEnd(s) == s[..|TrimEnd(s)|]
    ensures AllWhitespace(s[|TrimEnd(s)|..])
    ensures TrimEnd(s) == [] || !IsWhitespace(TrimEnd(s)[|TrimEnd(s)| - 1])
    decreases |s|
  {
    if s != [] && IsWhitespace(s[|s| - 1]) {
      TrimEndSpec(s[..|s| - 1]);
      var n := |TrimEnd(s)|;
      assert s[..|s| - 1][n..] + [s[|s| - 1]] == s[n..];
    }
  }

  /** `str.strip()`. */
  function Strip(s: string): (r: string)
    ensures |r| <= |s|
  {
    TrimEnd(TrimStart(s))
  }

  /** `limpiar_comentario`. */
  function Clean(s: string): (r: string)
    ensures |r| <= |s|
  {
    Strip(Filter(s))
  }

  /** What `Strip` removes is whitespace on either side, and what it keeps is one slice. */
  lemma StripFrame(t: string)
    ensures var k := |t| - |TrimStart(t)|;
      k + |Strip(t)| <= |t|
      && Strip(t) == t[k..k + |Strip(t)|]
      && AllWhitespace(t[..k])
      && AllWhitespace(t[k + |Strip(t)|..])
      && Stripped(Strip(t))
  {
    var u := TrimStart(t);
    var k := |t| - |u|;
    var r := TrimEnd(u);
    TrimStartSpec(t);
    TrimEndSpec(u);
    assert u == t[k..];
    assert r == u[..|r|];
    assert t[k + |r|..] == u[|r|..];
    if r != [] {
      assert r[0] == u[0];
    }
  }

  lemma {:induction false} SliceIsSubsequence(s: string, i: nat, j: nat)
    requires i <= j <= |s|
    ensures IsSubsequence(s[i..j], s)
    decreases |s|
  {
    if i == j {
    } else if i > 0 {
      SliceIsSubsequence(s[1..], i - 1, j - 1);
      assert s[1..][i - 1..j - 1] == s[i..j];
    } else {
      SliceIsSubsequence(s[1..], 0, j - 1);
      assert s[i..j][1..] == s[1..][0..j - 1];
    }
  }

  lemma {:induction false} SubsequenceTransitive(a: string, b: string, c: string)
    requires IsSubsequence(a, b) && IsSubsequence(b, c)
    ensures IsSubsequence(a, c)
    decreases |c|
  {
    if a == [] {
    } else if IsSubsequence(b, c[1..]) {
      SubsequenceTransitive(a, b, c[1..]);
    } else {
      assert b[0] == c[0] && IsSubsequence(b[1..], c[1..]);
      if a[0] == b[0] && IsSubsequence(a[1..], b[1..]) {
        SubsequenceTransitive(a[1..], b[1..], c[1..]);
      } else {
        SubsequenceTransitive(a, b[1..], c[1..]);
      }
    }
  }

  lemma {:induction false} FilterIsSubsequence(s: string)
    ensures IsSubsequence(Filter(s), s)
    decreases |s|
  {
    if s != [] {
      FilterIsSubsequence(s[1..]);
      var f := Filter(s);
      if IsKept(s[0]) {
        assert f[0] == s[0] && f[1..] == Filter(s[1..]);
      } else {
        assert f == Filter(s[1..]);
      }
    }
  }

  /** A string already inside the character class passes the filter unchanged. */
  lemma {:induction false} FilterKeepsKept(s: string)
    requires AllKept(s)
    ensures Filter(s) == s
    decreases |s|
  {
    if s != [] {
      FilterKeepsKept(s[1..]);
      assert s == [s[0]] + s[1..];
    }
  }

  /** The cleaned comment holds only characters of the class. */
  lemma CleanOnlyKept(s: string)
    ensures AllKept(Clean(s))
  {
    var f := Filter(s);
    FilterSpec(s);
    StripFrame(f);
    var k := |f| - |TrimStart(f)|;
    forall i | 0 <= i < |Clean(s)| ensures IsKept(Clean(s)[i]) {
      assert Clean(s)[i] == f[k + i];
    }
  }

  /** The cleaned comment neither starts nor ends with whitespace. */
  lemma CleanIsStripped(s: string)
    ensures Stripped(Clean(s))
  {
    StripFrame(Filter(s));
  }

  /** Stripping removes nothing but whitespace on either side. */
  lemma StripFramedByWhitespace(t: string)
    ensures var k := |t| - |TrimStart(t)|;
      t == t[..k] + Strip(t) + t[k + |Strip(t)|..]
      && AllWhitespace(t[..k]) && AllWhitespace(t[k + |Strip(t)|..])
  {
    StripFrame(t);
    SplitInThree(t, |t| - |TrimStart(t)|, |t| - |TrimStart(t)| + |Strip(t)|);
  }

  lemma SplitInThree(t: string, i: nat, j: nat)
    requires i <= j <= |t|
    ensures t == t[..i] + t[i..j] + t[j..]
  {
    assert t == t[..j] + t[j..];
    assert t[..j] == t[..i] + t[i..j];
  }

  lemma StripIsSubsequence(t: string)
    ensures IsSubsequence(Strip(t), t)
  {
    StripFrame(t);
    var k := |t| - |TrimStart(t)|;
    SliceIsSubsequence(t, k, k + |Strip(t)|);
  }

  /**
   * The filtered comment is the cleaned one with whitespace on either side:
   * stripping removes nothing but whitespace.
   */
  lemma CleanFramedByWhitespace(s: string)
    ensures var f, k := Filter(s), |Filter(s)| - |TrimStart(Filter(s))|;
      f == f[..k] + Clean(s) + f[k + |Clean(s)|..]
      && AllWhitespace(f[..k]) && AllWhitespace(f[k + |Clean(s)|..])
  {
    StripFramedByWhitespace(Filter(s));
  }

  /** The cleaned comment keeps the order of the original: it is a subsequence of it. */
  lemma CleanIsSubsequence(s: string)
    ensures IsSubsequence(Clean(s), s)
  {
    StripIsSubsequence(Filter(s));
    FilterIsSubsequence(s);
    SubsequenceTransitive(Clean(s), Filter(s), s);
  }

  /** Cleaning a cleaned comment changes nothing. */
  lemma CleanIdempotent(s: string)
    ensures Clean(Clean(s)) == Clean(s)
  {
    var c := Clean(s);
    CleanOnlyKept(s);
    CleanIsStripped(s);
    FilterKeepsKept(c);
    assert TrimStart(c) == c;
    assert TrimEnd(c) == c;
  }
}
