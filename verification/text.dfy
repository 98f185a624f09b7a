/** Whitespace trimming as done by Go's `strings.TrimSpace`, which the request
    builder applies to the URL, to every header key and value, and to the body. */
module Text {

  /** The characters Go's `unicode.IsSpace` accepts: the ASCII spaces, NEL,
      NBSP and the other characters with the Unicode White_Space property. */
  const SpaceChars: set<char> := {
    '\t', '\n', '\U{0B}', '\U{0C}', '\r', ' ', '\U{85}', '\U{A0}', '\U{1680}',
    '\U{2000}', '\U{2001}', '\U{2002}', '\U{2003}', '\U{2004}', '\U{2005}',
    '\U{2006}', '\U{2007}', '\U{2008}', '\U{2009}', '\U{200A}',
    '\U{2028}', '\U{2029}', '\U{202F}', '\U{205F}', '\U{3000}'
  }

  predicate IsSpace(c: char) {
    c in SpaceChars
  }

  predicate AllSpace(s: string) {
    forall k :: 0 <= k < |s| ==> IsSpace(s[k])
  }

  /** Neither end of `s` is a space. */
  predicate IsTrimmed(s: string) {
    s == [] || (!IsSpace(s[0]) && !IsSpace(s[|s| - 1]))
  }

  /** `strings.TrimSpace`, peeling one space at a time off either end. The
      result is blank exactly when `s` is all spaces. */
  function TrimSpace(s: string): (r: string)
    ensures IsTrimmed(r)
    ensures |r| <= |s|
    ensures r == [] <==> AllSpace(s)
    decreases |s|
  {
    if s == [] then []
    else if IsSpace(s[0]) then
      assert AllSpace(s) <==> AllSpace(s[1..]) by {
        assert forall k :: 1 <= k < |s| ==> s[k] == s[1..][k - 1];
      }
      TrimSpace(s[1..])
    else if IsSpace(s[|s| - 1]) then
      assert !AllSpace(s[..|s| - 1]) by { assert s[..|s| - 1][0] == s[0]; }
      TrimSpace(s[..|s| - 1])
    else s
  }

  /** Length of the longest all-space prefix of `s`. */
  function LeadingSpaces(s: string): (n: nat)
    ensures n <= |s|
    ensures AllSpace(s[..n])
    ensures n < |s| ==> !IsSpace(s[n])
  {
    if s == [] || !IsSpace(s[0]) then 0
    else
      var n := 1 + LeadingSpaces(s[1..]);
      assert forall k :: 1 <= k < n ==> s[k] == s[1..][k - 1];
      n
  }

  /** Length of the longest all-space suffix of `s`. */
  function TrailingSpaces(s: string): (n: nat)
    ensures n <= |s|
    ensures AllSpace(s[|s| - n..])
    ensures n < |s| ==> !IsSpace(s[|s| - n - 1])
  {
    if s == [] || !IsSpace(s[|s| - 1]) then 0
    else
      var n := 1 + TrailingSpaces(s[..|s| - 1]);
      assert forall k :: |s| - n <= k < |s| - 1 ==> s[k] == s[..|s| - 1][k];
      n
  }

  /** Trimming the way `strings.TrimSpace` is written: scan for the first
      non-space from the front, then for the last one from the back, and
      keep what lies between. */
  function ScanTrim(s: string): string {
    var rest := s[LeadingSpaces(s)..];
    rest[..|rest| - TrailingSpaces(rest)]
  }

  /** Peeling and scanning trim the same string. */
  lemma {:induction false} TrimSpaceIsScanTrim(s: string)
    ensures TrimSpace(s) == ScanTrim(s)
    decreases |s|
  {
    if s == [] {
    } else if IsSpace(s[0]) {
      TrimSpaceIsScanTrim(s[1..]);
      ScanTrimDropsLeadingSpace(s);
    } else if IsSpace(s[|s| - 1]) {
      TrimSpaceIsScanTrim(s[..|s| - 1]);
      ScanTrimDropsTrailingSpace(s);
    } else {
      assert s[0..] == s;
      assert s[..|s|] == s;
    }
  }

  /** A leading space is skipped by the forward scan. */
  lemma ScanTrimDropsLeadingSpace(s: string)
    requires s != [] && IsSpace(s[0])
    ensures ScanTrim(s) == ScanTrim(s[1..])
  {
    var n := LeadingSpaces(s[1..]);
    assert LeadingSpaces(s) == 1 + n;
    assert s[1 + n..] == s[1..][n..];
  }

  /** When the string starts with a non-space, a trailing space is skipped
      by the backward scan. */
  lemma ScanTrimDropsTrailingSpace(s: string)
    requires s != [] && !IsSpace(s[0]) && IsSpace(s[|s| - 1])
    ensures ScanTrim(s) == ScanTrim(s[..|s| - 1])
  {
    var t := s[..|s| - 1];
    var m := TrailingSpaces(t);
    assert |s| >= 2;
    assert t[0] == s[0];
    assert LeadingSpaces(s) == 0;
    assert LeadingSpaces(t) == 0;
    assert s[0..] == s;
    assert t[0..] == t;
    assert TrailingSpaces(s) == 1 + m;
    assert ScanTrim(s) == s[..|s| - 1 - m];
    assert ScanTrim(t) == t[..|t| - m];
    assert t[..|t| - m] == s[..|s| - 1 - m];
  }

  /** The trimmed string is a slice of `s` with only spaces on either side
      of it. */
  lemma TrimSpaceSlice(s: string)
    ensures var i, r := LeadingSpaces(s), TrimSpace(s);
      && i + |r| <= |s|
      && r == s[i..i + |r|]
      && AllSpace(s[..i])
      && AllSpace(s[i + |r|..])
  {
    TrimSpaceIsScanTrim(s);
    var i := LeadingSpaces(s);
    var rest := s[i..];
    var t := TrailingSpaces(rest);
    var r := rest[..|rest| - t];
    assert r == s[i..i + |r|];
    assert s[i + |r|..] == rest[|rest| - t..];
  }

  /** `AllSpace` of a prefix, stated on the positions of the whole string. */
  lemma SpacesBefore(s: string, i: nat)
    requires i <= |s|
    requires AllSpace(s[..i])
    ensures forall k :: 0 <= k < i ==> IsSpace(s[k])
  {
    forall k | 0 <= k < i ensures IsSpace(s[k]) {
      assert s[..i][k] == s[k];
    }
  }

  /** `AllSpace` of a suffix, stated on the positions of the whole string. */
  lemma SpacesFrom(s: string, j: nat)
    requires j <= |s|
    requires AllSpace(s[j..])
    ensures forall k :: j <= k < |s| ==> IsSpace(s[k])
  {
    forall k | j <= k < |s| ensures IsSpace(s[k]) {
      assert s[j..][k - j] == s[k];
    }
  }

  /** The trimmed string is the only slice of `s` that has no space at
      either end and only spaces around it. */
  lemma TrimSpaceUnique(s: string, i: nat, j: nat)
    requires i <= j <= |s|
    requires AllSpace(s[..i]) && AllSpace(s[j..])
    requires IsTrimmed(s[i..j])
    ensures TrimSpace(s) == s[i..j]
  {
    if i == j {
      SpacesBefore(s, i);
      SpacesFrom(s, j);
      assert AllSpace(s);
    } else {
      assert !IsSpace(s[i]) by { assert s[i..j][0] == s[i]; }
      assert !IsSpace(s[j - 1]) by { assert s[i..j][j - i - 1] == s[j - 1]; }
      TrimSpaceSlice(s);
      LeadingSpacesAt(s, i);
      var r := TrimSpace(s);
      assert !AllSpace(s) by { assert !IsSpace(s[i]); }
      assert r == s[i..i + |r|] && r != [];
      assert !IsSpace(s[i + |r| - 1]) by { assert r[|r| - 1] == s[i + |r| - 1]; }
      SameEnd(s, i + |r|, j);
    }
  }

  /** The forward scan stops at the first non-space. */
  lemma LeadingSpacesAt(s: string, i: nat)
    requires i < |s| && AllSpace(s[..i]) && !IsSpace(s[i])
    ensures LeadingSpaces(s) == i
  {
    SpacesBefore(s, i);
    SpacesBefore(s, LeadingSpaces(s));
  }

  /** Two ends, each a non-space followed only by spaces, coincide. */
  lemma SameEnd(s: string, e: nat, j: nat)
    requires 0 < e <= |s| && 0 < j <= |s|
    requires !IsSpace(s[e - 1]) && !IsSpace(s[j - 1])
    requires AllSpace(s[e..]) && AllSpace(s[j..])
    ensures e == j
  {
    SpacesFrom(s, e);
    SpacesFrom(s, j);
  }

  /** Trimming an already trimmed string changes nothing. */
  lemma TrimSpaceOfTrimmed(s: string)
    requires IsTrimmed(s)
    ensures TrimSpace(s) == s
  {
    assert s[..0] == [];
    assert s[|s|..] == [];
    assert s[0..|s|] == s;
    TrimSpaceUnique(s, 0, |s|);
  }

  /** Trimming is idempotent. */
  lemma TrimSpaceIdempotent(s: string)
    ensures TrimSpace(TrimSpace(s)) == TrimSpace(s)
  {
    TrimSpaceOfTrimmed(TrimSpace(s));
  }

  /** Spaces added around a string are exactly what trimming removes. */
  lemma TrimSpaceOfPadded(p: string, s: string, q: string)
    requires AllSpace(p) && AllSpace(q)
    ensures TrimSpace(p + s + q) == TrimSpace(s)
  {
    var t := p + s + q;
    TrimSpaceSlice(s);
    var lead := LeadingSpaces(s);
    var r := TrimSpace(s);
    var i := |p| + lead;
    var j := i + |r|;
    assert t[i..j] == s[lead..lead + |r|];
    assert AllSpace(t[..i]) by {
      forall k | 0 <= k < i ensures IsSpace(t[..i][k]) {
        if k < |p| {
          assert t[..i][k] == p[k];
        } else {
          assert t[..i][k] == s[..lead][k - |p|];
        }
      }
    }
    assert AllSpace(t[j..]) by {
      forall k | 0 <= k < |t| - j ensures IsSpace(t[j..][k]) {
        if j + k < |p| + |s| {
          assert t[j..][k] == s[lead + |r|..][k];
        } else {
          assert t[j..][k] == q[j + k - |p| - |s|];
        }
      }
    }
    TrimSpaceUnique(t, i, j);
  }
}
