/** The two Python string operations the market code applies to tickers and keys: `strip` and `upper`. */
module Text {

  /** Python's `str.isspace` for one character. */
  predicate IsSpace(c: char) {
    || c == '\t' || c == '\n' || c == '\U{B}' || c == '\U{C}' || c == '\r'
    || ('\U{1C}' <= c <= '\U{1F}') || c == ' ' || c == '\U{85}' || c == '\U{A0}'
    || c == '\U{1680}' || ('\U{2000}' <= c <= '\U{200A}') || c == '\U{2028}' || c == '\U{2029}'
    || c == '\U{202F}' || c == '\U{205F}' || c == '\U{3000}'
  }

  /** `s` with its leading whitespace removed: the longest suffix that does not start with whitespace. */
  function StripLeft(s: string): (r: string)
    ensures |r| <= |s| && r == s[|s| - |r|..]
    ensures forall k :: 0 <= k < |s| - |r| ==> IsSpace(s[k])
    ensures r != [] ==> !IsSpace(r[0])
  {
    if s != [] && IsSpace(s[0]) then
      var r := StripLeft(s[1..]);
      assert forall k :: 1 <= k < |s| - |r| ==> s[k] == s[1..][k - 1];
      r
    else s
  }

  /** `s` with its trailing whitespace removed: the longest prefix that does not end with whitespace. */
  function StripRight(s: string): (r: string)
    ensures |r| <= |s| && r == s[..|r|]
    ensures forall k :: |r| <= k < |s| ==> IsSpace(s[k])
    ensures r != [] ==> !IsSpace(r[|r| - 1])
  {
    if s != [] && IsSpace(s[|s| - 1]) then StripRight(s[..|s| - 1]) else s
  }

  /** Python's `s.strip()`: no longer than `s`, and neither starting nor ending with whitespace. */
  function Strip(s: string): (r: string)
    ensures |r| <= |s|
    ensures r == [] || (!IsSpace(r[0]) && !IsSpace(r[|r| - 1]))
    ensures exists i :: TrimmedAt(s, r, i)
  {
    var l := StripLeft(s);
    var r := StripRight(l);
    assert r != [] ==> r[0] == l[0];
    TrimmedInTwoSteps(s, |s| - |l|, l, r);
    r
  }

  /**
   * Cutting whitespace off the front of `s` (leaving `l`) and then off the back of `l` (leaving
   * `r`) trims `s` at position `d`.
   */
  lemma TrimmedInTwoSteps(s: string, d: nat, l: string, r: string)
    requires d <= |s| && l == s[d..] && forall k :: 0 <= k < d ==> IsSpace(s[k])
    requires |r| <= |l| && r == l[..|r|] && forall k :: |r| <= k < |l| ==> IsSpace(l[k])
    ensures TrimmedAt(s, r, d)
  {
    forall k | d + |r| <= k < |s|
      ensures IsSpace(s[k])
    {
      assert s[k] == l[k - d];
    }
  }

  /** `r` is the part of `s` starting at `i`, and everything of `s` around it is whitespace. */
  predicate TrimmedAt(s: string, r: string, i: int) {
    && 0 <= i <= |s| - |r| && r == s[i..i + |r|]
    && (forall k :: 0 <= k < i ==> IsSpace(s[k]))
    && (forall k :: i + |r| <= k < |s| ==> IsSpace(s[k]))
  }

  /** Stripping gives the empty string exactly when `s` is all whitespace. */
  lemma StripEmptyIff(s: string)
    ensures Strip(s) == [] <==> forall k :: 0 <= k < |s| ==> IsSpace(s[k])
  {
    var l := StripLeft(s);
    if l != [] {
      assert !IsSpace(l[0]);
      assert l[0] == s[|s| - |l|];
    }
  }

  /** A stripped string neither starts nor ends with whitespace, and stripping it again changes nothing. */
  lemma StripIdempotent(s: string)
    ensures var r := Strip(s); r == [] || (!IsSpace(r[0]) && !IsSpace(r[|r| - 1]))
    ensures Strip(Strip(s)) == Strip(s)
  {
    var l := StripLeft(s);
    var r := StripRight(l);
    if r != [] {
      assert r[0] == l[0];
    }
    assert StripLeft(r) == r;
    StripRightFixed(r);
  }

  /** A string that does not end with whitespace is its own right-strip. */
  lemma StripRightFixed(s: string)
    requires s == [] || !IsSpace(s[|s| - 1])
    ensures StripRight(s) == s
  {
  }

  /** Python's `upper` on one character: ASCII lower-case letters become upper case. */
  function UpperChar(c: char): (u: char)
    ensures IsSpace(u) <==> IsSpace(c)
    ensures !('a' <= u <= 'z')
  {
    if 'a' <= c <= 'z' then (c as int - 32) as char else c
  }

  /** `s` holds no lower-case ASCII letter. */
  predicate NoLowerCase(s: string) {
    forall k :: 0 <= k < |s| ==> !('a' <= s[k] <= 'z')
  }

  /** Python's `s.upper()`, character by character. */
  function Upper(s: string): (r: string)
    ensures |r| == |s|
    ensures forall k :: 0 <= k < |s| ==> r[k] == UpperChar(s[k])
    ensures NoLowerCase(r)
  {
    seq(|s|, k requires 0 <= k < |s| => UpperChar(s[k]))
  }

  /** Upper-casing commutes with slicing. */
  lemma UpperSlice(s: string, i: nat, j: nat)
    requires i <= j <= |s|
    ensures Upper(s[i..j]) == Upper(s)[i..j]
  {
  }

  /** Upper-casing keeps whitespace where it is, so it commutes with stripping. */
  lemma {:induction false} StripLeftUpper(s: string)
    ensures StripLeft(Upper(s)) == Upper(StripLeft(s))
    decreases |s|
  {
    var u := Upper(s);
    if s == [] {
    } else if IsSpace(s[0]) {
      assert IsSpace(u[0]);
      UpperSlice(s, 1, |s|);
      assert u[1..] == Upper(s[1..]) by { assert s[1..|s|] == s[1..]; }
      StripLeftUpper(s[1..]);
    } else {
      assert !IsSpace(u[0]);
    }
  }

  /** Upper-casing keeps whitespace where it is, so it commutes with stripping. */
  lemma {:induction false} StripRightUpper(s: string)
    ensures StripRight(Upper(s)) == Upper(StripRight(s))
    decreases |s|
  {
    var u := Upper(s);
    if s == [] {
      assert u == [];
    } else {
      var n := |s| - 1;
      assert u[n] == UpperChar(s[n]);
      if IsSpace(s[n]) {
        UpperSlice(s, 0, n);
        StripRightUpper(s[..n]);
        assert StripRight(u) == StripRight(u[..n]);
      } else {
        assert StripRight(s) == s && StripRight(u) == u;
      }
    }
  }

  /** Upper-casing twice is upper-casing once. */
  lemma UpperIdempotent(s: string)
    ensures Upper(Upper(s)) == Upper(s)
  {
  }
}
