/** The two string operations the chat code relies on: `String.prototype.trim()`
    and the default ordering `Array.prototype.sort()` uses for strings. */
module Strings {

  /** The characters `trim()` removes: the ECMAScript WhiteSpace and
      LineTerminator code points (the BMP space separators beyond U+00A0 are
      not listed). */
  predicate IsSpace(c: char) {
    c == ' ' || c == '\t' || c == '\n' || c == '\r' || c == '\U{B}' || c == '\U{C}'
    || c == '\U{A0}' || c == '\U{2028}' || c == '\U{2029}' || c == '\U{FEFF}'
  }

  /** A string that `trim()` turns into the empty string (a falsy value). */
  ghost predicate IsBlank(s: string) {
    forall i :: 0 <= i < |s| ==> IsSpace(s[i])
  }

  /** `s.trim()`: white space is removed from both ends. The result is empty
      exactly when `s` is blank, and otherwise it neither starts nor ends
      with white space. */
  function Trim(s: string): (r: string)
    ensures |r| <= |s|
    ensures r == [] <==> IsBlank(s)
    ensures r == [] || (!IsSpace(r[0]) && !IsSpace(r[|r| - 1]))
    decreases |s|
  {
    if |s| > 0 && IsSpace(s[0]) then
      assert IsBlank(s) <==> IsBlank(s[1..]) by {
        assert forall i :: 0 < i < |s| ==> s[i] == s[1..][i - 1];
      }
      Trim(s[1..])
    else if |s| > 0 && IsSpace(s[|s| - 1]) then
      assert !IsBlank(s[..|s| - 1]) by {
        assert s[..|s| - 1][0] == s[0];
      }
      Trim(s[..|s| - 1])
    else
      s
  }

  /** The characters of `s` from `lo` up to `hi` are all white space. */
  ghost predicate SpacesIn(s: string, lo: int, hi: int) {
    forall i :: lo <= i < hi && 0 <= i < |s| ==> IsSpace(s[i])
  }

  /** The result of `trim()` is the slice of the input that starts at `a`,
      and everything cut off on either side is white space. */
  lemma {:induction false} TrimSlice(s: string) returns (a: nat)
    ensures a + |Trim(s)| <= |s| && Trim(s) == s[a..a + |Trim(s)|]
    ensures SpacesIn(s, 0, a) && SpacesIn(s, a + |Trim(s)|, |s|)
    decreases |s|
  {
    if |s| > 0 && IsSpace(s[0]) {
      var b := TrimSlice(s[1..]);
      a := b + 1;
      ShiftFront(s, b, |Trim(s)|);
    } else if |s| > 0 && IsSpace(s[|s| - 1]) {
      a := TrimSlice(s[..|s| - 1]);
      ShiftBack(s, a, |Trim(s)|);
    } else {
      a := 0;
    }
  }

  /** A slice of `s[1..]` surrounded by white space, seen in `s` whose first
      character is white space. */
  lemma ShiftFront(s: string, b: nat, n: nat)
    requires |s| > 0 && IsSpace(s[0]) && b + n <= |s| - 1
    requires SpacesIn(s[1..], 0, b) && SpacesIn(s[1..], b + n, |s| - 1)
    ensures s[1..][b..b + n] == s[b + 1..b + 1 + n]
    ensures SpacesIn(s, 0, b + 1) && SpacesIn(s, b + 1 + n, |s|)
  {
    assert forall i :: 0 < i < |s| ==> s[i] == s[1..][i - 1];
  }

  /** A slice of `s[..|s| - 1]` surrounded by white space, seen in `s` whose
      last character is white space. */
  lemma ShiftBack(s: string, a: nat, n: nat)
    requires |s| > 0 && IsSpace(s[|s| - 1]) && a + n <= |s| - 1
    requires SpacesIn(s[..|s| - 1], 0, a) && SpacesIn(s[..|s| - 1], a + n, |s| - 1)
    ensures s[..|s| - 1][a..a + n] == s[a..a + n]
    ensures SpacesIn(s, 0, a) && SpacesIn(s, a + n, |s|)
  {
    assert forall i :: 0 <= i < |s| - 1 ==> s[i] == s[..|s| - 1][i];
  }

  /** Trimming an already trimmed string changes nothing, so the second
      `trim()` that `sendMediaMessage` applies to a caption the chat screen
      has already trimmed is harmless. */
  lemma TrimIdempotent(s: string)
    ensures Trim(Trim(s)) == Trim(s)
  {
  }

  /** JavaScript's `a < b` on strings: lexicographic comparison of the
      characters, a proper prefix coming first. */
  predicate Before(a: string, b: string) {
    if |a| == 0 then |b| > 0
    else if |b| == 0 then false
    else if a[0] != b[0] then a[0] < b[0]
    else Before(a[1..], b[1..])
  }

  /** No string comes before itself. */
  lemma {:induction false} BeforeIrreflexive(a: string)
    ensures !Before(a, a)
  {
    if |a| > 0 {
      BeforeIrreflexive(a[1..]);
    }
  }

  /** `Before` is asymmetric. */
  lemma {:induction false} BeforeAsymmetric(a: string, b: string)
    requires Before(a, b)
    ensures !Before(b, a)
  {
    if |a| > 0 && |b| > 0 && a[0] == b[0] {
      BeforeAsymmetric(a[1..], b[1..]);
    }
  }

  /** Any two different strings are ordered one way or the other. */
  lemma {:induction false} BeforeTotal(a: string, b: string)
    requires a != b
    ensures Before(a, b) || Before(b, a)
  {
    if |a| > 0 && |b| > 0 && a[0] == b[0] {
      assert a == [a[0]] + a[1..] && b == [b[0]] + b[1..];
      BeforeTotal(a[1..], b[1..]);
    }
  }
}
