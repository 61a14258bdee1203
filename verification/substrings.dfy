/**
 Python's `pat in s` test on strings: true exactly when `pat` occurs as a
 contiguous run of characters somewhere in `s` (the empty pattern occurs
 everywhere).
 */
module Substrings {

  /** `pat` occurs in `s` starting at offset `i`. */
  ghost predicate OccursAt(pat: string, s: string, i: int) {
    0 <= i <= |s| - |pat| && s[i..i + |pat|] == pat
  }

  /** Reference definition: `pat` occurs in `s` at some offset. */
  ghost predicate Occurs(pat: string, s: string) {
    exists i :: OccursAt(pat, s, i)
  }

  /** `pat` occurs in at least one of `names`. */
  ghost predicate SomeNameHas(names: seq<string>, pat: string) {
    exists k :: 0 <= k < |names| && Occurs(pat, names[k])
  }

  /** Executable substring search, scanning offsets from the left. */
  function Contains(s: string, pat: string): (b: bool)
    ensures b <==> Occurs(pat, s)
    decreases |s|
  {
    if |pat| > |s| then
      false
    else if s[..|pat|] == pat then
      assert OccursAt(pat, s, 0);
      true
    else
      var rest := Contains(s[1..], pat);
      ShiftOccurs(s, pat);
      rest
  }

  /** When `pat` is not a prefix of `s`, it occurs in `s` iff it occurs in `s[1..]`. */
  lemma ShiftOccurs(s: string, pat: string)
    requires |pat| <= |s| && s[..|pat|] != pat
    ensures Occurs(pat, s) <==> Occurs(pat, s[1..])
  {
    if Occurs(pat, s) {
      var i :| OccursAt(pat, s, i);
      assert i != 0;
      assert s[1..][i - 1..i - 1 + |pat|] == s[i..i + |pat|];
      assert OccursAt(pat, s[1..], i - 1);
    }
    if Occurs(pat, s[1..]) {
      var i :| OccursAt(pat, s[1..], i);
      assert s[1..][i..i + |pat|] == s[i + 1..i + 1 + |pat|];
      assert OccursAt(pat, s, i + 1);
    }
  }

  /** Python's `any(pat in f for f in names)`, scanning `names` from the left. */
  function AnyContains(names: seq<string>, pat: string): (b: bool)
    ensures b <==> SomeNameHas(names, pat)
  {
    if |names| == 0 then
      false
    else if Contains(names[0], pat) then
      true
    else
      var rest := AnyContains(names[1..], pat);
      assert forall k :: 0 < k < |names| ==> names[k] == names[1..][k - 1];
      rest
  }

  /** Whether a pattern occurs in some name depends only on which names are present. */
  lemma SomeNameHasOnlyNamesMatter(a: seq<string>, b: seq<string>, pat: string)
    requires forall f :: f in a <==> f in b
    ensures SomeNameHas(a, pat) <==> SomeNameHas(b, pat)
  {
    if SomeNameHas(a, pat) {
      var k :| 0 <= k < |a| && Occurs(pat, a[k]);
      assert a[k] in b;
    }
    if SomeNameHas(b, pat) {
      var k :| 0 <= k < |b| && Occurs(pat, b[k]);
      assert b[k] in a;
    }
  }
}
