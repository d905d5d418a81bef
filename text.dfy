/**
 * The two string operations of the directory searches: `toLowerCase` (as an
 * ASCII case fold) and `includes` (substring test).
 */
module Text {

  predicate IsUpper(c: char) {
    'A' <= c <= 'Z'
  }

  /** One character of `toLowerCase`, for the ASCII letters: a capital becomes the same letter in lower case. */
  function LowerChar(c: char): (d: char)
    ensures !IsUpper(d)
    ensures IsUpper(c) ==> 'a' <= d <= 'z' && d as int - 'a' as int == c as int - 'A' as int
    ensures !IsUpper(c) ==> d == c
  {
    if IsUpper(c) then (c as int + 32) as char else c
  }

  /** `s.toLowerCase()`, character by character. */
  function ToLower(s: string): (r: string)
    ensures |r| == |s|
    ensures forall k :: 0 <= k < |r| ==> r[k] == LowerChar(s[k])
  {
    seq(|s|, k requires 0 <= k < |s| => LowerChar(s[k]))
  }

  /** Lower-casing leaves no upper-case letter, so doing it twice changes nothing more. */
  lemma ToLowerIdempotent(s: string)
    ensures forall k :: 0 <= k < |ToLower(s)| ==> !IsUpper(ToLower(s)[k])
    ensures ToLower(ToLower(s)) == ToLower(s)
  {
  }

  /** The two characters are equal, or are the same ASCII letter in different cases. */
  predicate SameIgnoringCase(a: char, b: char) {
    || a == b
    || (IsUpper(a) && b as int == a as int + 32)
    || (IsUpper(b) && a as int == b as int + 32)
  }

  /** Two strings lower-case to the same string exactly when they agree up to ASCII case. */
  lemma ToLowerEqualIgnoringCase(s: string, t: string)
    ensures ToLower(s) == ToLower(t) <==> |s| == |t| && forall k :: 0 <= k < |s| ==> SameIgnoringCase(s[k], t[k])
  {
    if |s| == |t| && forall k :: 0 <= k < |s| ==> SameIgnoringCase(s[k], t[k]) {
      assert forall k :: 0 <= k < |s| ==> ToLower(s)[k] == ToLower(t)[k];
    }
    if ToLower(s) == ToLower(t) {
      forall k | 0 <= k < |s| ensures SameIgnoringCase(s[k], t[k]) {
        assert LowerChar(s[k]) == ToLower(s)[k] == ToLower(t)[k] == LowerChar(t[k]);
      }
    }
  }

  /** t occurs in s starting at position i. */
  predicate OccursAt(s: string, t: string, i: int) {
    0 <= i && i + |t| <= |s| && s[i..i + |t|] == t
  }

  /**
   * `s.includes(t)`: some window of s equals t. Every string includes the
   * empty string.
   */
  function Includes(s: string, t: string): (b: bool)
    decreases |s|
    ensures b <==> exists i :: OccursAt(s, t, i)
  {
    if |t| > |s| then
      false
    else if s[..|t|] == t then
      assert OccursAt(s, t, 0);
      true
    else
      var rest := Includes(s[1..], t);
      OccursShift(s, t);
      rest
  }

  /**
   * When t does not occur at the front of s, it occurs in s exactly when it
   * occurs in s without its first character.
   */
  lemma OccursShift(s: string, t: string)
    requires |t| <= |s| && s[..|t|] != t
    ensures (exists i :: OccursAt(s, t, i)) <==> (exists i :: OccursAt(s[1..], t, i))
  {
    if i :| OccursAt(s, t, i) {
      assert i != 0;
      assert s[1..][i - 1..i - 1 + |t|] == s[i..i + |t|];
      assert OccursAt(s[1..], t, i - 1);
    }
    if i :| OccursAt(s[1..], t, i) {
      assert s[i + 1..i + 1 + |t|] == s[1..][i..i + |t|];
      assert OccursAt(s, t, i + 1);
    }
  }

  /** Every string includes itself and the empty string; nothing longer than s is included in it. */
  lemma IncludesBasics(s: string, t: string)
    ensures Includes(s, s) && Includes(s, [])
    ensures |t| > |s| ==> !Includes(s, t)
  {
    assert OccursAt(s, s, 0);
    assert OccursAt(s, [], 0);
  }
}
