/**
  The two JavaScript string operations the catalog filter relies on:
  `String.prototype.includes` (substring containment) and
  `String.prototype.toLowerCase`, the latter restricted to ASCII letters.
 */
module TextMatch {

  /** `t` occurs in `s` starting at position `i`. */
  predicate OccursAt(s: string, t: string, i: int)
  {
    0 <= i && i + |t| <= |s| && s[i..i + |t|] == t
  }

  /** `t` occurs in `s` at some position. */
  ghost predicate Occurs(s: string, t: string)
  {
    exists i :: OccursAt(s, t, i)
  }

  /** `t` is a prefix of `s`. */
  predicate IsPrefix(t: string, s: string)
  {
    |t| <= |s| && s[..|t|] == t
  }

  /** `s.includes(t)`: scans `s` from the left for an occurrence of `t`.
      The empty string is contained in every string. */
  predicate Contains(s: string, t: string)
    ensures Contains(s, t) ==> |t| <= |s|
    ensures |t| == 0 ==> Contains(s, t)
    decreases |s|
  {
    IsPrefix(t, s) || (|s| > 0 && Contains(s[1..], t))
  }

  /** The scan finds exactly the occurrences: `s.includes(t)` holds if and
      only if `t` occurs in `s` at some position. */
  lemma {:induction false} ContainsIffOccurs(s: string, t: string)
    ensures Contains(s, t) <==> Occurs(s, t)
    decreases |s|
  {
    if IsPrefix(t, s) {
      assert OccursAt(s, t, 0);
    } else if |s| == 0 {
      assert |t| > 0;
    } else {
      assert !OccursAt(s, t, 0) by { if |t| <= |s| { assert s[0..|t|] == s[..|t|]; } }
      ContainsIffOccurs(s[1..], t);
      if Contains(s[1..], t) {
        var i :| OccursAt(s[1..], t, i);
        assert s[1..][i..i + |t|] == s[i + 1..i + 1 + |t|];
        assert OccursAt(s, t, i + 1);
      }
      if exists i :: OccursAt(s, t, i) {
        var i :| OccursAt(s, t, i);
        assert s[1..][i - 1..i - 1 + |t|] == s[i..i + |t|];
        assert OccursAt(s[1..], t, i - 1);
      }
    }
  }

  /** A string only contains strings no longer than itself, and among
      strings of its own length only itself. */
  lemma {:induction false} ContainsSameLength(s: string, t: string)
    requires |s| == |t|
    ensures Contains(s, t) <==> s == t
  {
    ContainsIffOccurs(s, t);
    if Contains(s, t) {
      var i :| OccursAt(s, t, i);
      assert i == 0;
      assert s[..|t|] == s;
    } else {
      assert !OccursAt(s, t, 0);
      assert s[0..|t|] == s;
    }
  }

  /** ASCII lower-casing of one character: 'A'..'Z' become 'a'..'z', every
      other character is left alone. */
  function LowerChar(c: char): (r: char)
    ensures !('A' <= r <= 'Z')
    ensures 'a' <= r <= 'z' <==> 'A' <= c <= 'Z' || 'a' <= c <= 'z'
    ensures !('A' <= c <= 'Z') ==> r == c
    ensures 'A' <= c <= 'Z' ==> r as int - 'a' as int == c as int - 'A' as int
  {
    if 'A' <= c <= 'Z' then (c as int + ('a' as int - 'A' as int)) as char else c
  }

  /** `c` and `d` are the same ASCII letter, one upper-case and the other
      lower-case. */
  predicate CaseVariants(c: char, d: char)
  {
    ('A' <= c <= 'Z' && d as int - 'a' as int == c as int - 'A' as int) ||
    ('A' <= d <= 'Z' && c as int - 'a' as int == d as int - 'A' as int)
  }

  /** Lower-casing identifies two characters exactly when they are equal or
      are the same ASCII letter in different case. */
  lemma LowerCharIdentifies(c: char, d: char)
    ensures LowerChar(c) == LowerChar(d) <==> c == d || CaseVariants(c, d)
  {
  }

  /** `s.toLowerCase()`, restricted to ASCII letters: the result has the
      length of `s`, lower-cases it character by character and so holds no
      upper-case ASCII letter. */
  function ToLower(s: string): (r: string)
    ensures |r| == |s|
    ensures forall i :: 0 <= i < |s| ==> r[i] == LowerChar(s[i])
    ensures forall i :: 0 <= i < |r| ==> !('A' <= r[i] <= 'Z')
  {
    if s == [] then [] else [LowerChar(s[0])] + ToLower(s[1..])
  }

  /** Lower-casing twice is lower-casing once. */
  lemma ToLowerIdempotent(s: string)
    ensures ToLower(ToLower(s)) == ToLower(s)
  {
  }
}
