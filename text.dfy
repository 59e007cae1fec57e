/** The two string operations the source relies on: `String.prototype.includes`
    and `String.prototype.toLowerCase`, the latter restricted to ASCII letters. */
module Text {

  /** `pre` is a prefix of `s`. */
  predicate IsPrefix(pre: string, s: string) {
    |pre| <= |s| && s[..|pre|] == pre
  }

  /** `s.includes(needle)`: `needle` occurs in `s` at some offset (the empty string occurs everywhere). */
  predicate Includes(s: string, needle: string)
    decreases |s|
  {
    IsPrefix(needle, s) || (|s| > 0 && Includes(s[1..], needle))
  }

  /** The recursive scan agrees with the positional definition of an occurrence. */
  lemma {:induction false} IncludesIffOccursAt(s: string, needle: string)
    ensures Includes(s, needle) <==> exists i :: 0 <= i <= |s| && IsPrefix(needle, s[i..])
    decreases |s|
  {
    assert s[0..] == s;
    if |s| > 0 {
      IncludesIffOccursAt(s[1..], needle);
      if Includes(s[1..], needle) {
        var i :| 0 <= i <= |s[1..]| && IsPrefix(needle, s[1..][i..]);
        assert s[1..][i..] == s[i + 1..];
        assert IsPrefix(needle, s[i + 1..]);
      }
      if exists i :: 0 <= i <= |s| && IsPrefix(needle, s[i..]) {
        var i :| 0 <= i <= |s| && IsPrefix(needle, s[i..]);
        if i > 0 {
          assert s[1..][i - 1..] == s[i..];
          assert IsPrefix(needle, s[1..][i - 1..]);
        }
      }
    }
  }

  /** The empty query is contained in every string. */
  lemma {:induction false} EmptyIsIncluded(s: string)
    ensures Includes(s, "")
  {
    assert IsPrefix("", s);
  }

  /** ASCII lower-casing of one character; everything outside 'A'..'Z' is left alone. */
  function LowerChar(c: char): (r: char)
    ensures 'A' <= c <= 'Z' ==> 'a' <= r <= 'z' && r as int - c as int == 32
    ensures !('A' <= c <= 'Z') ==> r == c
  {
    if 'A' <= c <= 'Z' then (c as int + 32) as char else c
  }

  /** `s.toLowerCase()` for ASCII text: same length, each letter lowered in place. */
  function ToLower(s: string): (r: string)
    ensures |r| == |s|
    ensures forall i :: 0 <= i < |s| ==> r[i] == LowerChar(s[i])
    ensures forall i :: 0 <= i < |r| ==> !('A' <= r[i] <= 'Z')
  {
    seq(|s|, i requires 0 <= i < |s| => LowerChar(s[i]))
  }

  /** Lower-casing twice is lower-casing once. */
  lemma ToLowerIdempotent(s: string)
    ensures ToLower(ToLower(s)) == ToLower(s)
  {
  }
}
