/** Character-sequence helpers standing in for the Python `str` methods the
    upload component calls: `lower`, `startswith`, `endswith`, the `in`
    substring test, and `rfind`. */
module Strings {

  /** True for the ASCII capitals 'A'..'Z'. */
  predicate IsUpperAscii(c: char) {
    'A' <= c <= 'Z'
  }

  /** Lower-cases one character: ASCII capitals move to their small letter,
      every other character is kept. */
  function LowerChar(c: char): char {
    if IsUpperAscii(c) then (c as int + 32) as char else c
  }

  /** `str.lower()` restricted to ASCII letters. */
  function Lower(s: string): (r: string)
    ensures |r| == |s|
    ensures forall i :: 0 <= i < |s| ==> r[i] == LowerChar(s[i])
    ensures forall i :: 0 <= i < |s| ==> !IsUpperAscii(r[i])
  {
    seq(|s|, i requires 0 <= i < |s| => LowerChar(s[i]))
  }

  /** `s.startswith(prefix)`. */
  predicate StartsWith(s: string, prefix: string) {
    |prefix| <= |s| && s[..|prefix|] == prefix
  }

  /** `s.endswith(suffix)`. */
  predicate EndsWith(s: string, suffix: string) {
    |suffix| <= |s| && s[|s| - |suffix|..] == suffix
  }

  /** `pat` occurs in `s` starting at index `i`. */
  predicate OccursAt(s: string, pat: string, i: int) {
    0 <= i <= |s| - |pat| && s[i..i + |pat|] == pat
  }

  /** `pat in s` for strings: some window of `s` equals `pat`. */
  function Contains(s: string, pat: string): (r: bool)
    ensures r <==> exists i :: OccursAt(s, pat, i)
    decreases |s|
  {
    if StartsWith(s, pat) then
      assert OccursAt(s, pat, 0);
      true
    else if |s| <= |pat| then
      false
    else
      var rest := Contains(s[1..], pat);
      assert forall i :: OccursAt(s[1..], pat, i) <==> OccursAt(s, pat, i + 1) by {
        forall i ensures OccursAt(s[1..], pat, i) <==> OccursAt(s, pat, i + 1) {
          if 0 <= i <= |s| - 1 - |pat| {
            assert s[1..][i..i + |pat|] == s[i + 1..i + 1 + |pat|];
          }
        }
      }
      assert rest ==> OccursAt(s, pat, 1 + (var j :| OccursAt(s[1..], pat, j); j));
      assert (exists i :: OccursAt(s, pat, i)) ==> rest by {
        if exists i :: OccursAt(s, pat, i) {
          var i :| OccursAt(s, pat, i);
          assert i != 0;
          assert OccursAt(s[1..], pat, i - 1);
        }
      }
      rest
  }

  /** `s.rfind(c)` for a single character: the index of its last occurrence,
      or -1 when it does not occur. */
  function LastIndexOf(s: string, c: char): (r: int)
    ensures -1 <= r < |s|
    ensures r == -1 <==> forall k :: 0 <= k < |s| ==> s[k] != c
    ensures 0 <= r ==> s[r] == c
    ensures forall k :: r < k < |s| ==> s[k] != c
    decreases |s|
  {
    if |s| == 0 then -1
    else if s[|s| - 1] == c then |s| - 1
    else LastIndexOf(s[..|s| - 1], c)
  }

  /** The last occurrence is determined by the characters alone: any index
      holding `c` with no `c` after it is the one `LastIndexOf` returns. */
  lemma LastIndexOfIs(s: string, c: char, r: int)
    requires 0 <= r < |s| && s[r] == c
    requires forall k :: r < k < |s| ==> s[k] != c
    ensures LastIndexOf(s, c) == r
  {
  }

  /** Appending text free of `c` does not move the last occurrence of `c`. */
  lemma LastIndexOfAppend(a: string, b: string, c: char)
    requires forall k :: 0 <= k < |b| ==> b[k] != c
    ensures LastIndexOf(a + b, c) == LastIndexOf(a, c)
  {
    var r := LastIndexOf(a, c);
    if r == -1 {
      assert forall k :: 0 <= k < |a + b| ==> (a + b)[k] != c by {
        forall k | 0 <= k < |a + b| ensures (a + b)[k] != c {
          if k < |a| { assert (a + b)[k] == a[k]; } else { assert (a + b)[k] == b[k - |a|]; }
        }
      }
    } else {
      assert (a + b)[r] == c;
      forall k | r < k < |a + b| ensures (a + b)[k] != c {
        if k < |a| { assert (a + b)[k] == a[k]; } else { assert (a + b)[k] == b[k - |a|]; }
      }
      LastIndexOfIs(a + b, c, r);
    }
  }
}
