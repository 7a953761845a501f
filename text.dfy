/**
 * String primitives the URL scorer relies on: ASCII digit tests, ASCII
 * lower-casing, substring search (Python's `sub in s`) and the
 * non-overlapping occurrence count of `str.count`.
 */
module Text {

  /** `str.isdigit()` restricted to ASCII. */
  predicate IsDigit(c: char) {
    '0' <= c <= '9'
  }

  /** `str.lower()` on one character, restricted to ASCII letters. */
  function LowerChar(c: char): char {
    if 'A' <= c <= 'Z' then (c as int + 32) as char else c
  }

  /**
   * `str.lower()`, restricted to ASCII letters: no upper-case letter is
   * left, and every other character stays where it was.
   */
  function Lower(s: string): (r: string)
    ensures |r| == |s|
    ensures forall i | 0 <= i < |r| :: !('A' <= r[i] <= 'Z')
    ensures forall i | 0 <= i < |s| && !('A' <= s[i] <= 'Z') :: r[i] == s[i]
    ensures forall i | 0 <= i < |s| :: r[i] == LowerChar(s[i])
  {
    seq(|s|, i requires 0 <= i < |s| => LowerChar(s[i]))
  }

  /** Lower-casing twice is lower-casing once. */
  lemma LowerIdempotent(s: string)
    ensures Lower(Lower(s)) == Lower(s)
  {
  }

  /** `p` occurs in `s` starting at index `i`. */
  predicate OccursAt(s: string, p: string, i: int) {
    0 <= i && i + |p| <= |s| && s[i..i + |p|] == p
  }

  /** Python's `p in s` for strings. */
  predicate Contains(s: string, p: string) {
    exists i | 0 <= i <= |s| - |p| :: OccursAt(s, p, i)
  }

  /**
   * Python's `s.count(p)` for a non-empty `p`: occurrences are counted from
   * the left, and after each one the scan resumes just past it.
   */
  function Count(s: string, p: string): nat
    requires |p| > 0
    decreases |s|
  {
    if |s| < |p| then 0
    else if s[..|p|] == p then 1 + Count(s[|p|..], p)
    else Count(s[1..], p)
  }

  /** Two occurrences of `p` in `s` that do not overlap. */
  ghost predicate TwoApart(s: string, p: string) {
    exists i, j | 0 <= i && i + |p| <= j :: OccursAt(s, p, i) && OccursAt(s, p, j)
  }

  /** An occurrence in `s[k..]` is an occurrence in `s`, shifted by `k`. */
  lemma OccursShift(s: string, p: string, k: nat, i: int)
    requires k <= |s| && 0 <= i
    ensures OccursAt(s[k..], p, i) <==> OccursAt(s, p, i + k)
  {
    if 0 <= i && i + |p| <= |s| - k {
      assert s[k..][i..i + |p|] == s[i + k..i + k + |p|];
    }
  }

  /** What occurs in `s` still occurs once text is added before and after it. */
  lemma ContainsWithin(a: string, s: string, b: string, p: string)
    requires Contains(s, p)
    ensures Contains(a + s + b, p)
  {
    var i :| 0 <= i <= |s| - |p| && OccursAt(s, p, i);
    assert (a + s + b)[|a| + i..|a| + i + |p|] == s[i..i + |p|];
    assert OccursAt(a + s + b, p, |a| + i);
  }

  /** For a one-character string, substring containment is membership of that character. */
  lemma ContainsChar(s: string, c: char)
    ensures Contains(s, [c]) <==> c in s
  {
    if c in s {
      var i :| 0 <= i < |s| && s[i] == c;
      assert OccursAt(s, [c], i);
    }
    if Contains(s, [c]) {
      var i :| 0 <= i <= |s| - 1 && OccursAt(s, [c], i);
      assert s[i] == s[i..i + 1][0];
    }
  }

  /** `s.count(p) >= 1` exactly when `p in s`. */
  lemma {:induction false} CountPositive(s: string, p: string)
    requires |p| > 0
    ensures Count(s, p) >= 1 <==> Contains(s, p)
    decreases |s|
  {
    if |s| < |p| {
    } else if s[..|p|] == p {
      assert OccursAt(s, p, 0);
    } else {
      CountPositive(s[1..], p);
      if Contains(s, p) {
        var i :| 0 <= i <= |s| - |p| && OccursAt(s, p, i);
        assert i != 0;
        OccursShift(s, p, 1, i - 1);
      }
      if Contains(s[1..], p) {
        var i :| 0 <= i <= |s[1..]| - |p| && OccursAt(s[1..], p, i);
        OccursShift(s, p, 1, i);
      }
    }
  }

  /** When `s` starts with `p`, a second occurrence must lie in what follows the first. */
  lemma TwoApartAfterPrefix(s: string, p: string)
    requires 0 < |p| <= |s| && s[..|p|] == p
    ensures TwoApart(s, p) <==> Contains(s[|p|..], p)
  {
    var rest := s[|p|..];
    if Contains(rest, p) {
      var k :| 0 <= k <= |rest| - |p| && OccursAt(rest, p, k);
      OccursShift(s, p, |p|, k);
      assert OccursAt(s, p, 0);
    }
    if TwoApart(s, p) {
      var i, j :| 0 <= i && i + |p| <= j && OccursAt(s, p, i) && OccursAt(s, p, j);
      OccursShift(s, p, |p|, j - |p|);
    }
  }

  /** When `s` does not start with `p`, its non-overlapping pairs are those of `s[1..]`. */
  lemma TwoApartAfterMiss(s: string, p: string)
    requires 0 < |p| <= |s| && s[..|p|] != p
    ensures TwoApart(s, p) <==> TwoApart(s[1..], p)
  {
    var rest := s[1..];
    if TwoApart(rest, p) {
      var i, j :| 0 <= i && i + |p| <= j && OccursAt(rest, p, i) && OccursAt(rest, p, j);
      OccursShift(s, p, 1, i);
      OccursShift(s, p, 1, j);
    }
    if TwoApart(s, p) {
      var i, j :| 0 <= i && i + |p| <= j && OccursAt(s, p, i) && OccursAt(s, p, j);
      assert i != 0;
      OccursShift(s, p, 1, i - 1);
      OccursShift(s, p, 1, j - 1);
    }
  }

  /** `s.count(p) > 1` exactly when `p` occurs twice in `s` without overlap. */
  lemma {:induction false} CountAtLeastTwo(s: string, p: string)
    requires |p| > 0
    ensures Count(s, p) >= 2 <==> TwoApart(s, p)
    decreases |s|
  {
    if |s| < |p| {
    } else if s[..|p|] == p {
      CountPositive(s[|p|..], p);
      TwoApartAfterPrefix(s, p);
    } else {
      CountAtLeastTwo(s[1..], p);
      TwoApartAfterMiss(s, p);
    }
  }

  /** For a one-character pattern, `s.count(c)` is the number of `c`s in `s`. */
  lemma {:induction false} CountChar(s: string, c: char)
    ensures Count(s, [c]) == multiset(s)[c]
    decreases |s|
  {
    if s != [] {
      CountChar(s[1..], c);
      assert s == [s[0]] + s[1..];
      assert s[..1] == [s[0]];
    }
  }
}
