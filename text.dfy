/** String helpers used by both the backend (file extensions) and the
    frontend (case-insensitive search). Only ASCII letters are case-mapped. */
module Text {

  function LowerChar(c: char): (r: char)
    ensures 'A' <= c <= 'Z' ==> 'a' <= r <= 'z'
    ensures !('A' <= c <= 'Z') ==> r == c
  {
    if 'A' <= c <= 'Z' then (c as int - 'A' as int + 'a' as int) as char else c
  }

  /** Python's `str.lower()` and JavaScript's `toLowerCase()`, on ASCII. */
  function Lower(s: string): (r: string)
    ensures |r| == |s|
    ensures forall i :: 0 <= i < |s| ==> r[i] == LowerChar(s[i])
  {
    if s == [] then [] else [LowerChar(s[0])] + Lower(s[1..])
  }

  /** Lower-casing twice is lower-casing once. */
  lemma LowerIdempotent(s: string)
    ensures Lower(Lower(s)) == Lower(s)
  {
  }

  /** `needle` occurs in `s` starting at offset `i`. */
  predicate OccursAt(s: string, needle: string, i: int)
  {
    0 <= i <= |s| - |needle| && s[i..i + |needle|] == needle
  }

  /** JavaScript's `s.includes(needle)`. */
  function Contains(s: string, needle: string): (b: bool)
    ensures b <==> exists i :: OccursAt(s, needle, i)
    decreases |s|
  {
    if |needle| <= |s| && s[..|needle|] == needle then
      assert OccursAt(s, needle, 0);
      true
    else if s == [] then
      false
    else
      var b := Contains(s[1..], needle);
      assert b ==> exists i :: OccursAt(s, needle, i) by {
        if b {
          var j :| OccursAt(s[1..], needle, j);
          assert s[j + 1..j + 1 + |needle|] == s[1..][j..j + |needle|];
          assert OccursAt(s, needle, j + 1);
        }
      }
      assert (exists i :: OccursAt(s, needle, i)) ==> b by {
        if exists i :: OccursAt(s, needle, i) {
          var i :| OccursAt(s, needle, i);
          assert i != 0;
          assert s[1..][i - 1..i - 1 + |needle|] == s[i..i + |needle|];
          assert OccursAt(s[1..], needle, i - 1);
        }
      }
      b
  }

  /** Python's `s.split(sep)[-1]` for a one-character separator: the text
      after the last `sep`, or all of `s` when `sep` does not occur. */
  function AfterLast(s: string, sep: char): (r: string)
    ensures sep !in r
    ensures |r| <= |s| && r == s[|s| - |r|..]
    ensures r == s || s[|s| - |r| - 1] == sep
  {
    if s == [] then []
    else if s[|s| - 1] == sep then []
    else AfterLast(s[..|s| - 1], sep) + [s[|s| - 1]]
  }

  /** Lower-casing works character by character, so it distributes over
      concatenation. */
  lemma {:induction false} LowerAppend(a: string, b: string)
    ensures Lower(a + b) == Lower(a) + Lower(b)
  {
    if a == [] {
      assert a + b == b;
    } else {
      assert (a + b)[1..] == a[1..] + b;
      LowerAppend(a[1..], b);
    }
  }

  /** Characters other than ASCII letters appear in the lower-cased text
      exactly where they appeared before. */
  lemma LowerKeepsOther(s: string, c: char)
    requires !('A' <= c <= 'Z') && !('a' <= c <= 'z')
    ensures c in Lower(s) <==> c in s
  {
    if c in Lower(s) {
      var i :| 0 <= i < |s| && Lower(s)[i] == c;
      assert s[i] == c;
    }
    if c in s {
      var i :| 0 <= i < |s| && s[i] == c;
      assert Lower(s)[i] == c;
    }
  }

  /** The text after the last separator is whatever follows the separator
      that is appended last. */
  lemma {:induction false} AfterLastJoin(a: string, sep: char, b: string)
    requires sep !in b
    ensures AfterLast(a + [sep] + b, sep) == b
  {
    var s := a + [sep] + b;
    if b == [] {
      assert s[|s| - 1] == sep;
    } else {
      var b' := b[..|b| - 1];
      assert s[..|s| - 1] == a + [sep] + b';
      assert b[|b| - 1] in b;
      AfterLastJoin(a, sep, b');
      assert b' + [b[|b| - 1]] == b;
    }
  }
}
