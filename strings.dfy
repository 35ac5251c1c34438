/**
 * The string primitives the scanner relies on: `str.lower()`, the `in`
 * substring test, `str.startswith`/`str.endswith`, and the two path helpers
 * `os.path.basename` and `os.path.join`.
 */
module Strings {

  /** `str.lower()` on one character; only the ASCII letters are mapped. */
  function LowerChar(c: char): char {
    if 'A' <= c <= 'Z' then (c as int + 32) as char else c
  }

  /** `str.lower()`: the character-wise lower-case form. */
  function LowerStr(s: string): string {
    seq(|s|, i requires 0 <= i < |s| => LowerChar(s[i]))
  }

  /**
   * `str.lower()` turns each upper-case ASCII letter into its lower-case
   * partner, keeps every other character, leaves no upper-case ASCII letter,
   * and is idempotent.
   */
  lemma LowerStrLowers(s: string)
    ensures |LowerStr(s)| == |s|
    ensures forall i :: 0 <= i < |s| && 'A' <= s[i] <= 'Z' ==> LowerStr(s)[i] == (s[i] as int + 32) as char
    ensures forall i :: 0 <= i < |s| ==> !('A' <= LowerStr(s)[i] <= 'Z')
    ensures forall i :: 0 <= i < |s| && !('A' <= s[i] <= 'Z') ==> LowerStr(s)[i] == s[i]
    ensures LowerStr(LowerStr(s)) == LowerStr(s)
  {
  }

  /** Lower-casing works character by character, so it distributes over concatenation. */
  lemma LowerStrAppend(a: string, b: string)
    ensures LowerStr(a + b) == LowerStr(a) + LowerStr(b)
  {
  }

  predicate StartsWith(s: string, prefix: string) {
    |prefix| <= |s| && s[..|prefix|] == prefix
  }

  predicate EndsWith(s: string, suffix: string) {
    |suffix| <= |s| && s[|s| - |suffix|..] == suffix
  }

  /** The window of `hay` that starts at `i` spells `needle`. */
  predicate OccursAt(hay: string, needle: string, i: int) {
    0 <= i <= |hay| - |needle| && hay[i..i + |needle|] == needle
  }

  /** `needle in hay` as a mathematical statement: some window of `hay` equals `needle`. */
  ghost predicate IsSubstring(needle: string, hay: string) {
    exists i :: OccursAt(hay, needle, i)
  }

  /** An occurrence in either part of a concatenation is an occurrence in the whole. */
  lemma SubstringInConcat(needle: string, a: string, b: string)
    ensures IsSubstring(needle, a) ==> IsSubstring(needle, a + b)
    ensures IsSubstring(needle, b) ==> IsSubstring(needle, a + b)
  {
    if IsSubstring(needle, a) {
      var i :| OccursAt(a, needle, i);
      assert (a + b)[i..i + |needle|] == a[i..i + |needle|];
      assert OccursAt(a + b, needle, i);
    }
    if IsSubstring(needle, b) {
      var i :| OccursAt(b, needle, i);
      assert (a + b)[|a| + i..|a| + i + |needle|] == b[i..i + |needle|];
      assert OccursAt(a + b, needle, |a| + i);
    }
  }

  /** Python's `needle in hay` for strings, searching left to right. */
  function Contains(hay: string, needle: string): (found: bool)
    ensures found <==> IsSubstring(needle, hay)
    decreases |hay|
  {
    if StartsWith(hay, needle) then
      assert OccursAt(hay, needle, 0);
      true
    else if |hay| == 0 then
      false
    else
      var found := Contains(hay[1..], needle);
      assert found ==> IsSubstring(needle, hay) by {
        if found {
          var i :| OccursAt(hay[1..], needle, i);
          assert hay[i + 1..i + 1 + |needle|] == hay[1..][i..i + |needle|];
          assert OccursAt(hay, needle, i + 1);
        }
      }
      assert IsSubstring(needle, hay) ==> found by {
        if IsSubstring(needle, hay) {
          var i :| OccursAt(hay, needle, i);
          assert i != 0;
          assert hay[1..][i - 1..i - 1 + |needle|] == hay[i..i + |needle|];
          assert OccursAt(hay[1..], needle, i - 1);
        }
      }
      found
  }

  /**
   * `os.path.basename`: everything after the last `/`. The result holds no
   * `/` and, when shorter than the path, follows a `/` (it is a suffix of the
   * path: `BasenameIsSuffix`).
   */
  function Basename(path: string): (name: string)
    ensures '/' !in name
    ensures |name| <= |path|
    ensures |name| < |path| ==> path[|path| - |name| - 1] == '/'
  {
    if |path| == 0 || path[|path| - 1] == '/' then ""
    else Basename(path[..|path| - 1]) + [path[|path| - 1]]
  }

  /** The basename is the tail of the path, so it is the longest `/`-free suffix. */
  lemma {:induction false} BasenameIsSuffix(path: string)
    ensures Basename(path) == path[|path| - |Basename(path)|..]
  {
    if |path| > 0 && path[|path| - 1] != '/' {
      var front := path[..|path| - 1];
      BasenameIsSuffix(front);
      assert path[|path| - |Basename(path)|..] == front[|front| - |Basename(front)|..] + [path[|path| - 1]];
    }
  }

  /** `os.path.join(dir, name)` for two components. */
  function PathJoin(dir: string, name: string): string {
    if |name| > 0 && name[0] == '/' then name
    else if dir == "" || dir[|dir| - 1] == '/' then dir + name
    else dir + "/" + name
  }

  /**
   * `os.path.join(dir, name)` ends with `name`; an absolute `name` replaces
   * `dir`, otherwise the result is `dir`, a `/` if `dir` does not already end
   * in one, and `name`.
   */
  lemma PathJoinParts(dir: string, name: string)
    ensures EndsWith(PathJoin(dir, name), name)
    ensures |name| > 0 && name[0] == '/' ==> PathJoin(dir, name) == name
    ensures !(|name| > 0 && name[0] == '/') ==>
      && StartsWith(PathJoin(dir, name), dir)
      && |dir| + |name| <= |PathJoin(dir, name)| <= |dir| + |name| + 1
      && (|PathJoin(dir, name)| > |dir| + |name| ==> PathJoin(dir, name)[|dir|] == '/')
    ensures !(|name| > 0 && name[0] == '/') ==>
      (|PathJoin(dir, name)| == |dir| + |name| + 1 <==> dir != "" && dir[|dir| - 1] != '/')
  {
    var r := PathJoin(dir, name);
    if !(|name| > 0 && name[0] == '/') {
      if dir == "" || dir[|dir| - 1] == '/' {
        assert r == dir + name;
        assert r[..|dir|] == dir;
        assert r[|r| - |name|..] == name;
      } else {
        assert r == dir + "/" + name;
        assert r[..|dir|] == dir;
        assert r[|r| - |name|..] == name;
      }
    }
  }

  /** Joining a directory and a plain file name, then taking the basename, gives the name back. */
  lemma BasenameOfJoin(dir: string, name: string)
    requires '/' !in name
    ensures Basename(PathJoin(dir, name)) == name
  {
    var prefix := if dir == "" || dir[|dir| - 1] == '/' then dir else dir + "/";
    var p := prefix + name;
    assert PathJoin(dir, name) == p;
    assert prefix == [] || prefix[|prefix| - 1] == '/';
    var b := Basename(p);
    BasenameIsSuffix(p);
    assert p[|prefix|..] == name;
    assert |b| == |name|;
  }
}
