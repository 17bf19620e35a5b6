/**
 * The pieces of Python's string and POSIX path library that model.py relies on:
 * `str.split` with a one-character separator, the last element of such a split,
 * `os.path.basename`, `os.path.join` and `str.lower`.
 */
module PyStrings {

  /** `s` ends with `tail`. */
  predicate EndsWith(s: string, tail: string) {
    |tail| <= |s| && s[|s| - |tail|..] == tail
  }

  lemma EndsWithTrans(a: string, b: string, c: string)
    requires EndsWith(a, b) && EndsWith(b, c)
    ensures EndsWith(a, c)
  {
    assert a[|a| - |c|..] == b[|b| - |c|..];
  }

  lemma EndsWithAppend(s: string, t: string, ext: string)
    requires EndsWith(s, t)
    ensures EndsWith(s + ext, t + ext)
  {
    assert (s + ext)[|s + ext| - |t + ext|..] == s[|s| - |t|..] + ext;
  }

  // ---------------------------------------------------------------------------
  // str.split(sep) for a one-character separator
  // ---------------------------------------------------------------------------

  /**
   * Python's `s.split(sep)`: the pieces between consecutive separators, so a
   * string with k separators splits into k + 1 pieces (the empty string gives [""]).
   */
  function Split(s: string, sep: char): (parts: seq<string>)
    ensures |parts| >= 1
    decreases |s|
  {
    if s == [] then [[]]
    else
      var rest := Split(s[1..], sep);
      if s[0] == sep then [[]] + rest
      else [[s[0]] + rest[0]] + rest[1..]
  }

  /** Python's `sep.join(parts)`. */
  function Join(parts: seq<string>, sep: char): string
    requires |parts| >= 1
    decreases |parts|
  {
    if |parts| == 1 then parts[0] else parts[0] + [sep] + Join(parts[1..], sep)
  }

  /** Joining the pieces of a split with the same separator gives back the string. */
  lemma {:induction false} SplitJoin(s: string, sep: char)
    ensures Join(Split(s, sep), sep) == s
    decreases |s|
  {
    if s != [] {
      SplitJoin(s[1..], sep);
      var rest := Split(s[1..], sep);
      if s[0] == sep {
        assert ([[]] + rest)[1..] == rest;
      } else if |rest| > 1 {
        assert ([[s[0]] + rest[0]] + rest[1..])[1..] == rest[1..];
      }
      assert s == [s[0]] + s[1..];
    }
  }

  /** No piece of a split contains the separator. */
  lemma {:induction false} SplitPiecesFree(s: string, sep: char)
    ensures forall i :: 0 <= i < |Split(s, sep)| ==> sep !in Split(s, sep)[i]
    decreases |s|
  {
    if s != [] {
      SplitPiecesFree(s[1..], sep);
      var rest := Split(s[1..], sep);
      if s[0] != sep {
        assert sep !in [s[0]] + rest[0];
      }
    }
  }

  /** A split has exactly one more piece than the string has separators. */
  lemma {:induction false} SplitCount(s: string, sep: char)
    ensures |Split(s, sep)| == multiset(s)[sep] + 1
    decreases |s|
  {
    if s != [] {
      SplitCount(s[1..], sep);
      assert s == [s[0]] + s[1..];
      assert multiset(s) == multiset{s[0]} + multiset(s[1..]);
    }
  }

  // ---------------------------------------------------------------------------
  // The text after the last separator
  // ---------------------------------------------------------------------------

  /**
   * `t` is the last `sep`-delimited segment of `s`: a suffix of `s` free of
   * `sep` that is either all of `s` or directly preceded by `sep`.
   */
  predicate IsLastSegment(s: string, sep: char, t: string) {
    |t| <= |s| && t == s[|s| - |t|..] && sep !in t &&
    (|t| == |s| || s[|s| - |t| - 1] == sep)
  }

  /** The text after the last `sep` in `s`, or all of `s` when it has none. */
  function AfterLast(s: string, sep: char): (r: string)
    ensures IsLastSegment(s, sep, r)
    decreases |s|
  {
    if s == [] then []
    else if s[|s| - 1] == sep then []
    else AfterLast(s[..|s| - 1], sep) + [s[|s| - 1]]
  }

  /** The last segment of a string is unique, so IsLastSegment defines AfterLast. */
  lemma LastSegmentUnique(s: string, sep: char, t: string)
    requires IsLastSegment(s, sep, t)
    ensures t == AfterLast(s, sep)
  {
    var r := AfterLast(s, sep);
    if |t| < |r| {
      assert false;
    } else if |r| < |t| {
      assert false;
    }
  }

  /** A string free of the separator is its own last segment. */
  lemma AfterLastWhole(s: string, sep: char)
    requires sep !in s
    ensures AfterLast(s, sep) == s
  {
    var r := AfterLast(s, sep);
    if |r| < |s| {
      assert false;
    }
  }

  /** Whatever precedes the last separator does not matter. */
  lemma AfterLastAfterSep(x: string, n: string, sep: char)
    requires sep !in n
    ensures AfterLast(x + [sep] + n, sep) == n
  {
    var s := x + [sep] + n;
    assert s[|s| - |n|..] == n;
    assert s[|s| - |n| - 1] == sep;
    LastSegmentUnique(s, sep, n);
  }

  /** A separator-free ending of `s` survives into its last segment. */
  lemma AfterLastKeepsTail(s: string, tail: string, sep: char)
    requires EndsWith(s, tail) && sep !in tail
    ensures EndsWith(AfterLast(s, sep), tail)
  {
    var r := AfterLast(s, sep);
    if |r| < |tail| {
      assert false;
    }
    assert r[|r| - |tail|..] == s[|s| - |tail|..];
  }

  /** Joining with a last piece split off: `sep.join(parts) == sep.join(parts[:-1]) + sep + parts[-1]`. */
  lemma {:induction false} JoinSnoc(parts: seq<string>, sep: char)
    requires |parts| >= 2
    ensures Join(parts, sep) == Join(parts[..|parts| - 1], sep) + [sep] + parts[|parts| - 1]
    decreases |parts|
  {
    var n := |parts|;
    if n == 2 {
      assert parts[1..] == [parts[1]];
    } else {
      var tail := parts[1..];
      JoinSnoc(tail, sep);
      assert parts[..n - 1][1..] == tail[..|tail| - 1];
      assert tail[|tail| - 1] == parts[n - 1];
    }
  }

  /** Of separator-free pieces joined by the separator, the last piece is the last segment. */
  lemma LastOfJoin(parts: seq<string>, s: string, sep: char)
    requires |parts| >= 1 && Join(parts, sep) == s
    requires forall i :: 0 <= i < |parts| ==> sep !in parts[i]
    ensures parts[|parts| - 1] == AfterLast(s, sep)
  {
    var n := |parts|;
    var last := parts[n - 1];
    if n == 1 {
      assert sep !in s;
      AfterLastWhole(s, sep);
    } else {
      var front := Join(parts[..n - 1], sep);
      assert s == front + [sep] + last by {
        JoinSnoc(parts, sep);
      }
      assert sep !in last;
      AfterLastAfterSep(front, last, sep);
    }
  }

  /** Python's `s.split(sep)[-1]` is the text after the last separator. */
  lemma LastOfSplit(s: string, sep: char)
    ensures var parts := Split(s, sep); parts[|parts| - 1] == AfterLast(s, sep)
  {
    SplitJoin(s, sep);
    SplitPiecesFree(s, sep);
    LastOfJoin(Split(s, sep), s, sep);
  }

  // ---------------------------------------------------------------------------
  // POSIX paths
  // ---------------------------------------------------------------------------

  /** `os.path.basename` on POSIX: everything after the last '/'. */
  function Basename(path: string): string {
    AfterLast(path, '/')
  }

  /** Two-argument `os.path.join` on POSIX. */
  function PathJoin(a: string, b: string): string {
    if |b| > 0 && b[0] == '/' then b
    else if a == [] || a[|a| - 1] == '/' then a + b
    else a + "/" + b
  }

  /** Joining a plain name onto any directory gives a path whose basename is that name. */
  lemma BasenameOfJoin(dir: string, name: string)
    requires '/' !in name
    ensures Basename(PathJoin(dir, name)) == name
  {
    if dir == [] {
      assert PathJoin(dir, name) == name;
      AfterLastWhole(name, '/');
    } else if dir[|dir| - 1] == '/' {
      var front := dir[..|dir| - 1];
      assert dir + name == front + ['/'] + name;
      AfterLastAfterSep(front, name, '/');
    } else {
      AfterLastAfterSep(dir, name, '/');
    }
  }

  // ---------------------------------------------------------------------------
  // str.lower
  // ---------------------------------------------------------------------------

  predicate IsUpper(ch: char) {
    'A' <= ch <= 'Z'
  }

  /** Lower-cases an ASCII capital letter and leaves every other character alone. */
  function LowerChar(ch: char): char {
    if IsUpper(ch) then (ch as int + 32) as char else ch
  }

  /** `s.lower()`, restricted to the ASCII letters. */
  function Lower(s: string): string {
    seq(|s|, i requires 0 <= i < |s| => LowerChar(s[i]))
  }

  /** The result of lower-casing has no capital letter, and lower-casing twice changes nothing more. */
  lemma LowerIdempotent(s: string)
    ensures forall i :: 0 <= i < |Lower(s)| ==> !IsUpper(Lower(s)[i])
    ensures Lower(Lower(s)) == Lower(s)
  {
  }

  /** Lower-casing keeps the length and preserves every character that is not a capital letter. */
  lemma LowerKeepsNonCapitals(s: string)
    ensures |Lower(s)| == |s|
    ensures forall i :: 0 <= i < |s| && !IsUpper(s[i]) ==> Lower(s)[i] == s[i]
  {
  }
}
