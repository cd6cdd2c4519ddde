/** File paths as strings, and the parts of a path the organizer looks at:
    the final name component, its stem and its suffix, and lower-casing. */
module Paths {

  type Path = string

  /** Index of the last occurrence of `c` among the first `n` characters of
      `s`, or -1 when there is none. */
  function LastIndexBefore(s: string, c: char, n: nat): (i: int)
    requires n <= |s|
    ensures -1 <= i < n
  {
    if n == 0 then -1
    else if s[n - 1] == c then n - 1
    else LastIndexBefore(s, c, n - 1)
  }

  /** Index of the last occurrence of `c` in `s`, or -1 when there is none
      (the behaviour of Python's `str.rfind`). */
  function LastIndexOf(s: string, c: char): (i: int)
    ensures -1 <= i < |s|
  {
    LastIndexBefore(s, c, |s|)
  }

  /** The index found holds `c`, and no later position before `n` does. */
  lemma {:induction false} LastIndexBeforeSpec(s: string, c: char, n: nat)
    requires n <= |s|
    ensures LastIndexBefore(s, c, n) >= 0 ==> s[LastIndexBefore(s, c, n)] == c
    ensures forall j :: LastIndexBefore(s, c, n) < j < n ==> s[j] != c
  {
    if n > 0 && s[n - 1] != c {
      LastIndexBeforeSpec(s, c, n - 1);
    }
  }

  /** The index found holds `c`, and no later position does. */
  lemma LastIndexOfSpec(s: string, c: char)
    ensures LastIndexOf(s, c) >= 0 ==> s[LastIndexOf(s, c)] == c
    ensures forall j :: LastIndexOf(s, c) < j < |s| ==> s[j] != c
  {
    LastIndexBeforeSpec(s, c, |s|);
  }

  /** The final component of a path: the characters after the last '/'. */
  function FileName(p: Path): string
  {
    if p == [] || p[|p| - 1] == '/' then []
    else FileName(p[..|p| - 1]) + [p[|p| - 1]]
  }

  /** The final component is the longest tail of the path without a '/':
      it holds no '/', it ends the path, and the character before it, if
      any, is a '/'. */
  lemma {:induction false} FileNameSpec(p: Path)
    ensures |FileName(p)| <= |p|
    ensures forall k :: 0 <= k < |FileName(p)| ==>
      FileName(p)[k] == p[|p| - |FileName(p)| + k] && FileName(p)[k] != '/'
    ensures |FileName(p)| < |p| ==> p[|p| - |FileName(p)| - 1] == '/'
  {
    if p != [] && p[|p| - 1] != '/' {
      var p' := p[..|p| - 1];
      FileNameSpec(p');
      assert FileName(p) == FileName(p') + [p[|p| - 1]];
    }
  }

  /** Searching a prefix of `s` that is at least `n` long finds the same
      index among the first `n` characters as searching `s` itself. */
  lemma {:induction false} LastIndexBeforePrefix(s: string, c: char, n: nat, m: nat)
    requires n <= m <= |s|
    ensures LastIndexBefore(s[..m], c, n) == LastIndexBefore(s, c, n)
  {
    if n > 0 {
      assert s[..m][n - 1] == s[n - 1];
      if s[n - 1] != c {
        LastIndexBeforePrefix(s, c, n - 1, m);
      }
    }
  }

  /** The final component starts right after the last '/' of the path, as
      located by a reverse search. */
  lemma {:induction false} FileNameAfterLastSlash(p: Path)
    ensures FileName(p) == p[LastIndexOf(p, '/') + 1..]
  {
    if p != [] && p[|p| - 1] != '/' {
      var p' := p[..|p| - 1];
      FileNameAfterLastSlash(p');
      LastIndexBeforePrefix(p, '/', |p| - 1, |p| - 1);
      var j := LastIndexOf(p', '/');
      assert p[j + 1..] == p'[j + 1..] + [p[|p| - 1]];
    }
  }

  /** Whether a dot at index `i` of `name` separates a suffix: it must be
      neither the first nor the last character. */
  predicate SplitsAt(name: string, i: int)
  {
    0 < i < |name| - 1
  }

  /** The stem of a name component: the name without its suffix. */
  function NameStem(name: string): string
  {
    var i := LastIndexOf(name, '.');
    if SplitsAt(name, i) then name[..i] else name
  }

  /** The suffix of a name component: from the last dot on, dot included,
      when that dot is neither the first nor the last character; otherwise empty. */
  function NameSuffix(name: string): string
  {
    var i := LastIndexOf(name, '.');
    if SplitsAt(name, i) then name[i..] else []
  }

  /** The stem of a path (`Path.stem`): the name the organizer matches on. */
  function Stem(p: Path): string
  {
    NameStem(FileName(p))
  }

  /** The suffix of a path (`Path.suffix`): what decides its file type. */
  function Suffix(p: Path): string
  {
    NameSuffix(FileName(p))
  }

  /** The stem followed by the suffix is the name again; a non-empty suffix
      is a dot followed by at least one character and no further dot, after a
      non-empty stem; the suffix is empty only when every dot strictly inside
      the name is followed by a later dot. */
  lemma NameSplit(name: string)
    ensures NameStem(name) + NameSuffix(name) == name
    ensures NameSuffix(name) != [] ==>
      && |NameSuffix(name)| >= 2
      && NameSuffix(name)[0] == '.'
      && '.' !in NameSuffix(name)[1..]
      && NameStem(name) != []
    ensures NameSuffix(name) == [] ==>
      forall i :: 0 < i < |name| - 1 && name[i] == '.' ==>
        exists j :: i < j < |name| && name[j] == '.'
  {
    var i := LastIndexOf(name, '.');
    LastIndexOfSpec(name, '.');
    if SplitsAt(name, i) {
      assert name[i..][1..] == name[i + 1..];
      assert name == name[..i] + name[i..];
    } else {
      forall k | 0 < k < |name| - 1 && name[k] == '.'
        ensures exists j :: k < j < |name| && name[j] == '.'
      {
        assert k <= i;
        assert k != i;
      }
    }
  }

  /** A character absent from a name is absent from its stem and its suffix. */
  lemma NamePartsWithout(name: string, c: char)
    requires c !in name
    ensures c !in NameStem(name) && c !in NameSuffix(name)
  {
    NameSplit(name);
    assert forall k :: 0 <= k < |NameStem(name)| ==> NameStem(name)[k] == name[k];
    assert forall k :: 0 <= k < |NameSuffix(name)| ==>
      NameSuffix(name)[k] == name[|NameStem(name)| + k];
  }

  /** Stem and suffix of a path split its final component, and neither holds a '/'. */
  lemma StemSuffixSplit(p: Path)
    ensures Stem(p) + Suffix(p) == FileName(p)
    ensures '/' !in Stem(p) && '/' !in Suffix(p)
  {
    NameSplit(FileName(p));
    FileNameSpec(p);
    assert '/' !in FileName(p);
    NamePartsWithout(FileName(p), '/');
  }

  /** ASCII lower-casing of one character. */
  function LowerChar(c: char): char
  {
    if 'A' <= c <= 'Z' then (c as int - 'A' as int + 'a' as int) as char else c
  }

  /** Lower-casing of a string, character by character (`str.lower` on ASCII). */
  function Lower(s: string): string
  {
    if s == [] then [] else Lower(s[..|s| - 1]) + [LowerChar(s[|s| - 1])]
  }

  /** Lower-casing keeps the length and lower-cases each character in place. */
  lemma {:induction false} LowerAt(s: string)
    ensures |Lower(s)| == |s|
    ensures forall i :: 0 <= i < |s| ==> Lower(s)[i] == LowerChar(s[i])
  {
    if s != [] {
      LowerAt(s[..|s| - 1]);
    }
  }
}
