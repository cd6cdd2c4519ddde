/** Order-preserving selection from a list of paths, and the subsequence
    relation it establishes. The tests a selection applies are first-order
    values (`Criterion`), one per test the organizer performs. */
module Filtering {
  import opened Paths
  import opened FileTypes

  /** A test on a path. */
  datatype Criterion =
    | OfClass(cls: FileClass)          // the file is of class `cls`
    | StemOutside(stems: set<string>)  // the file's stem is not in `stems`
    | Among(paths: set<Path>)          // the path is in `paths`
    | NotAmong(paths: set<Path>)       // the path is not in `paths`

  /** Whether `p` passes the test `c`. */
  predicate Keep(c: Criterion, p: Path)
  {
    match c
    case OfClass(k) => ClassOf(p) == k
    case StemOutside(stems) => Stem(p) !in stems
    case Among(ps) => p in ps
    case NotAmong(ps) => p !in ps
  }

  /** The elements of `s` that satisfy `keep`, in their order in `s`,
      duplicates kept. */
  function Filter(s: seq<Path>, keep: Criterion): seq<Path>
  {
    if s == [] then []
    else Filter(s[..|s| - 1], keep) + (if Keep(keep, s[|s| - 1]) then [s[|s| - 1]] else [])
  }

  /** `a` is obtained from `b` by deleting elements, without reordering. */
  predicate IsSubsequence(a: seq<Path>, b: seq<Path>)
    decreases |b|
  {
    if a == [] then true
    else if b == [] then false
    else if a[|a| - 1] == b[|b| - 1] then IsSubsequence(a[..|a| - 1], b[..|b| - 1])
    else IsSubsequence(a, b[..|b| - 1])
  }

  /** Every sequence is a subsequence of itself. */
  lemma {:induction false} SubsequenceReflexive(s: seq<Path>)
    ensures IsSubsequence(s, s)
    decreases |s|
  {
    if s != [] {
      SubsequenceReflexive(s[..|s| - 1]);
    }
  }

  /** Appending to the longer side keeps the relation. */
  lemma {:induction false} SubsequenceExtend(a: seq<Path>, b: seq<Path>, x: Path)
    requires IsSubsequence(a, b)
    ensures IsSubsequence(a, b + [x])
    decreases |a| + |b|, 1
  {
    var b' := b + [x];
    assert b'[..|b'| - 1] == b;
    if a != [] && a[|a| - 1] == x {
      SubsequenceDropLast(a, b);
    }
  }

  /** Dropping the last element of the shorter side keeps the relation. */
  lemma {:induction false} SubsequenceDropLast(a: seq<Path>, b: seq<Path>)
    requires a != [] && IsSubsequence(a, b)
    ensures IsSubsequence(a[..|a| - 1], b)
    decreases |a| + |b|, 0
  {
    var a', b' := a[..|a| - 1], b[..|b| - 1];
    assert b == b' + [b[|b| - 1]];
    if a[|a| - 1] == b[|b| - 1] {
      SubsequenceExtend(a', b', b[|b| - 1]);
    } else {
      SubsequenceDropLast(a, b');
      SubsequenceExtend(a', b', b[|b| - 1]);
    }
  }

  /** Unfolding Filter at the end of a sequence. */
  lemma FilterSnoc(s: seq<Path>, x: Path, keep: Criterion)
    ensures Filter(s + [x], keep) == Filter(s, keep) + (if Keep(keep, x) then [x] else [])
  {
    assert (s + [x])[..|s + [x]| - 1] == s;
  }

  /** Appending the same element to both sides keeps the relation. */
  lemma SubsequenceSnoc(a: seq<Path>, b: seq<Path>, x: Path)
    requires IsSubsequence(a, b)
    ensures IsSubsequence(a + [x], b + [x])
  {
    var a', b' := a + [x], b + [x];
    assert a'[..|a'| - 1] == a && b'[..|b'| - 1] == b;
  }

  /** The selection keeps the order of the input. */
  lemma {:induction false} FilterIsSubsequence(s: seq<Path>, keep: Criterion)
    ensures IsSubsequence(Filter(s, keep), s)
    decreases |s|
  {
    if s != [] {
      var s', x := s[..|s| - 1], s[|s| - 1];
      assert s == s' + [x];
      FilterIsSubsequence(s', keep);
      if Keep(keep, x) {
        assert Filter(s, keep) == Filter(s', keep) + [x];
        SubsequenceSnoc(Filter(s', keep), s', x);
      } else {
        assert Filter(s, keep) == Filter(s', keep);
        SubsequenceExtend(Filter(s', keep), s', x);
      }
    }
  }

  /** Every element that passes occurs as often as in the input; every
      other element not at all. */
  lemma {:induction false} FilterCount(s: seq<Path>, keep: Criterion, x: Path)
    ensures multiset(Filter(s, keep))[x] == if Keep(keep, x) then multiset(s)[x] else 0
    decreases |s|
  {
    if s != [] {
      var s', y := s[..|s| - 1], s[|s| - 1];
      assert s == s' + [y];
      FilterCount(s', keep, x);
      var tail := if Keep(keep, y) then [y] else [];
      assert Filter(s, keep) == Filter(s', keep) + tail;
      assert multiset(Filter(s, keep)) == multiset(Filter(s', keep)) + multiset(tail);
      assert multiset(s) == multiset(s') + multiset{y};
    }
  }

  /** An element is selected exactly when it is in the input and passes. */
  lemma FilterMembership(s: seq<Path>, keep: Criterion, x: Path)
    ensures x in Filter(s, keep) <==> x in s && Keep(keep, x)
  {
    FilterCount(s, keep, x);
    assert x in Filter(s, keep) <==> multiset(Filter(s, keep))[x] > 0;
    assert x in s <==> multiset(s)[x] > 0;
  }

  lemma {:induction false} FilterLength(s: seq<Path>, keep: Criterion)
    ensures |Filter(s, keep)| <= |s|
    decreases |s|
  {
    if s != [] {
      FilterLength(s[..|s| - 1], keep);
    }
  }

  /** When every element passes, the selection is the whole input. */
  lemma {:induction false} FilterAllKept(s: seq<Path>, keep: Criterion)
    requires forall x :: x in s ==> Keep(keep, x)
    ensures Filter(s, keep) == s
    decreases |s|
  {
    if s != [] {
      var s' := s[..|s| - 1];
      assert s == s' + [s[|s| - 1]];
      FilterAllKept(s', keep);
    }
  }

  /** Two selections applied one after the other commute. */
  lemma {:induction false} FilterCommute(s: seq<Path>, k1: Criterion, k2: Criterion)
    ensures Filter(Filter(s, k1), k2) == Filter(Filter(s, k2), k1)
    decreases |s|
  {
    if s != [] {
      var s', x := s[..|s| - 1], s[|s| - 1];
      FilterCommute(s', k1, k2);
      var both := if Keep(k1, x) && Keep(k2, x) then [x] else [];
      if Keep(k1, x) {
        assert Filter(s, k1) == Filter(s', k1) + [x];
        FilterSnoc(Filter(s', k1), x, k2);
      } else {
        assert Filter(s, k1) == Filter(s', k1);
      }
      assert Filter(Filter(s, k1), k2) == Filter(Filter(s', k1), k2) + both;
      if Keep(k2, x) {
        assert Filter(s, k2) == Filter(s', k2) + [x];
        FilterSnoc(Filter(s', k2), x, k1);
      } else {
        assert Filter(s, k2) == Filter(s', k2);
      }
      assert Filter(Filter(s, k2), k1) == Filter(Filter(s', k2), k1) + both;
    }
  }

  /** Predicates that agree on every element of the input select the same elements. */
  lemma {:induction false} FilterAgree(s: seq<Path>, k1: Criterion, k2: Criterion)
    requires forall x :: x in s ==> (Keep(k1, x) <==> Keep(k2, x))
    ensures Filter(s, k1) == Filter(s, k2)
    decreases |s|
  {
    if s != [] {
      var s' := s[..|s| - 1];
      assert s == s' + [s[|s| - 1]];
      FilterAgree(s', k1, k2);
    }
  }
}
