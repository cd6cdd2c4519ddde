/** The JPEG and RAW lists of a scan, stem sets, and the orphans: the
    target files whose stem no anchor file has. */
module Selection {
  import opened Paths
  import opened FileTypes
  import opened Filtering

  /** The files of `s` of class `k`, in their order in `s`. */
  function FilesOfClass(s: seq<Path>, k: FileClass): seq<Path>
  {
    Filter(s, OfClass(k))
  }

  /** The distinct stems of a list of files. */
  function StemSet(files: seq<Path>): set<string>
  {
    if files == [] then {} else StemSet(files[..|files| - 1]) + {Stem(files[|files| - 1])}
  }

  /** A stem is in the stem set exactly when some file of the list has it. */
  lemma {:induction false} StemSetMembers(files: seq<Path>, b: string)
    ensures b in StemSet(files) <==> exists p :: p in files && Stem(p) == b
  {
    if files != [] {
      var files', x := files[..|files| - 1], files[|files| - 1];
      assert files == files' + [x];
      StemSetMembers(files', b);
      if b in StemSet(files') {
        var p :| p in files' && Stem(p) == b;
        assert p in files;
      }
      if exists p :: p in files && Stem(p) == b {
        var p :| p in files && Stem(p) == b;
        if p != x {
          assert p in files';
        }
      }
    }
  }

  /** Extending a list extends its stem set by the new file's stem. */
  lemma StemSetSnoc(files: seq<Path>, x: Path)
    ensures StemSet(files + [x]) == StemSet(files) + {Stem(x)}
  {
    assert (files + [x])[..|files + [x]| - 1] == files;
  }

  /** The target files whose stem is the stem of no anchor file. */
  function Orphans(anchors: seq<Path>, targets: seq<Path>): seq<Path>
  {
    Filter(targets, StemOutside(StemSet(anchors)))
  }

  /** Every file falls into exactly one of the JPEG, RAW and unclassified
      lists, as often as it occurs in the input. */
  lemma ClassificationCounts(s: seq<Path>)
    ensures multiset(FilesOfClass(s, Jpeg)) + multiset(FilesOfClass(s, Raw))
            + multiset(FilesOfClass(s, Other)) == multiset(s)
  {
    var sum := multiset(FilesOfClass(s, Jpeg)) + multiset(FilesOfClass(s, Raw))
               + multiset(FilesOfClass(s, Other));
    forall x ensures sum[x] == multiset(s)[x] {
      FilterCount(s, OfClass(Jpeg), x);
      FilterCount(s, OfClass(Raw), x);
      FilterCount(s, OfClass(Other), x);
    }
    assert sum == multiset(s);
  }

  /** A file is in the list of class `k` exactly when it is in the input and
      its lower-cased suffix is one of that class's suffixes; the list keeps
      the input's order. */
  lemma ClassificationMembers(s: seq<Path>)
    ensures forall x :: x in FilesOfClass(s, Jpeg) <==> x in s && Lower(Suffix(x)) in JpegExtensions
    ensures forall x :: x in FilesOfClass(s, Raw) <==> x in s && Lower(Suffix(x)) in RawExtensions
    ensures forall x :: x in FilesOfClass(s, Other) <==>
      (x in s && Lower(Suffix(x)) !in JpegExtensions + RawExtensions)
    ensures IsSubsequence(FilesOfClass(s, Jpeg), s) && IsSubsequence(FilesOfClass(s, Raw), s)
  {
    forall x ensures x in FilesOfClass(s, Jpeg) <==> x in s && Lower(Suffix(x)) in JpegExtensions {
      FilterMembership(s, OfClass(Jpeg), x);
      ClassOfExact(x);
    }
    forall x ensures x in FilesOfClass(s, Raw) <==> x in s && Lower(Suffix(x)) in RawExtensions {
      FilterMembership(s, OfClass(Raw), x);
      ClassOfExact(x);
    }
    forall x ensures x in FilesOfClass(s, Other) <==>
      (x in s && Lower(Suffix(x)) !in JpegExtensions + RawExtensions)
    {
      FilterMembership(s, OfClass(Other), x);
      ClassOfExact(x);
    }
    FilterIsSubsequence(s, OfClass(Jpeg));
    FilterIsSubsequence(s, OfClass(Raw));
  }

  /** No file is in both the JPEG and the RAW list. */
  lemma ClassesDisjoint(s: seq<Path>)
    ensures forall x :: !(x in FilesOfClass(s, Jpeg) && x in FilesOfClass(s, Raw))
  {
    forall x ensures !(x in FilesOfClass(s, Jpeg) && x in FilesOfClass(s, Raw)) {
      FilterMembership(s, OfClass(Jpeg), x);
      FilterMembership(s, OfClass(Raw), x);
    }
  }

  /** Soundness and completeness: a file is an orphan exactly when it is a
      target and no anchor shares its stem; an orphan occurs as often as
      among the targets, and the orphans keep the targets' order. */
  lemma OrphansExact(anchors: seq<Path>, targets: seq<Path>)
    ensures forall t :: t in Orphans(anchors, targets) <==>
      (t in targets && forall a :: a in anchors ==> Stem(a) != Stem(t))
    ensures forall t ::
              multiset(Orphans(anchors, targets))[t] ==
              (if exists a :: a in anchors && Stem(a) == Stem(t) then 0 else multiset(targets)[t])
    ensures IsSubsequence(Orphans(anchors, targets), targets)
  {
    var keep := StemOutside(StemSet(anchors));
    forall t ensures t in Orphans(anchors, targets) <==>
      (t in targets && forall a :: a in anchors ==> Stem(a) != Stem(t))
    {
      FilterMembership(targets, keep, t);
      StemSetMembers(anchors, Stem(t));
    }
    forall t ensures multiset(Orphans(anchors, targets))[t] ==
      (if exists a :: a in anchors && Stem(a) == Stem(t) then 0 else multiset(targets)[t])
    {
      FilterCount(targets, keep, t);
      StemSetMembers(anchors, Stem(t));
    }
    FilterIsSubsequence(targets, keep);
  }

  /** With no anchors every target is an orphan; with no targets there are
      none; there are never more orphans than targets. */
  lemma OrphansEdgeCases(anchors: seq<Path>, targets: seq<Path>)
    ensures Orphans([], targets) == targets
    ensures Orphans(anchors, []) == []
    ensures |Orphans(anchors, targets)| <= |targets|
  {
    FilterAllKept(targets, StemOutside(StemSet([])));
    FilterLength(targets, StemOutside(StemSet(anchors)));
  }
}
