/** The organizer itself: discovery of the JPEG and RAW files of a scan,
    matching by stem, deletion of the orphaned files of the target kind, the
    accumulated list of deleted files, and the gating a command-line run
    applies before anything is deleted. */
module Organizer {
  import opened Paths
  import opened FileTypes
  import opened Filtering
  import opened Selection

  datatype Error = ValueError(message: string)

  datatype Result<T> = Ok(value: T) | Err(error: Error)

  /** Which kind of file anchors the run, which kind is pruned, and the
      labels used for both in reports. */
  datatype Roles = Roles(anchor: FileClass, target: FileClass, anchorName: string, targetName: string)

  const AnchorTypeMessage := "Anchor type must be 'jpg' or 'raw'"

  /** Role selection from the anchor type, compared case-insensitively:
      "jpg" anchors on the JPEG files and prunes RAW files, "raw" the reverse,
      and anything else is a ValueError. */
  function SelectRoles(anchorType: string): (r: Result<Roles>)
    ensures r.Ok? <==> Lower(anchorType) == "jpg" || Lower(anchorType) == "raw"
    ensures r.Err? ==> r.error == ValueError(AnchorTypeMessage)
    ensures r.Ok? ==> {r.value.anchor, r.value.target} == {Jpeg, Raw}
    ensures r.Ok? ==>
      r.value.anchorName == Label(r.value.anchor) && r.value.targetName == Label(r.value.target)
    ensures r.Ok? ==> (r.value.anchor == Jpeg <==> Lower(anchorType) == "jpg")
  {
    var t := Lower(anchorType);
    if t == "jpg" then Ok(Roles(Jpeg, Raw, "JPG", "RAW"))
    else if t == "raw" then Ok(Roles(Raw, Jpeg, "RAW", "JPG"))
    else Err(ValueError(AnchorTypeMessage))
  }

  /** The report label of a file kind. */
  function Label(k: FileClass): string
  {
    match k
    case Jpeg => "JPG"
    case Raw => "RAW"
    case Other => ""
  }

  /** What an organization pass returns: both lists, the orphans, the
      accumulated deletions and the two labels. */
  datatype Report = Report(
    anchorFiles: seq<Path>,
    targetFiles: seq<Path>,
    orphanedFiles: seq<Path>,
    deletedFiles: seq<Path>,
    anchorType: string,
    targetType: string)

  /** The effect of one organization pass: its result, the files whose
      removal it attempts, in order, and the new list of deleted files. */
  datatype Pass = Pass(result: Result<Report>, attempted: seq<Path>, deleted: seq<Path>)

  /** The list of the scan that holds files of kind `k`. */
  function ListOf(k: FileClass, jpg: seq<Path>, raw: seq<Path>): seq<Path>
  {
    if k == Jpeg then jpg else raw
  }

  /** An organization pass over the lists `jpg` and `raw`, with the deletions
      of earlier passes in `previous` and the files whose removal would
      succeed in `removable`. Deletion happens only outside a dry run and
      only when there are orphans. */
  function Organization(jpg: seq<Path>, raw: seq<Path>, anchorType: string, dryRun: bool,
                        previous: seq<Path>, removable: set<Path>): Pass
  {
    match SelectRoles(anchorType)
    case Err(e) => Pass(Err(e), [], previous)
    case Ok(roles) =>
      var anchors := ListOf(roles.anchor, jpg, raw);
      var targets := ListOf(roles.target, jpg, raw);
      var orphans := Orphans(anchors, targets);
      var live := orphans != [] && !dryRun;
      var deleted := previous + (if live then Filter(orphans, Among(removable)) else []);
      Pass(Ok(Report(anchors, targets, orphans, deleted, roles.anchorName, roles.targetName)),
           if live then orphans else [], deleted)
  }

  /** An invalid anchor type fails with a ValueError before anything is
      computed or deleted; "jpg" makes the JPEG list the anchors and the RAW
      list the targets, "raw" the reverse; the orphans reported are those of
      the targets with respect to the anchors. */
  lemma OrganizationRoles(jpg: seq<Path>, raw: seq<Path>, anchorType: string, dryRun: bool,
                          previous: seq<Path>, removable: set<Path>)
    ensures var o := Organization(jpg, raw, anchorType, dryRun, previous, removable);
      && (o.result.Err? <==> Lower(anchorType) != "jpg" && Lower(anchorType) != "raw")
      && (o.result.Err? ==>
            o.result.error == ValueError(AnchorTypeMessage) && o.attempted == [] && o.deleted == previous)
      && (Lower(anchorType) == "jpg" ==>
            o.result.Ok? && o.result.value.anchorFiles == jpg && o.result.value.targetFiles == raw
            && o.result.value.anchorType == "JPG" && o.result.value.targetType == "RAW")
      && (Lower(anchorType) == "raw" ==>
            o.result.Ok? && o.result.value.anchorFiles == raw && o.result.value.targetFiles == jpg
            && o.result.value.anchorType == "RAW" && o.result.value.targetType == "JPG")
      && (o.result.Ok? ==>
            o.result.value.orphanedFiles == Orphans(o.result.value.anchorFiles, o.result.value.targetFiles)
            && o.result.value.deletedFiles == o.deleted)
  {
  }

  /** The list of deleted files only grows: it is extended, by exactly the
      orphans whose removal succeeded, in a live pass that found orphans, and
      is unchanged otherwise. */
  lemma OrganizationAccumulates(jpg: seq<Path>, raw: seq<Path>, anchorType: string, dryRun: bool,
                                previous: seq<Path>, removable: set<Path>)
    ensures var o := Organization(jpg, raw, anchorType, dryRun, previous, removable);
      && |previous| <= |o.deleted| && o.deleted[..|previous|] == previous
      && (dryRun ==> o.deleted == previous)
      && (o.result.Ok? && o.result.value.orphanedFiles != [] && !dryRun ==>
            o.deleted == previous + Filter(o.result.value.orphanedFiles, Among(removable)))
      && (o.result.Ok? && o.result.value.orphanedFiles == [] ==> o.deleted == previous)
  {
    var o := Organization(jpg, raw, anchorType, dryRun, previous, removable);
    assert o.deleted[..|previous|] == previous;
  }

  /** Safety: a dry pass attempts no removal; a live pass attempts the
      removal of target files only, each an orphan, so never of an anchor file
      nor of a target whose stem some anchor has; whatever is recorded as
      newly deleted was attempted and succeeded. */
  lemma OrganizationSafety(jpg: seq<Path>, raw: seq<Path>, anchorType: string, dryRun: bool,
                           previous: seq<Path>, removable: set<Path>)
    ensures var o := Organization(jpg, raw, anchorType, dryRun, previous, removable);
      && (dryRun ==> o.attempted == [])
      && (o.result.Ok? ==>
            forall p :: p in o.attempted ==>
              p in o.result.value.targetFiles
              && forall a :: a in o.result.value.anchorFiles ==> Stem(a) != Stem(p))
      && (forall p :: p in o.deleted[|previous|..] ==> p in o.attempted && p in removable)
  {
    var o := Organization(jpg, raw, anchorType, dryRun, previous, removable);
    if o.result.Ok? {
      var anchors, targets := o.result.value.anchorFiles, o.result.value.targetFiles;
      OrphansExact(anchors, targets);
      var added := o.deleted[|previous|..];
      assert o.deleted == previous + added;
      forall p | p in added ensures p in o.attempted && p in removable {
        FilterMembership(o.result.value.orphanedFiles, Among(removable), p);
      }
    }
  }

  /** Safety at the level of the scan: a pass over the JPEG and RAW lists of
      a scan attempts to remove only JPEG or RAW files of the scan, each one a
      file for which no file of the other kind in the scan has the same stem. */
  lemma ScanSafety(scan: seq<Path>, anchorType: string, dryRun: bool,
                   previous: seq<Path>, removable: set<Path>)
    ensures var o := Organization(FilesOfClass(scan, Jpeg), FilesOfClass(scan, Raw), anchorType,
                                  dryRun, previous, removable);
      forall p :: p in o.attempted ==>
        && p in scan
        && ClassOf(p) != Other
        && forall q :: q in scan && ClassOf(q) != Other && ClassOf(q) != ClassOf(p) ==> Stem(q) != Stem(p)
  {
    var jpg, raw := FilesOfClass(scan, Jpeg), FilesOfClass(scan, Raw);
    var o := Organization(jpg, raw, anchorType, dryRun, previous, removable);
    OrganizationSafety(jpg, raw, anchorType, dryRun, previous, removable);
    forall p | p in o.attempted
      ensures && p in scan
              && ClassOf(p) != Other
              && forall q :: q in scan && ClassOf(q) != Other && ClassOf(q) != ClassOf(p) ==> Stem(q) != Stem(p)
    {
      var roles := SelectRoles(anchorType).value;
      FilterMembership(scan, OfClass(roles.target), p);
      forall q | q in scan && ClassOf(q) != Other && ClassOf(q) != ClassOf(p) ensures Stem(q) != Stem(p) {
        FilterMembership(scan, OfClass(roles.anchor), q);
      }
    }
  }

  /** Rescanning after a pass: when the files removed in a pass are gone
      from the scan, a second pass with the same roles finds as orphans
      exactly the orphans whose removal failed, in order. In particular a
      pass in which every removal succeeds leaves nothing to prune. */
  lemma {:induction false} RescanFindsFailedOrphans(files: seq<Path>, anchor: FileClass, target: FileClass,
                                                    removable: set<Path>)
    requires anchor != target
    ensures var orphans := Orphans(FilesOfClass(files, anchor), FilesOfClass(files, target));
      var removed := set p | p in orphans && p in removable;
      var rescan := Filter(files, NotAmong(removed));
      Orphans(FilesOfClass(rescan, anchor), FilesOfClass(rescan, target))
        == Filter(orphans, NotAmong(removable))
  {
    var anchors, targets := FilesOfClass(files, anchor), FilesOfClass(files, target);
    var stems := StemSet(anchors);
    var orphans := Orphans(anchors, targets);
    var removed := set p | p in orphans && p in removable;
    var rescan := Filter(files, NotAmong(removed));
    // The anchors are untouched: no removed file is of the anchor kind.
    FilterCommute(files, NotAmong(removed), OfClass(anchor));
    forall x | x in anchors ensures Keep(NotAmong(removed), x) {
      FilterMembership(files, OfClass(anchor), x);
      if x in removed {
        FilterMembership(targets, StemOutside(stems), x);
        FilterMembership(files, OfClass(target), x);
      }
    }
    FilterAllKept(anchors, NotAmong(removed));
    assert FilesOfClass(rescan, anchor) == anchors;
    // The targets lose the removed files, and so do their orphans.
    FilterCommute(files, NotAmong(removed), OfClass(target));
    FilterCommute(targets, NotAmong(removed), StemOutside(stems));
    forall x | x in orphans ensures Keep(NotAmong(removed), x) == Keep(NotAmong(removable), x) {
    }
    FilterAgree(orphans, NotAmong(removed), NotAmong(removable));
  }

  /** Everything a dry pass over the same lists reports, a live pass
      reports too, except that only the live pass deletes. */
  lemma DryRunMirrorsLiveRun(jpg: seq<Path>, raw: seq<Path>, anchorType: string,
                             previous: seq<Path>, removable: set<Path>)
    ensures var dry := Organization(jpg, raw, anchorType, true, previous, removable);
      var live := Organization(jpg, raw, anchorType, false, previous, removable);
      && dry.result.Ok? == live.result.Ok?
      && (dry.result.Ok? ==>
            dry.result.value.orphanedFiles == live.result.value.orphanedFiles
            && dry.result.value.deletedFiles == previous
            && live.attempted == live.result.value.orphanedFiles)
  {
  }

  /** A dry pass changes nothing, so repeating it over the same lists yields
      the same report, the same orphans and again no removal. */
  lemma DryRunIdempotent(jpg: seq<Path>, raw: seq<Path>, anchorType: string,
                         previous: seq<Path>, removable: set<Path>)
    ensures var first := Organization(jpg, raw, anchorType, true, previous, removable);
      && first.deleted == previous
      && first.attempted == []
      && Organization(jpg, raw, anchorType, true, first.deleted, removable) == first
  {
  }

  /** An organizer over one directory, holding the lists of its last scan and
      every file it has deleted so far. */
  class RawOrganizer {
    const inputDirectory: Path
    var jpgFiles: seq<Path>
    var rawFiles: seq<Path>
    var deletedFiles: seq<Path>

    constructor(directory: Path)
      ensures inputDirectory == directory
      ensures jpgFiles == [] && rawFiles == [] && deletedFiles == []
    {
      inputDirectory := directory;
      jpgFiles, rawFiles, deletedFiles := [], [], [];
    }

    /** Splits the files of a scan, in scan order, into the JPEG and the RAW
        files, dropping every other file, and records both lists. */
    method DiscoverFiles(scan: seq<Path>) returns (jpg: seq<Path>, raw: seq<Path>)
      modifies this`jpgFiles, this`rawFiles
      ensures jpg == FilesOfClass(scan, Jpeg) && raw == FilesOfClass(scan, Raw)
      ensures jpgFiles == jpg && rawFiles == raw
    {
      jpg, raw := [], [];
      for i := 0 to |scan|
        invariant jpg == FilesOfClass(scan[..i], Jpeg)
        invariant raw == FilesOfClass(scan[..i], Raw)
      {
        var p := scan[i];
        assert scan[..i + 1] == scan[..i] + [p];
        FilterSnoc(scan[..i], p, OfClass(Jpeg));
        FilterSnoc(scan[..i], p, OfClass(Raw));
        var ext := Lower(Suffix(p));
        if ext in JpegExtensions {
          jpg := jpg + [p];
        } else if ext in RawExtensions {
          raw := raw + [p];
        }
      }
      assert scan[..|scan|] == scan;
      jpgFiles, rawFiles := jpg, raw;
    }

    /** The stems that occur both among the anchor files and among the
        target files. */
    method FindMatches(anchors: seq<Path>, targets: seq<Path>) returns (matches: set<string>)
      ensures matches == StemSet(anchors) * StemSet(targets)
    {
      var anchorStems := StemSet(anchors);
      matches := {};
      for i := 0 to |targets|
        invariant matches == anchorStems * StemSet(targets[..i])
      {
        var b := Stem(targets[i]);
        assert targets[..i + 1] == targets[..i] + [targets[i]];
        StemSetSnoc(targets[..i], targets[i]);
        if b in anchorStems {
          matches := matches + {b};
        }
      }
      assert targets[..|targets|] == targets;
    }

    /** The target files, in order and with repetitions, whose stem no anchor
        file has. */
    method FindOrphanedFiles(anchors: seq<Path>, targets: seq<Path>) returns (orphaned: seq<Path>)
      ensures orphaned == Orphans(anchors, targets)
    {
      var matches := FindMatches(anchors, targets);
      orphaned := [];
      for i := 0 to |targets|
        invariant orphaned == Filter(targets[..i], StemOutside(matches))
      {
        var t := targets[i];
        assert targets[..i + 1] == targets[..i] + [t];
        FilterSnoc(targets[..i], t, StemOutside(matches));
        if Stem(t) !in matches {
          orphaned := orphaned + [t];
        }
      }
      assert targets[..|targets|] == targets;
      // For a target, being matched is the same as having an anchor's stem.
      forall t | t in targets
        ensures Keep(StemOutside(matches), t) == Keep(StemOutside(StemSet(anchors)), t)
      {
        StemSetMembers(targets, Stem(t));
      }
      FilterAgree(targets, StemOutside(matches), StemOutside(StemSet(anchors)));
    }

    /** Deletes `files` one by one. A dry run records every file and removes
        none; a live run attempts every file, in order, records those whose
        removal succeeded (those in `removable`) and goes on after a failure. */
    method DeleteFiles(files: seq<Path>, dryRun: bool, removable: set<Path>)
      returns (deleted: seq<Path>, attempted: seq<Path>)
      ensures dryRun ==> deleted == files && attempted == []
      ensures !dryRun ==> deleted == Filter(files, Among(removable)) && attempted == files
      ensures IsSubsequence(deleted, files) && |deleted| <= |files|
      ensures forall p :: p in deleted <==> p in files && (dryRun || p in removable)
    {
      deleted, attempted := [], [];
      for i := 0 to |files|
        invariant deleted == if dryRun then files[..i] else Filter(files[..i], Among(removable))
        invariant attempted == if dryRun then [] else files[..i]
      {
        var p := files[i];
        assert files[..i + 1] == files[..i] + [p];
        FilterSnoc(files[..i], p, Among(removable));
        if !dryRun {
          attempted := attempted + [p];
          if p in removable {
            deleted := deleted + [p];
          }
        } else {
          deleted := deleted + [p];
        }
      }
      assert files[..|files|] == files;
      if dryRun {
        SubsequenceReflexive(files);
      } else {
        FilterIsSubsequence(files, Among(removable));
        FilterLength(files, Among(removable));
        forall p ensures p in deleted <==> p in files && p in removable {
          FilterMembership(files, Among(removable), p);
        }
      }
    }

    /** One organization pass over the lists of the last scan. */
    method OrganizeFiles(anchorType: string, dryRun: bool, removable: set<Path>)
      returns (r: Result<Report>, attempted: seq<Path>)
      modifies this`deletedFiles
      ensures var o := Organization(jpgFiles, rawFiles, anchorType, dryRun, old(deletedFiles), removable);
        r == o.result && attempted == o.attempted && deletedFiles == o.deleted
    {
      var anchors, targets, anchorName, targetName;
      var t := Lower(anchorType);
      if t == "jpg" {
        anchors, targets, anchorName, targetName := jpgFiles, rawFiles, "JPG", "RAW";
      } else if t == "raw" {
        anchors, targets, anchorName, targetName := rawFiles, jpgFiles, "RAW", "JPG";
      } else {
        return Err(ValueError(AnchorTypeMessage)), [];
      }
      // The roles picked here are those of SelectRoles.
      ghost var roles := SelectRoles(anchorType).value;
      assert anchors == ListOf(roles.anchor, jpgFiles, rawFiles);
      assert targets == ListOf(roles.target, jpgFiles, rawFiles);
      var orphaned := FindOrphanedFiles(anchors, targets);
      attempted := [];
      if orphaned != [] {
        if !dryRun {
          var deleted;
          deleted, attempted := DeleteFiles(orphaned, false, removable);
          deletedFiles := deletedFiles + deleted;
        }
      }
      r := Ok(Report(anchors, targets, orphaned, deletedFiles, anchorName, targetName));
      // The report is the one Organization describes, field by field.
      ghost var o := Organization(jpgFiles, rawFiles, anchorType, dryRun, old(deletedFiles), removable);
      assert o.result.Ok?;
      assert o.result.value.anchorFiles == anchors;
      assert o.result.value.targetFiles == targets;
      assert o.result.value.orphanedFiles == orphaned;
      assert o.result.value.deletedFiles == deletedFiles;
      assert o.result.value.anchorType == anchorName;
      assert o.result.value.targetType == targetName;
    }
  }

  /** How a command-line run ends. */
  datatype RunOutcome = NothingFound | Cancelled | Completed(report: Report) | Failed(error: Error)

  /** A command-line run over the files of a scan: stop when there is neither
      a JPEG nor a RAW file; delete only with `execute` (the dry-run flag has
      no effect), and then only when the confirmation lower-cases to "yes";
      otherwise organize once. Returns the outcome and the files whose
      removal was attempted. */
  method Run(directory: Path, scan: seq<Path>, anchor: string, dryRunFlag: bool, execute: bool,
             response: string, removable: set<Path>)
    returns (outcome: RunOutcome, attempted: seq<Path>)
    ensures var jpg, raw := FilesOfClass(scan, Jpeg), FilesOfClass(scan, Raw);
      if jpg == [] && raw == [] then outcome == NothingFound && attempted == []
      else if execute && Lower(response) != "yes" then outcome == Cancelled && attempted == []
      else
        var o := Organization(jpg, raw, anchor, !execute, [], removable);
        attempted == o.attempted
        && outcome == (if o.result.Ok? then Completed(o.result.value) else Failed(o.result.error))
    ensures !execute ==> attempted == []
    ensures forall p :: p in attempted ==>
      && p in scan
      && ClassOf(p) != Other
      && forall q :: q in scan && ClassOf(q) != Other && ClassOf(q) != ClassOf(p) ==> Stem(q) != Stem(p)
  {
    var organizer := new RawOrganizer(directory);
    var jpg, raw := organizer.DiscoverFiles(scan);
    if jpg == [] && raw == [] {
      return NothingFound, [];
    }
    var dryRun := !execute;
    if !dryRun {
      if Lower(response) != "yes" {
        return Cancelled, [];
      }
    }
    var r;
    r, attempted := organizer.OrganizeFiles(anchor, dryRun, removable);
    outcome := if r.Ok? then Completed(r.value) else Failed(r.error);
    OrganizationSafety(jpg, raw, anchor, dryRun, [], removable);
    ScanSafety(scan, anchor, dryRun, [], removable);
  }
}
