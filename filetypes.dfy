/** The two kinds of file the organizer pairs up, recognised by the
    lower-cased suffix of their name. */
module FileTypes {
  import opened Paths

  datatype FileClass = Jpeg | Raw | Other

  /** Lower-cased suffixes of the files treated as JPEG previews. */
  const JpegExtensions: set<string> := {".jpg", ".jpeg"}

  /** Lower-cased suffixes of the files treated as RAW sensor data. */
  const RawExtensions: set<string> :=
    {".cr2", ".cr3", ".nef", ".arw", ".dng", ".orf", ".rw2", ".pef", ".srw", ".x3f"}

  /** The class a lower-cased suffix stands for; the JPEG suffixes are tested first. */
  function ExtensionClass(ext: string): FileClass
  {
    if ext in JpegExtensions then Jpeg
    else if ext in RawExtensions then Raw
    else Other
  }

  /** The class of a file, decided by its lower-cased suffix. */
  function ClassOf(p: Path): FileClass
  {
    ExtensionClass(Lower(Suffix(p)))
  }

  /** No suffix is both a JPEG and a RAW suffix, so testing the JPEG suffixes
      first decides nothing; every suffix of either kind starts with a dot. */
  lemma ExtensionsDisjoint()
    ensures JpegExtensions * RawExtensions == {}
    ensures forall e :: e in JpegExtensions + RawExtensions ==> |e| >= 2 && e[0] == '.'
  {
    forall e | e in RawExtensions ensures e !in JpegExtensions {
      assert |e| == 4 && e[1] != 'j';
    }
  }

  /** A file is JPEG exactly when its lower-cased suffix is a JPEG suffix,
      RAW exactly when it is a RAW suffix, and unclassified otherwise. */
  lemma ClassOfExact(p: Path)
    ensures ClassOf(p) == Jpeg <==> Lower(Suffix(p)) in JpegExtensions
    ensures ClassOf(p) == Raw <==> Lower(Suffix(p)) in RawExtensions
    ensures ClassOf(p) == Other <==> Lower(Suffix(p)) !in JpegExtensions + RawExtensions
  {
    ExtensionsDisjoint();
    assert Lower(Suffix(p)) !in JpegExtensions * RawExtensions;
  }
}
