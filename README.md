# RAW organizer, modelled in Dafny

`raw_organizer.py` is a small command-line tool for photo collections. It
scans a directory tree and sorts the files it finds into two kinds by their
lower-cased suffix: JPEG previews (`.jpg`, `.jpeg`) and camera RAW files (ten
suffixes). Then one kind *anchors* the run and the other is the *target*. Every
target file whose stem (its name without the suffix) is not the stem of some
anchor file is an *orphan*. Orphans are listed, and outside a dry run they are
deleted after an interactive confirmation.

This project models that pipeline and proves its properties:

- `paths.dfy`, module `Paths`: paths as strings.
  - The final name component of a path, found by a reverse search for '/'.
  - The stem/suffix split of that component: it splits at the last dot when
    that dot is neither the first nor the last character.
  - ASCII lower-casing.
- `filetypes.dfy`, module `FileTypes`: the two suffix sets and the class of a
  file.
- `filtering.dfy`, module `Filtering`: the loop shape "for each element, append
  it when a test passes" as a function `Filter` over first-order tests
  (`Criterion`), with the subsequence relation and its counting, membership,
  commutation and agreement lemmas.
- `selection.dfy`, module `Selection`: the JPEG and RAW lists of a scan, stem
  sets, and the orphans, with soundness, completeness, order and multiplicity.
- `organizer.dfy`, module `Organizer`:
  - the class `RawOrganizer`, whose fields `jpgFiles`, `rawFiles` and
    `deletedFiles` its methods update as the Python object does;
  - the role selection;
  - a specification function `Organization` for one organization pass, with
    lemmas about roles, the deleted-files accumulator, deletion safety, dry-run
    idempotence and a rescan after deletion;
  - `Run`, the decision logic of `main`.

Each loop of the program is a `for` loop in a method, with invariants. Each
method's `ensures` ties its result to a specification function (`FilesOfClass`,
`StemSet`, `Orphans`, `Filter`, `Organization`), and the lemmas prove what the
program promises about those functions.

Inputs that the program gets from the operating system are parameters:
- the files a recursive scan yields, as a sequence of paths in scan order;
- the set of paths whose removal would succeed;
- the command-line flags;
- the typed confirmation.

Two places where the code does less than its names suggest; the model follows the code:
- `delete_files` has a dry-run branch (raw_organizer.py:89-91) that records
  every file as deleted, but `organize_files` (raw_organizer.py:123-128) calls
  `delete_files` only outside a dry run. So in a dry run the `deleted_files` it
  reports stays as it was; it is not "every orphan, as if deleted". The branch
  is modelled too (`RawOrganizer.DeleteFiles`), but no pass reaches it.
- The `--dry-run` flag has no effect. `Run` takes it and its contract does not
  depend on it; only `execute` decides.
- The confirmation is asked right after discovery, before any orphan is
  computed, so a cancelled run computes and deletes nothing.

## Model

`Organization`, `Orphans` and `FilesOfClass` are the specification functions
of `organize_files`, `find_orphaned_files` and `discover_files`; `StemSet` is
that of the stem-set comprehension at raw_organizer.py:57. `Paths.Stem`,
`Paths.Suffix` and `FileTypes.ClassOf` model `get_base_name`/`Path.stem`,
`Path.suffix` (raw_organizer.py:37, 51-53) and the `if`/`elif` classification
of raw_organizer.py:37-41; they carry no contract of their own, and what they
compute is stated by the `NameSplit`, `StemSuffixSplit`, `FileNameSpec` and
`ClassOfExact` rows.

| member | source | states |
|---|---|---|
| Paths.FileNameSpec | raw_organizer.py:37 | the final name component holds no '/', ends the path, and is preceded by a '/' when shorter than the path |
| Paths.FileNameAfterLastSlash | raw_organizer.py:53 | the final name component is the tail of the path right after the last '/' found by a reverse search |
| Paths.LastIndexOfSpec | raw_organizer.py:37 | the reverse search returns a position holding the character, or -1, and no later position holds it |
| Paths.NameSplit | raw_organizer.py:37 | stem followed by suffix is the name again; a non-empty suffix is a dot, at least one more character and no further dot, after a non-empty stem; an empty suffix means every inner dot has a later dot after it |
| Paths.StemSuffixSplit | raw_organizer.py:51-53 | `Stem` (`Path.stem`) and `Suffix` (`Path.suffix`) of a path split its final component, and neither holds a '/' |
| Paths.LowerAt | raw_organizer.py:37 | lower-casing keeps the length and maps each character in place |
| FileTypes.ExtensionsDisjoint | raw_organizer.py:26 | no suffix is both a JPEG and a RAW suffix, and every recognised suffix is a dot and at least one more character |
| FileTypes.ClassOfExact | raw_organizer.py:37-41 | `ClassOf`, the `if`/`elif` of the scan loop: a file is JPEG exactly when its lower-cased suffix is `.jpg` or `.jpeg`, RAW exactly when it is in the RAW set, and neither otherwise |
| Filtering.FilterIsSubsequence | raw_organizer.py:72-75 | a list built by appending the elements that pass a test is a subsequence of the input |
| Filtering.FilterCount | raw_organizer.py:72-75 | each element that passes occurs in the result as often as in the input; every other element does not occur |
| Filtering.FilterMembership | raw_organizer.py:72-75 | an element is selected exactly when it is in the input and passes |
| Filtering.FilterLength | raw_organizer.py:83-95 | the selection is never longer than the input |
| Filtering.FilterAllKept | raw_organizer.py:72-75 | when every element passes, the selection is the input |
| Filtering.FilterCommute | raw_organizer.py:72-75 | two selections applied in turn commute |
| Filtering.FilterAgree | raw_organizer.py:72-75 | tests that agree on every input element select the same list |
| Filtering.SubsequenceReflexive | raw_organizer.py:89-91 | a list is a subsequence of itself (the dry-run result of `delete_files`) |
| Selection.ClassificationCounts | raw_organizer.py:35-41 | the JPEG, RAW and unclassified lists together hold every scanned file exactly as often as the scan does |
| Selection.ClassificationMembers | raw_organizer.py:26-41 | a file is in the JPEG list exactly when it was scanned and its lower-cased suffix is a JPEG suffix, likewise for RAW and for the dropped files; both lists keep scan order |
| Selection.ClassesDisjoint | raw_organizer.py:38-41 | no file is in both the JPEG and the RAW list |
| Selection.StemSetMembers | raw_organizer.py:57 | a stem is in the stem set of a list exactly when some file of the list has it |
| Selection.StemSetSnoc | raw_organizer.py:57 | appending a file adds exactly its stem to the stem set |
| Selection.OrphansExact | raw_organizer.py:67-77 | a file is an orphan exactly when it is a target and no anchor has its stem; it occurs as often as among the targets; the orphans keep target order |
| Selection.OrphansEdgeCases | raw_organizer.py:67-77 | with no anchors every target is an orphan; with no targets there is none; never more orphans than targets |
| Organizer.SelectRoles | raw_organizer.py:99-110 | succeeds exactly when the lower-cased anchor type is "jpg" or "raw", otherwise ValueError with the source's message; the roles are JPEG and RAW in some order, labelled "JPG"/"RAW"; JPEG anchors exactly for "jpg" |
| Organizer.OrganizationRoles | raw_organizer.py:97-138 | an invalid anchor type fails before anything is computed or deleted; "jpg" anchors on the JPEG list and prunes RAW, "raw" the reverse, with their labels; the reported orphans are those of the targets; the reported deletions are the accumulator |
| Organizer.OrganizationAccumulates | raw_organizer.py:123-135 | the accumulated deletions only grow; they are extended by exactly the orphans whose removal succeeded in a live pass with orphans, and are unchanged in a dry pass or without orphans |
| Organizer.OrganizationSafety | raw_organizer.py:117-129 | a dry pass attempts no removal; a live pass attempts only orphans, so never an anchor nor a target sharing an anchor's stem; every newly recorded deletion was attempted and succeeded |
| Organizer.ScanSafety | raw_organizer.py:117-129 | over a scan, a pass only attempts to remove scanned JPEG or RAW files for which no scanned file of the other kind has the same stem |
| Organizer.RescanFindsFailedOrphans | raw_organizer.py:117-129 | with the removed files gone from the scan, a second pass with the same roles finds exactly the orphans whose removal failed, in order |
| Organizer.DryRunMirrorsLiveRun | raw_organizer.py:123-129 | a dry and a live pass agree on success and on the orphans; the dry one reports no new deletion; the live one attempts every orphan |
| Organizer.DryRunIdempotent | raw_organizer.py:123-129 | a dry pass leaves the accumulator and the file system untouched, so repeating it yields the same pass |
| Organizer.RawOrganizer.constructor | raw_organizer.py:16-23 | a new organizer holds its directory and empty JPEG, RAW and deleted lists |
| Organizer.RawOrganizer.DiscoverFiles | raw_organizer.py:28-49 | returns the JPEG and the RAW files of the scan in scan order and stores them in the two fields |
| Organizer.RawOrganizer.FindMatches | raw_organizer.py:55-65 | returns exactly the stems that occur both among the anchors and among the targets |
| Organizer.RawOrganizer.FindOrphanedFiles | raw_organizer.py:67-77 | returns exactly the orphans of the targets with respect to the anchors |
| Organizer.RawOrganizer.DeleteFiles | raw_organizer.py:79-95 | dry run: returns the input and attempts nothing; live: attempts every file in order and returns exactly those whose removal succeeded, in order; always a subsequence, never longer, membership exact |
| Organizer.RawOrganizer.OrganizeFiles | raw_organizer.py:97-138 | result, attempted removals and new accumulator are those of `Organization` over the fields and the old accumulator |
| Organizer.Run | raw_organizer.py:164-201 | stops when the scan has no JPEG and no RAW file; cancels without deletion when executing and the response does not lower-case to "yes"; otherwise one pass with dry run exactly when not executing; a dry run attempts nothing; every attempted removal is a scanned JPEG or RAW file with no same-stem file of the other kind |

## Left out

- Recursive traversal (`rglob`, `is_file`, following symlinks) is operating-system I/O. The scan is a parameter: the regular files in traversal order, each path once.
- The existence check of the input directory in the constructor is I/O. The directory is assumed to exist, and the `FileNotFoundError` path is not modelled.
- `unlink` and the contents of its exceptions are operating-system calls. The outcome of each removal is a set of paths whose removal succeeds, one outcome per path; this is exact because a scan lists each path once.
- All console output, including `print_organization_report`, is formatting with no decisions beyond lengths.
- `argparse` and `input()` are library I/O. The anchor type, the flags and the confirmation text are parameters. The restriction of `--anchor` to `jpg`/`raw` by `choices` is not modelled, so `Run` also covers the ValueError outcome.
- `sys.exit` and the top-level `except` in `main` are process control. `Run` returns a failure outcome instead.
- Paths.FileName: paths are POSIX paths with '/' as the only separator. Windows paths, where `Path.name` also splits at `\` and at a drive prefix, are not modelled; with them files of the same stem in different folders would not match.
- Paths.Stem and Paths.Suffix: full `pathlib` semantics is library code. The model uses `pathlib`'s rule up to Python 3.13: split at the last dot that is neither the first nor the last character of the final component. Later versions treat leading and trailing dots differently (`"..jpg"` is JPEG with stem `"."` here), and `pathlib`'s treatment of empty or `.`/`..` components or of repeated separators is not modelled.
- Organizer.Report: the report is a snapshot. In the code the result's `'deleted_files'` entry is the object's own list (raw_organizer.py:135), which a later live pass extends in place (raw_organizer.py:129), so a report kept from an earlier pass changes afterwards; the model does not capture that aliasing. `main` makes a single pass and cannot observe it.
- Paths.Lower: does not model Unicode lower-casing; only ASCII letters are mapped. It agrees with `str.lower` in every comparison the program makes, except that `str.lower` maps KELVIN SIGN (U+212A) to 'k', which none of the compared constants contains.
