/**
  The report tree of lib/types.go as values: the configuration records, the
  reported files and folders, and the traversals the containers perform (look-up
  by path, block collection, pre-order listing). Folders live in an arena, a
  sequence indexed by folder id; a folder names its subfolders by id, and every
  subfolder's id is larger than its parent's, so the tree is acyclic.
*/
module Tree {
  import opened Wrappers
  import opened Strings
  import opened Coverage
  import opened Paths

  /** AppConfig: the application configuration. */
  datatype AppConfig = AppConfig(format: string, level: string, color: string, output: string,
                                 input: seq<string>, sourceDir: string, packageName: string)

  /** ReportMeta: package name, the common root of all files and its parent. */
  datatype ReportMeta = ReportMeta(packageName: string, commonRoot: string, parentRoot: string)

  /** A parsed cover.Profile: the file name it declares and its blocks. */
  datatype Profile = Profile(fileName: string, blocks: seq<Block>)

  /** ReportedFile: a profile with its resolved path, display records and coverage. */
  datatype ReportedFile = ReportedFile(
    meta: ReportMeta, sourceFile: string,
    reportedLines: seq<ReportedBlock>, coveredLines: seq<ReportedBlock>,
    pathParts: seq<PathTuple>, displayPath: string, outFilePath: string,
    fileName: string, assetsPath: string, coveredPct: Pct, profile: Profile)

  /** ReportedFolder: its files, the ids of its subfolders, its paths and its roll-up coverage. */
  datatype ReportedFolder = ReportedFolder(
    meta: ReportMeta, files: seq<ReportedFile>, folders: seq<nat>,
    folderPath: string, folderName: string, pathParts: seq<PathTuple>,
    displayPath: string, outFilePath: string, assetsPath: string, coveredPct: Pct)

  /** A ReportContainer: the report context itself, or one folder of the arena. */
  datatype Container = Root | Folder(id: nat)

  predicate InArena(arena: seq<ReportedFolder>, ids: seq<nat>)
  {
    forall i :: 0 <= i < |ids| ==> ids[i] < |arena|
  }

  predicate Above(ids: seq<nat>, parent: int)
  {
    forall i :: 0 <= i < |ids| ==> parent < ids[i]
  }

  /** Every subfolder id names a folder of the arena and is larger than its parent's id. */
  predicate WellFormed(arena: seq<ReportedFolder>)
  {
    forall k :: 0 <= k < |arena| ==> InArena(arena, arena[k].folders) && Above(arena[k].folders, k)
  }

  /** No two files whose paths are equal up to ASCII case. */
  predicate NoFileDup(files: seq<ReportedFile>)
  {
    forall i, j :: 0 <= i < j < |files| ==> !EqualFold(files[i].sourceFile, files[j].sourceFile)
  }

  /** No two folders of the list whose paths are equal up to ASCII case. */
  predicate NoFolderDup(arena: seq<ReportedFolder>, ids: seq<nat>)
    requires InArena(arena, ids)
  {
    forall i, j :: 0 <= i < j < |ids| ==> !EqualFold(arena[ids[i]].folderPath, arena[ids[j]].folderPath)
  }

  /** The folders of the list in strictly ascending order of path. */
  predicate SortedByPath(arena: seq<ReportedFolder>, ids: seq<nat>)
    requires InArena(arena, ids)
  {
    forall i, j :: 0 <= i < j < |ids| ==> Less(arena[ids[i]].folderPath, arena[ids[j]].folderPath)
  }

  lemma EqualFoldReflexive(a: string)
    ensures EqualFold(a, a)
  {
  }

  lemma EqualFoldSymmetric(a: string, b: string)
    ensures EqualFold(a, b) <==> EqualFold(b, a)
  {
  }

  // ---------------------------------------------------------------------------
  // Look-up by path (the Contains* scans)

  /** The index of the first file whose path equals `p` up to ASCII case. */
  function FileIndex(files: seq<ReportedFile>, p: string): (r: Option<nat>)
    ensures r.None? <==> forall i :: 0 <= i < |files| ==> !EqualFold(files[i].sourceFile, p)
    ensures r.Some? ==> r.value < |files| && EqualFold(files[r.value].sourceFile, p)
    ensures r.Some? ==> forall i :: 0 <= i < r.value ==> !EqualFold(files[i].sourceFile, p)
    decreases |files|
  {
    if |files| == 0 then None
    else if EqualFold(files[0].sourceFile, p) then Some(0)
    else match FileIndex(files[1..], p)
      case None => None
      case Some(i) => Some(i + 1)
  }

  /** The first file whose path equals `p` up to ASCII case. */
  function FindFile(files: seq<ReportedFile>, p: string): Option<ReportedFile>
  {
    match FileIndex(files, p)
    case None => None
    case Some(i) => Some(files[i])
  }

  /** The index in `ids` of the first folder whose path equals `p` up to ASCII case. */
  function FolderIndex(arena: seq<ReportedFolder>, ids: seq<nat>, p: string): (r: Option<nat>)
    requires InArena(arena, ids)
    ensures r.None? <==> forall i :: 0 <= i < |ids| ==> !EqualFold(arena[ids[i]].folderPath, p)
    ensures r.Some? ==> r.value < |ids| && EqualFold(arena[ids[r.value]].folderPath, p)
    ensures r.Some? ==> forall i :: 0 <= i < r.value ==> !EqualFold(arena[ids[i]].folderPath, p)
    decreases |ids|
  {
    if |ids| == 0 then None
    else if EqualFold(arena[ids[0]].folderPath, p) then Some(0)
    else match FolderIndex(arena, ids[1..], p)
      case None => None
      case Some(i) => Some(i + 1)
  }

  /** The id of the first folder in `ids` whose path equals `p` up to ASCII case. */
  function Lookup(arena: seq<ReportedFolder>, ids: seq<nat>, p: string): Option<nat>
    requires InArena(arena, ids)
  {
    match FolderIndex(arena, ids, p)
    case None => None
    case Some(i) => Some(ids[i])
  }

  /** The look-up only reads the paths of the listed folders. */
  lemma {:induction false} FolderIndexFrame(a1: seq<ReportedFolder>, a2: seq<ReportedFolder>, ids: seq<nat>, p: string)
    requires InArena(a1, ids) && InArena(a2, ids)
    requires forall i :: 0 <= i < |ids| ==> a2[ids[i]].folderPath == a1[ids[i]].folderPath
    ensures FolderIndex(a2, ids, p) == FolderIndex(a1, ids, p)
    decreases |ids|
  {
    if |ids| > 0 {
      FolderIndexFrame(a1, a2, ids[1..], p);
    }
  }

  /** When exactly one listed folder matches, the look-up finds it. */
  lemma LookupOnlyMatch(arena: seq<ReportedFolder>, ids: seq<nat>, p: string, x: nat)
    requires InArena(arena, ids) && x in ids && EqualFold(arena[x].folderPath, p)
    requires forall i :: 0 <= i < |ids| && ids[i] != x ==> !EqualFold(arena[ids[i]].folderPath, p)
    ensures Lookup(arena, ids, p) == Some(x)
  {
  }

  /** AddFile's effect on a file list: the file is appended unless a case-insensitively equal path is present. */
  function WithFile(files: seq<ReportedFile>, f: ReportedFile): seq<ReportedFile>
  {
    if FileIndex(files, f.sourceFile).None? then files + [f] else files
  }

  /**
    WithFile keeps every present entry, grows the list by at most one, afterwards
    a file with the path is present, and a second application changes nothing.
  */
  lemma WithFileProperties(files: seq<ReportedFile>, f: ReportedFile)
    ensures var r := WithFile(files, f);
      |files| <= |r| <= |files| + 1 && r[..|files|] == files &&
      FileIndex(r, f.sourceFile).Some? && WithFile(r, f) == r
  {
    var r := WithFile(files, f);
    if FileIndex(files, f.sourceFile).None? {
      EqualFoldReflexive(f.sourceFile);
      assert r[|files|] == f;
    }
  }

  /** WithFile keeps a list free of case-insensitive duplicates. */
  lemma WithFileNoDup(files: seq<ReportedFile>, f: ReportedFile)
    requires NoFileDup(files)
    ensures NoFileDup(WithFile(files, f))
  {
    var r := WithFile(files, f);
    if FileIndex(files, f.sourceFile).None? {
      forall i, j | 0 <= i < j < |r| ensures !EqualFold(r[i].sourceFile, r[j].sourceFile) {
        if j == |files| {
          EqualFoldSymmetric(r[i].sourceFile, f.sourceFile);
        }
      }
    }
  }

  // ---------------------------------------------------------------------------
  // Block collection (GetProfileBlocks) and pre-order listing (GetAllFolders)

  /** The blocks of a file list, file by file in order. */
  function FileBlocks(files: seq<ReportedFile>): seq<Block>
    decreases |files|
  {
    if |files| == 0 then [] else FileBlocks(files[..|files| - 1]) + files[|files| - 1].profile.blocks
  }

  /** GetProfileBlocks of a folder: its own files' blocks, then each subfolder's blocks in order. */
  function FolderBlocks(arena: seq<ReportedFolder>, id: nat): seq<Block>
    requires WellFormed(arena) && id < |arena|
    decreases |arena| - id, 1
  {
    FileBlocks(arena[id].files) + ListBlocks(arena, arena[id].folders, id)
  }

  /** The blocks of a list of folders below `parent` (-1 for the context), in order. */
  function ListBlocks(arena: seq<ReportedFolder>, ids: seq<nat>, parent: int): seq<Block>
    requires WellFormed(arena) && InArena(arena, ids) && Above(ids, parent) && -1 <= parent < |arena|
    decreases |arena| - parent, 0, |ids|
  {
    if |ids| == 0 then []
    else ListBlocks(arena, ids[..|ids| - 1], parent) + FolderBlocks(arena, ids[|ids| - 1])
  }

  /** GetAllFolders of a folder: every descendant in pre-order, the folder itself excluded. */
  function AllFolders(arena: seq<ReportedFolder>, id: nat): (r: seq<nat>)
    requires WellFormed(arena) && id < |arena|
    ensures InArena(arena, r) && Above(r, id)
    decreases |arena| - id, 1
  {
    ListFolders(arena, arena[id].folders, id)
  }

  /** Pre-order listing of a list of folders: each folder followed by its descendants, siblings in order. */
  function ListFolders(arena: seq<ReportedFolder>, ids: seq<nat>, parent: int): (r: seq<nat>)
    requires WellFormed(arena) && InArena(arena, ids) && Above(ids, parent) && -1 <= parent < |arena|
    ensures InArena(arena, r) && Above(r, parent)
    decreases |arena| - parent, 0, |ids|
  {
    if |ids| == 0 then []
    else
      var last := ids[|ids| - 1];
      ListFolders(arena, ids[..|ids| - 1], parent) + [last] + AllFolders(arena, last)
  }

  /**
    The pre-order listing is closed: it holds every folder of the list and every
    subfolder of a listed folder, so GetAllFolders misses no descendant.
  */
  lemma {:induction false} ListFoldersClosed(arena: seq<ReportedFolder>, ids: seq<nat>, parent: int)
    requires WellFormed(arena) && InArena(arena, ids) && Above(ids, parent) && -1 <= parent < |arena|
    ensures var r := ListFolders(arena, ids, parent);
      (forall i :: 0 <= i < |ids| ==> ids[i] in r) &&
      (forall k, m :: k in r && 0 <= m < |arena[k].folders| ==> arena[k].folders[m] in r)
    decreases |arena| - parent, |ids|
  {
    if |ids| > 0 {
      var front := ids[..|ids| - 1];
      var last := ids[|ids| - 1];
      ListFoldersClosed(arena, front, parent);
      ListFoldersClosed(arena, arena[last].folders, last);
      var r := ListFolders(arena, ids, parent);
      var lf := ListFolders(arena, front, parent);
      var sub := AllFolders(arena, last);
      assert r == lf + [last] + sub;
      forall i | 0 <= i < |ids| ensures ids[i] in r {
        if i < |ids| - 1 {
          assert ids[i] == front[i];
        }
      }
      forall k, m | k in r && 0 <= m < |arena[k].folders| ensures arena[k].folders[m] in r {
        if k in lf {
        } else if k == last {
          assert arena[last].folders[m] in sub;
        } else {
          assert k in sub;
        }
      }
    }
  }

  /** The blocks of the listed folders' own files, folder by folder. */
  function FlatBlocks(arena: seq<ReportedFolder>, ids: seq<nat>): seq<Block>
    requires InArena(arena, ids)
    decreases |ids|
  {
    if |ids| == 0 then [] else FlatBlocks(arena, ids[..|ids| - 1]) + FileBlocks(arena[ids[|ids| - 1]].files)
  }

  lemma {:induction false} FlatBlocksAppend(arena: seq<ReportedFolder>, a: seq<nat>, b: seq<nat>)
    requires InArena(arena, a) && InArena(arena, b)
    ensures InArena(arena, a + b)
    ensures FlatBlocks(arena, a + b) == FlatBlocks(arena, a) + FlatBlocks(arena, b)
    decreases |b|
  {
    if |b| == 0 {
      assert a + b == a;
    } else {
      assert (a + b)[..|a + b| - 1] == a + b[..|b| - 1];
      assert (a + b)[|a + b| - 1] == b[|b| - 1];
      FlatBlocksAppend(arena, a, b[..|b| - 1]);
    }
  }

  /**
    Block collection agrees with the pre-order listing: a folder's blocks are its
    own files' blocks followed by the own blocks of every descendant, in the order
    GetAllFolders lists them.
  */
  lemma {:induction false} FolderBlocksPreorder(arena: seq<ReportedFolder>, id: nat)
    requires WellFormed(arena) && id < |arena|
    ensures FolderBlocks(arena, id) == FileBlocks(arena[id].files) + FlatBlocks(arena, AllFolders(arena, id))
    decreases |arena| - id, 1
  {
    ListBlocksPreorder(arena, arena[id].folders, id);
  }

  lemma {:induction false} ListBlocksPreorder(arena: seq<ReportedFolder>, ids: seq<nat>, parent: int)
    requires WellFormed(arena) && InArena(arena, ids) && Above(ids, parent) && -1 <= parent < |arena|
    ensures ListBlocks(arena, ids, parent) == FlatBlocks(arena, ListFolders(arena, ids, parent))
    decreases |arena| - parent, 0, |ids|
  {
    if |ids| > 0 {
      var front := ids[..|ids| - 1];
      var last := ids[|ids| - 1];
      ListBlocksPreorder(arena, front, parent);
      FolderBlocksPreorder(arena, last);
      FlatBlocksSplice(arena, ListFolders(arena, front, parent), last, AllFolders(arena, last));
    }
  }

  /** The blocks of a listing that has one folder between two parts. */
  lemma FlatBlocksSplice(arena: seq<ReportedFolder>, a: seq<nat>, x: nat, b: seq<nat>)
    requires InArena(arena, a) && x < |arena| && InArena(arena, b)
    ensures InArena(arena, a + [x] + b)
    ensures FlatBlocks(arena, a + [x] + b) == FlatBlocks(arena, a) + (FileBlocks(arena[x].files) + FlatBlocks(arena, b))
  {
    var ax := a + [x];
    assert ax[..|ax| - 1] == a;
    var fa, fx, fb := FlatBlocks(arena, a), FileBlocks(arena[x].files), FlatBlocks(arena, b);
    assert FlatBlocks(arena, ax) == fa + fx;
    FlatBlocksAppend(arena, ax, b);
    ConcatAssoc(fa, fx, fb);
  }
  /**
    The report's roll-up value: the coverage of the blocks of the files of every
    folder below the top level; with no top-level folder it is 0, whatever files
    lie directly in the source directory.
  */
  lemma ContextCoverage(arena: seq<ReportedFolder>, top: seq<nat>)
    requires WellFormed(arena) && InArena(arena, top)
    ensures CoveredPct(ListBlocks(arena, top, -1), true) == CoveredPct(FlatBlocks(arena, ListFolders(arena, top, -1)), true)
    ensures top == [] ==> CoveredPct(ListBlocks(arena, top, -1), true) == Finite(0.0)
  {
    ListBlocksPreorder(arena, top, -1);
    CoveredPctEmpty(true);
  }


  // ---------------------------------------------------------------------------
  // Arenas that differ only in the coverage values

  /** Same folders, files, paths and links; only the coveredPct values may differ. */
  predicate SameShape(a: seq<ReportedFolder>, b: seq<ReportedFolder>)
  {
    |a| == |b| && forall k :: 0 <= k < |a| ==> a[k] == b[k].(coveredPct := a[k].coveredPct)
  }

  lemma SameShapeWellFormed(a: seq<ReportedFolder>, b: seq<ReportedFolder>)
    requires SameShape(a, b) && WellFormed(a)
    ensures WellFormed(b) && SameShape(b, a)
  {
    forall k | 0 <= k < |b| ensures b[k].folders == a[k].folders {
      assert a[k] == b[k].(coveredPct := a[k].coveredPct);
    }
  }

  lemma {:induction false} SameShapeBlocks(a: seq<ReportedFolder>, b: seq<ReportedFolder>, id: nat)
    requires SameShape(a, b) && WellFormed(a) && WellFormed(b) && id < |a|
    ensures FolderBlocks(a, id) == FolderBlocks(b, id)
    decreases |a| - id, 1
  {
    assert a[id] == b[id].(coveredPct := a[id].coveredPct);
    SameShapeListBlocks(a, b, a[id].folders, id);
  }

  lemma {:induction false} SameShapeListBlocks(a: seq<ReportedFolder>, b: seq<ReportedFolder>, ids: seq<nat>, parent: int)
    requires SameShape(a, b) && WellFormed(a) && WellFormed(b)
    requires InArena(a, ids) && Above(ids, parent) && -1 <= parent < |a|
    ensures ListBlocks(a, ids, parent) == ListBlocks(b, ids, parent)
    decreases |a| - parent, 0, |ids|
  {
    if |ids| > 0 {
      SameShapeListBlocks(a, b, ids[..|ids| - 1], parent);
      SameShapeBlocks(a, b, ids[|ids| - 1]);
    }
  }

  lemma {:induction false} SameShapeFolders(a: seq<ReportedFolder>, b: seq<ReportedFolder>, id: nat)
    requires SameShape(a, b) && WellFormed(a) && WellFormed(b) && id < |a|
    ensures AllFolders(a, id) == AllFolders(b, id)
    decreases |a| - id, 1
  {
    assert a[id] == b[id].(coveredPct := a[id].coveredPct);
    SameShapeListFolders(a, b, a[id].folders, id);
  }

  lemma {:induction false} SameShapeListFolders(a: seq<ReportedFolder>, b: seq<ReportedFolder>, ids: seq<nat>, parent: int)
    requires SameShape(a, b) && WellFormed(a) && WellFormed(b)
    requires InArena(a, ids) && Above(ids, parent) && -1 <= parent < |a|
    ensures ListFolders(a, ids, parent) == ListFolders(b, ids, parent)
    decreases |a| - parent, 0, |ids|
  {
    if |ids| > 0 {
      SameShapeListFolders(a, b, ids[..|ids| - 1], parent);
      SameShapeFolders(a, b, ids[|ids| - 1]);
    }
  }

  /** A folder whose coveredPct is GetCoveredPct of its collected blocks. */
  predicate Settled(arena: seq<ReportedFolder>, k: nat)
    requires WellFormed(arena) && k < |arena|
  {
    arena[k].coveredPct == CoveredPct(FolderBlocks(arena, k), true)
  }

  /** Every listed folder is settled. */
  predicate SettledAll(arena: seq<ReportedFolder>, ks: seq<nat>)
  {
    WellFormed(arena) && forall j :: 0 <= j < |ks| ==> ks[j] < |arena| && Settled(arena, ks[j])
  }

  /** `b` has the folders of `a` except at the listed ids. */
  predicate Outside(a: seq<ReportedFolder>, b: seq<ReportedFolder>, ks: seq<nat>)
  {
    |a| == |b| && forall k :: 0 <= k < |a| && k !in ks ==> b[k] == a[k]
  }

  /** One more folder of a list: its pre-order listing grows by the folder and its descendants. */
  lemma ListFoldersSnoc(arena: seq<ReportedFolder>, ids: seq<nat>, i: nat, parent: int)
    requires WellFormed(arena) && InArena(arena, ids) && Above(ids, parent) && -1 <= parent < |arena| && i < |ids|
    ensures InArena(arena, ids[..i]) && Above(ids[..i], parent)
    ensures ListFolders(arena, ids[..i + 1], parent) ==
      ListFolders(arena, ids[..i], parent) + [ids[i]] + AllFolders(arena, ids[i])
  {
    assert ids[..i + 1][..i] == ids[..i];
  }

  /** One more folder of a list: its blocks grow by the folder's blocks. */
  lemma ListBlocksSnoc(arena: seq<ReportedFolder>, ids: seq<nat>, i: nat, parent: int)
    requires WellFormed(arena) && InArena(arena, ids) && Above(ids, parent) && -1 <= parent < |arena| && i < |ids|
    ensures InArena(arena, ids[..i]) && Above(ids[..i], parent)
    ensures ListBlocks(arena, ids[..i + 1], parent) == ListBlocks(arena, ids[..i], parent) + FolderBlocks(arena, ids[i])
  {
    assert ids[..i + 1][..i] == ids[..i];
  }

  /** A settled folder whose value did not change stays settled when only values changed. */
  lemma SettledCarry(a: seq<ReportedFolder>, b: seq<ReportedFolder>, k: nat)
    requires SameShape(a, b) && WellFormed(a) && k < |a| && Settled(a, k) && b[k] == a[k]
    ensures WellFormed(b) && Settled(b, k)
  {
    SameShapeWellFormed(a, b);
    SameShapeBlocks(a, b, k);
  }

  lemma SameShapeTrans(a: seq<ReportedFolder>, b: seq<ReportedFolder>, c: seq<ReportedFolder>)
    requires SameShape(a, b) && SameShape(b, c)
    ensures SameShape(a, c)
  {
    forall k | 0 <= k < |a| ensures a[k] == c[k].(coveredPct := a[k].coveredPct) {
      assert a[k] == b[k].(coveredPct := a[k].coveredPct);
      assert b[k] == c[k].(coveredPct := b[k].coveredPct);
    }
  }

  /**
    UpdateCoverage's loop over a folder list, one step: the folder ids[i] and all
    its descendants were just settled, and only they changed; then every folder
    of the listing up to ids[i] is settled, only those changed since `o`, and the
    collected blocks grow by the folder's blocks.
  */
  lemma CoverStep(o: seq<ReportedFolder>, a: seq<ReportedFolder>, b: seq<ReportedFolder>,
                  ids: seq<nat>, i: nat, parent: int, blocks: seq<Block>)
    requires WellFormed(o) && InArena(o, ids) && Above(ids, parent) && -1 <= parent < |o| && i < |ids|
    requires SameShape(o, a) && SameShape(a, b) && WellFormed(a) && WellFormed(b)
    requires SettledAll(a, ListFolders(a, ids[..i], parent)) && Outside(o, a, ListFolders(a, ids[..i], parent))
    requires blocks == ListBlocks(a, ids[..i], parent)
    requires SettledAll(b, [ids[i]] + AllFolders(b, ids[i])) && Outside(a, b, [ids[i]] + AllFolders(b, ids[i]))
    ensures SameShape(o, b)
    ensures SettledAll(b, ListFolders(b, ids[..i + 1], parent)) && Outside(o, b, ListFolders(b, ids[..i + 1], parent))
    ensures blocks + FolderBlocks(b, ids[i]) == ListBlocks(b, ids[..i + 1], parent)
  {
    SameShapeTrans(o, a, b);
    StepFolders(a, b, ids, i, parent);
    StepBlocks(a, b, ids, i, parent);
    var before := ListFolders(a, ids[..i], parent);
    var sub := [ids[i]] + AllFolders(b, ids[i]);
    SettledJoin(a, b, before, sub);
    OutsideJoin(o, a, b, before, sub);
  }

  lemma StepFolders(a: seq<ReportedFolder>, b: seq<ReportedFolder>, ids: seq<nat>, i: nat, parent: int)
    requires WellFormed(a) && InArena(a, ids) && Above(ids, parent) && -1 <= parent < |a| && i < |ids|
    requires SameShape(a, b) && WellFormed(b)
    ensures InArena(a, ids[..i]) && Above(ids[..i], parent)
    ensures ListFolders(b, ids[..i + 1], parent) == ListFolders(a, ids[..i], parent) + ([ids[i]] + AllFolders(b, ids[i]))
  {
    ListFoldersSnoc(b, ids, i, parent);
    SameShapeListFolders(a, b, ids[..i], parent);
    ConcatAssoc(ListFolders(a, ids[..i], parent), [ids[i]], AllFolders(b, ids[i]));
  }

  lemma ConcatAssoc<T>(x: seq<T>, y: seq<T>, z: seq<T>)
    ensures (x + y) + z == x + (y + z)
  {
  }

  lemma StepBlocks(a: seq<ReportedFolder>, b: seq<ReportedFolder>, ids: seq<nat>, i: nat, parent: int)
    requires WellFormed(a) && InArena(a, ids) && Above(ids, parent) && -1 <= parent < |a| && i < |ids|
    requires SameShape(a, b) && WellFormed(b)
    ensures InArena(a, ids[..i]) && Above(ids[..i], parent)
    ensures ListBlocks(b, ids[..i + 1], parent) == ListBlocks(a, ids[..i], parent) + FolderBlocks(b, ids[i])
  {
    ListBlocksSnoc(b, ids, i, parent);
    SameShapeListBlocks(a, b, ids[..i], parent);
  }

  /** Settled folders of `a` outside what changed, plus the settled changed ones, are all settled in `b`. */
  lemma SettledJoin(a: seq<ReportedFolder>, b: seq<ReportedFolder>, before: seq<nat>, sub: seq<nat>)
    requires SameShape(a, b) && SettledAll(a, before) && SettledAll(b, sub) && Outside(a, b, sub)
    ensures SettledAll(b, before + sub)
  {
    var after := before + sub;
    forall j | 0 <= j < |after| ensures after[j] < |b| && Settled(b, after[j]) {
      if j < |before| {
        var k := before[j];
        assert after[j] == k;
        if k !in sub {
          SettledCarry(a, b, k);
        } else {
          var m :| 0 <= m < |sub| && sub[m] == k;
        }
      } else {
        assert after[j] == sub[j - |before|];
      }
    }
  }

  lemma OutsideJoin(o: seq<ReportedFolder>, a: seq<ReportedFolder>, b: seq<ReportedFolder>, before: seq<nat>, sub: seq<nat>)
    requires Outside(o, a, before) && Outside(a, b, sub)
    ensures Outside(o, b, before + sub)
  {
    forall k | 0 <= k < |o| && k !in before + sub ensures b[k] == o[k] {
      assert k !in before && k !in sub;
    }
  }

  /**
    The last step of a folder's UpdateCoverage: with all its descendants settled,
    setting its own value to the coverage of its blocks settles its whole subtree.
  */
  lemma CoverSelf(o: seq<ReportedFolder>, a: seq<ReportedFolder>, id: nat, pct: Pct)
    requires WellFormed(o) && WellFormed(a) && SameShape(o, a) && id < |a|
    requires SettledAll(a, AllFolders(a, id)) && Outside(o, a, AllFolders(a, id))
    requires pct == CoveredPct(FolderBlocks(a, id), true)
    ensures var r := a[id := a[id].(coveredPct := pct)];
      SameShape(a, r) && SameShape(o, r) && WellFormed(r) &&
      SettledAll(r, [id] + AllFolders(r, id)) && Outside(o, r, [id] + AllFolders(r, id))
  {
    var r := a[id := a[id].(coveredPct := pct)];
    assert SameShape(a, r);
    SameShapeTrans(o, a, r);
    SameShapeWellFormed(a, r);
    SameShapeFolders(a, r, id);
    SameShapeBlocks(a, r, id);
    var sub := AllFolders(a, id);
    forall j | 0 <= j < |sub| ensures sub[j] < |r| && Settled(r, sub[j]) {
      assert sub[j] != id;
      SettledCarry(a, r, sub[j]);
    }
    var all := [id] + sub;
    forall j | 0 <= j < |all| ensures all[j] < |r| && Settled(r, all[j]) {
      if j > 0 {
        assert all[j] == sub[j - 1];
      }
    }
  }

  /** Facts of a valid context that do not look at coverage values carry over to the same shape. */
  lemma SameShapeValid(a: seq<ReportedFolder>, b: seq<ReportedFolder>, top: seq<nat>)
    requires SameShape(a, b) && WellFormed(a) && ArenaNoDup(a)
    requires InArena(a, top) && SortedByPath(a, top) && NoFolderDup(a, top) && SingleParent(a, top)
    ensures WellFormed(b) && ArenaNoDup(b) && InArena(b, top) && SortedByPath(b, top) && NoFolderDup(b, top)
    ensures SingleParent(b, top)
  {
    SameShapeWellFormed(a, b);
    assert forall k :: 0 <= k < |a| ==> a[k].folderPath == b[k].folderPath && a[k].files == b[k].files && a[k].folders == b[k].folders by {
      forall k | 0 <= k < |a| ensures a[k].folderPath == b[k].folderPath && a[k].files == b[k].files && a[k].folders == b[k].folders {
        assert a[k] == b[k].(coveredPct := a[k].coveredPct);
      }
    }
    SameListsSingle(a, b, top);
  }

  // ---------------------------------------------------------------------------
  // The sorted top-level list (sort.Slice after an append)

  /** The list with `x` placed before the first folder whose path is larger than its own. */
  function InsertByPath(arena: seq<ReportedFolder>, ids: seq<nat>, x: nat): (r: seq<nat>)
    requires InArena(arena, ids) && x < |arena|
    ensures |r| == |ids| + 1 && multiset(r) == multiset(ids) + multiset{x}
    decreases |ids|
  {
    if |ids| == 0 || Less(arena[x].folderPath, arena[ids[0]].folderPath) then [x] + ids
    else
      assert ids == [ids[0]] + ids[1..];
      [ids[0]] + InsertByPath(arena, ids[1..], x)
  }

  lemma InsertByPathInArena(arena: seq<ReportedFolder>, ids: seq<nat>, x: nat)
    requires InArena(arena, ids) && x < |arena|
    ensures InArena(arena, InsertByPath(arena, ids, x))
  {
    var r := InsertByPath(arena, ids, x);
    forall i | 0 <= i < |r| ensures r[i] < |arena| {
      assert r[i] in multiset(r);
      if r[i] != x {
        assert r[i] in multiset(ids);
        var k :| 0 <= k < |ids| && ids[k] == r[i];
      }
    }
  }

  /**
    Inserting a folder whose path matches none of a sorted, duplicate-free list
    keeps the list sorted and duplicate-free.
  */
  lemma {:induction false} InsertByPathSorted(arena: seq<ReportedFolder>, ids: seq<nat>, x: nat)
    requires InArena(arena, ids) && x < |arena|
    requires SortedByPath(arena, ids) && NoFolderDup(arena, ids)
    requires forall i :: 0 <= i < |ids| ==> !EqualFold(arena[ids[i]].folderPath, arena[x].folderPath)
    ensures InArena(arena, InsertByPath(arena, ids, x))
    ensures SortedByPath(arena, InsertByPath(arena, ids, x)) && NoFolderDup(arena, InsertByPath(arena, ids, x))
    decreases |ids|
  {
    InsertByPathInArena(arena, ids, x);
    if |ids| == 0 {
    } else if Less(arena[x].folderPath, arena[ids[0]].folderPath) {
      InsertFrontSorted(arena, ids, x);
    } else {
      InsertByPathSorted(arena, ids[1..], x);
      InsertByPathInArena(arena, ids[1..], x);
      InsertLaterSorted(arena, ids, x, InsertByPath(arena, ids[1..], x));
    }
  }

  /** A folder whose path is smaller than the first one of a sorted list goes in front. */
  lemma InsertFrontSorted(arena: seq<ReportedFolder>, ids: seq<nat>, x: nat)
    requires InArena(arena, ids) && x < |arena| && |ids| > 0
    requires SortedByPath(arena, ids) && NoFolderDup(arena, ids)
    requires forall i :: 0 <= i < |ids| ==> !EqualFold(arena[ids[i]].folderPath, arena[x].folderPath)
    requires Less(arena[x].folderPath, arena[ids[0]].folderPath)
    ensures SortedByPath(arena, [x] + ids) && NoFolderDup(arena, [x] + ids)
  {
    var r := [x] + ids;
    var px := arena[x].folderPath;
    forall i, j | 0 <= i < j < |r|
      ensures Less(arena[r[i]].folderPath, arena[r[j]].folderPath)
      ensures !EqualFold(arena[r[i]].folderPath, arena[r[j]].folderPath)
    {
      if i == 0 {
        assert r[j] == ids[j - 1];
        if j > 1 {
          LessTransitive(px, arena[ids[0]].folderPath, arena[ids[j - 1]].folderPath);
        }
        EqualFoldSymmetric(px, arena[ids[j - 1]].folderPath);
      } else {
        assert r[i] == ids[i - 1] && r[j] == ids[j - 1];
      }
    }
  }

  /** A folder whose path is larger than the first one goes into the rest, behind the first. */
  lemma InsertLaterSorted(arena: seq<ReportedFolder>, ids: seq<nat>, x: nat, rr: seq<nat>)
    requires InArena(arena, ids) && x < |arena| && |ids| > 0
    requires SortedByPath(arena, ids) && NoFolderDup(arena, ids)
    requires forall i :: 0 <= i < |ids| ==> !EqualFold(arena[ids[i]].folderPath, arena[x].folderPath)
    requires !Less(arena[x].folderPath, arena[ids[0]].folderPath)
    requires InArena(arena, rr) && multiset(rr) == multiset(ids[1..]) + multiset{x}
    requires SortedByPath(arena, rr) && NoFolderDup(arena, rr)
    ensures SortedByPath(arena, [ids[0]] + rr) && NoFolderDup(arena, [ids[0]] + rr)
  {
    var r := [ids[0]] + rr;
    HeadBeforeRest(arena, ids, x, rr);
    forall i, j | 0 <= i < j < |r|
      ensures Less(arena[r[i]].folderPath, arena[r[j]].folderPath)
      ensures !EqualFold(arena[r[i]].folderPath, arena[r[j]].folderPath)
    {
      if i > 0 {
        assert r[i] == rr[i - 1] && r[j] == rr[j - 1];
      }
    }
  }

  /** The first folder of a sorted list comes before every folder of the rest with `x` inserted. */
  lemma HeadBeforeRest(arena: seq<ReportedFolder>, ids: seq<nat>, x: nat, rr: seq<nat>)
    requires InArena(arena, ids) && x < |arena| && |ids| > 0
    requires SortedByPath(arena, ids) && NoFolderDup(arena, ids)
    requires forall i :: 0 <= i < |ids| ==> !EqualFold(arena[ids[i]].folderPath, arena[x].folderPath)
    requires !Less(arena[x].folderPath, arena[ids[0]].folderPath)
    requires InArena(arena, rr) && multiset(rr) == multiset(ids[1..]) + multiset{x}
    ensures forall j :: 0 <= j < |rr| ==>
      Less(arena[ids[0]].folderPath, arena[rr[j]].folderPath) && !EqualFold(arena[ids[0]].folderPath, arena[rr[j]].folderPath)
  {
    var p0, px := arena[ids[0]].folderPath, arena[x].folderPath;
    var rest := ids[1..];
    EqualFoldReflexive(p0);
    assert p0 != px;
    LessTotal(p0, px);
    forall j | 0 <= j < |rr|
      ensures Less(p0, arena[rr[j]].folderPath) && !EqualFold(p0, arena[rr[j]].folderPath)
    {
      var e := rr[j];
      assert e in multiset(rr);
      if e != x {
        assert e in multiset(rest);
        var k :| 0 <= k < |rest| && rest[k] == e;
        assert ids[k + 1] == e;
      }
    }
  }

  // ---------------------------------------------------------------------------
  // The chain of folders AddFolderFile walks

  predicate Increasing(c: seq<nat>)
  {
    forall j, k :: 0 <= j < k < |c| ==> c[j] < c[k]
  }

  /** The subfolder list a chain ends at: the top level for an empty chain. */
  function ChainKids(arena: seq<ReportedFolder>, top: seq<nat>, c: seq<nat>): (r: seq<nat>)
    requires WellFormed(arena) && InArena(arena, top) && InArena(arena, c)
    ensures InArena(arena, r)
  {
    if |c| == 0 then top else arena[c[|c| - 1]].folders
  }

  /**
    The folders a walk down `paths` meets: starting from the top level, each path
    is looked up among the subfolders of the folder found for the previous one.
    None when some folder along the way is missing.
  */
  function ChainOf(arena: seq<ReportedFolder>, top: seq<nat>, paths: seq<string>): (r: Option<seq<nat>>)
    requires WellFormed(arena) && InArena(arena, top)
    ensures r.Some? ==> |r.value| == |paths| && InArena(arena, r.value) && Increasing(r.value)
    ensures r.Some? ==> forall j :: 0 <= j < |paths| ==> EqualFold(arena[r.value[j]].folderPath, paths[j])
    decreases |paths|
  {
    if |paths| == 0 then Some([])
    else match ChainOf(arena, top, paths[..|paths| - 1])
      case None => None
      case Some(c) =>
        var kids := ChainKids(arena, top, c);
        match FolderIndex(arena, kids, paths[|paths| - 1])
        case None => None
        case Some(i) =>
          ChainExtend(arena, top, paths, c, i);
          Some(c + [kids[i]])
  }

  /** The walk one level further down: the chain stays in the arena, increasing and on the paths. */
  lemma ChainExtend(arena: seq<ReportedFolder>, top: seq<nat>, paths: seq<string>, c: seq<nat>, i: nat)
    requires WellFormed(arena) && InArena(arena, top) && |paths| > 0
    requires |c| == |paths| - 1 && InArena(arena, c) && Increasing(c)
    requires forall j :: 0 <= j < |paths| - 1 ==> EqualFold(arena[c[j]].folderPath, paths[..|paths| - 1][j])
    requires i < |ChainKids(arena, top, c)|
    requires EqualFold(arena[ChainKids(arena, top, c)[i]].folderPath, paths[|paths| - 1])
    ensures var d := c + [ChainKids(arena, top, c)[i]];
      |d| == |paths| && InArena(arena, d) && Increasing(d) &&
      forall j :: 0 <= j < |paths| ==> EqualFold(arena[d[j]].folderPath, paths[j])
  {
    var kids := ChainKids(arena, top, c);
    var k := kids[i];
    if |c| > 0 {
      var last := c[|c| - 1];
      assert Above(arena[last].folders, last);
      assert kids == arena[last].folders;
    }
    IncreasingSnoc(c, k);
    var d := c + [k];
    forall j | 0 <= j < |paths| ensures EqualFold(arena[d[j]].folderPath, paths[j]) {
      if j < |c| {
        assert d[j] == c[j] && paths[..|paths| - 1][j] == paths[j];
      }
    }
  }

  lemma IncreasingSnoc(c: seq<nat>, k: nat)
    requires Increasing(c) && (|c| > 0 ==> c[|c| - 1] < k)
    ensures Increasing(c + [k])
  {
    var d := c + [k];
    forall j, l | 0 <= j < l < |d| ensures d[j] < d[l] {
      if l == |c| && j < |c| - 1 {
        assert c[j] < c[|c| - 1];
      }
    }
  }

  /** One more step of the walk. */
  lemma ChainStep(arena: seq<ReportedFolder>, top: seq<nat>, paths: seq<string>, i: nat, c: seq<nat>)
    requires WellFormed(arena) && InArena(arena, top) && i < |paths|
    requires ChainOf(arena, top, paths[..i]) == Some(c)
    ensures InArena(arena, c)
    ensures ChainOf(arena, top, paths[..i + 1]) ==
      match Lookup(arena, ChainKids(arena, top, c), paths[i])
      case None => None
      case Some(id) => Some(c + [id])
  {
    assert paths[..i + 1][..i] == paths[..i];
  }

  /** A walk that succeeds on `paths` succeeded on every prefix of it. */
  lemma {:induction false} ChainPrefix(arena: seq<ReportedFolder>, top: seq<nat>, paths: seq<string>, i: nat)
    requires WellFormed(arena) && InArena(arena, top) && i <= |paths|
    requires ChainOf(arena, top, paths).Some?
    ensures ChainOf(arena, top, paths[..i]).Some?
    ensures ChainOf(arena, top, paths[..i]).value == ChainOf(arena, top, paths).value[..i]
    decreases |paths| - i
  {
    if i < |paths| {
      var q := paths[..|paths| - 1];
      ChainInit(arena, top, paths);
      ChainPrefix(arena, top, q, i);
      PrefixOfInit(paths, q, i);
      PrefixOfInit(ChainOf(arena, top, paths).value, ChainOf(arena, top, q).value, i);
    } else {
      assert paths[..i] == paths;
    }
  }

  lemma PrefixOfInit<T>(c: seq<T>, c0: seq<T>, i: nat)
    requires |c| > 0 && c0 == c[..|c| - 1] && i < |c|
    ensures c0[..i] == c[..i]
  {
  }

  /** A walk that succeeds on `paths` succeeded on all but the last path, with the same folders. */
  lemma ChainInit(arena: seq<ReportedFolder>, top: seq<nat>, paths: seq<string>)
    requires WellFormed(arena) && InArena(arena, top) && |paths| > 0
    requires ChainOf(arena, top, paths).Some?
    ensures ChainOf(arena, top, paths[..|paths| - 1]).Some?
    ensures ChainOf(arena, top, paths).value[..|paths| - 1] == ChainOf(arena, top, paths[..|paths| - 1]).value
  {
  }

  /**
    The walk only reads the paths of existing folders, the top level when it goes
    past it, and the subfolder lists of the folders before the last one.
  */
  lemma {:induction false} ChainFrame(a1: seq<ReportedFolder>, t1: seq<nat>, a2: seq<ReportedFolder>, t2: seq<nat>,
                                    paths: seq<string>, c: seq<nat>)
    requires WellFormed(a1) && InArena(a1, t1) && WellFormed(a2) && InArena(a2, t2)
    requires ChainOf(a1, t1, paths) == Some(c)
    requires |a1| <= |a2| && forall k :: 0 <= k < |a1| ==> a2[k].folderPath == a1[k].folderPath
    requires |c| > 0 ==> t2 == t1
    requires forall j :: 0 <= j < |c| - 1 ==> a2[c[j]].folders == a1[c[j]].folders
    ensures ChainOf(a2, t2, paths) == Some(c)
    decreases |paths|
  {
    var n := |paths|;
    if n > 0 {
      var c0 := ChainOf(a1, t1, paths[..n - 1]).value;
      var kids := ChainKids(a1, t1, c0);
      var i := FolderIndex(a1, kids, paths[n - 1]).value;
      assert c == c0 + [kids[i]];
      assert t2 == t1;
      assert forall j :: 0 <= j < |c0| ==> c0[j] == c[j];
      ChainFrame(a1, t1, a2, t2, paths[..n - 1], c0);
      if |c0| > 0 {
        assert c0[|c0| - 1] == c[|c| - 2];
      }
      assert ChainKids(a2, t2, c0) == kids;
      FolderIndexFrame(a1, a2, kids, paths[n - 1]);
    }
  }

  /**
    After a step that only grew the arena below the end of the chain (or, for
    an empty chain, only grew the arena and the top level) and that found or
    created the folder `next` for paths[i], the walk reaches one level further.
  */
  lemma DescendChain(a1: seq<ReportedFolder>, t1: seq<nat>, a2: seq<ReportedFolder>, t2: seq<nat>,
                     paths: seq<string>, p: string, c: seq<nat>, next: nat, changed: set<nat>)
    requires WellFormed(a1) && InArena(a1, t1) && WellFormed(a2) && InArena(a2, t2)
    requires ChainOf(a1, t1, paths) == Some(c)
    requires Extends(a1, a2, changed)
    requires |c| > 0 ==> t2 == t1 && changed <= {c[|c| - 1]}
    requires Lookup(a2, ChainKids(a2, t2, c), p) == Some(next)
    ensures ChainOf(a2, t2, paths + [p]) == Some(c + [next])
  {
    ExtendsPaths(a1, a2, changed);
    ExtendsChainLists(a1, a2, changed, c);
    ChainFrame(a1, t1, a2, t2, paths, c);
    ChainSnoc(a2, t2, paths, p, c, next);
  }

  /** A walk that reaches `c` and then finds `next` for `p` reaches `c + [next]`. */
  lemma ChainSnoc(arena: seq<ReportedFolder>, top: seq<nat>, paths: seq<string>, p: string, c: seq<nat>, next: nat)
    requires WellFormed(arena) && InArena(arena, top)
    requires ChainOf(arena, top, paths) == Some(c)
    requires Lookup(arena, ChainKids(arena, top, c), p) == Some(next)
    ensures ChainOf(arena, top, paths + [p]) == Some(c + [next])
  {
    var q := paths + [p];
    assert q[..|paths|] == paths;
    ChainStep(arena, top, q, |paths|, c);
    assert q[..|q|] == q;
  }

  /**
    One step of AddFolderFile's walk, from the arena `f1` with top level `t1` to
    `f2` with `t2`: the folder `next` for `p` either existed already (nothing
    changed) or was just created below the end of the chain.
  */
  lemma WalkStepFacts(o: seq<ReportedFolder>, f1: seq<ReportedFolder>, t1: seq<nat>,
                      f2: seq<ReportedFolder>, t2: seq<nat>, c: seq<nat>, paths: seq<string>,
                      p: string, next: nat, existed: bool, t0: seq<nat>)
    requires WellFormed(f1) && InArena(f1, t1) && WellFormed(f2) && InArena(f2, t2)
    requires Grown(o, f1, c, paths) && ChainOf(f1, t1, paths) == Some(c) && |f1| <= |f2|
    requires TopGrown(o, t0, t1, c)
    requires !existed && |c| == 0 ==> multiset(t2) == multiset(t1) + multiset{next}
    requires Lookup(f2, ChainKids(f2, t2, c), p) == Some(next)
    requires |c| > 0 ==> t2 == t1
    requires existed ==> f2 == f1 && t2 == t1
    requires !existed ==> next == |f1| && |f2| == |f1| + 1 && f2[next].folderPath == p && f2[next].files == []
    requires !existed ==> f2[next].folders == []
    requires !existed && |c| > 0 ==> c[|c| - 1] < |f1| && f2 == AttachChild(f1, c[|c| - 1], f2[next])
    requires !existed && |c| == 0 ==> f2 == f1 + [f2[next]]
    ensures Grown(o, f2, c + [next], paths + [p])
    ensures ChainOf(f2, t2, paths + [p]) == Some(c + [next])
    ensures |f2| == |o| ==> |f1| == |o| && f2 == f1 && t2 == t1
    ensures TopGrown(o, t0, t2, c + [next])
    ensures existed ==> next < |o|
    ensures forall k :: 0 <= k < |f1| ==> f2[k].(folders := f1[k].folders) == f1[k]
  {
    if |c| == 0 {
      GrownNone(o, f1);
    }
    TopGrownStep(o, t0, t1, t2, c, next, |f1|, !existed);
    var ch: set<nat> := if existed || |c| == 0 then {} else {c[|c| - 1]};
    if !existed {
      if |c| > 0 {
        ExtendsAttach(f1, c[|c| - 1], f2[next]);
      } else {
        ExtendsAppend(f1, f2[next]);
      }
    }
    if existed {
      ExtendsRefl(f1);
      var kids := ChainKids(f1, t1, c);
      assert next in kids && next < |f1|;
      if |c| > 0 {
        NotOnChain(f1, t1, c, next);
      }
      assert |o| <= next ==> next in c;
    }
    GrownStep(o, f1, f2, c, paths, p, next, ch, existed);
    DescendChain(f1, t1, f2, t2, paths, p, c, next, ch);
  }

  /** Along a walk that succeeds, each step finds the next folder of the walk. */
  lemma ChainNext(arena: seq<ReportedFolder>, top: seq<nat>, paths: seq<string>, i: nat, c: seq<nat>)
    requires WellFormed(arena) && InArena(arena, top) && i < |paths|
    requires ChainOf(arena, top, paths).Some? && ChainOf(arena, top, paths).value[..i] == c
    ensures InArena(arena, c)
    ensures Lookup(arena, ChainKids(arena, top, c), paths[i]) == Some(ChainOf(arena, top, paths).value[i])
  {
    ChainPrefix(arena, top, paths, i);
    ChainPrefix(arena, top, paths, i + 1);
    ChainStep(arena, top, paths, i, c);
  }


  /** Taking one more element of a sequence. */
  lemma SliceSnoc<T>(s: seq<T>, i: nat)
    requires i < |s|
    ensures s[..i] + [s[i]] == s[..i + 1]
  {
  }

  /**
    The arena `f` grew from `o` by a walk that met the folders `c` for `paths`:
    only the subfolder lists of chain folders changed, every new folder lies on
    the chain, and a new chain folder has exactly its path and no files. Each
    chain folder's subfolder list is its old one (none for a new folder) with
    the next folder of the chain appended exactly when that one is new.
  */
  predicate Grown(o: seq<ReportedFolder>, f: seq<ReportedFolder>, c: seq<nat>, paths: seq<string>)
  {
    |c| == |paths| && Extends(o, f, Elems(c)) &&
    (forall k :: |o| <= k < |f| ==> k in c) &&
    (forall j :: 0 <= j < |c| ==> c[j] < |f|) &&
    (forall j :: 0 <= j < |c| && c[j] < |o| ==> f[c[j]].folders == o[c[j]].folders + NewKid(o, c, j)) &&
    (forall j :: 0 <= j < |c| && |o| <= c[j] ==>
      f[c[j]].folderPath == paths[j] && f[c[j]].files == [] && f[c[j]].folders == NewKid(o, c, j))
  }

  /** What the walk appended below its j-th folder: the next folder of the chain, when that one is new. */
  function NewKid(o: seq<ReportedFolder>, c: seq<nat>, j: nat): seq<nat>
  {
    if j + 1 < |c| && |o| <= c[j + 1] then [c[j + 1]] else []
  }

  /**
    The top level `t` grew from `t0` by a walk from the arena `o` that met the
    folders `c`: it holds every old entry, and one more exactly when the first
    folder of the walk is new.
  */
  predicate TopGrown(o: seq<ReportedFolder>, t0: seq<nat>, t: seq<nat>, c: seq<nat>)
  {
    multiset(t) == multiset(t0) + (if |c| > 0 && |o| <= c[0] then multiset{c[0]} else multiset{})
  }

  /** One step of the walk keeps TopGrown: only the first step may touch the top level. */
  lemma TopGrownStep(o: seq<ReportedFolder>, t0: seq<nat>, t1: seq<nat>, t2: seq<nat>,
                     c: seq<nat>, next: nat, size: nat, created: bool)
    requires TopGrown(o, t0, t1, c)
    requires |c| > 0 ==> t2 == t1
    requires |c| == 0 ==> size == |o|
    requires |c| == 0 && !created ==> t2 == t1 && next < size
    requires |c| == 0 && created ==> next == size && multiset(t2) == multiset(t1) + multiset{next}
    ensures TopGrown(o, t0, t2, c + [next])
  {
    assert (c + [next])[0] == if |c| > 0 then c[0] else next;
  }

  lemma GrownStart(o: seq<ReportedFolder>)
    ensures Grown(o, o, [], [])
  {
  }

  /** A walk that met no folder changed nothing. */
  lemma GrownNone(o: seq<ReportedFolder>, f: seq<ReportedFolder>)
    requires Grown(o, f, [], [])
    ensures f == o
  {
    var none: seq<nat> := [];
    assert |o| < |f| ==> |o| in none;
    assert forall k :: 0 <= k < |o| ==> f[k] == o[k];
  }

  /** A folder found below the end of an increasing chain is not on it. */
  lemma NotOnChain(arena: seq<ReportedFolder>, top: seq<nat>, c: seq<nat>, next: nat)
    requires WellFormed(arena) && InArena(arena, top) && InArena(arena, c) && Increasing(c)
    requires |c| > 0 && next in ChainKids(arena, top, c)
    ensures next !in c
  {
    var last := c[|c| - 1];
    assert Above(arena[last].folders, last);
    assert forall j :: 0 <= j < |c| ==> c[j] <= last;
  }

  /**
    One step of the walk: either the folder `next` already existed (and is not on
    the chain, and not new), or it was just created with the path `p` and no
    subfolders, and appended to the subfolder list at the end of the chain.
  */
  lemma GrownStep(o: seq<ReportedFolder>, f1: seq<ReportedFolder>, f2: seq<ReportedFolder>,
                  c: seq<nat>, paths: seq<string>, p: string, next: nat, changed: set<nat>, existed: bool)
    requires Grown(o, f1, c, paths) && Increasing(c)
    requires Extends(f1, f2, changed) && changed <= (if |c| == 0 then {} else {c[|c| - 1]})
    requires existed ==> f2 == f1 && next < |o| && next !in c
    requires !existed ==> next == |f1| && |f2| == |f1| + 1 && f2[next].folderPath == p && f2[next].files == []
    requires !existed ==> f2[next].folders == []
    requires !existed && |c| > 0 ==> f2[c[|c| - 1]].folders == f1[c[|c| - 1]].folders + [next]
    ensures Grown(o, f2, c + [next], paths + [p])
  {
    var c2 := c + [next];
    if |c| > 0 {
      assert c[|c| - 1] in Elems(c);
    }
    ExtendsTrans(o, f1, f2, Elems(c), changed, Elems(c2));
    ExtendsPaths(f1, f2, changed);
    ExtendsChainLists(f1, f2, changed, c);
    forall k | |o| <= k < |f2| ensures k in c2 {
      if k < |f1| {
        assert k in c;
      } else {
        assert k == c2[|c|];
      }
    }
    if existed {
      assert next !in Elems(c);
    }
    GrownStepOld(o, f1, f2, c, next, existed);
    GrownStepNew(o, f1, f2, c, paths, p, next, existed);
  }

  /** GrownStep for the chain folders that are old. */
  lemma GrownStepOld(o: seq<ReportedFolder>, f1: seq<ReportedFolder>, f2: seq<ReportedFolder>,
                     c: seq<nat>, next: nat, existed: bool)
    requires |o| <= |f1| <= |f2| && (forall j :: 0 <= j < |c| ==> c[j] < |f1|)
    requires forall j :: 0 <= j < |c| && c[j] < |o| ==> f1[c[j]].folders == o[c[j]].folders + NewKid(o, c, j)
    requires forall j :: 0 <= j < |c| - 1 ==> f2[c[j]].folders == f1[c[j]].folders
    requires existed ==> f2 == f1 && next < |o| && next !in c && o[next] == f1[next]
    requires !existed ==> next == |f1|
    requires !existed && |c| > 0 ==> f2[c[|c| - 1]].folders == f1[c[|c| - 1]].folders + [next]
    ensures forall j :: 0 <= j < |c + [next]| && (c + [next])[j] < |o| ==>
      f2[(c + [next])[j]].folders == o[(c + [next])[j]].folders + NewKid(o, c + [next], j)
  {
    var c2 := c + [next];
    forall j | 0 <= j < |c2| && c2[j] < |o| ensures f2[c2[j]].folders == o[c2[j]].folders + NewKid(o, c2, j) {
      if j < |c| - 1 {
        assert c2[j] == c[j] && c2[j + 1] == c[j + 1];
        assert NewKid(o, c2, j) == NewKid(o, c, j);
      } else if j == |c| - 1 {
        assert c2[j] == c[j] && NewKid(o, c, j) == [];
        assert o[c[j]].folders + [] == o[c[j]].folders;
      } else if existed {
        assert NewKid(o, c2, j) == [];
        assert o[next].folders + [] == o[next].folders;
      }
    }
  }

  /** GrownStep for the chain folders that are new. */
  lemma GrownStepNew(o: seq<ReportedFolder>, f1: seq<ReportedFolder>, f2: seq<ReportedFolder>,
                     c: seq<nat>, paths: seq<string>, p: string, next: nat, existed: bool)
    requires |c| == |paths| && |o| <= |f1| <= |f2| && (forall j :: 0 <= j < |c| ==> c[j] < |f1|)
    requires forall k :: 0 <= k < |f1| ==> f2[k].folderPath == f1[k].folderPath && f2[k].files == f1[k].files
    requires forall j :: 0 <= j < |c| && |o| <= c[j] ==>
      f1[c[j]].folderPath == paths[j] && f1[c[j]].files == [] && f1[c[j]].folders == NewKid(o, c, j)
    requires forall j :: 0 <= j < |c| - 1 ==> f2[c[j]].folders == f1[c[j]].folders
    requires existed ==> f2 == f1 && next < |o|
    requires !existed ==> next == |f1| && next < |f2| && f2[next].folderPath == p && f2[next].files == []
    requires !existed ==> f2[next].folders == []
    requires !existed && |c| > 0 ==> f2[c[|c| - 1]].folders == f1[c[|c| - 1]].folders + [next]
    ensures forall j :: 0 <= j < |c + [next]| ==> (c + [next])[j] < |f2|
    ensures forall j :: 0 <= j < |c + [next]| && |o| <= (c + [next])[j] ==>
      f2[(c + [next])[j]].folderPath == (paths + [p])[j] && f2[(c + [next])[j]].files == [] &&
      f2[(c + [next])[j]].folders == NewKid(o, c + [next], j)
  {
    var c2 := c + [next];
    forall j | 0 <= j < |c2| && |o| <= c2[j]
      ensures f2[c2[j]].folderPath == (paths + [p])[j] && f2[c2[j]].files == [] && f2[c2[j]].folders == NewKid(o, c2, j)
    {
      if j < |c| - 1 {
        assert c2[j] == c[j] && c2[j + 1] == c[j + 1] && (paths + [p])[j] == paths[j];
        assert NewKid(o, c2, j) == NewKid(o, c, j);
      } else if j == |c| - 1 {
        assert c2[j] == c[j] && (paths + [p])[j] == paths[j] && NewKid(o, c, j) == [];
      }
    }
  }

  /** AddFolderFile's relDirs: the directory segments of the file below the source directory. */
  function RelDirsOf(sourceDir: string, sourceFile: string): seq<string>
    requires |sourceDir| <= |Dir(sourceFile)|
  {
    Split(Dir(sourceFile)[|sourceDir|..], '/')[1..]
  }

  /** The folder path AddFolderFile looks up at each step: the source directory joined with the first i + 1 segments. */
  function FolderPaths(sourceDir: string, relDirs: seq<string>): (r: seq<string>)
    ensures |r| == |relDirs|
  {
    seq(|relDirs|, i requires 0 <= i < |relDirs| => JoinPath(sourceDir, Join(relDirs[..i + 1], "/")))
  }

  /** Segments that are proper directory names. */
  predicate Segments(dirs: seq<string>)
  {
    forall i :: 0 <= i < |dirs| ==> dirs[i] != "" && '/' !in dirs[i]
  }

  /**
    For a file n directories below the source directory, relDirs lists exactly
    those directories, and the folder visited at step j is the source directory
    followed by the first j + 1 of them.
  */
  lemma RelDirsNested(root: string, dirs: seq<string>, name: string)
    requires RootedDir(root) && Segments(dirs) && '/' !in name
    ensures |root| <= |Dir(root + "/" + Join(dirs + [name], "/"))|
    ensures RelDirsOf(root, root + "/" + Join(dirs + [name], "/")) == dirs
    ensures forall j :: 0 <= j < |dirs| ==> FolderPaths(root, dirs)[j] == root + "/" + Join(dirs[..j + 1], "/")
  {
    RelDirsExact(root, dirs, name);
    FolderPathsNested(root, dirs);
  }

  lemma RelDirsExact(root: string, dirs: seq<string>, name: string)
    requires RootedDir(root) && Segments(dirs) && '/' !in name
    ensures |root| <= |Dir(root + "/" + Join(dirs + [name], "/"))|
    ensures RelDirsOf(root, root + "/" + Join(dirs + [name], "/")) == dirs
  {
    DirBelowRoot(root, dirs, name);
    var d := Dir(root + "/" + Join(dirs + [name], "/"));
    if |dirs| == 0 {
      assert d[|root|..] == "";
    } else {
      var t := Join(dirs, "/");
      assert d[|root|..] == "/" + t;
      assert Split("/" + t, '/') == [""] + Split(t, '/') by {
        assert ("/" + t)[1..] == t;
      }
      SplitJoin(dirs, '/');
    }
  }

  lemma FolderPathsNested(root: string, dirs: seq<string>)
    requires RootedDir(root) && Segments(dirs)
    ensures forall j :: 0 <= j < |dirs| ==> FolderPaths(root, dirs)[j] == root + "/" + Join(dirs[..j + 1], "/")
  {
    forall j | 0 <= j < |dirs| ensures FolderPaths(root, dirs)[j] == root + "/" + Join(dirs[..j + 1], "/") {
      JoinHead(dirs[..j + 1]);
    }
  }

  /** A join of proper segments starts with the first one, so it has no leading '/'. */
  lemma JoinHead(parts: seq<string>)
    requires |parts| >= 1 && Segments(parts)
    ensures Join(parts, "/") != "" && Join(parts, "/")[0] == parts[0][0]
  {
    if |parts| > 1 {
      assert Join(parts, "/") == parts[0] + "/" + Join(parts[1..], "/");
    }
  }

  // ---------------------------------------------------------------------------
  // Arena updates performed by AddFolder and AddFile

  /** Within each folder, no duplicate subfolder paths and no duplicate file paths. */
  predicate ArenaNoDup(arena: seq<ReportedFolder>)
    requires WellFormed(arena)
  {
    forall k :: 0 <= k < |arena| ==> NoFolderDup(arena, arena[k].folders) && NoFileDup(arena[k].files)
  }

  /** The ids listed at the top level and under the first `k` folders, with their multiplicity. */
  function Listed(arena: seq<ReportedFolder>, top: seq<nat>, k: nat): multiset<nat>
    requires k <= |arena|
  {
    if k == 0 then multiset(top) else Listed(arena, top, k - 1) + multiset(arena[k - 1].folders)
  }

  /**
    Every folder has at most one parent: each id occurs at most once across the
    top level and all subfolder lists together, so no folder is both a top-level
    folder and a subfolder, and none is listed under two folders or twice.
  */
  ghost predicate SingleParent(arena: seq<ReportedFolder>, top: seq<nat>)
  {
    forall x :: Listed(arena, top, |arena|)[x] <= 1
  }

  /** Changing anything but the subfolder lists keeps SingleParent. */
  lemma SameListsSingle(a: seq<ReportedFolder>, b: seq<ReportedFolder>, top: seq<nat>)
    requires |a| == |b| && forall k :: 0 <= k < |a| ==> b[k].folders == a[k].folders
    requires SingleParent(a, top)
    ensures SingleParent(b, top)
  {
    SameListed(a, b, top, |a|);
  }

  lemma {:induction false} SameListed(a: seq<ReportedFolder>, b: seq<ReportedFolder>, top: seq<nat>, k: nat)
    requires |a| == |b| && k <= |a| && forall i :: 0 <= i < |a| ==> b[i].folders == a[i].folders
    ensures Listed(b, top, k) == Listed(a, top, k)
  {
    if k > 0 {
      SameListed(a, b, top, k - 1);
    }
  }

  /** In a well-formed arena every listed id is below its size, so a fresh id is listed nowhere. */
  lemma {:induction false} FreshUnlisted(arena: seq<ReportedFolder>, top: seq<nat>, k: nat)
    requires WellFormed(arena) && InArena(arena, top) && k <= |arena|
    ensures |arena| !in Listed(arena, top, k)
  {
    if k == 0 {
      assert forall i :: 0 <= i < |top| ==> top[i] < |arena|;
    } else {
      FreshUnlisted(arena, top, k - 1);
      var kids := arena[k - 1].folders;
      assert InArena(arena, kids);
      assert forall i :: 0 <= i < |kids| ==> kids[i] < |arena|;
    }
  }

  /** Attaching under `parent` lists the fresh id once more, under the parent. */
  lemma {:induction false} AttachChildListed(arena: seq<ReportedFolder>, top: seq<nat>, parent: nat, f: ReportedFolder, k: nat)
    requires parent < |arena| && k <= |arena|
    ensures Listed(AttachChild(arena, parent, f), top, k) ==
      Listed(arena, top, k) + (if parent < k then multiset{|arena| as nat} else multiset{})
  {
    if k > 0 {
      AttachChildListed(arena, top, parent, f, k - 1);
      if k - 1 == parent {
        var r := AttachChild(arena, parent, f);
        assert multiset(r[parent].folders) == multiset(arena[parent].folders) + multiset{|arena| as nat};
      }
    }
  }

  /** A folder without subfolders adds nothing to the listed ids. */
  lemma ListedLeaf(arena: seq<ReportedFolder>, top: seq<nat>, k: nat)
    requires 0 < k <= |arena| && arena[k - 1].folders == []
    ensures Listed(arena, top, k) == Listed(arena, top, k - 1)
  {
    assert multiset(arena[k - 1].folders) == multiset{};
  }

  /** Attaching a fresh folder, with no subfolders, under one parent keeps SingleParent. */
  lemma AttachChildSingle(arena: seq<ReportedFolder>, top: seq<nat>, parent: nat, f: ReportedFolder)
    requires WellFormed(arena) && InArena(arena, top) && SingleParent(arena, top)
    requires parent < |arena| && f.folders == []
    ensures SingleParent(AttachChild(arena, parent, f), top)
  {
    var r := AttachChild(arena, parent, f);
    FreshUnlisted(arena, top, |arena|);
    AttachChildListed(arena, top, parent, f, |arena|);
    ListedLeaf(r, top, |r|);
    OnceMore(Listed(arena, top, |arena|), |arena|);
    assert Listed(r, top, |r|) == Listed(arena, top, |arena|) + multiset{|arena| as nat};
  }

  /** With the fresh id added to the top level, every list keeps its ids and the fresh id is listed once. */
  lemma {:induction false} AttachTopListed(arena: seq<ReportedFolder>, top: seq<nat>, t: seq<nat>, f: ReportedFolder, k: nat)
    requires multiset(t) == multiset(top) + multiset{|arena| as nat} && k <= |arena|
    ensures Listed(arena + [f], t, k) == Listed(arena, top, k) + multiset{|arena| as nat}
  {
    if k > 0 {
      AttachTopListed(arena, top, t, f, k - 1);
      assert (arena + [f])[k - 1] == arena[k - 1];
    }
  }

  /** Adding a fresh folder, with no subfolders, to the top level keeps SingleParent. */
  lemma AttachTopSingle(arena: seq<ReportedFolder>, top: seq<nat>, f: ReportedFolder)
    requires WellFormed(arena) && InArena(arena, top) && SingleParent(arena, top) && f.folders == []
    ensures SingleParent(arena + [f], InsertByPath(arena + [f], top, |arena|))
  {
    var r := arena + [f];
    var t := InsertByPath(r, top, |arena|);
    FreshUnlisted(arena, top, |arena|);
    AttachTopListed(arena, top, t, f, |arena|);
    ListedLeaf(r, t, |r|);
    OnceMore(Listed(arena, top, |arena|), |arena|);
    assert Listed(r, t, |r|) == Listed(arena, top, |arena|) + multiset{|arena| as nat};
  }

  /** A multiset holding each element at most once still does so with a new element added. */
  lemma OnceMore(m: multiset<nat>, n: nat)
    requires (forall x :: m[x] <= 1) && n !in m
    ensures forall x :: (m + multiset{n})[x] <= 1
  {
  }

  /** Arenas that agree on the paths of the first |a| folders and on every listed id's path. */
  predicate KeepsPaths(a: seq<ReportedFolder>, b: seq<ReportedFolder>)
  {
    |a| <= |b| && forall k :: 0 <= k < |a| ==> b[k].folderPath == a[k].folderPath
  }

  /** Facts about a list of ids that only depend on the paths they name carry over. */
  lemma KeepsPathsList(a: seq<ReportedFolder>, b: seq<ReportedFolder>, ids: seq<nat>, p: string)
    requires KeepsPaths(a, b) && InArena(a, ids)
    ensures InArena(b, ids)
    ensures SortedByPath(a, ids) ==> SortedByPath(b, ids)
    ensures NoFolderDup(a, ids) ==> NoFolderDup(b, ids)
    ensures Lookup(b, ids, p) == Lookup(a, ids, p)
  {
    FolderIndexFrame(a, b, ids, p);
  }

  /** ReportedFolder.AddFolder on the arena: `f` takes the next id, appended to the subfolders of `parent`. */
  function AttachChild(arena: seq<ReportedFolder>, parent: nat, f: ReportedFolder): (r: seq<ReportedFolder>)
    requires parent < |arena|
    ensures |r| == |arena| + 1 && r[|arena|] == f
    ensures forall k :: 0 <= k < |arena| && k != parent ==> r[k] == arena[k]
    ensures r[parent] == arena[parent].(folders := arena[parent].folders + [|arena|])
  {
    arena[parent := arena[parent].(folders := arena[parent].folders + [|arena|])] + [f]
  }

  lemma AttachChildKeeps(arena: seq<ReportedFolder>, parent: nat, f: ReportedFolder)
    requires WellFormed(arena) && ArenaNoDup(arena) && parent < |arena|
    requires f.folders == [] && NoFileDup(f.files)
    requires Lookup(arena, arena[parent].folders, f.folderPath).None?
    ensures KeepsPaths(arena, AttachChild(arena, parent, f))
    ensures WellFormed(AttachChild(arena, parent, f)) && ArenaNoDup(AttachChild(arena, parent, f))
  {
    var r := AttachChild(arena, parent, f);
    var n := |arena|;
    assert KeepsPaths(arena, r);
    forall k | 0 <= k < |r| ensures InArena(r, r[k].folders) && Above(r[k].folders, k) {
    }
    forall k | 0 <= k < |r| ensures NoFolderDup(r, r[k].folders) && NoFileDup(r[k].files) {
      if k < n {
        KeepsPathsList(arena, r, arena[k].folders, f.folderPath);
      }
      if k == parent {
        var kids := r[k].folders;
        forall i, j | 0 <= i < j < |kids| ensures !EqualFold(r[kids[i]].folderPath, r[kids[j]].folderPath) {
          if j == |kids| - 1 {
            assert kids[j] == n && kids[i] == arena[parent].folders[i];
            EqualFoldSymmetric(r[kids[i]].folderPath, f.folderPath);
          } else {
            assert kids[i] == arena[parent].folders[i] && kids[j] == arena[parent].folders[j];
          }
        }
      }
    }
  }

  /** With the id attached, the look-up that failed before now finds the new folder. */
  lemma AttachChildFinds(arena: seq<ReportedFolder>, parent: nat, f: ReportedFolder)
    requires WellFormed(arena) && parent < |arena|
    requires Lookup(arena, arena[parent].folders, f.folderPath).None?
    ensures InArena(AttachChild(arena, parent, f), AttachChild(arena, parent, f)[parent].folders)
    ensures Lookup(AttachChild(arena, parent, f), AttachChild(arena, parent, f)[parent].folders, f.folderPath) == Some(|arena|)
  {
    var r := AttachChild(arena, parent, f);
    var kids := r[parent].folders;
    EqualFoldReflexive(f.folderPath);
    assert kids[|kids| - 1] == |arena|;
    forall i | 0 <= i < |kids| && kids[i] != |arena| ensures !EqualFold(r[kids[i]].folderPath, f.folderPath) {
      assert kids[i] == arena[parent].folders[i];
    }
    LookupOnlyMatch(r, kids, f.folderPath, |arena|);
  }

  /**
    `b` grows `a`: every folder of `a` is unchanged in `b` except for its
    subfolder list, and that only when its id is in `changed`; a subfolder list
    that changed keeps its old entries as a prefix, so no folder is dropped.
  */
  predicate Extends(a: seq<ReportedFolder>, b: seq<ReportedFolder>, changed: set<nat>)
  {
    |a| <= |b| &&
    forall k :: 0 <= k < |a| ==>
      b[k].(folders := a[k].folders) == a[k] && a[k].folders <= b[k].folders &&
      (k !in changed ==> b[k] == a[k])
  }

  lemma ExtendsAppend(a: seq<ReportedFolder>, f: ReportedFolder)
    ensures Extends(a, a + [f], {})
  {
    assert forall k :: 0 <= k < |a| ==> (a + [f])[k] == a[k];
  }

  lemma ExtendsAttach(a: seq<ReportedFolder>, parent: nat, f: ReportedFolder)
    requires parent < |a|
    ensures Extends(a, AttachChild(a, parent, f), {parent})
  {
  }

  lemma ExtendsTrans(a: seq<ReportedFolder>, b: seq<ReportedFolder>, c: seq<ReportedFolder>,
                     s1: set<nat>, s2: set<nat>, s: set<nat>)
    requires Extends(a, b, s1) && Extends(b, c, s2) && s1 + s2 <= s
    ensures Extends(a, c, s)
  {
    forall k | 0 <= k < |a|
      ensures c[k].(folders := a[k].folders) == a[k] && a[k].folders <= c[k].folders && (k !in s ==> c[k] == a[k])
    {
      assert c[k].(folders := b[k].folders) == b[k];
      PrefixTrans(a[k].folders, b[k].folders, c[k].folders);
    }
  }

  lemma PrefixTrans<T>(x: seq<T>, y: seq<T>, z: seq<T>)
    requires x <= y && y <= z
    ensures x <= z
  {
    assert z[..|x|] == y[..|x|];
  }

  lemma ExtendsRefl(a: seq<ReportedFolder>)
    ensures Extends(a, a, {})
  {
  }

  lemma ExtendsPaths(a: seq<ReportedFolder>, b: seq<ReportedFolder>, changed: set<nat>)
    requires Extends(a, b, changed)
    ensures |a| <= |b|
    ensures forall k :: 0 <= k < |a| ==> b[k].folderPath == a[k].folderPath && b[k].files == a[k].files
  {
    forall k | 0 <= k < |a| ensures b[k].folderPath == a[k].folderPath && b[k].files == a[k].files {
      assert b[k].(folders := a[k].folders) == a[k];
    }
  }

  /** Growing below the end of an increasing chain keeps the subfolder lists before it. */
  lemma ExtendsChainLists(a: seq<ReportedFolder>, b: seq<ReportedFolder>, changed: set<nat>, c: seq<nat>)
    requires Extends(a, b, changed) && InArena(a, c) && Increasing(c)
    requires |c| > 0 ==> changed <= {c[|c| - 1]}
    ensures forall j :: 0 <= j < |c| - 1 ==> b[c[j]].folders == a[c[j]].folders
  {
    forall j | 0 <= j < |c| - 1 ensures b[c[j]].folders == a[c[j]].folders {
      assert c[j] < c[|c| - 1];
    }
  }

  /** The ids of a chain, as a set. */
  function Elems(c: seq<nat>): set<nat>
  {
    set x | x in c
  }

  /** ReportContext.AddFolder on the arena: `f` takes the next id, placed in the sorted top level. */
  lemma AttachTopKeeps(arena: seq<ReportedFolder>, top: seq<nat>, f: ReportedFolder)
    requires WellFormed(arena) && ArenaNoDup(arena) && InArena(arena, top)
    requires SortedByPath(arena, top) && NoFolderDup(arena, top)
    requires f.folders == [] && NoFileDup(f.files)
    requires Lookup(arena, top, f.folderPath).None?
    ensures KeepsPaths(arena, arena + [f])
    ensures WellFormed(arena + [f]) && ArenaNoDup(arena + [f])
    ensures InArena(arena + [f], InsertByPath(arena + [f], top, |arena|))
    ensures var t := InsertByPath(arena + [f], top, |arena|);
      SortedByPath(arena + [f], t) && NoFolderDup(arena + [f], t) && Lookup(arena + [f], t, f.folderPath) == Some(|arena|)
  {
    var r := arena + [f];
    var n := |arena|;
    assert KeepsPaths(arena, r);
    forall k | 0 <= k < |r| ensures InArena(r, r[k].folders) && Above(r[k].folders, k) {
    }
    forall k | 0 <= k < |r| ensures NoFolderDup(r, r[k].folders) && NoFileDup(r[k].files) {
      if k < n {
        KeepsPathsList(arena, r, arena[k].folders, f.folderPath);
      }
    }
    KeepsPathsList(arena, r, top, f.folderPath);
    forall i | 0 <= i < |top| ensures !EqualFold(r[top[i]].folderPath, r[n].folderPath) {
    }
    InsertByPathSorted(r, top, n);
    var t := InsertByPath(r, top, n);
    EqualFoldReflexive(f.folderPath);
    assert n in multiset(t);
    forall i | 0 <= i < |t| && t[i] != n ensures !EqualFold(r[t[i]].folderPath, f.folderPath) {
      assert t[i] in multiset(t);
      assert t[i] in multiset(top);
      var k :| 0 <= k < |top| && top[k] == t[i];
    }
    LookupOnlyMatch(r, t, f.folderPath, n);
  }

  /** Changing the files of one folder leaves every walk as it was. */
  lemma ChainSetFiles(arena: seq<ReportedFolder>, top: seq<nat>, paths: seq<string>, c: seq<nat>,
                      id: nat, files: seq<ReportedFile>)
    requires WellFormed(arena) && InArena(arena, top) && id < |arena|
    requires ChainOf(arena, top, paths) == Some(c)
    ensures WellFormed(arena[id := arena[id].(files := files)])
    ensures ChainOf(arena[id := arena[id].(files := files)], top, paths) == Some(c)
  {
    var r := arena[id := arena[id].(files := files)];
    assert forall k :: 0 <= k < |r| ==> r[k].folders == arena[k].folders && r[k].folderPath == arena[k].folderPath;
    assert WellFormed(r);
    ChainFrame(arena, top, r, top, paths, c);
  }

  lemma SetFilesKeeps(arena: seq<ReportedFolder>, id: nat, files: seq<ReportedFile>)
    requires WellFormed(arena) && ArenaNoDup(arena) && id < |arena| && NoFileDup(files)
    ensures var r := arena[id := arena[id].(files := files)];
      KeepsPaths(arena, r) && KeepsPaths(r, arena) && WellFormed(r) && ArenaNoDup(r)
  {
    var r := arena[id := arena[id].(files := files)];
    assert KeepsPaths(arena, r);
    forall k | 0 <= k < |r| ensures r[k].folders == arena[k].folders {
    }
    forall k | 0 <= k < |r| ensures NoFolderDup(r, r[k].folders) {
      KeepsPathsList(arena, r, arena[k].folders, "");
    }
  }

  /** A path strictly inside directory `root`. */
  predicate Below(root: string, p: string)
  {
    |p| > |root| && p[..|root| + 1] == root + "/"
  }

  /** A path below the root has its directory at or below the root. */
  lemma DirBelow(root: string, p: string)
    requires RootedDir(root) && Below(root, p)
    ensures |root| <= |Dir(p)|
  {
    assert p[|root|] == (root + "/")[|root|];
  }

  /** The index page of any folder AddFolderFile visits lies inside the source directory. */
  lemma FolderPageBelow(root: string, x: string)
    requires RootedDir(root)
    ensures Below(root, JoinPath(JoinPath(root, x), "index.html"))
  {
    var fp := JoinPath(root, x);
    if x == "" {
      assert fp == root;
    } else {
      var z := DropLeadingSlash(x);
      assert fp == root + "/" + z;
      var d := DropTrailingSlash(fp);
      assert JoinPath(fp, "index.html") == d + "/" + "index.html";
      assert |d| >= |root| && d[..|root|] == root;
      if |d| > |root| {
        assert d[..|root| + 1] == root + "/";
      }
    }
  }
  /** Every folder of the walk has its index page below the root. */
  lemma WalkPageBelow(root: string, relDirs: seq<string>, i: nat)
    requires RootedDir(root) && i < |relDirs|
    ensures Below(root, JoinPath(FolderPaths(root, relDirs)[i], "index.html"))
  {
    FolderPageBelow(root, Join(relDirs[..i + 1], "/"));
  }

}
