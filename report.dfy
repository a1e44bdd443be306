/**
  ReportContext of lib/types.go: the report's configuration, the flat list of
  reported files, the sorted top-level folders and, for every folder, its files
  and subfolders. Folder objects are held in the `folders` arena and named by
  id; both ReportContainer implementations (the context and a folder) are
  reached through a Container value.
*/
module Report {
  import opened Wrappers
  import opened Strings
  import opened Errors
  import opened Coverage
  import opened Paths
  import opened Tree

  class ReportContext {
    const config: AppConfig
    const meta: ReportMeta
    const isFullReport: bool
    /** The output path; filepath.Abs is the identity on the absolute paths modelled here. */
    const output: string
    var reportedFiles: seq<ReportedFile>
    var reportedFolders: seq<nat>
    var folders: seq<ReportedFolder>
    var coveredPct: Pct

    /**
      The tree is acyclic and every folder has at most one parent, the top level
      is sorted by path, no container holds two folders or two files whose paths
      are equal up to ASCII case, and the source directory is the absolute common
      root.
    */
    ghost predicate Valid()
      reads this
    {
      WellFormed(folders) && ArenaNoDup(folders) &&
      InArena(folders, reportedFolders) && SortedByPath(folders, reportedFolders) &&
      NoFolderDup(folders, reportedFolders) && SingleParent(folders, reportedFolders) &&
      NoFileDup(reportedFiles) && config.sourceDir == meta.commonRoot && RootedDir(config.sourceDir) &&
      RootedDir(config.output) && output == config.output
    }

    /** NewReportContext: no files, no folders, coverage 0. */
    constructor (config: AppConfig, meta: ReportMeta, isFullRpt: bool)
      requires config.sourceDir == meta.commonRoot && RootedDir(config.sourceDir) && RootedDir(config.output)
      ensures Valid()
      ensures this.config == config && this.meta == meta && isFullReport == isFullRpt && output == config.output
      ensures reportedFiles == [] && reportedFolders == [] && folders == [] && coveredPct == Finite(0.0)
    {
      this.config := config;
      this.meta := meta;
      isFullReport := isFullRpt;
      output := config.output;
      reportedFiles := [];
      reportedFolders := [];
      folders := [];
      coveredPct := Finite(0.0);
    }

    predicate Holds(c: Container)
      reads this
    {
      c.Folder? ==> c.id < |folders|
    }

    /** The folder list of a container. */
    function Children(c: Container): seq<nat>
      reads this
      requires Holds(c)
    {
      if c.Root? then reportedFolders else folders[c.id].folders
    }

    /** The file list of a container. */
    function Files(c: Container): seq<ReportedFile>
      reads this
      requires Holds(c)
    {
      if c.Root? then reportedFiles else folders[c.id].files
    }

    /** ContainsFolder: the id of the first listed folder whose path equals `folderPath` up to ASCII case. */
    method ContainsFolder(c: Container, folderPath: string) returns (r: Option<nat>)
      requires Valid() && Holds(c)
      ensures InArena(folders, Children(c))
      ensures r == Lookup(folders, Children(c), folderPath)
    {
      var ids := Children(c);
      for i := 0 to |ids|
        invariant forall j :: 0 <= j < i ==> !EqualFold(folders[ids[j]].folderPath, folderPath)
      {
        if EqualFold(folders[ids[i]].folderPath, folderPath) {
          return Some(ids[i]);
        }
      }
      return None;
    }

    /** ContainsFile: the first listed file whose path equals `filePath` up to ASCII case. */
    method ContainsFile(c: Container, filePath: string) returns (r: Option<ReportedFile>)
      requires Valid() && Holds(c)
      ensures r == FindFile(Files(c), filePath)
    {
      var files := Files(c);
      for i := 0 to |files|
        invariant forall j :: 0 <= j < i ==> !EqualFold(files[j].sourceFile, filePath)
      {
        if EqualFold(files[i].sourceFile, filePath) {
          return Some(files[i]);
        }
      }
      return None;
    }

    /** AddFile: the file list of the container becomes WithFile of it; nothing else changes. */
    method AddFile(c: Container, file: ReportedFile)
      requires Valid() && Holds(c)
      modifies this
      ensures Valid()
      ensures reportedFolders == old(reportedFolders) && coveredPct == old(coveredPct)
      ensures c.Root? ==> reportedFiles == WithFile(old(reportedFiles), file) && folders == old(folders)
      ensures c.Folder? ==> reportedFiles == old(reportedFiles)
      ensures c.Folder? ==> folders == old(folders)[c.id := old(folders)[c.id].(files := WithFile(old(folders)[c.id].files, file))]
    {
      var existing := ContainsFile(c, file.sourceFile);
      if c.Root? {
        WithFileNoDup(reportedFiles, file);
        if existing.None? {
          reportedFiles := reportedFiles + [file];
        }
      } else {
        WithFileNoDup(folders[c.id].files, file);
        SetFilesKeeps(folders, c.id, WithFile(folders[c.id].files, file));
        SameListsSingle(folders, folders[c.id := folders[c.id].(files := WithFile(folders[c.id].files, file))], reportedFolders);
        KeepsPathsList(folders, folders[c.id := folders[c.id].(files := WithFile(folders[c.id].files, file))], reportedFolders, "");
        if existing.None? {
          folders := folders[c.id := folders[c.id].(files := folders[c.id].files + [file])];
        } else {
          assert folders[c.id].(files := WithFile(folders[c.id].files, file)) == folders[c.id];
        }
      }
    }

    /**
      ReportContext.AddFolder: when no top-level folder matches the new folder's
      path up to ASCII case, the folder is stored under the next id and the top
      level, re-sorted, holds it as well; otherwise nothing changes. Valid()
      keeps the top level sorted and free of duplicates.
    */
    method AddTopFolder(folder: ReportedFolder)
      requires Valid() && folder.folders == [] && NoFileDup(folder.files)
      modifies this
      ensures Valid()
      ensures reportedFiles == old(reportedFiles) && coveredPct == old(coveredPct)
      ensures old(Lookup(folders, reportedFolders, folder.folderPath)).Some? ==>
        folders == old(folders) && reportedFolders == old(reportedFolders)
      ensures old(Lookup(folders, reportedFolders, folder.folderPath)).None? ==>
        folders == old(folders) + [folder] &&
        reportedFolders == InsertByPath(folders, old(reportedFolders), old(|folders|)) &&
        multiset(reportedFolders) == old(multiset(reportedFolders) + multiset{|folders| as nat}) &&
        Lookup(folders, reportedFolders, folder.folderPath) == Some(old(|folders|))
    {
      var existing := ContainsFolder(Root, folder.folderPath);
      if existing.None? {
        var id := |folders|;
        AttachTopKeeps(folders, reportedFolders, folder);
        AttachTopSingle(folders, reportedFolders, folder);
        folders := folders + [folder];
        reportedFolders := InsertByPath(folders, reportedFolders, id);
      }
    }

    /**
      ReportedFolder.AddFolder: when no subfolder of folder `id` matches the new
      folder's path up to ASCII case, the folder is stored under the next id and
      appended to the subfolders, in insertion order; otherwise nothing changes.
    */
    method AddSubfolder(id: nat, folder: ReportedFolder)
      requires Valid() && id < |folders| && folder.folders == [] && NoFileDup(folder.files)
      modifies this
      ensures Valid()
      ensures reportedFiles == old(reportedFiles) && coveredPct == old(coveredPct) && reportedFolders == old(reportedFolders)
      ensures old(Lookup(folders, folders[id].folders, folder.folderPath)).Some? ==> folders == old(folders)
      ensures old(Lookup(folders, folders[id].folders, folder.folderPath)).None? ==>
        folders == AttachChild(old(folders), id, folder) &&
        Lookup(folders, folders[id].folders, folder.folderPath) == Some(old(|folders|))
    {
      var existing := ContainsFolder(Folder(id), folder.folderPath);
      if existing.None? {
        AttachChildKeeps(folders, id, folder);
        AttachChildSingle(folders, reportedFolders, id, folder);
        AttachChildFinds(folders, id, folder);
        KeepsPathsList(folders, AttachChild(folders, id, folder), reportedFolders, "");
        folders := AttachChild(folders, id, folder);
      }
    }

    /**
      One step of AddFolderFile: the folder of `node` whose path matches `folderPath`
      up to ASCII case, created empty (and added to `node`) when there is none.
    */
    method Descend(node: Container, folderPath: string) returns (next: nat)
      requires Valid() && Holds(node)
      requires Below(meta.commonRoot, JoinPath(folderPath, "index.html"))
      modifies this
      ensures Valid() && Holds(node)
      ensures reportedFiles == old(reportedFiles) && coveredPct == old(coveredPct)
      ensures node.Folder? ==> reportedFolders == old(reportedFolders)
      ensures next < |folders| && Lookup(folders, Children(node), folderPath) == Some(next)
      ensures old(Lookup(folders, Children(node), folderPath)).Some? ==>
        folders == old(folders) && reportedFolders == old(reportedFolders) &&
        next == old(Lookup(folders, Children(node), folderPath)).value
      ensures old(Lookup(folders, Children(node), folderPath)).None? ==>
        next == old(|folders|) && |folders| == next + 1 &&
        folders[next].files == [] && folders[next].folders == [] && folders[next].folderPath == folderPath
      ensures old(Lookup(folders, Children(node), folderPath)).None? ==> Blank(folderPath, folders[next])
      ensures old(Lookup(folders, Children(node), folderPath)).None? && node.Folder? ==>
        folders == AttachChild(old(folders), node.id, folders[next])
      ensures old(Lookup(folders, Children(node), folderPath)).None? && node.Root? ==>
        folders == old(folders) + [folders[next]] &&
        reportedFolders == InsertByPath(folders, old(reportedFolders), next) &&
        multiset(reportedFolders) == multiset(old(reportedFolders)) + multiset{next}
    {
      var existing := ContainsFolder(node, folderPath);
      if existing.Some? {
        return existing.value;
      }
      var newFolder := NewReportedFolder(folderPath, []);
      FolderPagesBlank(folderPath, newFolder);
      next := |folders|;
      if node.Root? {
        AddTopFolder(newFolder);
      } else {
        AddSubfolder(node.id, newFolder);
      }
    }

    /**
      ReportContext.AddProfile: the profile's file record, added to the folder of
      its directory and to the flat file list. A profile whose source file cannot
      be found stops the program in the source; here the error is returned and
      nothing changes.
    */
    method AddProfile(profile: Profile, fileExists: string -> bool)
      returns (err: Option<AppError>, ghost rec: Result<ReportedFile, AppError>, ghost chain: seq<nat>, ghost grown: seq<ReportedFolder>)
      requires Valid() && !fileExists(config.sourceDir)
      modifies this
      ensures Valid() && coveredPct == old(coveredPct)
      ensures Resolved(profile, fileExists, rec) && (err.Some? <==> rec.Failure?)
      ensures rec.Failure? ==>
        err.value == rec.error && reportedFiles == old(reportedFiles) &&
        folders == old(folders) && reportedFolders == old(reportedFolders)
      ensures rec.Success? ==>
        |config.sourceDir| <= |Dir(rec.value.sourceFile)| &&
        Filed(old(folders), old(reportedFolders), old(reportedFiles), rec.value, chain, grown)
    {
      var r := NewReportedFile(profile, fileExists);
      rec := r;
      if r.Failure? {
        return Some(r.error), rec, [], folders;
      }
      var reportedFile := r.value;
      DirBelow(config.sourceDir, reportedFile.sourceFile);
      chain, grown := AddFolderFile(Dir(reportedFile.sourceFile), reportedFile);
      err := None;
    }

    /**
      The state after AddFolderFile filed `file`, from the arena `o` with top
      level `oTop` and file list `oFiles`: the file is in the flat list and in
      the deepest folder of the walk `chain`, which now exists; `grown` is the
      arena the walk left, in which only missing folders were created and no
      folder lost a subfolder; the file went into the deepest folder only; and
      when the file was already filed there and in the flat list, nothing changed.
      Every folder the walk created has the fields NewReportedFolder gives it.
    */
    ghost predicate Filed(o: seq<ReportedFolder>, oTop: seq<nat>, oFiles: seq<ReportedFile>, file: ReportedFile,
                          chain: seq<nat>, grown: seq<ReportedFolder>)
      reads this
      requires |config.sourceDir| <= |Dir(file.sourceFile)|
    {
      FiledState(o, oTop, oFiles, folders, reportedFolders, reportedFiles, WalkPaths(file), file, chain, grown) &&
      Made(o, folders, chain, WalkPaths(file))
    }

    /**
      Resolved fixes NewReportedFile's outcome: the same profile and the same
      files on disk give the same record or the same error. With AddProfile's
      last ensures, a second AddProfile of a profile changes nothing.
    */
    lemma ResolvedUnique(profile: Profile, fileExists: string -> bool, r1: Result<ReportedFile, AppError>,
                         r2: Result<ReportedFile, AppError>)
      requires RootedDir(config.output) && RootedDir(config.sourceDir)
      requires Resolved(profile, fileExists, r1) && Resolved(profile, fileExists, r2)
      ensures r1 == r2
    {
      if r1.Success? {
        var c := SourceCandidates(config.sourceDir, profile.fileName);
        FirstExistingUnique(c, fileExists, r1.value.sourceFile, r2.value.sourceFile);
        RecordUnique(profile, r1.value.sourceFile, r1.value, r2.value);
      }
    }

    /** Two records of the same profile and source file with the same coverage are equal. */
    lemma RecordUnique(profile: Profile, src: string, f1: ReportedFile, f2: ReportedFile)
      requires RootedDir(config.output) && Below(meta.commonRoot, src)
      requires FileRecord(profile, src, f1) && FileRecord(profile, src, f2) && f1.coveredPct == f2.coveredPct
      ensures f1 == f2
    {
      ReportsBlocksUnique(profile.blocks, f1.reportedLines, f2.reportedLines);
    }

    /**
      The state of AddFolderFile's walk after i steps from the arena `start` with
      top level `startTop`: the folders met so far are `chain`, the walk stands
      at `node`, nothing changed unless a folder was created, every folder
      created is the blank folder for its path, and when the whole walk `oc`
      already existed the steps follow it.
    */
    ghost predicate Walking(start: seq<ReportedFolder>, startTop: seq<nat>, oc: Option<seq<nat>>,
                            paths: seq<string>, i: nat, chain: seq<nat>, node: Container)
      reads this
    {
      Valid() && WalkablePages(paths) && node == NodeAt(chain) &&
      WalkState(start, startTop, oc, paths, i, chain, folders, reportedFolders) &&
      Made(start, folders, chain, paths[..i])
    }

    /**
      One step of AddFolderFile's walk: from `node`, the end of `chain` (the
      context itself when it is empty), find or create the folder paths[i].
    */
    method WalkStep(node: Container, folderPath: string, i: nat, ghost chain: seq<nat>, ghost start: seq<ReportedFolder>,
                    ghost startTop: seq<nat>, ghost paths: seq<string>, ghost oc: Option<seq<nat>>)
      returns (next: nat)
      requires Walking(start, startTop, oc, paths, i, chain, node) && i < |paths| && folderPath == paths[i]
      modifies this
      ensures Walking(start, startTop, oc, paths, i + 1, chain + [next], Folder(next))
      ensures coveredPct == old(coveredPct) && reportedFiles == old(reportedFiles)
    {
      assert ChainKids(folders, reportedFolders, chain) == Children(node);
      ghost var before := folders;
      ghost var beforeTop := reportedFolders;
      ghost var found := Lookup(folders, Children(node), folderPath);
      next := Descend(node, folderPath);
      assert ChainKids(folders, reportedFolders, chain) == Children(node);
      Stepped(start, startTop, oc, paths, i, chain, before, beforeTop, next, found.Some?);
    }

    /** What WalkStep's call of Descend leaves behind keeps Walking, one folder further down. */
    lemma Stepped(start: seq<ReportedFolder>, startTop: seq<nat>, oc: Option<seq<nat>>, paths: seq<string>, i: nat,
                  chain: seq<nat>, before: seq<ReportedFolder>, beforeTop: seq<nat>, next: nat, existed: bool)
      requires Valid() && WalkablePages(paths) && i < |paths|
      requires WalkState(start, startTop, oc, paths, i, chain, before, beforeTop) && Made(start, before, chain, paths[..i])
      requires InArena(before, chain) && InArena(folders, chain)
      requires existed == Lookup(before, ChainKids(before, beforeTop, chain), paths[i]).Some?
      requires next < |folders| && Lookup(folders, ChainKids(folders, reportedFolders, chain), paths[i]) == Some(next)
      requires |chain| > 0 ==> reportedFolders == beforeTop
      requires existed ==>
        folders == before && reportedFolders == beforeTop &&
        next == Lookup(before, ChainKids(before, beforeTop, chain), paths[i]).value
      requires !existed ==>
        next == |before| && |folders| == next + 1 && folders[next].files == [] &&
        folders[next].folders == [] && folders[next].folderPath == paths[i] && Blank(paths[i], folders[next])
      requires !existed && |chain| > 0 ==> folders == AttachChild(before, chain[|chain| - 1], folders[next])
      requires !existed && |chain| == 0 ==>
        folders == before + [folders[next]] && multiset(reportedFolders) == multiset(beforeTop) + multiset{next}
      ensures Walking(start, startTop, oc, paths, i + 1, chain + [next], Folder(next))
    {
      WalkStateStep(start, startTop, oc, paths, i, chain, before, beforeTop, folders, reportedFolders, next, existed);
      MadeStep(start, before, folders, chain, paths[..i], paths[i], next, existed);
      MadeSlice(start, folders, chain + [next], paths, i);
    }

    /**
      ReportContext.AddFolderFile: walks down from the top level along the file's
      directories below the source directory, finding or creating one folder per
      directory, adds the file to the deepest one and then to the flat file list.
      `folderPath` is not read. `grown` is the arena after the walk, before the
      file is added; `chain` is the ids of the folders the walk met.
    */
    method AddFolderFile(folderPath: string, file: ReportedFile) returns (ghost chain: seq<nat>, ghost grown: seq<ReportedFolder>)
      requires Valid() && |config.sourceDir| <= |Dir(file.sourceFile)|
      modifies this
      ensures Valid() && coveredPct == old(coveredPct)
      ensures Filed(old(folders), old(reportedFolders), old(reportedFiles), file, chain, grown)
    {
      ghost var o, oTop, oFiles := folders, reportedFolders, reportedFiles;
      forall i | 0 <= i < |WalkPaths(file)| ensures Below(meta.commonRoot, JoinPath(WalkPaths(file)[i], "index.html")) {
        WalkPageBelow(config.sourceDir, RelDirsOf(config.sourceDir, file.sourceFile), i);
      }
      var node;
      node, chain := WalkDown(WalkPaths(file));
      grown := folders;
      ghost var grownTop := reportedFolders;
      AddAtNode(node, file, chain, WalkPaths(file));
      if |chain| > 0 {
        var last := chain[|chain| - 1];
        MadeFiled(o, grown, folders, chain, WalkPaths(file), last, WithFile(grown[last].files, file));
      }
      FiledAfterWalk(o, oTop, oFiles, grown, grownTop, folders, reportedFolders, reportedFiles, WalkPaths(file), file, chain);
    }

    /** The end of AddFolderFile: the file goes into the folder the walk reached, if any, and into the context. */
    method AddAtNode(node: Container, file: ReportedFile, ghost chain: seq<nat>, ghost paths: seq<string>)
      requires Valid() && ChainOf(folders, reportedFolders, paths) == Some(chain) && node == NodeAt(chain)
      modifies this
      ensures Valid() && coveredPct == old(coveredPct) && reportedFolders == old(reportedFolders)
      ensures reportedFiles == WithFile(old(reportedFiles), file)
      ensures ChainOf(folders, reportedFolders, paths) == Some(chain)
      ensures |chain| == 0 ==> folders == old(folders)
      ensures |chain| > 0 ==>
        var last := chain[|chain| - 1];
        last < |old(folders)| && folders == old(folders)[last := old(folders)[last].(files := WithFile(old(folders)[last].files, file))]
    {
      if node.Folder? {
        ChainSetFiles(folders, reportedFolders, paths, chain, node.id, WithFile(folders[node.id].files, file));
        AddFile(node, file);
      }
      AddFile(Root, file);
    }

    /**
      The loop of AddFolderFile without the two AddFile calls: one WalkStep per
      folder path; `node` is where the walk ends, the deepest folder or, for a
      file directly in the source directory, the context itself.
    */
    method WalkDown(paths: seq<string>) returns (node: Container, ghost chain: seq<nat>)
      requires Valid() && WalkablePages(paths)
      modifies this
      ensures Valid() && coveredPct == old(coveredPct) && reportedFiles == old(reportedFiles)
      ensures Grown(old(folders), folders, chain, paths)
      ensures TopGrown(old(folders), old(reportedFolders), reportedFolders, chain)
      ensures Made(old(folders), folders, chain, paths)
      ensures ChainOf(folders, reportedFolders, paths) == Some(chain)
      ensures node == NodeAt(chain)
      ensures |chain| == 0 ==> folders == old(folders) && reportedFolders == old(reportedFolders)
      ensures old(ChainOf(folders, reportedFolders, paths)).Some? ==>
        chain == old(ChainOf(folders, reportedFolders, paths)).value &&
        folders == old(folders) && reportedFolders == old(reportedFolders)
    {
      ghost var oldChain := ChainOf(folders, reportedFolders, paths);
      node := Root;
      chain := [];
      GrownStart(folders);
      for i := 0 to |paths|
        invariant Walking(old(folders), old(reportedFolders), oldChain, paths, i, chain, node)
        invariant coveredPct == old(coveredPct) && reportedFiles == old(reportedFiles)
      {
        var next := WalkStep(node, paths[i], i, chain, old(folders), old(reportedFolders), paths, oldChain);
        node := Folder(next);
        chain := chain + [next];
      }
      WalkStateDone(old(folders), old(reportedFolders), oldChain, paths, chain, folders, reportedFolders);
      assert paths[..|paths|] == paths;
    }

    /**
      The folder NewReportedFolder(path) builds with no files: the report's meta,
      the path and its base name, no subfolders, coverage 0, and the breadcrumbs,
      display path, report page and assets path of the index page of `path`.
    */
    ghost function FreshFolder(path: string): ReportedFolder
      requires RootedDir(config.output) && RootedDir(meta.commonRoot)
      requires Below(meta.commonRoot, JoinPath(path, "index.html"))
    {
      var page := JoinPath(path, "index.html");
      PageFacts(meta.commonRoot, config.output, page);
      var crumbs := Breadcrumbs(meta.commonRoot, page);
      var out := config.output + "/" + SwapFileExt(page[|meta.commonRoot| + 1..], ".temp");
      ReportedFolder(meta, [], [], path, Base(path), crumbs[..|crumbs| - 1], Dir(page[|meta.commonRoot|..])[1..],
                     out, GetRelRootPath(out, config.output), Finite(0.0))
    }

    /** `f` is the folder NewReportedFolder builds for `path`, apart from its files and subfolders. */
    ghost predicate Blank(path: string, f: ReportedFolder)
    {
      RootedDir(config.output) && RootedDir(meta.commonRoot) &&
      Below(meta.commonRoot, JoinPath(path, "index.html")) &&
      f.(folders := [], files := []) == FreshFolder(path)
    }

    /** The fields NewReportedFolder sets pin the folder down: any such folder is Blank. */
    lemma FolderPagesBlank(path: string, f: ReportedFolder)
      requires RootedDir(config.output) && RootedDir(meta.commonRoot)
      requires Below(meta.commonRoot, JoinPath(path, "index.html"))
      requires f.meta == meta && f.coveredPct == Finite(0.0) && f.folderPath == path && f.folderName == Base(path)
      requires FolderPages(path, f)
      ensures Blank(path, f)
    {
    }

    /** FreshFolder has the fields and pages NewReportedFolder promises, and no files or subfolders. */
    lemma FreshFolderPages(path: string)
      requires RootedDir(config.output) && RootedDir(meta.commonRoot)
      requires Below(meta.commonRoot, JoinPath(path, "index.html"))
      ensures var f := FreshFolder(path);
        f.meta == meta && f.files == [] && f.folders == [] && f.coveredPct == Finite(0.0) &&
        f.folderPath == path && f.folderName == Base(path) && FolderPages(path, f)
    {
      var page := JoinPath(path, "index.html");
      PageFacts(meta.commonRoot, config.output, page);
      var f := FreshFolder(path);
      var out := config.output + "/" + SwapFileExt(page[|meta.commonRoot| + 1..], ".temp");
      assert f.outFilePath == out && f.assetsPath == GetRelRootPath(out, config.output);
      assert RelRootPathOf(f.outFilePath, config.output, f.assetsPath);
    }

    /** Every folder of the walk `c` that is new in `f` since `o` is the folder NewReportedFolder built for it. */
    ghost predicate Made(o: seq<ReportedFolder>, f: seq<ReportedFolder>, c: seq<nat>, paths: seq<string>)
    {
      forall j :: 0 <= j < |c| && j < |paths| && |o| <= c[j] < |f| ==> Blank(paths[j], f[c[j]])
    }

    /** Blank does not depend on a folder's files or subfolders. */
    lemma BlankKeeps(path: string, a: ReportedFolder, b: ReportedFolder)
      requires Blank(path, a) && b.(folders := a.folders, files := a.files) == a
      ensures Blank(path, b)
    {
      assert b.(folders := [], files := []) == a.(folders := [], files := []);
    }

    /** One step of the walk keeps Made: old folders only gain subfolders, and a created one is Blank. */
    lemma MadeStep(o: seq<ReportedFolder>, f1: seq<ReportedFolder>, f2: seq<ReportedFolder>,
                   c: seq<nat>, paths: seq<string>, p: string, next: nat, existed: bool)
      requires Made(o, f1, c, paths) && |c| == |paths| && InArena(f1, c) && |f1| <= |f2|
      requires forall k :: 0 <= k < |f1| ==> f2[k].(folders := f1[k].folders) == f1[k]
      requires existed ==> next < |o|
      requires !existed ==> next < |f2| && Blank(p, f2[next])
      ensures Made(o, f2, c + [next], paths + [p])
    {
      var c2, q := c + [next], paths + [p];
      forall j | 0 <= j < |c2| && j < |q| && |o| <= c2[j] < |f2| ensures Blank(q[j], f2[c2[j]]) {
        if j < |c| {
          assert c2[j] == c[j] && q[j] == paths[j] && c[j] < |f1|;
          BlankKeeps(paths[j], f1[c[j]], f2[c[j]]);
        }
      }
    }

    /** Made for the walk's first i + 1 paths, written as a slice. */
    lemma MadeSlice(o: seq<ReportedFolder>, f: seq<ReportedFolder>, c: seq<nat>, paths: seq<string>, i: nat)
      requires i < |paths| && Made(o, f, c, paths[..i] + [paths[i]])
      ensures Made(o, f, c, paths[..i + 1])
    {
      SliceSnoc(paths, i);
    }

    /** Adding a file to one folder keeps Made. */
    lemma MadeFiled(o: seq<ReportedFolder>, a: seq<ReportedFolder>, b: seq<ReportedFolder>,
                    c: seq<nat>, paths: seq<string>, last: nat, files: seq<ReportedFile>)
      requires Made(o, a, c, paths) && last < |a| && b == a[last := a[last].(files := files)]
      ensures Made(o, b, c, paths)
    {
      forall j | 0 <= j < |c| && j < |paths| && |o| <= c[j] < |b| ensures Blank(paths[j], b[c[j]]) {
        BlankKeeps(paths[j], a[c[j]], b[c[j]]);
      }
    }

    /** Every folder path of a walk has its index page below the common root. */
    ghost predicate WalkablePages(paths: seq<string>)
    {
      forall i :: 0 <= i < |paths| ==> Below(meta.commonRoot, JoinPath(paths[i], "index.html"))
    }

    /** The folder paths AddFolderFile's walk visits for `file`. */
    function WalkPaths(file: ReportedFile): seq<string>
      requires |config.sourceDir| <= |Dir(file.sourceFile)|
    {
      FolderPaths(config.sourceDir, RelDirsOf(config.sourceDir, file.sourceFile))
    }

    /**
      The page fields of the folder `folderPath`: the breadcrumbs of its index page
      without the last entry (the folder itself), the display path of that page's
      directory, the page relocated under the output directory with the ".temp"
      extension, and the climb from there back to the output directory.
    */
    ghost predicate FolderPages(folderPath: string, f: ReportedFolder)
      requires RootedDir(config.output) && RootedDir(meta.commonRoot)
      requires Below(meta.commonRoot, JoinPath(folderPath, "index.html"))
    {
      var page := JoinPath(folderPath, "index.html");
      var crumbs := Breadcrumbs(meta.commonRoot, page);
      |crumbs| >= 1 && f.pathParts == crumbs[..|crumbs| - 1] &&
      f.displayPath == Dir(page[|meta.commonRoot|..])[1..] &&
      f.outFilePath == config.output + "/" + SwapFileExt(page[|meta.commonRoot| + 1..], ".temp") &&
      RelRootPathOf(f.outFilePath, config.output, f.assetsPath)
    }

    /**
      NewReportedFolder: a folder for `folderPath` holding `files`, with no
      subfolders and coverage 0. Its breadcrumbs are those of its index page
      without the last entry (the folder itself), its report page is the index
      page relocated under the output directory with the ".temp" extension, and
      its assets path climbs back from that page to the output directory.
    */
    method NewReportedFolder(folderPath: string, files: seq<ReportedFile>) returns (f: ReportedFolder)
      requires RootedDir(config.output) && RootedDir(meta.commonRoot)
      requires Below(meta.commonRoot, JoinPath(folderPath, "index.html"))
      ensures f.meta == meta && f.files == files && f.folders == [] && f.coveredPct == Finite(0.0)
      ensures f.folderPath == folderPath && f.folderName == Base(folderPath)
      ensures FolderPages(folderPath, f)
    {
      var folderFile := JoinPath(folderPath, "index.html");
      var pathParts := GetRelPathParts(meta.commonRoot, folderFile);
      assert |pathParts| >= 1 by { PageFacts(meta.commonRoot, config.output, folderFile); }
      var info := GetOutPathInfo(config.output, folderFile, ".temp", meta.commonRoot);
      var dispPath, outFilePath := info.0, info.1;
      assert outFilePath == config.output + "/" + SwapFileExt(folderFile[|meta.commonRoot| + 1..], ".temp") &&
             |Split(Dir(outFilePath), '/')| >= |Split(config.output, '/')| by {
        PageFacts(meta.commonRoot, config.output, folderFile);
      }
      var assetsPath := GetRelRootPath(outFilePath, config.output);
      assert RelRootPathOf(outFilePath, config.output, assetsPath);
      f := ReportedFolder(meta, files, [], folderPath, Base(folderPath), pathParts[..|pathParts| - 1],
                          Dir(dispPath)[1..], outFilePath, assetsPath, Finite(0.0));
    }

    /**
      NewReportedFile: the source file is the first candidate location that exists
      (the whole declared path under the source directory, then with leading
      segments dropped); when none exists the report stops with the unresolvable
      path error. `fileExists` stands for FileExists, which is false for directories.
    */
    method NewReportedFile(profile: Profile, fileExists: string -> bool) returns (r: Result<ReportedFile, AppError>)
      requires RootedDir(config.output) && RootedDir(config.sourceDir) && config.sourceDir == meta.commonRoot
      requires !fileExists(config.sourceDir)
      ensures Resolved(profile, fileExists, r)
    {
      var sourcePath := GetSourceFilePath(config.sourceDir, profile.fileName, fileExists);
      if sourcePath.Failure? {
        return Failure(sourcePath.error);
      }
      var src := sourcePath.value;
      assert Below(meta.commonRoot, src) by {
        CandidateBelow(meta.commonRoot, profile.fileName, src, fileExists);
      }
      var pct := GetCoveredPct(profile.blocks, true);
      var f := ReportedFileAt(profile, src, pct);
      r := Success(f);
    }

    /**
      What NewReportedFile yields for `profile`: a failure carrying
      UnresolvablePathError exactly when no candidate location of the file
      exists, and otherwise the record of the first candidate that exists, below
      the common root, with the profile's coverage.
    */
    ghost predicate Resolved(profile: Profile, fileExists: string -> bool, r: Result<ReportedFile, AppError>)
      requires RootedDir(config.output) && RootedDir(config.sourceDir)
    {
      var c := SourceCandidates(config.sourceDir, profile.fileName);
      (r.Failure? <==> forall j :: 0 <= j < |c| ==> !fileExists(c[j])) &&
      (r.Failure? ==> r.error == UnresolvablePathError(profile.fileName)) &&
      (r.Success? ==>
        (exists i :: 0 <= i < |c| && r.value.sourceFile == c[i] && fileExists(c[i]) &&
                     forall j :: 0 <= j < i ==> !fileExists(c[j])) &&
        Below(meta.commonRoot, r.value.sourceFile) && FileRecord(profile, r.value.sourceFile, r.value) &&
        r.value.coveredPct == CoveredPct(profile.blocks, true))
    }

    /**
      The record NewReportedFile builds for a profile whose source file is `src`:
      its lines are the profile's blocks in order (the covered ones again on
      their own) and its pages and breadcrumbs are those of the source file.
    */
    ghost predicate FileRecord(profile: Profile, src: string, f: ReportedFile)
      requires RootedDir(config.output) && Below(meta.commonRoot, src)
    {
      f.sourceFile == src && FileLines(profile, f) &&
      FilePages(src, f.pathParts, f.displayPath, f.outFilePath, f.assetsPath)
    }

    /** The parts of a file record that come from the profile alone. */
    ghost predicate FileLines(profile: Profile, f: ReportedFile)
    {
      f.meta == meta && f.profile == profile && f.fileName == Base(profile.fileName) &&
      ReportsBlocks(profile.blocks, f.reportedLines) && f.coveredLines == CoveredOnly(f.reportedLines)
    }

    /**
      The page fields of the source file `src`: its breadcrumbs, its path below the
      root, its report page relocated under the output directory with the ".temp"
      extension, and the climb from that page back to the output directory.
    */
    ghost predicate FilePages(src: string, pathParts: seq<PathTuple>, displayPath: string, outFilePath: string, assetsPath: string)
      requires RootedDir(config.output) && Below(meta.commonRoot, src)
    {
      pathParts == Breadcrumbs(meta.commonRoot, src) &&
      displayPath == src[|meta.commonRoot|..] &&
      outFilePath == config.output + "/" + SwapFileExt(src[|meta.commonRoot| + 1..], ".temp") &&
      RelRootPathOf(outFilePath, config.output, assetsPath)
    }

    /** The part of NewReportedFile after the source file and the coverage are known. */
    method ReportedFileAt(profile: Profile, src: string, pct: Pct) returns (f: ReportedFile)
      requires RootedDir(config.output) && RootedDir(meta.commonRoot) && Below(meta.commonRoot, src)
      ensures FileRecord(profile, src, f) && f.coveredPct == pct
    {
      var reportedLines, coveredLines := GetProfiledLines(profile.blocks);
      assert ReportsBlocks(profile.blocks, reportedLines);
      var pathParts, dispPath, outFilePath, assetsPath := FilePagesAt(src);
      f := ReportedFile(meta, src, reportedLines, coveredLines, pathParts, dispPath, outFilePath,
                        Base(profile.fileName), assetsPath, pct, profile);
    }

    /** The page fields NewReportedFile computes for the source file `src`. */
    method FilePagesAt(src: string) returns (pathParts: seq<PathTuple>, dispPath: string, outFilePath: string, assetsPath: string)
      requires RootedDir(config.output) && RootedDir(meta.commonRoot) && Below(meta.commonRoot, src)
      ensures FilePages(src, pathParts, dispPath, outFilePath, assetsPath)
    {
      var info := GetOutPathInfo(config.output, src, ".temp", meta.commonRoot);
      dispPath, outFilePath := info.0, info.1;
      assert outFilePath == config.output + "/" + SwapFileExt(src[|meta.commonRoot| + 1..], ".temp") &&
             |Split(Dir(outFilePath), '/')| >= |Split(config.output, '/')| by {
        PageFacts(meta.commonRoot, config.output, src);
      }
      assetsPath := GetRelRootPath(outFilePath, config.output);
      assert RelRootPathOf(outFilePath, config.output, assetsPath);
      pathParts := GetRelPathParts(meta.commonRoot, src);
    }

    /** ReportedFolder.GetProfileBlocks: the folder's own files' blocks, then each subfolder's, in order. */
    method GetProfileBlocks(id: nat) returns (blocks: seq<Block>)
      requires WellFormed(folders) && id < |folders|
      ensures blocks == FolderBlocks(folders, id)
      decreases |folders| - id
    {
      var files := folders[id].files;
      blocks := CollectFileBlocks(files);
      var kids := folders[id].folders;
      for i := 0 to |kids|
        invariant blocks == FileBlocks(files) + ListBlocks(folders, kids[..i], id)
      {
        var sub := GetProfileBlocks(kids[i]);
        ListBlocksSnoc(folders, kids, i, id);
        blocks := blocks + sub;
      }
      assert kids[..|kids|] == kids;
    }

    /**
      GetAllFolders of the context or of one folder: every folder below it in
      pre-order, each followed by its descendants; the listing holds every
      folder of the container and every subfolder of a listed folder.
    */
    method GetAllFolders(c: Container) returns (r: seq<nat>)
      requires WellFormed(folders) && InArena(folders, reportedFolders) && Holds(c)
      ensures r == ListFolders(folders, Children(c), ParentOf(c))
      ensures forall i :: 0 <= i < |Children(c)| ==> Children(c)[i] in r
      ensures forall k, m :: k in r && 0 <= m < |folders[k].folders| ==> folders[k].folders[m] in r
      decreases if c.Root? then |folders| + 1 else |folders| - c.id
    {
      var kids := Children(c);
      r := [];
      for i := 0 to |kids|
        invariant r == ListFolders(folders, kids[..i], ParentOf(c))
      {
        var sub := GetAllFolders(Folder(kids[i]));
        ListFoldersSnoc(folders, kids, i, ParentOf(c));
        r := r + [kids[i]] + sub;
      }
      assert kids[..|kids|] == kids;
      ListFoldersClosed(folders, kids, ParentOf(c));
    }

    /**
      ReportedFolder.UpdateCoverage: the subfolders first, then the folder's own
      value from all blocks below it; afterwards the folder and every descendant
      hold the coverage of their blocks, and nothing else changed.
    */
    method UpdateFolderCoverage(id: nat)
      requires Valid() && id < |folders|
      modifies this
      ensures Valid()
      ensures reportedFolders == old(reportedFolders) && reportedFiles == old(reportedFiles) && coveredPct == old(coveredPct)
      ensures SameShape(old(folders), folders)
      ensures SettledAll(folders, [id] + AllFolders(folders, id))
      ensures Outside(old(folders), folders, [id] + AllFolders(folders, id))
      decreases |folders| - id
    {
      ghost var o := folders;
      var kids := folders[id].folders;
      for i := 0 to |kids|
        invariant Valid() && SameShape(o, folders) && folders[id].folders == kids
        invariant reportedFolders == old(reportedFolders) && reportedFiles == old(reportedFiles) && coveredPct == old(coveredPct)
        invariant SettledAll(folders, ListFolders(folders, kids[..i], id))
        invariant Outside(o, folders, ListFolders(folders, kids[..i], id))
      {
        ghost var a := folders;
        UpdateFolderCoverage(kids[i]);
        CoverStep(o, a, folders, kids, i, id, ListBlocks(a, kids[..i], id));
      }
      assert kids[..|kids|] == kids;
      var blocks := GetProfileBlocks(id);
      var pct := GetCoveredPct(blocks, true);
      CoverSelf(o, folders, id, pct);
      SameShapeValid(folders, folders[id := folders[id].(coveredPct := pct)], reportedFolders);
      folders := folders[id := folders[id].(coveredPct := pct)];
    }

    /**
      ReportContext.UpdateCoverage: every top-level folder's subtree is settled,
      and the report's value is the coverage of the blocks of the top-level
      folders, that is of the files of every listed folder; files kept directly
      in the source directory do not take part.
    */
    method UpdateCoverage()
      requires Valid()
      modifies this
      ensures Valid()
      ensures reportedFolders == old(reportedFolders) && reportedFiles == old(reportedFiles)
      ensures SameShape(old(folders), folders)
      ensures SettledAll(folders, ListFolders(folders, reportedFolders, -1))
      ensures Outside(old(folders), folders, ListFolders(folders, reportedFolders, -1))
      ensures coveredPct == CoveredPct(ListBlocks(folders, reportedFolders, -1), true)
    {
      ghost var o := folders;
      var top := reportedFolders;
      var blocks := [];
      for i := 0 to |top|
        invariant Valid() && SameShape(o, folders) && reportedFolders == top
        invariant reportedFiles == old(reportedFiles)
        invariant SettledAll(folders, ListFolders(folders, top[..i], -1))
        invariant Outside(o, folders, ListFolders(folders, top[..i], -1))
        invariant blocks == ListBlocks(folders, top[..i], -1)
      {
        ghost var a := folders;
        UpdateFolderCoverage(top[i]);
        var sub := GetProfileBlocks(top[i]);
        CoverStep(o, a, folders, top, i, -1, blocks);
        blocks := blocks + sub;
      }
      assert top[..|top|] == top;
      coveredPct := GetCoveredPct(blocks, true);
    }

    /**
      GetPseudoFolder: a folder for the source directory with no files, the
      top-level folders and the report's coverage. It has no breadcrumbs, an
      empty display path, its page is "index.temp" directly in the output
      directory, and its assets path is empty.
    */
    method GetPseudoFolder() returns (f: ReportedFolder)
      requires Valid()
      ensures f.files == [] && f.folders == reportedFolders && f.coveredPct == coveredPct
      ensures f.meta == meta && f.folderPath == config.sourceDir && f.folderName == Base(config.sourceDir)
      ensures f.pathParts == [] && f.displayPath == "" && f.outFilePath == config.output + "/" + "index.temp"
      ensures f.assetsPath == ""
    {
      PseudoPage(config.sourceDir, config.output);
      var pseudoFolder := NewReportedFolder(config.sourceDir, []);
      assert pseudoFolder.pathParts == [] && pseudoFolder.displayPath == "" &&
             pseudoFolder.outFilePath == config.output + "/" + "index.temp" && pseudoFolder.assetsPath == "" by {
        PseudoPages(pseudoFolder);
      }
      pseudoFolder := pseudoFolder.(folders := reportedFolders, coveredPct := coveredPct);
      return pseudoFolder;
    }

    /** The page fields of a folder for the source directory itself. */
    lemma PseudoPages(f: ReportedFolder)
      requires RootedDir(config.output) && RootedDir(meta.commonRoot) && config.sourceDir == meta.commonRoot
      requires Below(meta.commonRoot, JoinPath(meta.commonRoot, "index.html"))
      requires FolderPages(meta.commonRoot, f)
      ensures f.pathParts == [] && f.displayPath == "" && f.outFilePath == config.output + "/" + "index.temp"
      ensures f.assetsPath == ""
    {
      PseudoPaths(f);
      PseudoCrumbs(f);
      PseudoAssets(f);
    }

    /** The display path and report page of the source directory's folder. */
    lemma PseudoPaths(f: ReportedFolder)
      requires RootedDir(config.output) && RootedDir(meta.commonRoot)
      requires Below(meta.commonRoot, JoinPath(meta.commonRoot, "index.html"))
      requires FolderPages(meta.commonRoot, f)
      ensures f.displayPath == "" && f.outFilePath == config.output + "/" + "index.temp"
    {
      var page := JoinPath(meta.commonRoot, "index.html");
      assert page[|meta.commonRoot|..] == "/" + "index.html" && page[|meta.commonRoot| + 1..] == "index.html" by {
        TopPage(meta.commonRoot, config.output, "index.html", ".temp");
      }
      assert f.displayPath == "" by {
        RootPageDir();
      }
      IndexPageExt();
    }

    /** The breadcrumbs of the source directory's folder: none. */
    lemma PseudoCrumbs(f: ReportedFolder)
      requires RootedDir(config.output) && RootedDir(meta.commonRoot)
      requires Below(meta.commonRoot, JoinPath(meta.commonRoot, "index.html"))
      requires FolderPages(meta.commonRoot, f)
      ensures f.pathParts == []
    {
      IndexNamesPlain();
      assert JoinPath(meta.commonRoot, "index.html") == meta.commonRoot + "/" + Join([] + ["index.html"], "/") by {
        TopPage(meta.commonRoot, config.output, "index.html", ".temp");
        assert [] + ["index.html"] == ["index.html"];
      }
      BreadcrumbsBelow(meta.commonRoot, [], "index.html");
    }

    /** The assets path of the source directory's folder: its page is directly in the output directory. */
    lemma PseudoAssets(f: ReportedFolder)
      requires RootedDir(config.output) && f.outFilePath == config.output + "/" + "index.temp"
      requires RelRootPathOf(f.outFilePath, config.output, f.assetsPath)
      ensures f.assetsPath == ""
    {
      IndexNamesPlain();
      assert [] + ["index.temp"] == ["index.temp"];
      RelRootPathBelow(config.output, [], "index.temp");
    }
  }


  /** The first loop of GetProfileBlocks: the blocks of each file in turn. */
  method CollectFileBlocks(files: seq<ReportedFile>) returns (blocks: seq<Block>)
    ensures blocks == FileBlocks(files)
  {
    blocks := [];
    for i := 0 to |files|
      invariant blocks == FileBlocks(files[..i])
    {
      assert files[..i + 1][..i] == files[..i];
      blocks := blocks + files[i].profile.blocks;
    }
    assert files[..|files|] == files;
  }

  /** At most one candidate is the first that exists. */
  lemma FirstExistingUnique(c: seq<string>, fileExists: string -> bool, x: string, y: string)
    requires exists i :: 0 <= i < |c| && x == c[i] && fileExists(c[i]) && forall j :: 0 <= j < i ==> !fileExists(c[j])
    requires exists i :: 0 <= i < |c| && y == c[i] && fileExists(c[i]) && forall j :: 0 <= j < i ==> !fileExists(c[j])
    ensures x == y
  {
    var i1 :| 0 <= i1 < |c| && x == c[i1] && fileExists(c[i1]) && forall j :: 0 <= j < i1 ==> !fileExists(c[j]);
    var i2 :| 0 <= i2 < |c| && y == c[i2] && fileExists(c[i2]) && forall j :: 0 <= j < i2 ==> !fileExists(c[j]);
    assert i1 == i2;
  }

  /** The parent id of a container's folder list: -1 for the context. */
  function ParentOf(c: Container): int
  {
    if c.Root? then -1 else c.id
  }

  /**
    The walk of AddFolderFile, in the arena `f` with top level `t`, after i steps
    from the arena `start` with top level `startTop`: the folders met so far are
    `chain`, the arena grew only by creating missing folders along it, nothing
    changed unless a folder was created, and when the whole walk `oc` already
    existed the steps follow it.
  */
  predicate WalkState(start: seq<ReportedFolder>, startTop: seq<nat>, oc: Option<seq<nat>>,
                      paths: seq<string>, i: nat, chain: seq<nat>, f: seq<ReportedFolder>, t: seq<nat>)
  {
    WellFormed(f) && InArena(f, t) && i <= |paths| && |chain| == i &&
    Grown(start, f, chain, paths[..i]) && TopGrown(start, startTop, t, chain) &&
    ChainOf(f, t, paths[..i]) == Some(chain) &&
    (|f| == |start| ==> f == start && t == startTop) &&
    (oc.Some? ==> |f| == |start| && ChainOf(f, t, paths) == oc && chain == oc.value[..i])
  }

  /** The walk's state once every path is walked: what WalkDown promises. */
  lemma WalkStateDone(start: seq<ReportedFolder>, startTop: seq<nat>, oc: Option<seq<nat>>, paths: seq<string>,
                      chain: seq<nat>, f: seq<ReportedFolder>, t: seq<nat>)
    requires WalkState(start, startTop, oc, paths, |paths|, chain, f, t)
    ensures Grown(start, f, chain, paths) && TopGrown(start, startTop, t, chain)
    ensures WellFormed(f) && InArena(f, t) && ChainOf(f, t, paths) == Some(chain)
    ensures |chain| == 0 ==> f == start && t == startTop
    ensures oc.Some? ==> chain == oc.value && f == start && t == startTop
  {
    assert paths[..|paths|] == paths;
    if |chain| == 0 {
      GrownNone(start, f);
    }
  }

  /**
    One step of the walk keeps WalkState: from the end of `chain`, the folder for
    paths[i] was found (nothing changed) or created under the next id with no
    files and no subfolders, appended to the end of the chain's subfolders or
    added to the top level.
  */
  lemma WalkStateStep(start: seq<ReportedFolder>, startTop: seq<nat>, oc: Option<seq<nat>>, paths: seq<string>,
                      i: nat, chain: seq<nat>, f1: seq<ReportedFolder>, t1: seq<nat>,
                      f2: seq<ReportedFolder>, t2: seq<nat>, next: nat, existed: bool)
    requires WalkState(start, startTop, oc, paths, i, chain, f1, t1) && i < |paths|
    requires WellFormed(f2) && InArena(f2, t2) && InArena(f1, chain) && InArena(f2, chain)
    requires existed == Lookup(f1, ChainKids(f1, t1, chain), paths[i]).Some?
    requires Lookup(f2, ChainKids(f2, t2, chain), paths[i]) == Some(next)
    requires |chain| > 0 ==> t2 == t1
    requires existed ==> f2 == f1 && t2 == t1 && next == Lookup(f1, ChainKids(f1, t1, chain), paths[i]).value
    requires !existed ==>
      next == |f1| && |f2| == |f1| + 1 && f2[next].folderPath == paths[i] && f2[next].files == [] && f2[next].folders == []
    requires !existed && |chain| > 0 ==> f2 == AttachChild(f1, chain[|chain| - 1], f2[next])
    requires !existed && |chain| == 0 ==> f2 == f1 + [f2[next]] && multiset(t2) == multiset(t1) + multiset{next}
    ensures WalkState(start, startTop, oc, paths, i + 1, chain + [next], f2, t2)
    ensures existed ==> next < |start|
    ensures forall k :: 0 <= k < |f1| ==> f2[k].(folders := f1[k].folders) == f1[k]
  {
    if oc.Some? {
      ChainNext(f1, t1, paths, i, chain);
      SliceSnoc(oc.value, i);
    }
    WalkStepFacts(start, f1, t1, f2, t2, chain, paths[..i], paths[i], next, existed, startTop);
    SliceSnoc(paths, i);
  }

  /**
    After AddFolderFile: the walk for the file's directory exists and, unless the
    file lies directly in the source directory, its deepest folder holds a file
    with the file's path (up to ASCII case).
  */
  predicate FiledAt(arena: seq<ReportedFolder>, top: seq<nat>, paths: seq<string>, file: ReportedFile)
  {
    WellFormed(arena) && InArena(arena, top) &&
    match ChainOf(arena, top, paths)
    case None => false
    case Some(c) => |c| > 0 ==> FileIndex(arena[c[|c| - 1]].files, file.sourceFile).Some?
  }

  /**
    The state (`f`, `t`, `files`) after AddFolderFile filed `file` along `paths`,
    from the arena `o` with top level `oTop` and file list `oFiles`: the file is
    in the flat list and in the deepest folder of the walk `chain`, which now
    exists; `grown` is the arena the walk left, in which only missing folders
    were created and no folder lost a subfolder, and the top level gained at
    most the walk's first folder; the file went into the deepest folder only;
    a walk that already existed created nothing; and when the file was already
    filed there and in the flat list, nothing changed.
  */
  predicate FiledState(o: seq<ReportedFolder>, oTop: seq<nat>, oFiles: seq<ReportedFile>,
                       f: seq<ReportedFolder>, t: seq<nat>, files: seq<ReportedFile>,
                       paths: seq<string>, file: ReportedFile, chain: seq<nat>, grown: seq<ReportedFolder>)
  {
    WellFormed(o) && InArena(o, oTop) &&
    files == WithFile(oFiles, file) && FileIndex(files, file.sourceFile).Some? &&
    FiledAt(f, t, paths, file) && ChainOf(f, t, paths) == Some(chain) &&
    Grown(o, grown, chain, paths) && TopGrown(o, oTop, t, chain) &&
    (|chain| == 0 ==> f == o && t == oTop) &&
    (|chain| > 0 ==>
      var last := chain[|chain| - 1];
      last < |grown| && f == grown[last := grown[last].(files := WithFile(grown[last].files, file))]) &&
    (ChainOf(o, oTop, paths).Some? ==> chain == ChainOf(o, oTop, paths).value && grown == o && t == oTop) &&
    (FiledAt(o, oTop, paths, file) && FileIndex(oFiles, file.sourceFile).Some? ==>
      f == o && t == oTop && files == oFiles)
  }

  /** The walk of AddFolderFile followed by its two AddFile calls leaves FiledState. */
  lemma FiledAfterWalk(o: seq<ReportedFolder>, oTop: seq<nat>, oFiles: seq<ReportedFile>,
                       grown: seq<ReportedFolder>, grownTop: seq<nat>,
                       f: seq<ReportedFolder>, t: seq<nat>, files: seq<ReportedFile>,
                       paths: seq<string>, file: ReportedFile, chain: seq<nat>)
    requires WellFormed(o) && InArena(o, oTop) && WellFormed(f) && InArena(f, t)
    requires Grown(o, grown, chain, paths) && TopGrown(o, oTop, grownTop, chain)
    requires |chain| == 0 ==> grown == o && grownTop == oTop
    requires ChainOf(o, oTop, paths).Some? ==> chain == ChainOf(o, oTop, paths).value && grown == o && grownTop == oTop
    requires t == grownTop && files == WithFile(oFiles, file) && ChainOf(f, t, paths) == Some(chain)
    requires |chain| == 0 ==> f == grown
    requires |chain| > 0 ==>
      var last := chain[|chain| - 1];
      last < |grown| && f == grown[last := grown[last].(files := WithFile(grown[last].files, file))]
    ensures FiledState(o, oTop, oFiles, f, t, files, paths, file, chain, grown)
  {
    FiledAfterAdd(f, t, paths, chain, grown, file);
    WithFileProperties(oFiles, file);
    if FiledAt(o, oTop, paths, file) {
      RefileKeeps(o, oTop, paths, chain, f, file);
    }
  }

  /** Adding the file to the deepest folder of a walk leaves a file with its path there. */
  lemma FiledAfterAdd(arena: seq<ReportedFolder>, top: seq<nat>, paths: seq<string>, chain: seq<nat>,
                      grown: seq<ReportedFolder>, file: ReportedFile)
    requires WellFormed(arena) && InArena(arena, top) && ChainOf(arena, top, paths) == Some(chain)
    requires |chain| > 0 ==>
      var last := chain[|chain| - 1];
      last < |grown| && arena == grown[last := grown[last].(files := WithFile(grown[last].files, file))]
    ensures FiledAt(arena, top, paths, file)
  {
    if |chain| > 0 {
      var last := chain[|chain| - 1];
      WithFileProperties(grown[last].files, file);
    }
  }

  /** A file already filed at the end of the walk: adding it there again leaves the arena as it was. */
  lemma RefileKeeps(arena: seq<ReportedFolder>, top: seq<nat>, paths: seq<string>, chain: seq<nat>,
                    after: seq<ReportedFolder>, file: ReportedFile)
    requires FiledAt(arena, top, paths, file) && ChainOf(arena, top, paths) == Some(chain)
    requires |chain| == 0 ==> after == arena
    requires |chain| > 0 ==>
      var last := chain[|chain| - 1];
      last < |arena| && after == arena[last := arena[last].(files := WithFile(arena[last].files, file))]
    ensures after == arena
  {
    if |chain| > 0 {
      var last := chain[|chain| - 1];
      assert WithFile(arena[last].files, file) == arena[last].files;
      assert arena[last].(files := arena[last].files) == arena[last];
    }
  }

  /** The container a walk along `chain` ends at. */
  function NodeAt(chain: seq<nat>): Container
  {
    if |chain| == 0 then Root else Folder(chain[|chain| - 1])
  }

  /** Where NewReportedFolder and NewReportedFile put the report page of a path inside the root. */
  lemma PageFacts(root: string, output: string, page: string)
    requires RootedDir(root) && Below(root, page) && RootedDir(output)
    ensures |Breadcrumbs(root, page)| >= 1
    ensures GetOutPathInfo(output, page, ".temp", root).1 == output + "/" + SwapFileExt(page[|root| + 1..], ".temp")
    ensures |Split(Dir(GetOutPathInfo(output, page, ".temp", root).1), '/')| >= |Split(output, '/')|
  {
    BreadcrumbsAt(root, page);
    RelRootPathDefined(output, SwapFileExt(page[|root| + 1..], ".temp"));
  }

  /** A candidate location that exists is not the source directory itself, so it lies inside it. */
  lemma CandidateBelow(root: string, sourceFile: string, src: string, fileExists: string -> bool)
    requires RootedDir(root) && !fileExists(root) && fileExists(src)
    requires exists i :: 0 <= i < |SourceCandidates(root, sourceFile)| && src == SourceCandidates(root, sourceFile)[i]
    ensures Below(root, src)
  {
    var c := SourceCandidates(root, sourceFile);
    var i :| 0 <= i < |c| && src == c[i];
    var parts := Split(sourceFile, '/');
    var x := Join(parts[i..], "/");
    assert src == JoinPath(root, x);
    assert x != "";
    JoinPathBelow(root, x);
  }

  /**
    The index page of the source directory: GetOutPathInfo reports it with the
    display path "/index.html" and the page output + "/index.temp", and the
    display directory it leaves after the leading '/' is empty.
  */
  lemma PseudoPage(root: string, output: string)
    requires RootedDir(root) && RootedDir(output)
    ensures Below(root, JoinPath(root, "index.html"))
    ensures GetOutPathInfo(output, JoinPath(root, "index.html"), ".temp", root).0 == "/" + "index.html"
    ensures GetOutPathInfo(output, JoinPath(root, "index.html"), ".temp", root).1 == output + "/" + "index.temp"
    ensures Dir("/" + "index.html")[1..] == ""
  {
    TopPage(root, output, "index.html", ".temp");
    IndexPageExt();
    RootPageDir();
  }

  /** A page `name` directly in the root: its display path and its report page under the output directory. */
  lemma TopPage(root: string, output: string, name: string, ext: string)
    requires RootedDir(root) && RootedDir(output) && |name| > 0 && name[0] != '/'
    ensures JoinPath(root, name) == root + "/" + name && Below(root, root + "/" + name)
    ensures GetOutPathInfo(output, root + "/" + name, ext, root).0 == "/" + name
    ensures GetOutPathInfo(output, root + "/" + name, ext, root).1 == output + "/" + SwapFileExt(name, ext)
  {
    JoinPathBelow(root, name);
    var page := root + "/" + name;
    assert page[..|root| + 1] == root + "/";
    assert page[|root|..] == "/" + name;
    assert page[|root| + 1..] == name;
  }

  /** The index page's names hold no '/'. */
  lemma IndexNamesPlain()
    ensures '/' !in "index.html" && '/' !in "index.temp"
  {
    var h, t := "index.html", "index.temp";
    assert forall i :: 0 <= i < |h| ==> h[i] != '/';
    assert forall i :: 0 <= i < |t| ==> t[i] != '/';
  }

  lemma RootPageDir()
    ensures Dir("/" + "index.html") == "/"
  {
    var s := "/" + "index.html";
    assert forall j :: 1 <= j < |s| ==> s[j] != '/';
    assert s[0] == '/';
    assert LastIndex(s, '/') == 0;
  }

  lemma IndexPageExt()
    ensures SwapFileExt("index.html", ".temp") == "index.temp"
  {
    LastIndexAbsent("html", '.');
    LastIndexAppend(".", "html", '.');
    assert "index" + ".html" == "index.html";
    assert LastIndex(".", '.') == 0;
    assert "." + "html" == ".html";
    assert LastIndex(".html", '.') == 0;
    LastIndexAppend("index", ".html", '.');
    assert LastIndex("index.html", '.') == 5;
    LastIndexAbsent("index.html", '/');
    assert "index.html"[5..] == ".html";
    assert Ext("index.html") == ".html";
    assert "index.html"[..5] == "index";
  }
}
