/**
  Path helpers of lib/utils.go. Paths are '/'-separated; path.Dir, path.Base,
  path.Ext and path.Join are modelled with Go's results on clean operands
  (no "//", no "." or ".." segments), and filepath.Abs as the identity on the
  absolute paths the report builder passes it.
*/
module Paths {
  import opened Strings
  import opened Wrappers
  import opened Errors

  /** The index of the last `c` in `s`, or -1 (strings.LastIndex). */
  function LastIndex(s: string, c: char): (k: int)
    ensures -1 <= k < |s|
    ensures k >= 0 ==> s[k] == c
    ensures forall j :: k < j < |s| ==> s[j] != c
    decreases |s|
  {
    if |s| == 0 then -1
    else if s[|s| - 1] == c then |s| - 1
    else LastIndex(s[..|s| - 1], c)
  }

  /** path.Dir on a clean path: everything before the last '/', "/" for a top-level entry, "." without a '/'. */
  function Dir(p: string): (r: string)
    ensures |r| >= 1
  {
    var k := LastIndex(p, '/');
    if k < 0 then "." else if k == 0 then "/" else p[..k]
  }

  function TrimTrailingSlashes(p: string): (r: string)
    ensures |r| <= |p| && r == p[..|r|]
    ensures |r| > 0 ==> r[|r| - 1] != '/'
    decreases |p|
  {
    if |p| > 0 && p[|p| - 1] == '/' then TrimTrailingSlashes(p[..|p| - 1]) else p
  }

  /** path.Base: the last element, "." for the empty path, "/" for a path of slashes. */
  function Base(p: string): (r: string)
    ensures |r| >= 1
  {
    if p == "" then "."
    else
      var t := TrimTrailingSlashes(p);
      if t == "" then "/" else t[LastIndex(t, '/') + 1..]
  }

  /** path.Ext: the suffix from the last '.' of the final element, or "". */
  function Ext(p: string): (r: string)
    ensures |r| <= |p| && r == p[|p| - |r|..]
    ensures |r| > 0 ==> r[0] == '.' && '/' !in r && '.' !in r[1..]
    ensures |r| == 0 ==> forall j :: LastIndex(p, '/') < j < |p| ==> p[j] != '.'
  {
    var k := LastIndex(p, '.');
    if k > LastIndex(p, '/') then p[k..] else ""
  }

  /** SwapFileExt: the path without its extension, followed by `ext`. */
  function SwapFileExt(filePath: string, ext: string): string
  {
    filePath[..|filePath| - |Ext(filePath)|] + ext
  }

  /** An extension that path.Ext reports whole: a '.' and no further '.' or '/'. */
  predicate IsExtension(ext: string)
  {
    |ext| >= 1 && ext[0] == '.' && '/' !in ext && '.' !in ext[1..]
  }

  lemma {:induction false} LastIndexAppend(x: string, y: string, c: char)
    ensures LastIndex(x + y, c) == if LastIndex(y, c) >= 0 then |x| + LastIndex(y, c) else LastIndex(x, c)
    decreases |y|
  {
    if |y| == 0 {
      assert x + y == x;
    } else {
      var s := x + y;
      assert s[..|s| - 1] == x + y[..|y| - 1];
      LastIndexAppend(x, y[..|y| - 1], c);
    }
  }

  /** Only the final element is touched: dots in directory names survive. */
  lemma SwapFileExtInLastElement(dir: string, name: string, ext: string)
    ensures SwapFileExt(dir + "/" + name, ext) == dir + "/" + SwapFileExt(name, ext)
  {
    var d := dir + "/";
    var p := d + name;
    ExtInLastElement(dir, name);
    var e := Ext(name);
    assert p[..|p| - |e|] == d + name[..|name| - |e|];
  }

  lemma ExtInLastElement(dir: string, name: string)
    ensures Ext(dir + "/" + name) == Ext(name)
  {
    var d := dir + "/";
    var p := d + name;
    LastIndexAppend(d, name, '.');
    LastIndexAppend(d, name, '/');
    LastIndexAppend(dir, "/", '/');
    LastIndexAppend(dir, "/", '.');
    assert LastIndex("/", '/') == 0;
    assert LastIndex("/", '.') == -1 by { assert LastIndex("/"[..0], '.') == -1; }
    assert LastIndex(d, '/') == |dir|;
    var a, b := LastIndex(name, '.'), LastIndex(name, '/');
    if a > b {
      assert LastIndex(p, '.') == |d| + a;
      assert p[|d| + a..] == name[a..];
    } else if a >= 0 {
      assert LastIndex(p, '.') <= LastIndex(p, '/');
    } else {
      assert LastIndex(p, '.') == LastIndex(dir, '.') < |dir| <= LastIndex(p, '/');
    }
  }

  lemma ExtOfExtension(q: string, ext: string)
    requires IsExtension(ext)
    ensures Ext(q + ext) == ext
  {
    LastIndexAppend(q, ext, '.');
    LastIndexAppend(q, ext, '/');
    assert LastIndex(ext, '.') == 0 by {
      forall j | 0 < j < |ext| ensures ext[j] != '.' { assert ext[1..][j - 1] == ext[j]; }
    }
    assert LastIndex(ext, '/') == -1;
  }

  /** Swapping in the same extension twice is the same as once. */
  lemma SwapFileExtIdempotent(p: string, ext: string)
    requires IsExtension(ext)
    ensures SwapFileExt(SwapFileExt(p, ext), ext) == SwapFileExt(p, ext)
  {
    var q := p[..|p| - |Ext(p)|];
    ExtOfExtension(q, ext);
    assert (q + ext)[..|q + ext| - |ext|] == q;
  }

  lemma SwapHtmlIdempotent(p: string)
    ensures SwapFileExt(SwapFileExt(p, ".html"), ".html") == SwapFileExt(p, ".html")
  {
    SwapFileExtIdempotent(p, ".html");
  }

  function DropTrailingSlash(p: string): string
  {
    if |p| > 0 && p[|p| - 1] == '/' then p[..|p| - 1] else p
  }

  function DropLeadingSlash(p: string): string
  {
    if |p| > 0 && p[0] == '/' then p[1..] else p
  }

  /** path.Join(a, b) on clean operands: one '/' between them, an empty operand ignored. */
  function JoinPath(a: string, b: string): string
  {
    if b == "" then a else if a == "" then b else DropTrailingSlash(a) + "/" + DropLeadingSlash(b)
  }

  /** An absolute directory other than "/", written without a trailing '/'. */
  predicate RootedDir(p: string)
  {
    |p| >= 2 && p[0] == '/' && p[|p| - 1] != '/'
  }

  lemma JoinPathBelow(root: string, b: string)
    requires RootedDir(root) && b != ""
    ensures JoinPath(root, b) == root + "/" + DropLeadingSlash(b)
  {
  }

  /**
    GetOutPathInfo: the display path is the file path with the root prefix cut off,
    and the report path is that display path placed under the output directory with
    its extension swapped. For a file below the root both are the expected
    relocations.
  */
  function GetOutPathInfo(outPath: string, fileName: string, ext: string, root: string): (r: (string, string))
    requires root == "" || |root| <= |fileName|
    ensures root != "" ==> r.0 == fileName[|root|..]
    ensures root == "" ==> r.0 == fileName
    ensures root != "" && |fileName| > |root| && fileName[..|root| + 1] == root + "/" && RootedDir(outPath) ==>
      r.1 == outPath + "/" + SwapFileExt(fileName[|root| + 1..], ext)
  {
    var newPath := if root != "" then fileName[|root|..] else fileName;
    var below := root != "" && |fileName| > |root| && fileName[..|root| + 1] == root + "/" && RootedDir(outPath);
    assert below ==> SwapFileExt(JoinPath(outPath, newPath), ext) == outPath + "/" + SwapFileExt(fileName[|root| + 1..], ext) by {
      if below {
        var t := fileName[|root| + 1..];
        assert newPath == "/" + t;
        SwapFileExtInLastElement(outPath, t, ext);
      }
    }
    (newPath, SwapFileExt(JoinPath(outPath, newPath), ext))
  }

  /** InsertStringAt: `insert` spliced in at `index`, clamped to the end of `str`. */
  function InsertStringAt(str: string, insert: string, index: nat): (r: string)
    ensures var k := if index < |str| then index else |str|;
      |r| == |str| + |insert| && r[k..k + |insert|] == insert && r[..k] + r[k + |insert|..] == str
  {
    var safeDex := if index < |str| then index else |str|;
    var r := str[..safeDex] + insert + str[safeDex..];
    assert r[..safeDex] == str[..safeDex] && r[safeDex + |insert|..] == str[safeDex..];
    r
  }

  /** ReverseArray: a new sequence holding the elements in reverse order. */
  method ReverseArray<T(0)>(a: seq<T>) returns (r: seq<T>)
    ensures |r| == |a|
    ensures forall i :: 0 <= i < |a| ==> r[i] == a[|a| - 1 - i]
  {
    var result := new T[|a|];
    for i := 0 to |a|
      invariant forall j :: 0 <= j < i ==> result[|a| - 1 - j] == a[j]
    {
      result[|a| - i - 1] := a[i];
    }
    r := result[..];
  }

  /** PathTuple: a breadcrumb entry, a display name and a relative link. */
  datatype PathTuple = PathTuple(name: string, path: string)

  /** The directory segments of a relative file path, a lone "." (no directory) dropped. */
  function RelDirs(diffPath: string): seq<string>
  {
    var parts := Split(Dir(diffPath), '/');
    if parts[|parts| - 1] == "." then parts[..|parts| - 1] else parts
  }

  /**
    The breadcrumbs GetRelPathParts produces: none for the root itself; otherwise
    first the root (its base name, hopping back once per piece of the directory
    split, the final '/' dropped) and then, for directory segment j of n, that
    segment with n - j hops back and the segment.
  */
  function Breadcrumbs(commonRoot: string, filePath: string): seq<PathTuple>
    requires commonRoot == filePath || |filePath| >= |commonRoot| + 1
  {
    if commonRoot == filePath then []
    else
      var diffPath := filePath[|commonRoot| + 1..];
      var pieces := |Split(Dir(diffPath), '/')|;
      var dirs := RelDirs(diffPath);
      var n := |dirs|;
      [PathTuple(Base(commonRoot), Repeat("../", pieces)[..3 * pieces - 1])]
        + seq(n, j requires 0 <= j < n => Crumb(dirs, j + 1))
  }

  /** A table holding the root entry and then Crumb 1..n of RelDirs is the breadcrumb list. */
  lemma BreadcrumbsFromTable(commonRoot: string, filePath: string, table: seq<PathTuple>)
    requires |filePath| >= |commonRoot| + 1
    requires |table| == |RelDirs(filePath[|commonRoot| + 1..])| + 1
    requires var pieces := |Split(Dir(filePath[|commonRoot| + 1..]), '/')|;
      table[0] == PathTuple(Base(commonRoot), Repeat("../", pieces)[..3 * pieces - 1])
    requires forall j :: 1 <= j < |table| ==> table[j] == Crumb(RelDirs(filePath[|commonRoot| + 1..]), j)
    ensures table == Breadcrumbs(commonRoot, filePath)
  {
    var diffPath := filePath[|commonRoot| + 1..];
    var dirs := RelDirs(diffPath);
    var n := |dirs|;
    var tail := seq(n, j requires 0 <= j < n => Crumb(dirs, j + 1));
    assert Breadcrumbs(commonRoot, filePath) == [table[0]] + tail;
    assert table == [table[0]] + tail by {
      forall j | 1 <= j < |table| ensures table[j] == tail[j - 1] { }
    }
  }

  lemma JoinHops(k: nat, segment: string)
    requires k >= 1 && '/' !in segment
    ensures JoinPath(Repeat("../", k), segment) == Repeat("../", k) + segment
  {
    RepeatSnoc("../", k);
    var h := Repeat("../", k);
    assert h[|h| - 1] == '/';
    assert DropTrailingSlash(h) + "/" == h;
    if segment != "" {
      assert segment[0] != '/';
    }
  }

  /** Breadcrumb j (1-based) of n directory segments: segment j, linked n - j + 1 levels up. */
  function Crumb(dirs: seq<string>, j: nat): PathTuple
    requires 1 <= j <= |dirs|
  {
    PathTuple(dirs[j - 1], Repeat("../", |dirs| - j + 1) + dirs[j - 1])
  }

  /** The loop of GetRelPathParts: entry n - i gets the i-th reversed segment with i + 1 hops. */
  method FillCrumbs(pathMap: array<PathTuple>, pathParts: seq<string>)
    requires pathMap.Length >= |pathParts| + 1
    requires forall i :: 0 <= i < |pathParts| ==> '/' !in pathParts[i]
    modifies pathMap
    ensures pathMap[0] == old(pathMap[0])
    ensures forall j :: 1 <= j <= |pathParts| ==> pathMap[j] == Crumb(pathParts, j)
  {
    var reversed := ReverseArray(pathParts);
    var n := |pathParts|;
    for i := 0 to n
      invariant pathMap[0] == old(pathMap[0])
      invariant forall j :: n - i < j <= n ==> pathMap[j] == Crumb(pathParts, j)
    {
      var part := reversed[i];
      assert part == pathParts[n - 1 - i];
      var back := Repeat("../", i + 1);
      JoinHops(i + 1, part);
      pathMap[n - i] := PathTuple(part, JoinPath(back, part));
    }
  }

  /** GetRelPathParts: fills a table by index from the reversed segments, then reslices it. */
  method GetRelPathParts(commonRoot: string, filePath: string) returns (r: seq<PathTuple>)
    requires commonRoot == filePath || |filePath| >= |commonRoot| + 1
    ensures r == Breadcrumbs(commonRoot, filePath)
  {
    if commonRoot == filePath {
      return [];
    }
    var diffPath := filePath[|commonRoot| + 1..];
    var pathParts := Split(Dir(diffPath), '/');
    ghost var pieces := |pathParts|;
    var pathMap := new PathTuple[|pathParts| + 1](_ => PathTuple("", ""));
    var hops := Repeat("../", |pathParts|);
    pathMap[0] := PathTuple(Base(commonRoot), hops[..|hops| - 1]);
    var size := pathMap.Length;
    if pathParts[|pathParts| - 1] == "." {
      size := size - 1;
      pathParts := pathParts[..|pathParts| - 1];
    }
    assert pathParts == RelDirs(diffPath);
    FillCrumbs(pathMap, pathParts);
    r := pathMap[..size];
    BreadcrumbsFromTable(commonRoot, filePath, r);
  }

  lemma LastIndexAbsent(s: string, c: char)
    requires c !in s
    ensures LastIndex(s, c) == -1
  {
  }

  /** The last '/' of d + "/" + name, when name has none, is the one added. */
  lemma LastSlashOfJoin(d: string, name: string)
    requires '/' !in name
    ensures LastIndex(d + "/" + name, '/') == |d|
  {
    LastIndexAbsent(name, '/');
    LastIndexAppend(d + "/", name, '/');
    LastIndexAppend(d, "/", '/');
  }

  lemma DirOfJoinedName(d: string, name: string)
    requires '/' !in name && |d| >= 1
    ensures Dir(d + "/" + name) == d
  {
    LastSlashOfJoin(d, name);
    assert (d + "/" + name)[..|d|] == d;
  }

  /** The directory part of a clean relative path built from segments. */
  lemma DirOfJoin(dirs: seq<string>, name: string)
    requires forall i :: 0 <= i < |dirs| ==> dirs[i] != "" && '/' !in dirs[i]
    requires '/' !in name
    ensures |dirs| == 0 ==> Dir(Join(dirs + [name], "/")) == "."
    ensures |dirs| > 0 ==> Dir(Join(dirs + [name], "/")) == Join(dirs, "/")
  {
    if |dirs| == 0 {
      assert dirs + [name] == [name];
      LastIndexAbsent(name, '/');
    } else {
      JoinSnoc(dirs, name, "/");
      JoinLength(dirs);
      DirOfJoinedName(Join(dirs, "/"), name);
    }
  }

  lemma {:induction false} JoinLength(parts: seq<string>)
    requires |parts| >= 1 && parts[0] != ""
    ensures |Join(parts, "/")| >= 1
  {
  }

  lemma BreadcrumbsAt(commonRoot: string, filePath: string)
    requires |filePath| >= |commonRoot| + 1
    ensures var diffPath := filePath[|commonRoot| + 1..];
      var pieces := |Split(Dir(diffPath), '/')|;
      var b := Breadcrumbs(commonRoot, filePath);
      |b| == |RelDirs(diffPath)| + 1 &&
      b[0] == PathTuple(Base(commonRoot), Repeat("../", pieces)[..3 * pieces - 1]) &&
      forall j :: 1 <= j < |b| ==> b[j] == Crumb(RelDirs(diffPath), j)
  {
    var diffPath := filePath[|commonRoot| + 1..];
    var dirs := RelDirs(diffPath);
    var n := |dirs|;
    var pieces := |Split(Dir(diffPath), '/')|;
    var head := PathTuple(Base(commonRoot), Repeat("../", pieces)[..3 * pieces - 1]);
    var tail := seq(n, j requires 0 <= j < n => Crumb(dirs, j + 1));
    var b := Breadcrumbs(commonRoot, filePath);
    assert b == [head] + tail;
    forall j | 1 <= j < |b| ensures b[j] == Crumb(dirs, j) {
      assert b[j] == tail[j - 1];
    }
  }

  /**
    Breadcrumbs of a file n directories below the root: n + 1 entries; the first
    names the root and hops back n times (".." when n is 0), entry j names
    directory j and links n - j + 1 levels up to it.
  */
  lemma BreadcrumbsBelow(root: string, dirs: seq<string>, name: string)
    requires forall i :: 0 <= i < |dirs| ==> dirs[i] != "" && dirs[i] != "." && '/' !in dirs[i]
    requires '/' !in name
    ensures var b := Breadcrumbs(root, root + "/" + Join(dirs + [name], "/"));
      |b| == |dirs| + 1 &&
      b[0] == PathTuple(Base(root), if |dirs| == 0 then ".." else Repeat("../", |dirs|)[..3 * |dirs| - 1]) &&
      forall j :: 1 <= j <= |dirs| ==> b[j] == Crumb(dirs, j)
  {
    var diff := Join(dirs + [name], "/");
    BreadcrumbsOf(root, diff);
    RelDirsOfJoin(dirs, name);
  }

  /** BreadcrumbsAt for a path written as the root, '/', and the rest. */
  lemma BreadcrumbsOf(root: string, diff: string)
    ensures var b := Breadcrumbs(root, root + "/" + diff);
      var pieces := |Split(Dir(diff), '/')|;
      |b| == |RelDirs(diff)| + 1 &&
      b[0] == PathTuple(Base(root), Repeat("../", pieces)[..3 * pieces - 1]) &&
      forall j :: 1 <= j < |b| ==> b[j] == Crumb(RelDirs(diff), j)
  {
    var filePath := root + "/" + diff;
    assert filePath[|root| + 1..] == diff;
    BreadcrumbsAt(root, filePath);
  }

  lemma RelDirsOfJoin(dirs: seq<string>, name: string)
    requires forall i :: 0 <= i < |dirs| ==> dirs[i] != "" && dirs[i] != "." && '/' !in dirs[i]
    requires '/' !in name
    ensures RelDirs(Join(dirs + [name], "/")) == dirs
    ensures |Split(Dir(Join(dirs + [name], "/")), '/')| == if |dirs| == 0 then 1 else |dirs|
    ensures |dirs| == 0 ==> Repeat("../", 1)[..2] == ".."
  {
    DirOfJoin(dirs, name);
    if |dirs| == 0 {
      assert Split(".", '/') == ["."] by {
        assert "."[1..] == "";
        assert Split("."[1..], '/') == [""];
        assert ['.'] + "" == ".";
      }
      assert Repeat("../", 1) == "../";
    } else {
      SplitJoin(dirs, '/');
    }
  }

  /** GetRelRootPath: one "../" per level the file's directory lies below the root. */
  function GetRelRootPath(outFilePath: string, commonRoot: string): (r: string)
    requires |Split(Dir(outFilePath), '/')| >= |Split(commonRoot, '/')|
    ensures var levels := |Split(Dir(outFilePath), '/')| - |Split(commonRoot, '/')|;
      |r| == 3 * levels && forall k :: 0 <= k < levels ==> r[3 * k..3 * k + 3] == "../"
  {
    var crLen := |Split(commonRoot, '/')|;
    var ofLen := |Split(Dir(outFilePath), '/')|;
    RepeatPieces(ofLen - crLen);
    Repeat("../", ofLen - crLen)
  }

  /** `r` is what GetRelRootPath returns for the page `outFilePath`, which lies no higher than `commonRoot`. */
  predicate RelRootPathOf(outFilePath: string, commonRoot: string, r: string)
  {
    |Split(Dir(outFilePath), '/')| >= |Split(commonRoot, '/')| && r == GetRelRootPath(outFilePath, commonRoot)
  }

  lemma {:induction false} RepeatPieces(n: nat)
    ensures forall k :: 0 <= k < n ==> Repeat("../", n)[3 * k..3 * k + 3] == "../"
    decreases n
  {
    if n > 0 {
      RepeatPieces(n - 1);
      var r := Repeat("../", n);
      assert r == "../" + Repeat("../", n - 1);
      forall k | 0 <= k < n ensures r[3 * k..3 * k + 3] == "../" {
        if k > 0 {
          assert r[3 * k..3 * k + 3] == Repeat("../", n - 1)[3 * (k - 1)..3 * (k - 1) + 3];
        }
      }
    }
  }

  /** Any path strictly below the root has at least as many directory levels as the root. */
  lemma RelRootPathDefined(root: string, t: string)
    requires |root| >= 1
    ensures |Split(Dir(root + "/" + t), '/')| >= |Split(root, '/')|
  {
    var q := root + "/" + t;
    LastIndexAppend(root + "/", t, '/');
    LastIndexAppend(root, "/", '/');
    var k := LastIndex(q, '/');
    assert k >= |root| >= 1;
    var d := q[..k];
    assert d == root + q[|root|..k];
    CountAppend(root, q[|root|..k], '/');
    SplitLength(d, '/');
    SplitLength(root, '/');
  }

  /** For an output file n directories below the root, GetRelRootPath hops back n times. */
  lemma RelRootPathBelow(root: string, dirs: seq<string>, name: string)
    requires |root| >= 1
    requires forall i :: 0 <= i < |dirs| ==> dirs[i] != "" && '/' !in dirs[i]
    requires '/' !in name
    ensures var out := root + "/" + Join(dirs + [name], "/");
      |Split(Dir(out), '/')| >= |Split(root, '/')| &&
      GetRelRootPath(out, root) == Repeat("../", |dirs|)
  {
    var out := root + "/" + Join(dirs + [name], "/");
    DirBelowRoot(root, dirs, name);
    if |dirs| > 0 {
      SplitBelow(root, dirs);
    }
    assert |Split(Dir(out), '/')| == |Split(root, '/')| + |dirs|;
  }

  /** Each segment appended below a directory adds one piece to its split. */
  lemma SplitBelow(root: string, dirs: seq<string>)
    requires |dirs| >= 1
    requires forall i :: 0 <= i < |dirs| ==> '/' !in dirs[i]
    ensures |Split(root + "/" + Join(dirs, "/"), '/')| == |Split(root, '/')| + |dirs|
  {
    var d := Join(dirs, "/");
    CountAppend(root + "/", d, '/');
    CountAppend(root, "/", '/');
    assert Count("/", '/') == 1;
    SplitLength(root + "/" + d, '/');
    SplitLength(root, '/');
    SplitLength(d, '/');
    SplitJoin(dirs, '/');
  }


  lemma SlashAssoc(a: string, b: string, c: string)
    ensures a + "/" + (b + "/" + c) == (a + "/" + b) + "/" + c
  {
  }

  /** The directory of a file n directories below the root: the root and those n directories. */
  lemma DirBelowRoot(root: string, dirs: seq<string>, name: string)
    requires |root| >= 1
    requires forall i :: 0 <= i < |dirs| ==> dirs[i] != "" && '/' !in dirs[i]
    requires '/' !in name
    ensures Dir(root + "/" + Join(dirs + [name], "/")) == if |dirs| == 0 then root else root + "/" + Join(dirs, "/")
  {
    if |dirs| == 0 {
      assert dirs + [name] == [name];
      DirOfJoinedName(root, name);
    } else {
      var d := Join(dirs, "/");
      JoinSnoc(dirs, name, "/");
      SlashAssoc(root, d, name);
      DirOfJoinedName(root + "/" + d, name);
    }
  }

  /** The paths GetSourceFilePath tries: the source directory joined with each suffix of the declared path, longest first. */
  function SourceCandidates(sourceDir: string, sourceFile: string): (c: seq<string>)
    ensures |c| == |Split(sourceFile, '/')|
    ensures c[0] == JoinPath(sourceDir, sourceFile)
  {
    var parts := Split(sourceFile, '/');
    JoinSplit(sourceFile, '/');
    assert parts[0..] == parts;
    seq(|parts|, i requires 0 <= i < |parts| => JoinPath(sourceDir, Join(parts[i..], "/")))
  }

  /**
    GetSourceFilePath: the first candidate that exists, or UnresolvablePathError
    of the declared path when none does. `fileExists` stands for FileExists.
  */
  method GetSourceFilePath(sourceDir: string, sourceFile: string, fileExists: string -> bool)
    returns (r: Result<string, AppError>)
    ensures var c := SourceCandidates(sourceDir, sourceFile);
      r.Success? ==> exists i :: 0 <= i < |c| && r.value == c[i] && fileExists(c[i]) && (forall j :: 0 <= j < i ==> !fileExists(c[j]))
    ensures var c := SourceCandidates(sourceDir, sourceFile);
      r.Failure? <==> forall j :: 0 <= j < |c| ==> !fileExists(c[j])
    ensures r.Failure? ==> r.error == UnresolvablePathError(sourceFile)
  {
    var srcParts := Split(sourceFile, '/');
    ghost var c := SourceCandidates(sourceDir, sourceFile);
    for i := 0 to |srcParts|
      invariant forall j :: 0 <= j < i ==> !fileExists(c[j])
    {
      var possiblePath := JoinPath(sourceDir, Join(srcParts[i..], "/"));
      assert possiblePath == c[i];
      if fileExists(possiblePath) {
        return Success(possiblePath);
      }
    }
    return Failure(UnresolvablePathError(sourceFile));
  }
}
