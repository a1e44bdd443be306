# gocovrpt report builder in Dafny

This project models the core of gocovrpt, a Go tool that turns a coverage
profile into an HTML, badge or plain-value report. The model covers:

- the coverage arithmetic (`GetCoveredPct`), in exact arithmetic;
- the projection of profile blocks into display records (`GetProfiledLines`);
- the path helpers that place each report page and build its breadcrumbs;
- the report tree: a `ReportContext` holding top-level folders and a flat file
  list, and folders holding files and subfolders;
- the walk that files a profile into that tree (`AddProfile`, `AddFolderFile`);
- the coverage roll-up (`UpdateCoverage`, `GetProfileBlocks`, `GetAllFolders`);
- the small validators and constants around them: formats and levels, badge
  colours, error codes and messages.

Modules, one per concern:

| module | file | models |
|---|---|---|
| `Wrappers` | wrappers.dfy | `Option` and `Result` |
| `Strings` | strings.dfy | `strings.Split`, `Join`, `Repeat` and `EqualFold` (ASCII folding), Go's `<` on strings, and `%d` |
| `Errors` | errors.dfy | lib/errors.go |
| `Options` | options.dfy | cmd/options.go |
| `Color` | color.dfy | lib/color.go |
| `Badge` | badge.dfy | `getCoverageColor` of formats/badge.go |
| `Coverage` | coverage.dfy | `GetCoveredPct`, `GetProfiledLines` and `newReportedBlock` of lib/utils.go |
| `Paths` | paths.dfy | the path helpers of lib/utils.go |
| `Tree` | tree.dfy | the records of lib/types.go and the traversals of the tree, as functions on values |
| `Report` | report.dfy | `ReportContext`, as a class whose methods update it in place |

## The tree as an arena

Go's folders are pointers: a folder found by `ContainsFolder` and then
changed is changed wherever it is listed. The model keeps every folder in one
sequence, `ReportContext.folders`. A folder names its subfolders by index,
and every subfolder's index is larger than its parent's, so the tree is
acyclic. Each index occurs at most once across the top level and all the
subfolder lists together (`Tree.SingleParent`), so every folder has one
parent at most and a traversal meets it once. `Container = Root | Folder(id)` stands for the `ReportContainer`
interface: either the context itself or one folder.

`ReportContext.Valid()` is the invariant every method keeps:

- the tree is acyclic;
- every folder is listed at most once: under one parent or at the top level, never twice;
- the top level is sorted by path;
- no list holds two folders, or two files, whose paths are equal up to ASCII case;
- the source directory is the common root;
- both the source directory and the output are absolute directories.

## Coverage values

A float64 result is modelled as `Pct = Finite(real) | PosInfinity`:

- the value is exact;
- NaN becomes 0, as the source does;
- the one infinite case, a positive count over zero statements, is kept as `PosInfinity`.

The counted formula divides raw execution counts by statements, as the code
does, not the statement-weighted ratio one might expect. It can therefore
exceed 100 (`CountedCoverageExceedsHundred`).

## Model

| member | source | states |
|---|---|---|
| Errors.ErrorCodeValues | lib/errors.go:33-38 | the four codes are 400, 401, 402 and 403 in declaration order |
| Errors.ErrorText | lib/errors.go:15-17 | the text is "Error(", then the code in `%d` form (canonical digits with no leading zero, a '-' only before a positive number's digits), then "): " and the message; the code is read back exactly from those digits |
| Errors.InvalidArgError | lib/errors.go:19-24 | the error carries the given code; its message starts with "Invalid argument <name>: <value>", ends with ". Valid options are: " followed by the options joined with ", ", and holds nothing else, its length being the sum of the two |
| Errors.UnresolvablePathError | lib/errors.go:26-31 | code 403; the message is "Unable to resolve file system path " followed by the path |
| Errors.UnresolvablePathErrorInjective | lib/errors.go:26-31 | the path can be read back from the error, so distinct paths give distinct errors |
| Strings.IntDecimalRoundTrip | lib/errors.go:16 | the `%d` rendering of any int is read back as the same int |
| Strings.NatToDecimal | lib/errors.go:16 | the digits of a natural number: decimal digits only, no leading zero, starting with '0' exactly for 0 |
| Strings.IntToDecimal | lib/errors.go:16 | `%d` of an int: canonical digits, or a '-' followed by the canonical digits of a positive number |
| Options.AllFormatsString | cmd/options.go:16-24 | the format list is shown as "html, badge, value" |
| Options.AllLevelsString | cmd/options.go:36-44 | the level list is shown as "full, summary" |
| Options.IsValidFormat | cmd/options.go:16-34 | a format is valid if and only if it is exactly "html", "badge" or "value" (case-sensitive) |
| Options.IsValidLevel | cmd/options.go:36-54 | a level is valid if and only if it is exactly "full" or "summary" |
| Color.IsValidColor | lib/color.go:3-14 | accepted if and only if the string has 3 or 6 characters, each 0-9 or upper-case A-F; a byte length of 3 or 6 with any non-ASCII character is rejected |
| Color.Utf8LenOfHex | lib/color.go:4-11 | a string of hex digits has as many bytes as characters, so the byte-length test of the rune loop is a character count |
| Color.RejectsLowerCaseAndHash | lib/color.go:8 | any lower-case hex digit or '#' makes the colour invalid |
| Badge.CoverageColor | formats/badge.go:42-58 | as written: grey if and only if the value is below 5, red if and only if it is at least 5 |
| Badge.OnlyGreyOrRed | formats/badge.go:46-56 | the orange, yellow, yellow-green, green and bright-green branches are never taken |
| Badge.CoverageColorMonotone | formats/badge.go:42-58 | once a value is red, every larger value is red |
| Badge.BandColor | formats/badge.go:42-58 | the intended rule: each band [5,20), [20,40), [40,60), [60,80), [80,90) and [90,∞) gets its own colour, and grey is below 5, each in both directions |
| Badge.BandColorMonotone | formats/badge.go:42-58 | under the intended rule a larger value never gets a lower colour |
| Badge.CoverageColorDiffers | formats/badge.go:44-47 | at 20 the rule as written gives red where orange was intended |
| Badge.CoverageColorAgreesBelowTwenty | formats/badge.go:42-46 | both rules agree on every value below 20 |
| Coverage.GetCoveredPct | lib/utils.go:146-167 | the one-pass loop computes exactly the value given by `CoveredPct`: counts over statements when some count is above 1, counts over blocks otherwise, scaled by 100 on request, NaN as 0 |
| Coverage.MaxCountAboveOne | lib/utils.go:147-156 | the running maximum exceeds 1 if and only if some block ran more than once |
| Coverage.CoveredPctEmpty | lib/utils.go:146-166 | no blocks give 0, with or without the factor 100 |
| Coverage.SumCountOfFlags | lib/utils.go:150-158 | with hit/miss data the sum of the counts is the number of blocks hit |
| Coverage.HitBlocksBound | lib/utils.go:150-158 | no more blocks are hit than there are blocks |
| Coverage.CoveredPctOfFlags | lib/utils.go:150-162 | with hit/miss data the result is the share of blocks hit, times 100 on request, between 0 and the scale |
| Coverage.CoveredPctOfCounts | lib/utils.go:147-157 | with counted data the result is the sum of the counts over the sum of the statements, or +Inf with no statements |
| Coverage.CountedCoverageExceedsHundred | lib/utils.go:154-160 | one block of 4 statements run 5 times gives 125 |
| Coverage.SumsPermutation | lib/utils.go:147-151 | both sums depend only on the multiset of blocks |
| Coverage.CoveredPctPermutation | lib/utils.go:146-167 | reordering the blocks does not change the result |
| Coverage.GetProfiledLines | lib/utils.go:193-213 | one record per block, in order, with the coordinates copied (End becoming Stop) and covered meaning count above 0; the covered list is the covered records in order |
| Coverage.CoveredOnlyExact | lib/utils.go:193-203 | the covered list holds only covered records of the input, every covered record, and as many as there are |
| Strings.SplitLength | lib/utils.go:56-57 | `strings.Split` gives one piece more than the separators in the string |
| Strings.SplitJoin | lib/types.go:147-150 | splitting a join on a separator no part contains gives back the parts |
| Strings.JoinSplit | lib/types.go:147-150 | joining the pieces of a split gives back the string |
| Strings.LessIrreflexive | lib/types.go:131-133 | no path sorts before itself |
| Strings.LessTransitive | lib/types.go:131-133 | Go's string order is transitive |
| Strings.LessTotal | lib/types.go:131-133 | any two distinct paths are ordered one way or the other |
| Paths.LastIndex | lib/utils.go:95 | the index of the last occurrence, or -1, and no occurrence after it |
| Paths.Ext | lib/utils.go:95 | `path.Ext`: a suffix that starts with '.' and holds no other '.' or '/'; when it is empty, the last element has no '.' |
| Paths.SwapFileExtInLastElement | lib/utils.go:94-98 | only the final element is changed, so dots in directory names survive |
| Paths.ExtInLastElement | lib/utils.go:95 | the extension of a path is the extension of its last element |
| Paths.ExtOfExtension | lib/utils.go:95-97 | a name ending in a proper extension reports that extension |
| Paths.SwapFileExtIdempotent | lib/utils.go:94-98 | swapping in the same proper extension twice is the same as once |
| Paths.SwapHtmlIdempotent | lib/utils.go:94-98 | swapping in ".html" twice is the same as once |
| Paths.JoinPathBelow | lib/utils.go:74 | `path.Join` of an absolute directory and a non-empty relative part puts one '/' between them |
| Paths.GetOutPathInfo | lib/utils.go:84-92 | the display path is the file path with the root cut off; for a file below the root, the report path is that path under the output directory with its extension swapped |
| Paths.InsertStringAt | lib/utils.go:108-111 | the insert sits at the index clamped to the length, and removing it gives back the string |
| Paths.ReverseArray | lib/utils.go:100-106 | a sequence of the same length holding the elements in reverse order |
| Paths.FillCrumbs | lib/utils.go:47-49 | the loop writes breadcrumb j of the reversed segments into table entry j and leaves entry 0 alone |
| Paths.GetRelPathParts | lib/utils.go:33-51 | the breadcrumbs: none when the path is the root itself; otherwise the root entry and then one entry per directory segment |
| Paths.BreadcrumbsFromTable | lib/utils.go:39-50 | a table with the root entry and the entries the loop writes, resliced when there is no directory, is the breadcrumb list |
| Paths.BreadcrumbsAt | lib/utils.go:37-50 | for a file below the root: one entry per directory segment plus the root entry, whose link hops back once per piece of the directory split |
| Paths.BreadcrumbsBelow | lib/utils.go:33-51 | a file n directories below the root has n + 1 breadcrumbs: first the root with n hops (".." when n is 0), then each directory j with n − j + 1 hops |
| Paths.JoinHops | lib/utils.go:48 | joining the hops and a segment is plain concatenation |
| Paths.DirOfJoin | lib/utils.go:38 | the directory of a relative path built from segments is the segments joined, or "." when there are none |
| Paths.RelDirsOfJoin | lib/utils.go:38-45 | the directory segments of such a path are exactly the segments, the lone "." dropped |
| Paths.GetRelRootPath | lib/utils.go:53-61 | as many "../" as the file's directory has levels more than the root |
| Paths.RelRootPathDefined | lib/utils.go:56-59 | a path below the root never has fewer levels than the root, so the count of hops is never negative |
| Paths.RelRootPathBelow | lib/utils.go:53-61 | a page n directories below the output directory climbs back with exactly n "../" |
| Paths.SplitBelow | lib/utils.go:56-57 | each directory below the root adds one piece to the split |
| Paths.DirBelowRoot | lib/types.go:147 | the directory of a file n directories below the root is the root followed by those directories |
| Paths.SourceCandidates | lib/utils.go:71-75 | one candidate per piece of the declared path, the first being the whole path under the source directory |
| Paths.GetSourceFilePath | lib/utils.go:71-82 | the first candidate that exists, with no earlier one existing; a failure exactly when none exists, carrying the unresolvable-path error of the declared path |
| Tree.FileIndex | lib/types.go:118-125 | the index of the first file whose path equals the query up to ASCII case; none exactly when there is no such file |
| Tree.FolderIndex | lib/types.go:108-115 | the position of the first folder whose path equals the query up to ASCII case; none exactly when there is no such folder |
| Tree.LookupOnlyMatch | lib/types.go:249-256 | in a list where only one folder matches, the look-up finds that one |
| Tree.WithFileProperties | lib/types.go:242-246 | adding a file keeps every entry, grows the list by at most one, leaves a file with that path present, and a second add changes nothing |
| Tree.WithFileNoDup | lib/types.go:138-142 | adding a file keeps the list free of case-insensitive duplicates |
| Tree.AllFolders | lib/types.go:265-272 | every listed folder lies strictly below the receiver, so the receiver is excluded |
| Tree.ListFolders | lib/types.go:166-173 | the pre-order listing of a folder list: each folder followed by its descendants, all below the parent |
| Tree.ListFoldersClosed | lib/types.go:265-272 | the listing holds every folder of the list and every subfolder of a listed folder |
| Tree.FolderBlocksPreorder | lib/types.go:288-297 | a folder's blocks are its own files' blocks followed by the files' blocks of its descendants in pre-order |
| Tree.ListBlocksPreorder | lib/types.go:176-182 | the blocks of a folder list are the files' blocks of its pre-order listing |
| Tree.ContextCoverage | lib/types.go:176-183 | the report's value is the coverage of the files of every listed folder; with no top-level folder it is 0, whatever files lie directly in the source directory |
| Tree.SameShapeBlocks | lib/types.go:280-285 | changing coverage values leaves the collected blocks unchanged |
| Tree.SameShapeFolders | lib/types.go:280-285 | changing coverage values leaves the pre-order listing as it was |
| Tree.CoverStep | lib/types.go:177-181 | one step of the roll-up loop: with one more folder's subtree settled, the listing so far is settled, only it changed, and the blocks grow by that folder's blocks |
| Tree.CoverSelf | lib/types.go:280-284 | once the subfolders are settled, setting the folder's value to the coverage of its blocks settles its whole subtree |
| Tree.SameShapeValid | lib/types.go:283 | setting coverage values keeps the tree, its order, its freedom from duplicates and every folder's single parent |
| Tree.InsertByPath | lib/types.go:128-135 | the top level grows by exactly the new id: one entry longer, with the same multiset of ids plus the new one |
| Tree.InsertByPathSorted | lib/types.go:130-133 | inserting a folder whose path matches none keeps the top level sorted and free of duplicates |
| Tree.AttachChild | lib/types.go:259-263 | the new folder takes the next id and is appended to its parent's subfolders in insertion order; every other folder is unchanged |
| Tree.AttachChildKeeps | lib/types.go:259-263 | attaching a fresh folder keeps every path, the tree and its freedom from duplicates |
| Tree.AttachChildFinds | lib/types.go:259-263 | after the attach, looking the path up among the parent's subfolders finds the new folder |
| Tree.AttachTopKeeps | lib/types.go:128-135 | adding a fresh top-level folder keeps the tree valid, the top level sorted and free of duplicates, and the look-up finds it |
| Tree.SetFilesKeeps | lib/types.go:242-246 | changing one folder's file list keeps every path, the tree and its freedom from duplicates |
| Tree.SameListsSingle | lib/types.go:242-246 | a change that leaves every subfolder list as it was, such as adding a file, keeps every folder listed at most once |
| Tree.AttachChildSingle | lib/types.go:259-263 | attaching a fresh folder under one parent keeps every folder listed at most once across the top level and all subfolder lists |
| Tree.AttachTopSingle | lib/types.go:128-135 | adding a fresh folder to the sorted top level keeps every folder listed at most once across the top level and all subfolder lists |
| Tree.ChainOf | lib/types.go:147-161 | the walk visits, level by level, a folder whose path equals the prefix path up to ASCII case, with ever larger ids |
| Tree.DescendChain | lib/types.go:149-159 | after finding or creating the next folder, the walk reaches one level further |
| Tree.WalkStepFacts | lib/types.go:149-159 | one step keeps the walk invariant: only a missing folder is created, with its path, no files and no subfolders; every old folder keeps all its other fields; the chain's last folder gains exactly the created folder at the end of its subfolders and no other list changes; the top level gains a folder only at the first step when it is created |
| Tree.GrownStep | lib/types.go:149-159 | one step keeps `Grown`: a found folder changes nothing; a created folder is new on the chain, and each chain folder's subfolder list stays its old list plus the next chain folder exactly when that one is new |
| Tree.GrownNone | lib/types.go:147-148 | a walk of no segments creates nothing |
| Tree.TopGrownStep | lib/types.go:128-135 | across one walk step the top level gains a new folder only at the first step, and only when that folder was created |
| Tree.ChainSetFiles | lib/types.go:157-159 | adding the file to the deepest folder leaves the walk as it was |
| Tree.RelDirsNested | lib/types.go:147-150 | for a file n directories below the source directory, relDirs lists exactly those directories, and step j visits the source directory followed by the first j + 1 of them |
| Tree.DirBelow | lib/types.go:102-103 | the directory of a file below the source directory is at or below it |
| Tree.WalkPageBelow | lib/types.go:150-153 | every folder the walk visits has its index page inside the source directory |
| Report.CollectFileBlocks | lib/types.go:290-292 | the blocks of each file in turn |
| Report.FiledAfterWalk | lib/types.go:145-164 | the walk's guarantees followed by the two `AddFile` calls give `FiledState` |
| Report.FiledAfterAdd | lib/types.go:157-159 | after the add, the deepest folder of the walk holds a file with the file's path |
| Report.RefileKeeps | lib/types.go:242-246 | adding a file that is already filed at the end of the walk leaves the tree as it was |
| Report.PageFacts | lib/types.go:211-213 | a page below the root has breadcrumbs, and its report page under the output directory never climbs above it |
| Report.CandidateBelow | lib/utils.go:71-82 | a candidate that exists is not the source directory itself, so it lies inside it |
| Report.PseudoPage | lib/types.go:209-225 | for the source directory, `NewReportedFolder`'s `GetOutPathInfo` call gives the display path "/index.html" and the page "index.temp" directly in the output directory, and the display directory left after its leading '/' is empty |
| Report.TopPage | lib/utils.go:84-92 | a page directly in the root is joined with one '/', lies below the root, is displayed as "/" and its name, and is reported directly in the output directory with its extension swapped |
| Report.IndexPageExt | lib/types.go:210-213 | "index.html" with ".temp" swapped in is "index.temp" |
| Report.ReportContext.constructor | lib/types.go:74-88 | `NewReportContext`: no files, no folders, coverage 0, with the configuration and the output directory |
| Report.ReportContext.ContainsFolder | lib/types.go:108-115 | the id of the first folder of the container whose path equals the query up to ASCII case, or none |
| Report.ReportContext.ContainsFile | lib/types.go:118-125 | the first file of the container whose path equals the query up to ASCII case, or none |
| Report.ReportContext.AddFile | lib/types.go:138-142 | the container's file list becomes the list with the file added unless present; nothing else changes and the invariant holds |
| Report.ReportContext.AddTopFolder | lib/types.go:128-135 | `ReportContext.AddFolder`: a folder with a new path is stored under the next id and inserted into the sorted top level, where the look-up finds it; a duplicate path changes nothing |
| Report.ReportContext.AddSubfolder | lib/types.go:259-263 | `ReportedFolder.AddFolder`: a folder with a new path is appended to the subfolders, unsorted; a duplicate path changes nothing |
| Report.ReportContext.Descend | lib/types.go:151-159 | the folder of the node matching the path; when there is none, a folder created under the next id that is `NewReportedFolder`'s folder for the path: no files, no subfolders and (`Blank`) the report's metadata, the base name, coverage 0 and the breadcrumbs and pages of its index page, and either appended to the parent's subfolders (`AttachChild`) or inserted into the sorted top level (`InsertByPath`, the top level gaining exactly that id); when there is one, nothing changes |
| Report.ReportContext.WalkStep | lib/types.go:149-159 | one iteration of the walk keeps the walk invariant, one level further down: `Grown` with each chain folder's subfolder list exactly its old list plus the created next folder, `TopGrown`, the chain reached so far, and every created folder the blank folder for its path (`Made`) |
| Report.ReportContext.Stepped | lib/types.go:149-159 | what one call of `Descend` leaves behind (found: nothing changed; created: a blank folder attached under the chain's end or added to the top level) keeps the walk invariant one level further down |
| Report.WalkStateStep | lib/types.go:149-159 | one step keeps the arena part of the walk invariant: exact growth, top-level growth, the chain reached so far, and the reuse of a walk that already existed |
| Report.WalkStateDone | lib/types.go:146-162 | once every path is walked, the chain is the walk of all paths, a walk of no folders changed nothing, and a walk that existed is the one followed |
| Report.ReportContext.MadeStep | lib/types.go:151-156 | one step keeps every created folder of the walk equal to the blank folder for its path, the new one included |
| Report.ReportContext.MadeFiled | lib/types.go:157-159 | adding the file to the deepest folder keeps every created folder blank apart from its files |
| Report.ReportContext.FreshFolderPages | lib/types.go:209-225 | the blank folder for a path has the report's metadata, no files, no subfolders, coverage 0, the path, its base name and the pages of its index page |
| Report.ReportContext.WalkDown | lib/types.go:146-162 | the walk reaches a folder for every prefix; only missing folders are created, each the blank `NewReportedFolder` folder for its path; every old folder keeps its other fields, and a chain folder's subfolder list gains exactly the next folder of the walk when that one was created, no other list changing; the top level gains at most the walk's first folder; a walk that existed is followed unchanged |
| Report.ReportContext.AddAtNode | lib/types.go:160-163 | the file goes into the deepest folder, if any, and into the context's flat list |
| Report.ReportContext.AddFolderFile | lib/types.go:145-164 | `FiledState`: the file is added to the flat list and only to the deepest folder of the walk, which exists afterwards for every prefix of the file's directory; the walk only created missing folders, each the blank folder for its path, and each subfolder list changed exactly by the created folder below it; the top level gained at most the walk's first folder; a walk that existed is reused; filing a file already filed changes nothing |
| Report.ReportContext.AddProfile | lib/types.go:101-105 | the file record of the profile (its `NewReportedFile` outcome) is filed as `AddFolderFile` promises, with the same exact growth, blank created folders, deepest-folder-only and no-change-when-filed guarantees; an unresolvable file yields its error and changes nothing |
| Report.ReportContext.ResolvedUnique | lib/types.go:350-372 | the same profile and the same files on disk give the same record or the same error, so with `AddProfile`'s contract a repeated profile is filed once |
| Report.ReportContext.RecordUnique | lib/types.go:355-371 | two records of one profile and one source file with the same coverage are equal |
| Coverage.ReportsBlocksUnique | lib/utils.go:193-213 | the line records of a profile are determined by its blocks |
| Report.FirstExistingUnique | lib/utils.go:71-82 | at most one candidate is the first that exists |
| Report.ReportContext.NewReportedFolder | lib/types.go:209-225 | the folder holds the files, has no subfolders, coverage 0 and name Base(path); its breadcrumbs are those of its index page without the last entry, and it has its own report page and assets path |
| Report.ReportContext.NewReportedFile | lib/types.go:350-372 | the source file is the first existing candidate (otherwise the unresolvable-path error); the record has the profile's lines, pages, breadcrumbs and coverage |
| Report.ReportContext.ReportedFileAt | lib/types.go:355-371 | the record built for a resolved source file: lines, pages and the given coverage |
| Report.ReportContext.FilePagesAt | lib/types.go:355-368 | the file's breadcrumbs, display path, report page and assets path |
| Report.ReportContext.GetProfileBlocks | lib/types.go:288-297 | `ReportedFolder.GetProfileBlocks`: the folder's own files' blocks, then each subfolder's, in order |
| Report.ReportContext.GetAllFolders | lib/types.go:166-173 | `GetAllFolders` of the context or of a folder: the pre-order listing, holding every folder of the container and every subfolder of a listed folder |
| Report.ReportContext.UpdateFolderCoverage | lib/types.go:280-285 | `ReportedFolder.UpdateCoverage`: afterwards the folder and every descendant hold the coverage of their own blocks, nothing else changed, and the tree is as before |
| Report.ReportContext.UpdateCoverage | lib/types.go:176-183 | every top-level subtree is settled; the report's value is the coverage of the blocks of the top-level folders; nothing outside the listing changed |
| Report.ReportContext.GetPseudoFolder | lib/types.go:90-98 | a folder for the source directory, named after it, with no files, the top-level folders, the report's coverage and metadata; no breadcrumbs, an empty display path, the page "index.temp" directly in the output directory and an empty assets path |

## Findings

| source | as written | input that shows it | evidently intended | confidence | as-written member | corrected member |
|---|---|---|---|---|---|---|
| formats/badge.go:42-58 | `getCoverageColor` tests `percent >= 5` first, so every later branch is dead and only grey or red is ever chosen | 20 (and any value of at least 20) gives red | test the thresholds from the highest down, so each band has its own colour | high; not executed | Badge.CoverageColor, Badge.OnlyGreyOrRed, Badge.CoverageColorDiffers | Badge.BandColor, Badge.BandColorMonotone |

## Left out

- Disk and process I/O is not modelled: `MakeFileDir`, `MakeFile`, `GetSourceCode` and `ReportedFile.GetSourceCode`. `FileExists` becomes the parameter `fileExists`.
- `HandleStopError` and `handleStopCode` exit the process. Where the source stops on an unresolvable file, the model returns the error instead: `NewReportedFile` returns it and `AddProfile` returns it with the state unchanged.
- `filepath.Abs` is the identity on the absolute, clean paths the model assumes. `NewReportContext`'s stop on an `Abs` failure cannot arise, so it is not modelled.
- `path.Dir`, `path.Base`, `path.Ext` and `path.Join` are modelled on clean '/'-separated paths only, with no "//", "." or ".." segments.
- `os.PathSeparator` is '/'.
- `strings.EqualFold` folds ASCII letters only. Unicode simple folding is not modelled.
- float64 rounding is not modelled. Values are exact reals, and +Inf is a separate case.
- `FormatBadge`'s `RoundToEven` and its scaling by 3.57 are not modelled; only `getCoverageColor` is.
- `ReportedFolder.ContainsFile` skips nil entries. The model has no nil files, so it has no such case.
- `GetCommonRoot` and `Offset` are not modelled. The first is unused by the report builder; the second only wraps a `bytes.Reader`.
- `ReportedFolder.WithExtension`, `ReportedFile.WithExtension` and `ReportedFile.GetCoveredPct` are not modelled. Each is a one-line call of `SwapFileExt` or `GetCoveredPct`, which are modelled.
- The renderers (formats/html.go, formats/value.go), the command line (cmd/root.go) and main.go are not part of this model.
- Report.ReportContext.AddFolderFile: Go adds the file to the node inside the loop, on the last iteration. The model adds it right after the loop, to the node the walk ended at, which is the same folder.
- Report.ReportContext.AddFolderFile: the folder paths Go joins in each iteration are computed up front by `WalkPaths`.
- Report.ReportContext.AddFolderFile: the `folderPath` parameter is shadowed and unused in the source, and is unused in the model too.
- Report.ReportContext.AddFolderFile: it requires the file's directory to be at least as long as the source directory. Go slices there and would panic otherwise.
- Report.ReportContext.AddProfile: it requires that the source directory itself is not an existing file. This holds because `FileExists` is false for directories.
- Report.ReportContext.NewReportedFile: the same requirement as `AddProfile`: the source directory itself is not an existing file.
- Report.ReportContext.AddTopFolder: Go appends and then runs `sort.Slice`. The model inserts the id at its sorted place. Paths in the top level are distinct, so both orders agree.
- Report.ReportContext.GetProfileBlocks: the file loop is the helper `CollectFileBlocks`. The pre-order form of the result is stated by `Tree.FolderBlocksPreorder` rather than in the method.
- Report.ReportContext.UpdateCoverage: the pre-order form of the value, and the 0 for an empty top level, are stated by `Tree.ContextCoverage` rather than in the method.
- Paths.InsertStringAt: `index` and the clamp to the string's length count characters, while Go counts UTF-8 bytes. The two agree on ASCII strings; on other strings Go may splice elsewhere or inside a character. A negative `index`, which makes Go's slice panic, is excluded by the `nat` type.
- Paths.GetRelPathParts: it requires the file path to be the root itself or at least one character longer than the root. Go's slice `filePath[len(commonRoot)+1:]` (lib/utils.go:37) panics otherwise.
- Paths.GetRelRootPath: it requires the page to be no higher than the root. Go's `strings.Repeat` panics on a negative count.
- Paths.GetOutPathInfo: it requires a root no longer than the file path, which are the bounds of Go's slice.
- Options.IsValidFormat: the scan over the constant slice is stated as membership.
- Options.IsValidLevel: the scan over the constant slice is stated as membership.
