# photo_workflow in Dafny

A model of the decision logic of the `photo_workflow` scripts, with proofs about it.
The scripts build krpano panoramas and sort, convert, fetch and back up photos. The model covers:

- the panorama builder of `krpano.py`:
  - input and template lookup;
  - the staleness gate;
  - the `makepano` and `protect` argument lists;
  - classifying a tool run;
  - editing the scene document;
  - staging the bundled files and writing the hotspot overlay;
- the conversion tasks and the day/month/year glob pattern of `archive.py`;
- tag parsing and sorting into project folders in `create.py`;
- the track selection and download rule of `getgpx.py`;
- the mirror rule and the two passes of `backup.py`.

The filesystem is a map from paths to entries (`Files.Tree`). A path is a sequence of components. An entry is a directory or a file, each with its `st_ctime` and `st_mtime`. Paths follow pathlib (`Paths`).

The machine is a class, `Files.Host`. It holds the filesystem and the argument vectors of the child processes started on it. The operations that change the filesystem in the scripts are methods on it. Each of those methods is proved against a specification function over trees, and the lemmas are proved about those functions.

Some things the scripts get from outside become parameters:

- what a child process answers (`KrpanoTool.ToolResult`);
- the scene document `makepano` writes;
- the text exiftool prints;
- the WebDAV listing;
- `strptime`;
- the order in which a glob returns entries. `Glob.Listing` hands out the entries of the glob's set in an order the model leaves open.

The current time is one integer `now` per call.

The modules follow the source:

| module | file |
|---|---|
| `Text`, `Paths`, `Files`, `Glob`, `Xml`, `Outcomes` | the Python, pathlib, shutil and ElementTree behaviour the core relies on |
| `KrpanoTool` | `KRPanoBase.run` and `KRViewer.run` |
| `Krpano` | the descriptor, `KRPano.template`, `KRPano.pname`, the `makepano` arguments |
| `Staging` | `KRPano.add_data`, `KRPano.hotspots`, the debug files |
| `Scene` | the edits `KRPano.run` makes to the scene document |
| `Build` | `KRPano.run` |
| `Archive` | `archive.py` |
| `Create` | `create.py` |
| `GetGpx` | `getgpx.py` |
| `Backup` | `backup.py` |

Some details of the code that the model keeps as they are:

- the HTML flag comes before `-vfov`/`-voffset`;
- a stale scene document is deleted before `makepano` runs, so a failing tool leaves no scene document;
- hotspot processing depends on the `hotspots` key being present, not on a non-empty list;
- `partialpano_helpertool.xml` is staged into the output directory, not into `plugins`;
- the preview, twitter-card and scene checks compare `st_ctime`, while the archive and backup checks compare `st_mtime`.

## Model

| member | source | states |
|---|---|---|
| KrpanoTool.ToolArgv | photo_workflow/krpano.py:54 | the vector is the `krpanotools` executable, then the subcommand, then the arguments unchanged |
| KrpanoTool.RunTool | photo_workflow/krpano.py:53-67 | exactly one child process is started with that vector; the tree is unchanged; the outcome is `Classify(reply)` |
| KrpanoTool.NonEmptyLines | photo_workflow/krpano.py:59-62 | the loop collects exactly the non-empty output lines, in order |
| KrpanoTool.NonEmpty | photo_workflow/krpano.py:60-62 | the kept lines are those of the input that are non-empty, none of them empty, none added |
| KrpanoTool.NonEmptyConcat | photo_workflow/krpano.py:60-62 | filtering a concatenation filters each part |
| KrpanoTool.NonEmptyKeeps | photo_workflow/krpano.py:60-62 | lines that are all non-empty are all kept |
| KrpanoTool.Classify | photo_workflow/krpano.py:58-67 | the run passes exactly when the exit status is 0 |
| KrpanoTool.FailureMessageIsOneLine | photo_workflow/krpano.py:63 | the message of a failed run holds no line break |
| KrpanoTool.FailureMessageEmpty | photo_workflow/krpano.py:59-63 | the message is empty exactly when the output is nothing but line breaks |
| KrpanoTool.FailureMessageOfLines | photo_workflow/krpano.py:59-63 | output made of non-empty lines gives those lines joined by single spaces |
| KrpanoTool.TrailingBreakIgnored | photo_workflow/krpano.py:60-63 | a final line break does not change the message |
| KrpanoTool.FailureMessageOfTerminatedLines | photo_workflow/krpano.py:59-63 | lines that each end in a break still give the lines joined by spaces |
| KrpanoTool.BadImageExample | photo_workflow/krpano.py:58-63 | exit 1 with output `error: bad image` fails with exactly the message `error: bad image` |
| KrpanoTool.ProtectArgs | photo_workflow/krpano.py:73-76 | the list is `-noep -nolu -noex`, one `-domain=` per domain in order, then `-o=<viewer>` |
| KrpanoTool.ProtectArgsUnique | photo_workflow/krpano.py:73-76 | that shape determines the list: two lists of the shape are equal |
| KrpanoTool.ViewerRun | photo_workflow/krpano.py:70-77 | a missing viewer directory is created with its parents; exactly one `protect` run is started with the protect list; its outcome is the classification of the reply |
| Krpano.TemplatePath | photo_workflow/krpano.py:86-90 | the configured template when it exists, otherwise `templates/<template>` beside the tools binary |
| Krpano.Pname | photo_workflow/krpano.py:92-100 | a found input is a file; it is the literal path when that is a file, else the path under the panorama root; the error holds exactly when neither is a file and names both |
| Krpano.ViewShapeFlags | photo_workflow/krpano.py:221-223 | `-vfov=` and `-voffset=` appear exactly when given with a non-empty value, `-vfov` first |
| Krpano.AppendGiven | photo_workflow/krpano.py:221-223 | the loop appends exactly the flags of the given keys, in key order |
| Krpano.FixedLayout | photo_workflow/krpano.py:203-213 | all nine fixed arguments, each as the code spells it: panotype, hfov, `-flash=false`, the tile path pattern, the scene path, the preview, mobile-image and thumbnail paths under the tiles directory, and the template |
| Krpano.HtmlLayout | photo_workflow/krpano.py:215-219 | `-html=true` and the HTML path, or just `-html=false` |
| Krpano.MakepanoLayout | photo_workflow/krpano.py:203-223 | the list exists exactly when `panotype` and `hfov` are present; then come the fixed nine (each one stated), the HTML flag(s), then `-vfov`/`-voffset` exactly when given |
| Krpano.MakepanoArgs | photo_workflow/krpano.py:203-223 | the construction by appends yields exactly `MakepanoArguments`, the error for a missing `panotype` or `hfov` included |
| Staging.AddData | photo_workflow/krpano.py:102-110 | afterwards the file is present; an existing one is unchanged; a missing one is the bundled copy; nothing else changes; only the file and missing directories appear |
| Staging.AddDataStable | photo_workflow/krpano.py:106-110 | a file already in an existing directory makes `add_data` a no-op |
| Staging.AddDataIdempotent | photo_workflow/krpano.py:102-110 | a second `add_data` of the same file changes nothing |
| Staging.AddDataOn | photo_workflow/krpano.py:102-110 | the imperative `add_data` does what `AddData` states |
| Staging.KeepsEntry | photo_workflow/krpano.py:106-110 | `add_data` keeps any existing entry as it was |
| Staging.AddAll | photo_workflow/krpano.py:247-250 | every name is present afterwards, and no existing entry other than those names changes |
| Staging.AddAllKeeps | photo_workflow/krpano.py:247-250 | an existing file is never overwritten by a series of `add_data` calls |
| Staging.AddAllIdempotent | photo_workflow/krpano.py:247-250 | staging the same names again changes nothing |
| Staging.AddAllStable | photo_workflow/krpano.py:247-250 | once every name is present, staging them changes nothing |
| Staging.AddAllOn | photo_workflow/krpano.py:247-250 | the loop of `add_data` calls does what `AddAll` states |
| Staging.StageDebugResult | photo_workflow/krpano.py:245-250 | the helper tool and every debug plugin are present; nothing that existed changes; staging again changes nothing |
| Staging.StageDebugOn | photo_workflow/krpano.py:245-250 | the debug staging on the machine does what `StageDebug` states |
| Staging.SpotNamesDistinct | photo_workflow/krpano.py:157-158 | hotspots at different positions get different names |
| Staging.SpotsAppend | photo_workflow/krpano.py:157-161 | one more hotspot adds one element, numbered by its position, at the end |
| Staging.TwoSpots | photo_workflow/krpano.py:157-161 | two hotspots give `spot0` then `spot1`, each with its own angles and description |
| Staging.StageSupport | photo_workflow/krpano.py:116-120 | the circle image and `plugins/showtext.xml` are present, nothing that existed changes, and every new entry is a directory or one of those two files |
| Staging.StageHotspotsResult | photo_workflow/krpano.py:115-162 | support files present; with a list, the overlay is the preamble, one element per hotspot and `</krpano>`; without one, no overlay; other entries unchanged; nothing new appears but directories, the two support files and, with a list only, the overlay |
| Staging.WritePieces | photo_workflow/krpano.py:122-162 | the head, one write per hotspot and the tail leave a file holding their concatenation |
| Staging.WriteHotspots | photo_workflow/krpano.py:122-162 | the overlay is written with the fixed preamble, the hotspot elements and `</krpano>` |
| Staging.StageHotspotsOn | photo_workflow/krpano.py:115-162 | `KRPano.hotspots` on the machine does what `StageHotspots` states |
| Xml.FindFirst | photo_workflow/krpano.py:230 | the position of the first child with the tag; none exactly when no child has it |
| Xml.ElementTree.SetAttribute | photo_workflow/krpano.py:234 | one attribute of one child is set; every other child and the root stay |
| Xml.ElementTree.SubElement | photo_workflow/krpano.py:237-238 | one new child with the given attributes is appended last |
| Scene.Overrides | photo_workflow/krpano.py:232-234 | the given view keys take the descriptor's value; every other attribute is kept; none is added |
| Scene.OverridesTwice | photo_workflow/krpano.py:232-234 | setting the overrides twice is setting them once |
| Scene.OverrideViewIdempotent | photo_workflow/krpano.py:230-234 | overriding the view twice changes nothing more |
| Scene.SameTagsSameFind | photo_workflow/krpano.py:230 | `find` only depends on the children's tags |
| Scene.OverridesStep | photo_workflow/krpano.py:232-234 | one more key of the loop sets that key exactly when the descriptor gives it |
| Scene.HlookatAttributes | photo_workflow/krpano.py:232-234 | in that example, `hlookat` becomes `30` and `fov` stays `90` |
| Scene.OverrideViewIn | photo_workflow/krpano.py:230-234 | the in-place loop over `hlookat`/`vlookat`/`fov` gives the first view its overrides |
| Scene.MutateShape | photo_workflow/krpano.py:228-252 | root tag and attributes kept; old children keep their places and, except the view, their content; the additions follow |
| Scene.MutateView | photo_workflow/krpano.py:230-234 | the first view carries each given key's value and keeps its other attributes, tag and children |
| Scene.MutateNoView | photo_workflow/krpano.py:230-231 | without a view the produced children are kept exactly |
| Scene.OnlyFirstView | photo_workflow/krpano.py:230 | a view after the first is untouched |
| Scene.DebugAdditionsLast | photo_workflow/krpano.py:235-252 | in debug mode the root ends with `events`, the helper include and the toolbox include, after the hotspot include if any |
| Scene.HlookatExample | photo_workflow/krpano.py:230-234 | a view with `hlookat` 0 and a descriptor with `hlookat: 30` yield `hlookat="30"` and nothing else changed |
| Build.Refresh | photo_workflow/krpano.py:173-191 | the copy step does nothing without the key; propagates the lookup error; keeps every entry; changes only the copy target |
| Build.RefreshGate | photo_workflow/krpano.py:178-181 | the copy is made exactly when the target is missing or the source's ctime is strictly greater |
| Build.RefreshOn | photo_workflow/krpano.py:174-191 | the copy step on the machine does what `Refresh` states |
| Build.Prepared | photo_workflow/krpano.py:170-191 | the output directory and the two copies remove nothing that existed |
| Build.PreparedKeeps | photo_workflow/krpano.py:170-191 | an entry that is not a copy target is unchanged, and the outcome is a pass or a missing-file error for the preview or twitter card |
| Build.PrepareOn | photo_workflow/krpano.py:170-191 | the preparation on the machine does what `Prepared` states |
| Build.RebuildEffect | photo_workflow/krpano.py:203-254 | once the tool is started, its vector is `makepano`, the arguments and the input last; a failure raises the output and changes nothing; a success leaves the edited document |
| Build.RebuildKeeps | photo_workflow/krpano.py:226-254 | the rebuild changes no entry other than the scene document and the overlay |
| Build.FinishKeeps | photo_workflow/krpano.py:228-254 | editing and staging change no entry other than the scene document and the overlay |
| Build.StagedKeeps | photo_workflow/krpano.py:235-250 | staging the overlay and the debug files keeps every existing entry other than the overlay |
| Build.RunInputErrors | photo_workflow/krpano.py:164-166 | a missing `input` key, or an input that is not found, raises before anything changes, naming both places looked at |
| Build.RunSkipsFreshScene | photo_workflow/krpano.py:193-200 | a scene document at least as recent as the input means the tool is not started, the document is untouched, and only a missing preview source can fail the run |
| Build.Cleared | photo_workflow/krpano.py:193-196 | afterwards the scene document is not a file, and every other entry is unchanged |
| Build.RunRebuilds | photo_workflow/krpano.py:193-254 | a stale or missing scene is rebuilt with the input last; a failing tool leaves no scene document; a success leaves the edited one |
| Build.RunKeepsInput | photo_workflow/krpano.py:164-254 | a run leaves the input panorama unchanged whenever it is none of the files the run writes |
| Build.SceneIsNoCopy | photo_workflow/krpano.py:166-199 | the scene document `pname.xml` is never the preview or twitter-card copy, whatever `pname` is |
| Build.RunTwice | photo_workflow/krpano.py:193-200 | after a successful build, a later run with the input unchanged starts no tool and leaves the scene document alone |
| Build.Run | photo_workflow/krpano.py:164-254 | `KRPano.run` on the machine does what `RunSpec` states, and starts the recorded tool at most once |
| Build.RebuildOn | photo_workflow/krpano.py:203-254 | the rebuild on the machine does what `Rebuild` states |
| Build.Finishing | photo_workflow/krpano.py:228-254 | the produced document is edited, the files staged, and the edited document written back |
| Build.EditScene | photo_workflow/krpano.py:228-252 | the in-place edits yield `Mutate(produced)` while the hotspot and debug files are staged |
| Build.HotspotStep | photo_workflow/krpano.py:235-238 | with a hotspot list, the overlay is staged and its include appended |
| Build.DebugStep | photo_workflow/krpano.py:239-252 | in debug mode, `events`, the helper include, the staging and the toolbox include, in that order |
| Archive.Pattern | photo_workflow/archive.py:74 | the pattern has two components, the first the year directory |
| Archive.PatternCases | photo_workflow/archive.py:54-72 | the five shapes: today's `YYYY-MM-DD*`, `YYYY-*`, `YYYY-MM-*`, a day of the current month, a given day |
| Archive.NoStarInPrefix | photo_workflow/archive.py:61-72 | the only `*` of the file-name pattern is its last character |
| Archive.PatternSelects | photo_workflow/archive.py:13 | a name matches the pattern exactly when it starts with the day prefix |
| Archive.TwoDigitFields | photo_workflow/archive.py:61-72 | calendar months and days are written with two digits that read back as themselves |
| Archive.RawByName | photo_workflow/archive.py:12-14 | a raw file is one whose name ends in `.RW2` or `.nef` after at least one character |
| Archive.PathWithSuffix | photo_workflow/archive.py:16 | `with_suffix` changes only the last component |
| Archive.TasksExactly | photo_workflow/archive.py:13-23 | every task is a due raw file of the listing with its JPEG, and every due raw file of the listing gives a task |
| Archive.GlobBelow | photo_workflow/archive.py:13 | every globbed path lies strictly below the input directory |
| Archive.TasksOfSnoc | photo_workflow/archive.py:13-23 | one more listed path adds its task, if any, at the end |
| Archive.TaskFor | photo_workflow/archive.py:14-23 | a task exactly when the file is raw and its JPEG is missing or older than the sidecar or the raw file |
| Archive.CollectTasks | photo_workflow/archive.py:13-23 | the loop yields the conversion tasks of the listing, in order |
| Archive.GenerateTasks | photo_workflow/archive.py:11-23 | the listing is the glob's result once each, and the conversion tasks are those of that listing |
| Glob.LiteralMatches | photo_workflow/archive.py:13 | a component without `*` matches only itself |
| Glob.StarMatchesAll | photo_workflow/backup.py:12 | `*` matches every name |
| Glob.PrefixStar | photo_workflow/archive.py:13 | `prefix*` matches exactly the names that start with the prefix |
| Glob.StarSuffix | photo_workflow/create.py:16 | `*suffix` matches exactly the names that end with the suffix |
| Glob.Listing | photo_workflow/archive.py:13 | each entry of the set is handed out once, nothing else |
| Create.ImageTags | photo_workflow/create.py:8-14 | the `IndexError` exactly when the output has no colon; otherwise one tag per comma of the second segment plus one, each stripped |
| Create.ParseTags | photo_workflow/create.py:10-14 | the loop of stripped pieces gives `ImageTags` |
| Create.GetImageTags | photo_workflow/create.py:8-14 | exiftool is started once on the image and its output parsed |
| Create.StripEach | photo_workflow/create.py:12-13 | one stripped piece per piece, in order |
| Create.SplitAtColon | photo_workflow/create.py:10 | a text with one colon splits into what precedes and what follows it |
| Create.TagsAfterColon | photo_workflow/create.py:10-13 | the tags of such a text are the stripped comma pieces of what follows the colon |
| Create.SpacedTags | photo_workflow/create.py:12-13 | stripped comma pieces of a padded `, `-joined list give back the list |
| Create.TagsRoundTrip | photo_workflow/create.py:8-14 | reading what exiftool prints for a subject list gives back the list, in order |
| Create.MarkerIsNoPanoTag | photo_workflow/create.py:17 | `panorama` never names a project folder |
| Create.FirstPanoTag | photo_workflow/create.py:21-26 | the first tag matching `p[0-9]{8}`, or none exactly when no tag matches |
| Create.FindPanoTag | photo_workflow/create.py:21-26 | the `for`/`else` search yields `FirstPanoTag` |
| Create.Selection | photo_workflow/create.py:19-26 | an error exactly when the tags cannot be read; a project exactly when `panorama` and a project tag are both present; the project is the first project tag |
| Create.Sort | photo_workflow/create.py:19-31 | one file's pass changes no other existing entry |
| Create.SortEffect | photo_workflow/create.py:19-31 | errors and untagged files change nothing; a tagged file moves into a fresh place in its folder, or raises and stays when that place is taken |
| Create.SortAll | photo_workflow/create.py:18-31 | entries not in the listing are unchanged |
| Create.UnsortedStay | photo_workflow/create.py:18-31 | a file without a project stays unchanged |
| Create.UnsortedStays | photo_workflow/create.py:18-31 | the same, for one entry |
| Create.SortedArrive | photo_workflow/create.py:18-29 | after a pass without exception, every file with a project sits in its folder as the moved entry, with its mtime |
| Create.SortedArrives | photo_workflow/create.py:18-29 | the same, for one file of the listing |
| Create.SortAllSnoc | photo_workflow/create.py:18-31 | after a pass without exception, one more file is sorted on the tree left by the earlier ones |
| Create.SortStep | photo_workflow/create.py:19-31 | the loop body on the machine does what `Sort` states and runs exiftool once |
| Create.SortEach | photo_workflow/create.py:18-31 | the loop stops at the first exception and does what `SortAll` states for the files visited |
| Create.CreateFolder | photo_workflow/create.py:16-31 | the glob's entries are visited once each, in the listed order, until an exception; tree and outcome are those of `SortAll` on the visited ones, with one exiftool run each |
| GetGpx.BeforeIsDayOrder | photo_workflow/getgpx.py:31 | comparing dates is comparing their day numbers |
| GetGpx.DayStampFields | photo_workflow/getgpx.py:21 | the `%Y-%m-%d` stamp reads back as the year, two month digits and two day digits |
| GetGpx.TargetDir | photo_workflow/getgpx.py:21-23 | `outdir/YYYY/YYYY-MM-DD` with the date directory, `outdir` itself otherwise |
| GetGpx.RangeIgnoresDate | photo_workflow/getgpx.py:30-32 | with a start date, the given date plays no part |
| GetGpx.RangeBounds | photo_workflow/getgpx.py:30-32 | the range filter keeps a date exactly when it is between start and end, both included |
| GetGpx.VisitEffect | photo_workflow/getgpx.py:25-43 | one listed name keeps every entry, downloads a selected file when its copy is missing, and otherwise changes nothing |
| GetGpx.VisitKeeps | photo_workflow/getgpx.py:37-43 | an existing entry is kept by one listed name |
| GetGpx.VisitAdds | photo_workflow/getgpx.py:37-43 | what one listed name adds is the directory or the selected copy |
| GetGpx.NeverOverwrites | photo_workflow/getgpx.py:37-43 | existing files are never replaced |
| GetGpx.SelectedPresent | photo_workflow/getgpx.py:24-43 | afterwards every selected file has its copy |
| GetGpx.OnlySelectedArrive | photo_workflow/getgpx.py:24-43 | everything new is the target directory or a selected file's download |
| GetGpx.OnlySelectedArrives | photo_workflow/getgpx.py:24-43 | the same, for one new entry |
| GetGpx.NothingMissingNothingChanges | photo_workflow/getgpx.py:37-41 | with every selected copy present nothing changes, not even the directory |
| GetGpx.FetchOne | photo_workflow/getgpx.py:25-43 | the loop body on the machine does what `Visit` states |
| GetGpx.DownloadGpx | photo_workflow/getgpx.py:20-43 | `download_gpx` on the machine does what `Download` states for the target directory |
| Backup.MirrorAsWritten | photo_workflow/backup.py:13-22 | one entry as the code has it: no entry is removed, a failure changes nothing, and it differs from the corrected rule `Mirror` exactly for a directory newer than its existing copy, where it raises `IsADirectoryError` |
| Backup.Mirror | photo_workflow/backup.py:13-22 | the corrected rule, directories only ever created: no entry is removed |
| Backup.NewerDirectoryStops | photo_workflow/backup.py:16-22 | a directory newer than its copy makes the code as written raise, while the corrected rule passes |
| Backup.NewerDirectoryExample | photo_workflow/backup.py:16-22 | a concrete project directory newer than its backup shows the difference |
| Backup.DirectoriesPass | photo_workflow/backup.py:16-18 | under the corrected rule a directory always passes and its copy exists |
| Backup.MirrorEffect | photo_workflow/backup.py:13-22 | for the corrected rule, which the code as written follows except where it raises without changing anything: skipped `.tif` files change nothing; only the copy of the entry is written; what appears is a directory on the way or a copy with the source's mtime; a failure changes nothing |
| Backup.MirrorAll | photo_workflow/backup.py:11-22 | the loop as written, ending at the first exception (including a newer directory's `IsADirectoryError`), removes no entry |
| Backup.MirrorScope | photo_workflow/backup.py:11-22 | nothing outside `outdir/panoramas` changes; above it only missing directories appear |
| Backup.NoTifWritten | photo_workflow/backup.py:13-14 | without `include_tif`, no `.tif` file is written |
| Backup.MirrorAllSnoc | photo_workflow/backup.py:11-22 | one more entry is mirrored, as written, on the tree left by the earlier ones |
| Backup.FailureStops | photo_workflow/backup.py:11-22 | after an exception no further entry is visited |
| Backup.MirrorOne | photo_workflow/backup.py:13-22 | one entry on the machine does what `MirrorAsWritten` states, a newer directory raising |
| Backup.MirrorNext | photo_workflow/backup.py:12-22 | the next entry of the loop extends the fold by one |
| Backup.MirrorEach | photo_workflow/backup.py:12-22 | the loop on the machine does what `MirrorAll` states, stopping at the first exception |
| Backup.CopyProjects | photo_workflow/backup.py:10-22 | the entries below `indir/panoramas` are visited once each and mirrored as written |
| Backup.BackupMain | photo_workflow/backup.py:35-41 | a missing directory is a usage error before anything changes; otherwise tempdir to project with `.tif`, then, unless the first pass raised, project to backup without them |
| Backup.TwoPassScope | photo_workflow/backup.py:40-41 | after both passes nothing outside the two `panoramas` trees changes, and the second pass writes no `.tif` |
| Files.Mkdirs | photo_workflow/krpano.py:170-171 | every directory on the way is present afterwards; existing entries are unchanged; only new directories appear |
| Files.MkdirsExisting | photo_workflow/krpano.py:170-171 | creating directories that exist changes nothing |
| Files.EnsureDir | photo_workflow/krpano.py:170-171 | the directory is present afterwards; nothing existing changes |
| Files.EnsureDirExisting | photo_workflow/krpano.py:170-171 | an existing directory is left as it is |
| Files.Host.MakeDirs | photo_workflow/krpano.py:171 | `mkdir(parents=True)` on the machine |
| Files.Host.Copy | photo_workflow/krpano.py:181 | `shutil.copy` gives the target the content and the current times |
| Files.Host.Copy2 | photo_workflow/backup.py:22 | `shutil.copy2` also keeps the source's mtime |
| Files.Host.Rename | photo_workflow/create.py:29 | `shutil.move` relocates the entry, keeping its mtime |
| Files.Host.Unlink | photo_workflow/krpano.py:197 | the entry is removed |
| Files.Host.Write | photo_workflow/krpano.py:254 | the whole file is replaced |
| Files.Host.AppendText | photo_workflow/krpano.py:157-162 | one more write appends to the text written so far |
| Files.Host.Spawn | photo_workflow/krpano.py:57 | one more child process is recorded, and the tree is unchanged |
| Paths.Div | photo_workflow/krpano.py:97 | joining a relative path extends the left one |
| Paths.UnderIsDiv | photo_workflow/krpano.py:167 | joining a name is pathlib's `/` on `Path(name)` |
| Paths.BaseNameUnder | photo_workflow/krpano.py:167 | the last component of `dir/Path(s + ext)` is the text after the last slash of `s`, followed by `ext` |
| Paths.ComponentsSnoc | photo_workflow/krpano.py:167 | a last component `Path` keeps is appended unchanged |
| Paths.Parent | photo_workflow/krpano.py:90 | the parent is a prefix of the path |
| Paths.RFind | photo_workflow/archive.py:14 | the last position of the character, or -1 when it is absent |
| Paths.SuffixIs | photo_workflow/archive.py:14 | a name has an extension exactly when it ends with it after at least one other character |
| Paths.WithSuffixReplaces | photo_workflow/archive.py:16 | replacing an extension keeps everything before it |
| Text.Split | photo_workflow/create.py:10 | one more piece than separators, none holding the separator |
| Text.SplitAppend | photo_workflow/krpano.py:167 | appending text without a separator extends only the last piece |
| Text.SplitAround | photo_workflow/create.py:12 | splitting at a separator splits both sides independently |
| Text.SplitJoin | photo_workflow/krpano.py:60 | splitting undoes joining of parts without the separator |
| Text.JoinSplit | photo_workflow/krpano.py:60 | joining undoes splitting |
| Text.JoinAvoids | photo_workflow/krpano.py:63 | a character absent from the parts and the separator is absent from the join |
| Text.JoinEmpty | photo_workflow/krpano.py:63 | a join of non-empty parts is empty only for no parts |
| Text.Strip | photo_workflow/create.py:13 | the stripped text neither starts nor ends with whitespace, and is empty exactly for all-whitespace input |
| Text.StripPadded | photo_workflow/create.py:13 | stripping removes whitespace padding and nothing of a stripped text |
| Text.DecimalRoundTrip | photo_workflow/archive.py:74 | `str(n)` reads back as `n` |
| Text.DecimalInjective | photo_workflow/krpano.py:158 | different numbers are written differently |
| Text.Pad2 | photo_workflow/archive.py:61 | `{:02d}` of a number below 100 is two digits reading back as the number |

## Left out

- The `main()` functions are not modelled: argument parsing, logging setup, configuration and YAML loading. The exceptions are the pattern block of `archive.py` (`Archive.Pattern`) and the directory check and two passes of `backup.py` (`Backup.BackupMain`).
- The HTML page template and its rendering, and the empty `KRPano.html`: these are library templating.
- What `makepano`, `protect`, exiftool and darktable-cli do. Their answers are parameters, and `create_jpg` is not modelled.
- `pkg_resources` and the bytes of the bundled files: a bundled file is modelled by its name.
- XML parsing and serialisation. The document `makepano` writes is a parameter, and the written document is the element tree itself.
- Descriptor values that are not strings in YAML. The model holds `str()` of each value.
- Hotspot entries lacking `ath`, `atv` or `description`, which raise a `KeyError` halfway through writing the overlay.
- Descriptions are substituted unescaped, as in the code. The model does not judge whether the viewer accepts every character.
- The outputs a failing `makepano` may leave behind; the tree is unchanged apart from the removed stale document.
- `KRPanoBase.run` decodes bytes as UTF-8; the model works on characters.
- `..` components and symbolic links in paths.
- fnmatch's `?` and `[...]` wildcards. None of the patterns the scripts use contains them.
- exiftool's exit status (`check_output` raising) and an empty glob pattern.
- `shutil.move` of a directory does not carry the directory's contents along: the scripts only move files.
- `mkdir` onto an existing non-directory.
- `SameFileError` from copying a file onto itself.
- A copy into a directory that does not exist.
- A directory's mtime changing when entries are added to it.
- The keyring, password prompt and WebDAV connection. The listing is a parameter and a downloaded file is modelled by its name.
- `strptime` is a parameter (`parse`), since its `%a` field depends on the locale.
- `%Y` for years below 1000, where the C library writes no padding and the model follows it.
- The laziness of the globs: each listing is a snapshot of the tree when the loop starts.
- One `now` per call: every timestamp a call writes is the same.
- Logging, and the timing and concurrency of the real scripts.
- The ElementTree edits and the file staging interleave in the code; they touch disjoint state and the model performs them in the same order.
- `scale.py`, `config.py` and `setup.py` are not part of this model.
- Build.RunTwice: it assumes that the lookup of the input gives the same path after the first run. That path could differ only when the first run creates a file at the literal input path.

## Findings

| source | as written | input that shows it | evidently intended | confidence | as-written member | corrected member |
|---|---|---|---|---|---|---|
| photo_workflow/backup.py:16-22 | a directory whose copy exists but is older reaches `shutil.copy2`, which raises `IsADirectoryError` and ends the backup | `Backup.NewerDirectoryExample`: `/tmp/panoramas/p2024` (mtime 50) with an existing `/bak/panoramas/p2024` (mtime 10) | existing directories are left alone; directories are only ever created | not executed | Backup.MirrorAsWritten, Backup.NewerDirectoryStops | Backup.Mirror, Backup.DirectoriesPass |

The loop `Backup.MirrorAll` and the methods on the machine (`Backup.MirrorOne` and the methods built on it) follow the code as written, so a newer directory ends the backup there. `Backup.Mirror` is the corrected rule. The contract of `Backup.MirrorAsWritten` says exactly when the two differ, and `Backup.DirectoriesPass` proves that the corrected rule never raises for a directory.
