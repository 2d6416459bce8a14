# vpaw: a verified model of its data-handling core

vpaw adds scripted modules to 3D Slicer for pediatric airway work. This project models
the parts of two of those modules that are more than host glue, and proves what they
promise.

- **VPAWVisualize** discovers a subject's files under a data directory and loads them
  into the scene:
  - `find_files_with_prefix` walks a directory tree and keeps the files whose basename
    starts with the subject prefix. With `include_subjectless`, it also keeps files whose
    path names a shared resource.
  - `find_and_sort_files_with_prefix` checks its arguments. It then orders the
    discovered files by modification time with a stable sort and drops the times.
  - `loadOneNode` picks a loader from an ordered table of file suffixes and parent
    directories. It keeps the image volumes on a show list, and `arrangeView` puts the
    first of them in the slice viewers' foreground.
  - `loadOneNodeToSubjectHierarchy` and `loadNodesToSubjectHierarchy` place the loaded
    nodes under one subject item.
  - `summary_repr` prints unpickled `.p3` contents like Python's `repr`, except that
    arrays are summarised by their shape and unknown objects by their type.
  - `setDefaultParameters` fills in default parameters.
- **VPAWModelOCT** does two things:
  - It keeps two paths of its form in the persistent settings store. A flag stops the
    form and the store from updating each other in a loop.
  - It links the OCTSeg code base and runs its segmentation pipeline.

Modules:

- `Results` (results.dfy): `Option` and `Result`.
- `Text` (text.dfy): `str.startswith`/`endswith`, `in` on strings, `join`, and the last
  index of a character.
- `PosixPath` (posix_path.dfy): `os.path.join`, `basename` and `dirname`, and the stem
  of a `pathlib` component.
- `FileDiscovery` (file_discovery.dfy): the file system as a tree of `Dir`/`File`
  entries with natural-number modification times. It holds the walk, the stable sort (a
  specification function plus an in-place insertion sort on an array) and the entry
  point with its argument errors.
- `SummaryRepr` (summary_repr.dfy): Python values as a datatype, `repr` of integers and
  strings with their read-back parsers, `summary_repr`, and `repr` of built-in values.
- `NodeLoading` (node_loading.dfy) holds:
  - the decision table;
  - the lines printed for files that make no node;
  - the `VisualizeLogic` class, whose fields are the show list, the subject items, the
    node items under them and the foreground volume;
  - the `ParameterNode` class.
- `ModelOCT` (model_oct.dfy) holds:
  - the settings store (a `Settings` class over a map);
  - the `ModelOCTWidget` class, with its two path fields and the
    `_updatingGUIFromQSettings` flag;
  - the `ModelOCTLogic` class, with the recorded OCTSeg directory, the module search
    path, the working directory and a log of pipeline starts.

External outcomes are parameters:

- the file system is a map from paths to entries, and the file contents are a function
  from path to value;
- dependency installation, the OCTSeg imports and the pipeline's exception are
  booleans.

The source's console output is modelled as the list of lines `loadOneNode` prints.

Behaviour of the code that a reader of its documentation might not expect, kept as written:

- `summary_repr` writes an empty set as `{}`, which is the text of an empty dict, while
  `repr` writes `set()`. It also gives `None` by its type, because `None` is not among
  the kinds it passes to `repr`. The model keeps both (`SummaryRepr.EmptySetLooksLikeEmptyDict`,
  `SummaryRepr.NoneIsSummarisedByType`).
- `ensureModulePath` records the directory before it tries the imports. A link that
  fails at the imports therefore still counts as linked the next time `runOCTSeg`
  runs (`ModelOCT.FailedImportStillRecords`).

## Model

| member | source | states |
|---|---|---|
| FileDiscovery.FindIsFilteredListing | Modules/Scripted/VPAWVisualize/VPAWVisualize.py:441-467 | the walk equals the flat listing of every file under the path, in traversal order, filtered by the prefix/subjectless test: a directory contributes the concatenation of its entries' results, and a file contributes itself exactly when it passes |
| FileDiscovery.Find | Modules/Scripted/VPAWVisualize/VPAWVisualize.py:441-466 | every record the walk reports passes the prefix/subjectless test, and a file yields at most one record |
| FileDiscovery.FindIn | Modules/Scripted/VPAWVisualize/VPAWVisualize.py:441-450 | every record reported for the entries of a directory passes the test |
| FileDiscovery.Keep | Modules/Scripted/VPAWVisualize/VPAWVisualize.py:454-466 | the test a file must pass; the empty prefix passes every path |
| FileDiscovery.FindInIsFilteredListing | Modules/Scripted/VPAWVisualize/VPAWVisualize.py:441-450 | the same for the entries of one directory, concatenated in listing order |
| FileDiscovery.FindMembers | Modules/Scripted/VPAWVisualize/VPAWVisualize.py:441-466 | a record is reported if and only if it is a file of the tree whose path passes the test: nothing matching is lost and nothing else appears |
| FileDiscovery.ChildFileByName | Modules/Scripted/VPAWVisualize/VPAWVisualize.py:451-466 | a file joined under a directory is reported, as the single record of its joined path and mtime, exactly when its own name starts with the prefix |
| FileDiscovery.EmptyPrefixFindsAll | Modules/Scripted/VPAWVisualize/VPAWVisualize.py:424-427 | the empty prefix reports every file of the tree |
| FileDiscovery.AllFilesCount | Modules/Scripted/VPAWVisualize/VPAWVisualize.py:441-450 | the listing holds exactly one record per file: directories never appear |
| FileDiscovery.FilterMembers | Modules/Scripted/VPAWVisualize/VPAWVisualize.py:454-466 | filtering keeps exactly the records whose path passes the test |
| FileDiscovery.FilterAppend | Modules/Scripted/VPAWVisualize/VPAWVisualize.py:444-450 | filtering a concatenation is concatenating the filtered parts |
| FileDiscovery.SortByMtimeSortedPermutation | Modules/Scripted/VPAWVisualize/VPAWVisualize.py:509 | `SortByMtime`, the model of `list.sort` by mtime, is non-decreasing in mtime and a permutation of its input |
| FileDiscovery.SortByMtimeStable | Modules/Scripted/VPAWVisualize/VPAWVisualize.py:509 | `SortByMtime` keeps records with equal mtime in their traversal order, as a stable sort does |
| FileDiscovery.InsertSorted | Modules/Scripted/VPAWVisualize/VPAWVisualize.py:509 | `Insert`, one step of the stable sort, keeps a sorted sequence sorted, one longer, with a last record no older than the inserted one |
| FileDiscovery.InsertPermutation | Modules/Scripted/VPAWVisualize/VPAWVisualize.py:509 | insertion adds exactly the new record: the multiset grows by it and nothing else |
| FileDiscovery.ProjectPaths | Modules/Scripted/VPAWVisualize/VPAWVisualize.py:511 | the projected list holds each record's path, in the records' order |
| FileDiscovery.InsertStable | Modules/Scripted/VPAWVisualize/VPAWVisualize.py:509 | insertion puts the new record after every record with the same mtime |
| FileDiscovery.PathsPermutation | Modules/Scripted/VPAWVisualize/VPAWVisualize.py:509-511 | the projected output lists the same paths as the discovered records, each as often |
| FileDiscovery.InsertInPlace | Modules/Scripted/VPAWVisualize/VPAWVisualize.py:509 | one insertion pass on the array leaves its prefix equal to the specification's insertion and the rest untouched |
| FileDiscovery.SortInPlace | Modules/Scripted/VPAWVisualize/VPAWVisualize.py:509 | the in-place sort leaves the array equal to the stable ordering of its old contents |
| FileDiscovery.FindAndSortFilesWithPrefix | Modules/Scripted/VPAWVisualize/VPAWVisualize.py:489-516 | a root that is not a string naming a directory fails as an invalid data directory; otherwise a prefix that is neither None nor a string fails as an invalid prefix; otherwise the result is the discovered paths stably ordered by mtime, with None read as "" |
| FileDiscovery.SortedPathsCorrect | Modules/Scripted/VPAWVisualize/VPAWVisualize.py:505-511 | the result of a successful discovery is non-decreasing in mtime, a permutation of the discovered paths, and stable on ties |
| FileDiscovery.BelowDisjoint | Modules/Scripted/VPAWVisualize/VPAWVisualize.py:441-450 | the walk joins each entry's name to its directory's path, so below one directory two differently named entries have no path in common |
| FileDiscovery.AllFilesBelow | Modules/Scripted/VPAWVisualize/VPAWVisualize.py:441-450 | every file the walk lists from a directory lies at that directory's path or inside it |
| FileDiscovery.AllFilesDistinct | Modules/Scripted/VPAWVisualize/VPAWVisualize.py:441-450 | in a tree a file system can hold (single-component names, distinct within a directory) the walk lists no path twice |
| FileDiscovery.FilterDistinct | Modules/Scripted/VPAWVisualize/VPAWVisualize.py:454-466 | the prefix/subjectless filter keeps paths distinct |
| FileDiscovery.NoDuplicatesPermutation | Modules/Scripted/VPAWVisualize/VPAWVisualize.py:505-511 | reordering, as the sort does, keeps a list without duplicates free of them |
| FileDiscovery.SortedPathsDistinct | Modules/Scripted/VPAWVisualize/VPAWVisualize.py:441-511 | in such a tree the sorted result of discovery reports every path at most once |
| FileDiscovery.NonePrefixListsEverything | Modules/Scripted/VPAWVisualize/VPAWVisualize.py:496-498 | a None prefix lists every file of the tree, ordered by mtime |
| FileDiscovery.ThreeFileScenario | Modules/Scripted/VPAWVisualize/VPAWVisualize.py:469-516 | two subject files in two directories and a file of another subject come out as the two subject files, oldest first |
| PosixPath.Join | Modules/Scripted/VPAWVisualize/VPAWVisualize.py:448 | `os.path.join` ends with its second argument |
| PosixPath.BasenameSpec | Modules/Scripted/VPAWVisualize/VPAWVisualize.py:457 | `Basename` (`os.path.basename`) holds no separator, ends the path, and follows a separator unless it is the whole path |
| PosixPath.BasenameOfJoin | Modules/Scripted/VPAWVisualize/VPAWVisualize.py:446-457 | the basename of a directory joined with an entry name is that name |
| PosixPath.RStripSlashesSpec | Modules/Scripted/VPAWVisualize/VPAWVisualize.py:596 | stripping removes exactly the trailing separators |
| PosixPath.DirnameSpec | Modules/Scripted/VPAWVisualize/VPAWVisualize.py:596 | `Dirname` (`os.path.dirname`) is a prefix of the path that only separators divide from the basename, and it is empty for a path without a separator |
| PosixPath.DirnameOfChild | Modules/Scripted/VPAWVisualize/VPAWVisualize.py:596 | the directory part of `x/name` is `x` |
| PosixPath.ParentNameOfJoin | Modules/Scripted/VPAWVisualize/VPAWVisualize.py:596 | a file joined under a directory joined under any root has that directory as its parent name |
| PosixPath.StemSpec | Modules/Scripted/VPAWVisualize/VPAWVisualize.py:539 | `Stem` (the `pathlib` stem) is a prefix of the name, and a name without a dot is its own stem |
| SummaryRepr.NatRepr | Modules/Scripted/VPAWVisualize/VPAWVisualize.py:46-47 | the decimal text of a natural number is non-empty, all digits, with no leading zero |
| SummaryRepr.IntReprRoundTrip | Modules/Scripted/VPAWVisualize/VPAWVisualize.py:46-47 | `IntRepr` (`repr` of an int) reads back as that int |
| SummaryRepr.IntReprInjective | Modules/Scripted/VPAWVisualize/VPAWVisualize.py:46-47 | distinct ints have distinct texts |
| SummaryRepr.ParseNatRepr | Modules/Scripted/VPAWVisualize/VPAWVisualize.py:46-47 | the digits of a natural number read back as that number |
| SummaryRepr.QuoteFor | Modules/Scripted/VPAWVisualize/VPAWVisualize.py:46-47 | the quote `repr` of a str chooses is `'` or `"`, and it occurs in the text only when both quote characters do, so the quote needs escaping only then |
| SummaryRepr.EscapeCharDecodes | Modules/Scripted/VPAWVisualize/VPAWVisualize.py:46-47 | one escaped character reads back as itself and never begins with the quote |
| SummaryRepr.StrReprRoundTrip | Modules/Scripted/VPAWVisualize/VPAWVisualize.py:46-47 | `StrRepr` (`repr` of a str) reads back as that str, whatever text follows |
| SummaryRepr.StrReprInjective | Modules/Scripted/VPAWVisualize/VPAWVisualize.py:46-47 | distinct strs have distinct texts |
| SummaryRepr.PlainStrRepr | Modules/Scripted/VPAWVisualize/VPAWVisualize.py:46-47 | a str of plain characters appears unchanged between single quotes |
| SummaryRepr.SummaryIsRepr | Modules/Scripted/VPAWVisualize/VPAWVisualize.py:12-51 | on lists, tuples, dicts, sets and scalars (no None, no empty set, no array, no other object) `Summary` is exactly `Repr`, the independent model of `repr` |
| SummaryRepr.ReprLikeIsBuiltin | Modules/Scripted/VPAWVisualize/VPAWVisualize.py:26-47 | every value of those kinds is one `repr` is modelled for |
| SummaryRepr.EmptySetLooksLikeEmptyDict | Modules/Scripted/VPAWVisualize/VPAWVisualize.py:33-45 | an empty set is summarised as `{}`, like an empty dict, whereas `repr` writes `set()` |
| SummaryRepr.NoneIsSummarisedByType | Modules/Scripted/VPAWVisualize/VPAWVisualize.py:46-51 | None is summarised as `<class 'NoneType'>`, not as `None` |
| SummaryRepr.NdArraySummary | Modules/Scripted/VPAWVisualize/VPAWVisualize.py:48-49 | an array is summarised by its type, ".shape=" and the summary of its shape tuple |
| SummaryRepr.SingletonTuple | Modules/Scripted/VPAWVisualize/VPAWVisualize.py:28-30 | a one-element tuple is written with its trailing comma |
| NodeLoading.SegNrrdFirst | Modules/Scripted/VPAWVisualize/VPAWVisualize.py:592-595 | a ".seg.nrrd" name also ends in ".nrrd", and it goes to the segmentation loader whatever its directory |
| NodeLoading.SuffixesExclusive | Modules/Scripted/VPAWVisualize/VPAWVisualize.py:595-621 | a name has at most one of ".nrrd", ".fcsv", ".mha", ".png", ".p3" and ".xls", so the order of those rules does not matter |
| NodeLoading.DecisionTable | Modules/Scripted/VPAWVisualize/VPAWVisualize.py:589-621 | each outcome of `Decide` (the table of `loadOneNode` and `loadFromP3File`) holds if and only if its suffix and directory condition holds: shown volume, segmentation, hidden volume, locked markups, centerline and each kind of no-node |
| NodeLoading.ShownExactlyForImages | Modules/Scripted/VPAWVisualize/VPAWVisualize.py:595-599 | `Dispatch` loads a file as a volume for the show list if and only if it is a plain ".nrrd" directly under "images" |
| NodeLoading.SegmentationExactly | Modules/Scripted/VPAWVisualize/VPAWVisualize.py:592-602 | a file is loaded as a segmentation if and only if it is ".seg.nrrd" or a plain ".nrrd" under "segmentations_computed" |
| NodeLoading.HiddenVolumeExactly | Modules/Scripted/VPAWVisualize/VPAWVisualize.py:595-613 | a volume kept off the show list comes from a plain ".nrrd" under any other directory, or from ".mha" or ".png" |
| NodeLoading.MarkupsExactly | Modules/Scripted/VPAWVisualize/VPAWVisualize.py:606-609 | ".fcsv" files, and only they, become locked markups |
| NodeLoading.CenterlineExactly | Modules/Scripted/VPAWVisualize/VPAWVisualize.py:539-540 | a ".p3" file makes a centerline if and only if its parent directory's stem is "centerline" |
| NodeLoading.NoNodeExactly | Modules/Scripted/VPAWVisualize/VPAWVisualize.py:614-621 | no node is made exactly for ".p3" files outside a centerline directory, ".xls" files and unknown suffixes, and then no node exists |
| NodeLoading.ImagesNrrdShown | Modules/Scripted/VPAWVisualize/VPAWVisualize.py:595-599 | a plain ".nrrd" name joined under a directory called "images" is shown |
| NodeLoading.Collect | Modules/Scripted/VPAWVisualize/VPAWVisualize.py:692-693 | loading files yields at most one node per file |
| NodeLoading.CollectMembers | Modules/Scripted/VPAWVisualize/VPAWVisualize.py:659-660 | a node is loaded if and only if some file makes it: a file making none is skipped |
| NodeLoading.CollectFirst | Modules/Scripted/VPAWVisualize/VPAWVisualize.py:692-693 | the first loaded node is the node of the first file that makes one |
| NodeLoading.CollectNone | Modules/Scripted/VPAWVisualize/VPAWVisualize.py:659-660 | files that make no node load nothing |
| NodeLoading.ShownNodesMembers | Modules/Scripted/VPAWVisualize/VPAWVisualize.py:597-599 | the show list holds exactly the volumes of the image files, and only showable volumes |
| NodeLoading.FirstShown | Modules/Scripted/VPAWVisualize/VPAWVisualize.py:726-727 | the first entry of the show list is the volume of the first image file |
| NodeLoading.FirstShownNode | Modules/Scripted/VPAWVisualize/VPAWVisualize.py:720-728 | the volume `arrangeView` brings to the foreground is absent exactly when no file is an image, and otherwise is the unlocked volume of one of the image files |
| NodeLoading.OldestImageInForeground | Modules/Scripted/VPAWVisualize/VPAWVisualize.py:357-379 | after a successful discovery, the first image file of the mtime-sorted records is the volume `arrangeView` puts in the foreground, and no discovered image file has an older mtime |
| NodeLoading.UnderAppend | Modules/Scripted/VPAWVisualize/VPAWVisualize.py:692-693 | placing two lists of nodes under the subject item is placing each in turn |
| NodeLoading.ParameterNode.GetParameter | Modules/Scripted/VPAWVisualize/VPAWVisualize.py:409-412 | a parameter reads as "" (false for `not`) exactly when it is unset or set to ""; otherwise it reads as its stored value |
| NodeLoading.WithDefaults | Modules/Scripted/VPAWVisualize/VPAWVisualize.py:404-412 | after setting the defaults, an unset or empty "Threshold" is "100.0" and an unset or empty "Invert" is "false"; both are non-empty, every non-empty parameter is kept, and every other key keeps its presence and its value |
| NodeLoading.WithDefaultsIdempotent | Modules/Scripted/VPAWVisualize/VPAWVisualize.py:404-412 | setting the defaults twice is setting them once |
| NodeLoading.VisualizeLogic.SetDefaultParameters | Modules/Scripted/VPAWVisualize/VPAWVisualize.py:404-412 | the parameter node ends up with the defaults applied to its old parameters |
| NodeLoading.VisualizeLogic.ClearSubjectHierarchy | Modules/Scripted/VPAWVisualize/VPAWVisualize.py:624-630 | every item is removed with its data node, so nothing is left in the foreground, and the show list is empty |
| NodeLoading.VisualizeLogic.LoadOneNode | Modules/Scripted/VPAWVisualize/VPAWVisualize.py:570-622 | the node is the one the table gives; the lines printed are those for a file that makes no node (the basename's `repr`, or for ".p3" the name and the summary of its contents); an image volume is appended to the show list and nothing else changes |
| NodeLoading.VisualizeLogic.LoadOneNodeToSubjectHierarchy | Modules/Scripted/VPAWVisualize/VPAWVisualize.py:632-663 | a file that makes no node leaves the hierarchy alone; otherwise its node is placed under the subject item |
| NodeLoading.VisualizeLogic.LoadNodesToSubjectHierarchy | Modules/Scripted/VPAWVisualize/VPAWVisualize.py:665-718 | one new subject item; the nodes of the files under it, in list order; the show list extended by the files' image volumes; the printed lines of all files in order |
| NodeLoading.VisualizeLogic.ArrangeView | Modules/Scripted/VPAWVisualize/VPAWVisualize.py:720-728 | the first volume of the show list, if any, goes to the foreground, which therefore only ever holds an unlocked volume of an image file; the show list is emptied either way |
| NodeLoading.VisualizeLogic.ShowPatientData | Modules/Scripted/VPAWVisualize/VPAWVisualize.py:357-379 | a failed discovery changes nothing; otherwise the hierarchy holds one subject item named after the prefix ("All" for ""), the nodes of the discovered files under it, an empty show list, and in the foreground the volume of the first image file, or nothing when no discovered file is an image |
| ModelOCT.Removed | Modules/Scripted/VPAWModelOCT/VPAWModelOCT.py:281-282 | after `remove(key)` the key and each of its sub-keys read back as "", no key is added, and every other key keeps its presence and reads as before |
| ModelOCT.SetOrRemoveReadBack | Modules/Scripted/VPAWModelOCT/VPAWModelOCT.py:276-282 | after `SetOrRemove`, a value other than None and "" is read back as written; None and "" leave no key, which reads back as "" |
| ModelOCT.SetOrRemoveFrame | Modules/Scripted/VPAWModelOCT/VPAWModelOCT.py:276-282 | every key outside the written key's subtree keeps its presence and value |
| ModelOCT.SetOrRemoveIdempotent | Modules/Scripted/VPAWModelOCT/VPAWModelOCT.py:276-282 | repeating the call changes nothing more |
| ModelOCT.SetOrRemoveKeepsNoEmpty | Modules/Scripted/VPAWModelOCT/VPAWModelOCT.py:276-282 | a store without empty values never gets one |
| ModelOCT.StoredReadsBack | Modules/Scripted/VPAWModelOCT/VPAWModelOCT.py:222-223 | what the form held when `Stored` saved it is what the store gives back, "" included, and every other key is left alone |
| ModelOCT.StoredIdempotent | Modules/Scripted/VPAWModelOCT/VPAWModelOCT.py:295-302 | storing an unchanged form again changes nothing |
| ModelOCT.ModelOCTWidget.SetOrRemoveQSetting | Modules/Scripted/VPAWModelOCT/VPAWModelOCT.py:276-282 | the store becomes the set-or-remove of its old contents |
| ModelOCT.Settings.SetValue | Modules/Scripted/VPAWModelOCT/VPAWModelOCT.py:279-280 | `setValue(key, value)` maps the key to the value and changes no other key |
| ModelOCT.Settings.Remove | Modules/Scripted/VPAWModelOCT/VPAWModelOCT.py:281-282 | `remove(key)` leaves the store as `Removed` gives it: the key and its sub-keys gone, the rest untouched |
| ModelOCT.ModelOCTWidget.UpdateQSettingsFromGUI | Modules/Scripted/VPAWModelOCT/VPAWModelOCT.py:284-309 | while the flag is raised nothing changes; otherwise both paths are stored; the flag is as it was on entry |
| ModelOCT.ModelOCTWidget.SetOctSegDirectoryPath | Modules/Scripted/VPAWModelOCT/VPAWModelOCT.py:153-155 | setting the field runs the store update, which the raised flag suppresses |
| ModelOCT.ModelOCTWidget.SetConfigFilePath | Modules/Scripted/VPAWModelOCT/VPAWModelOCT.py:156-158 | the same for the configuration-file field |
| ModelOCT.ModelOCTWidget.UpdateGUIFromQSettings | Modules/Scripted/VPAWModelOCT/VPAWModelOCT.py:211-231 | both fields hold the stored values ("" for an absent key), the store is unchanged although the fields' signals fired, and the flag is down afterwards |
| ModelOCT.RecordedAfterLink | Modules/Scripted/VPAWModelOCT/VPAWModelOCT.py:562-566 | a directory is recorded after the link exactly when the link would hold had the imports been found (`Linked` with imports found); a newly recorded directory is the chosen one, which exists, with the dependencies ready; a link that holds whatever the imports do (one recorded before) keeps what was recorded |
| ModelOCT.FailedImportStillRecords | Modules/Scripted/VPAWModelOCT/VPAWModelOCT.py:441-472 | a link that fails at the imports returns false yet records the directory, so the next run counts as linked |
| ModelOCT.ModelOCTLogic.EnsureModulePath | Modules/Scripted/VPAWModelOCT/VPAWModelOCT.py:441-472 | the directory is recorded and on the search path (at the front unless already present), and the result is whether the imports succeed |
| ModelOCT.ModelOCTLogic.LinkOCTSeg | Modules/Scripted/VPAWModelOCT/VPAWModelOCT.py:421-439 | success exactly when the dependencies are ready and the imports succeed; the module path is touched only when the dependencies are ready |
| ModelOCT.ModelOCTLogic.RunSegmentation | Modules/Scripted/VPAWModelOCT/VPAWModelOCT.py:588-599 | false exactly when no directory can be entered or the pipeline raises; the pipeline is started only from the recorded directory; the working directory is restored |
| ModelOCT.ModelOCTLogic.RunOCTSeg | Modules/Scripted/VPAWModelOCT/VPAWModelOCT.py:544-586 | without a recorded directory and without a successful link it returns false and starts nothing; otherwise it returns what the segmentation returns; a true result means a recorded or valid given directory, one pipeline start and no exception; the working directory is restored |

## Left out

- GUI wiring, tooltips, button states, parameter-node observers and the Qt application
  bootstrap (Applications/vpawApp) are host framework glue.
- The host loaders, the subject-hierarchy API and the view layout are not modelled,
  except for which volume the slice viewers show in the foreground. Fitting the slices
  and centring the 3D view are left out.
  A node is a value that records its file, its loader and the flags the code sets.
  The subject hierarchy is a list of subject names plus node items with parent indices.
  Removing all items deletes their data nodes, so the foreground volume goes with them.
- NodeLoading.VisualizeLogic.ShowPatientData: every host load and every unpickle is
  assumed to succeed. In the source, three things can raise out of `loadOneNode`: a
  failing host loader, `pickle.load` on a malformed `.p3` file, and the
  `IsTypeOf('vtkMRMLMarkupsNode')` assertion on a loaded `.fcsv`. That exception leaves
  `onShowButton` with the hierarchy cleared and only partly rebuilt, and `arrangeView`
  never runs. The model has no such path.
- Unpickling is not modelled; the contents of each `.p3` file are a parameter.
  `loadCenterlineFromP3FileContents` unpacks the contents into a pair of arrays; the
  model assumes that succeeds.
- Real modification times are not modelled, because `os.path.getmtime` is I/O. Each
  file carries a natural-number mtime.
- The listing order of `os.listdir` is the order of a directory's entries.
- A tree in the model may repeat a name inside one directory or hold a name with a
  separator, which no file system allows; the no-duplicates results
  (`FileDiscovery.SortedPathsDistinct`) assume a well-formed tree (`WellFormed`).
- ModelOCT.ModelOCTWidget.SetOctSegDirectoryPath / SetConfigFilePath: Qt sends
  `currentPathChanged` only when the path changes; the model runs the store update on
  every call, so setting a field to its current value with the flag lowered rewrites the
  store from the unchanged fields.
- Symbolic links are not modelled.
- `list.sort` is Timsort; the model uses an insertion sort. A stable sort by key has
  only one possible result, so the two agree.
- Python's `repr` of floats is not modelled: a float carries its own text.
- SummaryRepr.Summary / Repr: CPython's `repr` raises `RecursionError` on a container
  that holds itself, and `ValueError` on an int of more than 4300 digits. Values in the
  model are finite trees and ints are unbounded, so neither error exists in it.
- In `repr` of a str, characters above U+00FF are taken as printable.
- Set iteration order is the order of the set's sequence in the model.
- Bytes, complex numbers and other built-in types fall under "other objects", summarised
  by their type name.
- `pathlib`'s normalisation of `.` segments and repeated separators is not modelled in
  `Path(filename).parent`, nor in `str(pathlib.Path(directory))` in `ensureModulePath`:
  the directory is recorded as given.
- NodeLoading.VisualizeLogic.constructor: starts with an empty show list. The source
  creates `show_nodes` in `clearSubjectHierarchy`, which every caller runs before any
  load.
- Dependency installation (`installAndImportDependencies`, `showInstalledModules`), the
  OCTSeg imports and `getModelPathFromYAML` are pip, importlib and YAML I/O. The model
  path is not modelled. The other two enter as booleans (`dependenciesReady`,
  `importsFound`).
- ModelOCT.ModelOCTLogic.LinkOCTSeg / RunOCTSeg: only two exceptions become a false
  result. `installAndImportDependencies` catches only `ModuleNotFoundError` around its
  pip installs, and `ensureModulePath` catches only `ImportError`. Any other exception
  propagates out of `linkOCTSeg` and `runOCTSeg`, for example a failed pip run or an
  OCTSeg module that raises something else while it is imported. The booleans stand
  for the caught outcomes only; the propagating exceptions are not modelled.
- RunOCTSeg: after a successful segmentation the source calls `getModelPathFromYAML`,
  which raises on a missing or malformed configuration file. The model returns the
  segmentation's result there instead of raising, because YAML parsing is outside it.
- FindAndSortFilesWithPrefix: an `OSError` from `os.listdir` or `os.path.getmtime`
  (a file removed between the listing and the stat, say) propagates out of the source.
  The model reads the tree as one consistent snapshot and has no such error path.
- The pipeline launch `_executePythonModule` is not modelled; only whether it raises is.
- The pipeline's own changes to the working directory are not modelled; `finally`
  restores it either way.
- Message boxes, logging and timing are left out.
- The recursive visibility pass and the tree-view refresh in `loadNodesToSubjectHierarchy`
  only change how the hierarchy is displayed.
- Modules/Scripted/VPAWModel/VPAWModel.py and
  Modules/Scripted/VPAWVisualize/vpawvisualizelib/isosurfaces.py are not part of this
  model. The first is install and pipeline plumbing; the second wraps a VTK pipeline.
- The `validInputChanged` signals also run `updateQSettingsFromGUI`. They are not
  modelled, because they store the same two paths.
