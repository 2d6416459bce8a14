/**
 * Prefix-filtered recursive file discovery and its ordering by modification time
 * (`VPAWVisualizeLogic.find_files_with_prefix` and `find_and_sort_files_with_prefix`).
 *
 * The file system is an abstract tree: a directory holds its entries in the order
 * `os.listdir` reports them, a file carries the modification time `os.path.getmtime`
 * reports for it.
 */
module FileDiscovery {
  import opened Results
  import opened Text
  import opened PosixPath

  datatype Entry =
    | File(name: string, mtime: nat)
    | Dir(name: string, entries: seq<Entry>)

  /** What the walk yields for one file: its path and its modification time. */
  datatype Record = Record(path: string, mtime: nat)

  /** A Python argument as far as the type checks of the source care. */
  datatype Arg = Str(value: string) | NoneArg | NonString

  datatype DiscoveryError = InvalidDataDirectory | InvalidPatientPrefix

  /** The substrings that mark a file shared by all subjects rather than owned by one. */
  const SubjectlessMarkers: seq<string> :=
    ["mean_landmarks", "FilteredControlBlindingLogUniqueScanFiltered", "weighted_perc"]

  /** The paths that `include_subjectless` admits whatever their basename. */
  predicate IsSubjectless(path: string) {
    exists i :: 0 <= i < |SubjectlessMarkers| && Contains(path, SubjectlessMarkers[i])
  }

  /** The test a non-directory path must pass to be reported; the empty prefix passes
      every path. */
  predicate Keep(path: string, prefix: string, includeSubjectless: bool): (b: bool)
    ensures prefix == "" ==> b
  {
    assert StartsWith(Basename(path), "");
    StartsWith(Basename(path), prefix) || (includeSubjectless && IsSubjectless(path))
  }

  /** `find_files_with_prefix(path, prefix, include_subjectless)` where `e` is what lies at `path`. */
  function Find(path: string, e: Entry, prefix: string, includeSubjectless: bool): (rs: seq<Record>)
    ensures forall r :: r in rs ==> Keep(r.path, prefix, includeSubjectless)
    ensures e.File? ==> |rs| <= 1
    decreases e
  {
    match e
    case File(_, mtime) =>
      if Keep(path, prefix, includeSubjectless) then [Record(path, mtime)] else []
    case Dir(_, entries) => FindIn(path, entries, prefix, includeSubjectless)
  }

  /** The results for the entries of the directory at `dir`, concatenated in listing order. */
  function FindIn(dir: string, entries: seq<Entry>, prefix: string, includeSubjectless: bool): (rs: seq<Record>)
    ensures forall r :: r in rs ==> Keep(r.path, prefix, includeSubjectless)
    decreases entries
  {
    if entries == [] then []
    else
      Find(Join(dir, entries[0].name), entries[0], prefix, includeSubjectless)
      + FindIn(dir, entries[1..], prefix, includeSubjectless)
  }

  lemma FindInCons(dir: string, entries: seq<Entry>, prefix: string, includeSubjectless: bool)
    requires entries != []
    ensures FindIn(dir, entries, prefix, includeSubjectless)
         == Find(Join(dir, entries[0].name), entries[0], prefix, includeSubjectless)
            + FindIn(dir, entries[1..], prefix, includeSubjectless)
  {
  }

  /** Reference listing: every file under `path`, unfiltered, in traversal order. */
  function AllFiles(path: string, e: Entry): seq<Record>
    decreases e
  {
    match e
    case File(_, mtime) => [Record(path, mtime)]
    case Dir(_, entries) => AllFilesIn(path, entries)
  }

  function AllFilesIn(dir: string, entries: seq<Entry>): seq<Record>
    decreases entries
  {
    if entries == [] then []
    else AllFiles(Join(dir, entries[0].name), entries[0]) + AllFilesIn(dir, entries[1..])
  }

  /** The number of files (not directories) in a tree. */
  function FileCount(e: Entry): nat
    decreases e
  {
    match e
    case File(_, _) => 1
    case Dir(_, entries) => FileCountIn(entries)
  }

  function FileCountIn(entries: seq<Entry>): nat
    decreases entries
  {
    if entries == [] then 0 else FileCount(entries[0]) + FileCountIn(entries[1..])
  }

  /** The records of `rs` whose path passes `keep`, in their order. */
  function Filter(rs: seq<Record>, keep: string -> bool): seq<Record> {
    if rs == [] then []
    else (if keep(rs[0].path) then [rs[0]] else []) + Filter(rs[1..], keep)
  }

  /** The test of `find_files_with_prefix` as a value. */
  function KeepTest(prefix: string, includeSubjectless: bool): string -> bool {
    path => Keep(path, prefix, includeSubjectless)
  }

  lemma {:induction false} FilterAppend(a: seq<Record>, b: seq<Record>, keep: string -> bool)
    ensures Filter(a + b, keep) == Filter(a, keep) + Filter(b, keep)
  {
    if a != [] {
      assert (a + b)[0] == a[0];
      assert (a + b)[1..] == a[1..] + b;
      FilterAppend(a[1..], b, keep);
    } else {
      assert a + b == b;
    }
  }

  lemma {:induction false} FilterMembers(rs: seq<Record>, keep: string -> bool)
    ensures forall r :: r in Filter(rs, keep) <==> r in rs && keep(r.path)
  {
    if rs != [] {
      FilterMembers(rs[1..], keep);
      assert rs == [rs[0]] + rs[1..];
    }
  }

  /** The walk is the flat listing of the tree filtered by `Keep`: nothing matching is lost,
      nothing failing the test is reported, and the traversal order is kept. */
  lemma {:induction false} FindIsFilteredListing(path: string, e: Entry, prefix: string, inc: bool)
    ensures Find(path, e, prefix, inc) == Filter(AllFiles(path, e), KeepTest(prefix, inc))
    decreases e
  {
    match e
    case File(_, _) =>
    case Dir(_, entries) => FindInIsFilteredListing(path, entries, prefix, inc);
  }

  lemma {:induction false} FindInIsFilteredListing(dir: string, entries: seq<Entry>, prefix: string, inc: bool)
    ensures FindIn(dir, entries, prefix, inc) == Filter(AllFilesIn(dir, entries), KeepTest(prefix, inc))
    decreases entries
  {
    if entries != [] {
      var child := Join(dir, entries[0].name);
      FindIsFilteredListing(child, entries[0], prefix, inc);
      FindInIsFilteredListing(dir, entries[1..], prefix, inc);
      FilterAppend(AllFiles(child, entries[0]), AllFilesIn(dir, entries[1..]), KeepTest(prefix, inc));
    }
  }

  /** A record is reported exactly when it is a file of the tree that passes the test. */
  lemma FindMembers(path: string, e: Entry, prefix: string, inc: bool)
    ensures forall r :: r in Find(path, e, prefix, inc) <==> r in AllFiles(path, e) && Keep(r.path, prefix, inc)
  {
    FindIsFilteredListing(path, e, prefix, inc);
    FilterMembers(AllFiles(path, e), KeepTest(prefix, inc));
  }

  lemma {:induction false} FilterEmptyPrefix(rs: seq<Record>, inc: bool)
    ensures Filter(rs, KeepTest("", inc)) == rs
  {
    if rs != [] {
      FilterEmptyPrefix(rs[1..], inc);
      assert KeepTest("", inc)(rs[0].path);
    }
  }

  /** The empty prefix reports every file under the root. */
  lemma EmptyPrefixFindsAll(path: string, e: Entry, inc: bool)
    ensures Find(path, e, "", inc) == AllFiles(path, e)
  {
    FindIsFilteredListing(path, e, "", inc);
    FilterEmptyPrefix(AllFiles(path, e), inc);
  }

  /** The flat listing holds one record per file: directories contribute none of their own. */
  lemma {:induction false} AllFilesCount(path: string, e: Entry)
    ensures |AllFiles(path, e)| == FileCount(e)
    decreases e
  {
    match e
    case File(_, _) =>
    case Dir(_, entries) => AllFilesInCount(path, entries);
  }

  lemma {:induction false} AllFilesInCount(dir: string, entries: seq<Entry>)
    ensures |AllFilesIn(dir, entries)| == FileCountIn(entries)
    decreases entries
  {
    if entries != [] {
      AllFilesCount(Join(dir, entries[0].name), entries[0]);
      AllFilesInCount(dir, entries[1..]);
    }
  }

  /** A file directly inside a directory is judged by its own name. */
  lemma ChildFileByName(dir: string, name: string, mtime: nat, prefix: string)
    requires IsEntryName(name)
    ensures Find(Join(dir, name), File(name, mtime), prefix, false)
         == if StartsWith(name, prefix) then [Record(Join(dir, name), mtime)] else []
  {
    BasenameOfJoin(dir, name);
  }

  // ---- Ordering by modification time -------------------------------------------------

  predicate SortedByMtime(rs: seq<Record>) {
    forall i, j :: 0 <= i < j < |rs| ==> rs[i].mtime <= rs[j].mtime
  }

  /** `x` placed after every record of `s` whose mtime is not larger than its own,
      scanning from the end as one step of insertion sort does. */
  function Insert(s: seq<Record>, x: Record): seq<Record> {
    if s == [] || s[|s| - 1].mtime <= x.mtime then s + [x]
    else Insert(s[..|s| - 1], x) + [s[|s| - 1]]
  }

  /** Stable ordering by mtime: the order `list.sort(key=lambda record: record[1])` produces. */
  function SortByMtime(s: seq<Record>): seq<Record> {
    if s == [] then [] else Insert(SortByMtime(s[..|s| - 1]), s[|s| - 1])
  }

  /** The records of `s` with mtime `t`, in their order. */
  function WithMtime(s: seq<Record>, t: nat): seq<Record> {
    if s == [] then []
    else WithMtime(s[..|s| - 1], t) + (if s[|s| - 1].mtime == t then [s[|s| - 1]] else [])
  }

  /** `[record[0] for record in rs]` */
  function Paths(rs: seq<Record>): seq<string>
  {
    seq(|rs|, i requires 0 <= i < |rs| => rs[i].path)
  }

  /** Insertion adds exactly `x`. */
  lemma {:induction false} InsertPermutation(s: seq<Record>, x: Record)
    ensures multiset(Insert(s, x)) == multiset(s) + multiset{x}
    ensures |Insert(s, x)| == |s| + 1
  {
    if s != [] && s[|s| - 1].mtime > x.mtime {
      var init, last := s[..|s| - 1], s[|s| - 1];
      assert s == init + [last];
      InsertPermutation(init, x);
    }
  }

  /** A bound on every element of `s` and on `x` bounds every element of a sequence holding
      exactly those. */
  lemma BoundedByLast(r: seq<Record>, s: seq<Record>, x: Record, bound: nat)
    requires multiset(r) == multiset(s) + multiset{x}
    requires forall k :: 0 <= k < |s| ==> s[k].mtime <= bound
    requires x.mtime <= bound
    ensures forall i :: 0 <= i < |r| ==> r[i].mtime <= bound
  {
    forall i | 0 <= i < |r|
      ensures r[i].mtime <= bound
    {
      assert r[i] in multiset(r);
      if r[i] in multiset(s) {
        var k :| 0 <= k < |s| && s[k] == r[i];
      }
    }
  }

  lemma {:induction false} InsertSorted(s: seq<Record>, x: Record)
    requires SortedByMtime(s)
    ensures SortedByMtime(Insert(s, x))
    ensures |Insert(s, x)| == |s| + 1
    ensures Insert(s, x)[|s|].mtime >= x.mtime
  {
    InsertPermutation(s, x);
    if s != [] && s[|s| - 1].mtime > x.mtime {
      var init, last := s[..|s| - 1], s[|s| - 1];
      assert s == init + [last];
      InsertSorted(init, x);
      InsertPermutation(init, x);
      BoundedByLast(Insert(init, x), init, x, last.mtime);
    }
  }

  /** The result of the ordering is non-decreasing in mtime and a permutation of the input. */
  lemma {:induction false} SortByMtimeSortedPermutation(s: seq<Record>)
    ensures SortedByMtime(SortByMtime(s))
    ensures multiset(SortByMtime(s)) == multiset(s)
  {
    if s != [] {
      var init := s[..|s| - 1];
      assert s == init + [s[|s| - 1]];
      SortByMtimeSortedPermutation(init);
      InsertSorted(SortByMtime(init), s[|s| - 1]);
      InsertPermutation(SortByMtime(init), s[|s| - 1]);
    }
  }

  lemma WithMtimeSnoc(s: seq<Record>, y: Record, t: nat)
    ensures WithMtime(s + [y], t) == WithMtime(s, t) + (if y.mtime == t then [y] else [])
  {
    assert (s + [y])[..|s|] == s;
  }

  lemma {:induction false} InsertStable(s: seq<Record>, x: Record, t: nat)
    ensures WithMtime(Insert(s, x), t) == WithMtime(s, t) + (if x.mtime == t then [x] else [])
  {
    if s == [] || s[|s| - 1].mtime <= x.mtime {
      WithMtimeSnoc(s, x, t);
    } else {
      var init, last := s[..|s| - 1], s[|s| - 1];
      InsertStable(init, x, t);
      WithMtimeSnoc(Insert(init, x), last, t);
      InsertPassesLast(s, x, t);
    }
  }

  /** The record passed over and the inserted one cannot both carry `t`. */
  lemma InsertPassesLast(s: seq<Record>, x: Record, t: nat)
    requires s != [] && s[|s| - 1].mtime > x.mtime
    ensures var init, last := s[..|s| - 1], s[|s| - 1];
      var xs, ls := (if x.mtime == t then [x] else []), (if last.mtime == t then [last] else []);
      WithMtime(init, t) + xs + ls == WithMtime(s, t) + xs
  {
    var init, last := s[..|s| - 1], s[|s| - 1];
    var xs, ls := (if x.mtime == t then [x] else []), (if last.mtime == t then [last] else []);
    assert xs + ls == ls + xs;
  }

  /** Ties keep their traversal order: for every mtime, the records carrying it appear in
      the output in the order they had in the input. */
  lemma {:induction false} SortByMtimeStable(s: seq<Record>, t: nat)
    ensures WithMtime(SortByMtime(s), t) == WithMtime(s, t)
  {
    if s != [] {
      SortByMtimeStable(s[..|s| - 1], t);
      InsertStable(SortByMtime(s[..|s| - 1]), s[|s| - 1], t);
    }
  }

  lemma {:induction false} InsertPaths(s: seq<Record>, x: Record)
    ensures multiset(Paths(Insert(s, x))) == multiset(Paths(s)) + multiset{x.path}
  {
    if s == [] || s[|s| - 1].mtime <= x.mtime {
      assert Paths(s + [x]) == Paths(s) + [x.path];
    } else {
      var init, last := s[..|s| - 1], s[|s| - 1];
      InsertPaths(init, x);
      assert Paths(Insert(init, x) + [last]) == Paths(Insert(init, x)) + [last.path];
      assert Paths(s) == Paths(init) + [last.path];
    }
  }

  /** The projected output lists the same paths as the projected input, each as often. */
  lemma {:induction false} PathsPermutation(s: seq<Record>)
    ensures multiset(Paths(SortByMtime(s))) == multiset(Paths(s))
  {
    if s != [] {
      var init := s[..|s| - 1];
      PathsPermutation(init);
      InsertPaths(SortByMtime(init), s[|s| - 1]);
      assert Paths(s) == Paths(init) + [s[|s| - 1].path];
    }
  }

  // ---- In-place sort and the entry point ------------------------------------------------

  /** One pass of insertion sort: `a[i]` moves left past the records of the sorted
      prefix `a[..i]` that carry a larger mtime. */
  method InsertInPlace(a: array<Record>, i: nat)
    requires i < a.Length
    modifies a
    ensures a[..i + 1] == Insert(old(a[..i]), old(a[i]))
    ensures a[i + 1..] == old(a[i + 1..])
  {
    var x := a[i];
    ghost var sorted, rest := a[..i], a[i + 1..];
    ghost var left, moved: seq<Record> := sorted, [];
    var j := i;
    assert a[..] == left + [a[j]] + moved + rest;
    while j > 0 && a[j - 1].mtime > x.mtime
      invariant j == |left| <= i
      invariant |moved| == i - j
      invariant sorted == left + moved
      invariant a[..] == left + [a[j]] + moved + rest
      invariant Insert(sorted, x) == Insert(left, x) + moved
    {
      InsertPasses(left, x, moved);
      ShiftRight(a, j, left, moved, rest);
      left, moved := left[..j - 1], [left[j - 1]] + moved;
      j := j - 1;
    }
    InsertStops(left, x);
    Fill(a, j, x, left, moved, rest);
  }

  /** `a[j] = x`: the inserted record fills the hole. */
  method Fill(a: array<Record>, j: nat, x: Record, ghost left: seq<Record>, ghost moved: seq<Record>,
              ghost rest: seq<Record>)
    requires j == |left| < a.Length
    requires a[..] == left + [a[j]] + moved + rest
    modifies a
    ensures a[..j + 1 + |moved|] == left + [x] + moved
    ensures a[j + 1 + |moved|..] == rest
  {
    FillHole(left, a[j], x, moved, rest);
    a[j] := x;
  }

  /** `a[j] = a[j - 1]`: the record left of the hole moves into it, and the hole moves
      one place left. */
  method ShiftRight(a: array<Record>, j: nat, ghost left: seq<Record>, ghost moved: seq<Record>,
                    ghost rest: seq<Record>)
    requires 0 < j == |left| < a.Length
    requires a[..] == left + [a[j]] + moved + rest
    modifies a
    ensures a[..] == left[..j - 1] + [a[j - 1]] + ([left[j - 1]] + moved) + rest
  {
    ShiftHole(left, a[j], moved, rest);
    a[j] := a[j - 1];
  }

  /** Moving the hole one place left in the picture the insertion loop keeps of the array. */
  lemma ShiftHole(left: seq<Record>, hole: Record, moved: seq<Record>, rest: seq<Record>)
    requires left != []
    ensures var n := |left|; var before := left + [hole] + moved + rest;
      before[n := before[n - 1]] == left[..n - 1] + [left[n - 1]] + ([left[n - 1]] + moved) + rest
  {
  }

  /** Filling the hole leaves the inserted prefix followed by the untouched rest. */
  lemma FillHole(left: seq<Record>, hole: Record, x: Record, moved: seq<Record>, rest: seq<Record>)
    ensures var before := left + [hole] + moved + rest;
      && before[|left| := x][..|left| + 1 + |moved|] == left + [x] + moved
      && before[|left| := x][|left| + 1 + |moved|..] == rest
  {
    var before := left + [hole] + moved + rest;
    assert before[|left| := x] == (left + [x] + moved) + rest;
  }

  /** The insertion step passing one record with a larger mtime. */
  lemma InsertPasses(left: seq<Record>, x: Record, moved: seq<Record>)
    requires left != [] && left[|left| - 1].mtime > x.mtime
    ensures Insert(left, x) + moved == Insert(left[..|left| - 1], x) + ([left[|left| - 1]] + moved)
    ensures left + moved == left[..|left| - 1] + ([left[|left| - 1]] + moved)
  {
    assert left == left[..|left| - 1] + [left[|left| - 1]];
  }

  /** Insertion stops at the first record from the right whose mtime is not larger. */
  lemma InsertStops(s: seq<Record>, x: Record)
    requires s == [] || s[|s| - 1].mtime <= x.mtime
    ensures Insert(s, x) == s + [x]
  {
  }

  /** `list_of_records.sort(key=lambda record: record[1])`, in place. */
  method SortInPlace(a: array<Record>)
    modifies a
    ensures a[..] == SortByMtime(old(a[..]))
  {
    ghost var input := a[..];
    var i := 0;
    while i < a.Length
      invariant 0 <= i <= a.Length
      invariant a[..i] == SortByMtime(input[..i])
      invariant a[i..] == input[i..]
    {
      assert input[..i + 1][..i] == input[..i];
      InsertInPlace(a, i);
      i := i + 1;
    }
    assert input[..a.Length] == input;
  }

  /** The root directory `os.path.isdir` finds at `path`, if any. */
  predicate IsDirectory(fs: map<string, Entry>, path: string) {
    path in fs && fs[path].Dir?
  }

  /** `None` stands for the empty prefix. */
  function PrefixOf(patientPrefix: Arg): string {
    if patientPrefix.Str? then patientPrefix.value else ""
  }

  /** The specification of a successful discovery: the matching files, stably ordered by
      mtime, projected to their paths. */
  function SortedPaths(root: string, e: Entry, prefix: string): seq<string> {
    Paths(SortByMtime(Find(root, e, prefix, false)))
  }

  /** `find_and_sort_files_with_prefix(dataDirectory, patientPrefix)`: the argument checks,
      the walk from the root, the in-place sort and the projection to paths. */
  method FindAndSortFilesWithPrefix(fs: map<string, Entry>, dataDirectory: Arg, patientPrefix: Arg)
    returns (r: Result<seq<string>, DiscoveryError>)
    ensures !(dataDirectory.Str? && IsDirectory(fs, dataDirectory.value)) ==> r == Failure(InvalidDataDirectory)
    ensures dataDirectory.Str? && IsDirectory(fs, dataDirectory.value) && patientPrefix.NonString?
      ==> r == Failure(InvalidPatientPrefix)
    ensures dataDirectory.Str? && IsDirectory(fs, dataDirectory.value) && !patientPrefix.NonString?
      ==> r == Success(SortedPaths(dataDirectory.value, fs[dataDirectory.value], PrefixOf(patientPrefix)))
  {
    if !(dataDirectory.Str? && IsDirectory(fs, dataDirectory.value)) {
      return Failure(InvalidDataDirectory);
    }
    if !(patientPrefix.NoneArg? || patientPrefix.Str?) {
      return Failure(InvalidPatientPrefix);
    }
    var prefix := if patientPrefix.NoneArg? then "" else patientPrefix.value;
    var root := dataDirectory.value;
    var found := Find(root, fs[root], prefix, false);
    var records := new Record[|found|](i requires 0 <= i < |found| => found[i]);
    assert records[..] == found;
    SortInPlace(records);
    var files := ProjectPaths(records);
    return Success(files);
  }

  /** `[record[0] for record in list_of_records]` */
  method ProjectPaths(records: array<Record>) returns (files: seq<string>)
    ensures files == Paths(records[..])
  {
    files := [];
    for i := 0 to records.Length
      invariant files == Paths(records[..i])
    {
      assert records[..i + 1] == records[..i] + [records[i]];
      files := files + [records[i].path];
    }
    assert records[..records.Length] == records[..];
  }

  /** What a successful discovery promises: every path is that of a file under the root
      whose basename starts with the prefix; every such file is listed, as often as the walk
      meets it; and the underlying records are non-decreasing in mtime with ties kept in
      traversal order. */
  lemma SortedPathsCorrect(root: string, e: Entry, prefix: string)
    ensures var found := Find(root, e, prefix, false);
      && SortedPaths(root, e, prefix) == Paths(SortByMtime(found))
      && SortedByMtime(SortByMtime(found))
      && multiset(SortedPaths(root, e, prefix)) == multiset(Paths(found))
      && (forall t :: WithMtime(SortByMtime(found), t) == WithMtime(found, t))
      && (forall r :: r in found <==> r in AllFiles(root, e) && StartsWith(Basename(r.path), prefix))
  {
    var found := Find(root, e, prefix, false);
    SortByMtimeSortedPermutation(found);
    PathsPermutation(found);
    forall t ensures WithMtime(SortByMtime(found), t) == WithMtime(found, t) {
      SortByMtimeStable(found, t);
    }
    FindMembers(root, e, prefix, false);
  }

  // ---- Distinct paths ------------------------------------------------------------------

  /** A tree a file system can hold: below the root every name is one path component, and
      the names inside one directory differ. */
  predicate WellFormed(e: Entry)
    decreases e
  {
    match e
    case File(_, _) => true
    case Dir(_, entries) => WellFormedIn(entries)
  }

  predicate WellFormedIn(entries: seq<Entry>)
    decreases entries
  {
    entries == [] ||
    (&& IsEntryName(entries[0].name)
     && WellFormed(entries[0])
     && (forall j :: 1 <= j < |entries| ==> entries[j].name != entries[0].name)
     && WellFormedIn(entries[1..]))
  }

  /** No two records share a path. */
  predicate DistinctPaths(rs: seq<Record>) {
    forall i, j :: 0 <= i < j < |rs| ==> rs[i].path != rs[j].path
  }

  predicate NoDuplicates(ps: seq<string>) {
    forall i, j :: 0 <= i < j < |ps| ==> ps[i] != ps[j]
  }

  /** `x` is the path `q` or a path inside it. */
  predicate Below(x: string, q: string) {
    x == q || StartsWith(x, q + "/")
  }

  /** Below `dir`, the subtrees of two differently named entries share no path. */
  lemma BelowDisjoint(dir: string, n1: string, n2: string, x: string)
    requires IsEntryName(n1) && IsEntryName(n2) && n1 != n2
    ensures !(Below(x, Join(dir, n1)) && Below(x, Join(dir, n2)))
  {
    var h := if dir == [] || EndsWith(dir, "/") then dir else dir + "/";
    JoinOfEntryName(dir, n1);
    JoinOfEntryName(dir, n2);
    if |n1| <= |n2| {
      BelowShorterName(h, n1, n2, x);
    } else {
      BelowShorterName(h, n2, n1, x);
    }
  }

  /** Joining a single component to `dir` puts it after the same head whatever its name. */
  lemma JoinOfEntryName(dir: string, n: string)
    requires IsEntryName(n)
    ensures Join(dir, n) == (if dir == [] || EndsWith(dir, "/") then dir else dir + "/") + n
  {
    assert n[0] in n;
  }

  lemma BelowShorterName(h: string, a: string, b: string, x: string)
    requires IsEntryName(a) && IsEntryName(b) && a != b && |a| <= |b|
    ensures Below(x, h + b) ==> !Below(x, h + a)
  {
    var k := |h|;
    if Below(x, h + b) {
      assert StartsWith(x, h + b) by {
        if x != h + b {
          assert (h + b + "/")[..k + |b|] == h + b;
        }
      }
      assert x[k..k + |b|] == b by {
        assert x[..k + |b|] == h + b;
      }
      if x[k..k + |a|] != a {
        assert x[..k + |a|][k..] == x[k..k + |a|];
        assert (h + a)[k..] == a;
        assert (h + a + "/")[..k + |a|] == h + a;
      } else if |a| == |b| {
        assert false;
      } else {
        assert x[k + |a|] == b[|a|];
        assert b[|a|] in b;
        assert (h + a + "/")[k + |a|] == '/';
      }
    }
  }

  /** The child of `q` named `n` lies inside `q`, and so does everything below it. */
  lemma BelowChild(x: string, q: string, n: string)
    requires Below(x, q + "/" + n)
    ensures StartsWith(x, q + "/")
  {
    var c := q + "/" + n;
    assert c[..|q| + 1] == q + "/";
    if x != c {
      assert (c + "/")[..|q| + 1] == q + "/";
      assert x[..|c| + 1][..|q| + 1] == x[..|q| + 1];
    } else {
      assert x[..|q| + 1] == c[..|q| + 1];
    }
  }

  /** Every file of a well-formed tree at a path that does not end in a separator lies
      below that path. */
  lemma {:induction false} AllFilesBelow(q: string, e: Entry)
    requires q != [] && q[|q| - 1] != '/' && WellFormed(e)
    ensures forall r :: r in AllFiles(q, e) ==> Below(r.path, q)
    decreases e
  {
    match e
    case File(_, _) =>
    case Dir(_, entries) => AllFilesInBelow(q, entries);
  }

  lemma {:induction false} AllFilesInBelow(q: string, entries: seq<Entry>)
    requires q != [] && q[|q| - 1] != '/' && WellFormedIn(entries)
    ensures forall r :: r in AllFilesIn(q, entries) ==> StartsWith(r.path, q + "/")
    decreases entries
  {
    if entries != [] {
      var n := entries[0].name;
      var c := Join(q, n);
      assert n[0] in n;
      assert !EndsWith(q, "/") by {
        assert q[|q| - 1..] == [q[|q| - 1]];
      }
      assert c == q + "/" + n;
      JoinEndsInName(q, n);
      AllFilesBelow(c, entries[0]);
      AllFilesInBelow(q, entries[1..]);
      forall r | r in AllFiles(c, entries[0])
        ensures StartsWith(r.path, q + "/")
      {
        BelowChild(r.path, q, n);
      }
    }
  }

  /** No file of a directory's entries lies below a name none of them has. */
  lemma {:induction false} AllFilesInAvoid(dir: string, entries: seq<Entry>, n: string)
    requires WellFormedIn(entries) && IsEntryName(n)
    requires forall j :: 0 <= j < |entries| ==> entries[j].name != n
    ensures forall r :: r in AllFilesIn(dir, entries) ==> !Below(r.path, Join(dir, n))
    decreases entries
  {
    if entries != [] {
      var m := entries[0].name;
      JoinEndsInName(dir, m);
      AllFilesBelow(Join(dir, m), entries[0]);
      forall r | r in AllFiles(Join(dir, m), entries[0])
        ensures !Below(r.path, Join(dir, n))
      {
        BelowDisjoint(dir, m, n, r.path);
      }
      assert forall j :: 0 <= j < |entries[1..]| ==> entries[1..][j] == entries[j + 1];
      AllFilesInAvoid(dir, entries[1..], n);
    }
  }

  lemma DistinctAppend(a: seq<Record>, b: seq<Record>)
    requires DistinctPaths(a) && DistinctPaths(b)
    requires forall r, s :: r in a && s in b ==> r.path != s.path
    ensures DistinctPaths(a + b)
  {
    forall i, j | 0 <= i < j < |a + b|
      ensures (a + b)[i].path != (a + b)[j].path
    {
      if j < |a| {
        assert (a + b)[i] == a[i] && (a + b)[j] == a[j];
      } else if |a| <= i {
        assert (a + b)[i] == b[i - |a|] && (a + b)[j] == b[j - |a|];
      } else {
        assert (a + b)[i] == a[i] && (a + b)[j] == b[j - |a|];
      }
    }
  }

  /** A well-formed tree lists each of its files under a path of its own. */
  lemma {:induction false} AllFilesDistinct(path: string, e: Entry)
    requires WellFormed(e)
    ensures DistinctPaths(AllFiles(path, e))
    decreases e
  {
    match e
    case File(_, _) =>
    case Dir(_, entries) => AllFilesInDistinct(path, entries);
  }

  lemma {:induction false} AllFilesInDistinct(dir: string, entries: seq<Entry>)
    requires WellFormedIn(entries)
    ensures DistinctPaths(AllFilesIn(dir, entries))
    decreases entries
  {
    if entries != [] {
      var c := Join(dir, entries[0].name);
      AllFilesDistinct(c, entries[0]);
      AllFilesInDistinct(dir, entries[1..]);
      JoinEndsInName(dir, entries[0].name);
      AllFilesBelow(c, entries[0]);
      AllFilesInAvoid(dir, entries[1..], entries[0].name);
      DistinctAppend(AllFiles(c, entries[0]), AllFilesIn(dir, entries[1..]));
    }
  }

  /** Filtering keeps paths distinct. */
  lemma {:induction false} FilterDistinct(rs: seq<Record>, keep: string -> bool)
    requires DistinctPaths(rs)
    ensures DistinctPaths(Filter(rs, keep))
  {
    if rs != [] {
      assert DistinctPaths(rs[1..]) by {
        assert forall i :: 0 <= i < |rs[1..]| ==> rs[1..][i] == rs[i + 1];
      }
      FilterDistinct(rs[1..], keep);
      FilterMembers(rs[1..], keep);
      forall s | s in Filter(rs[1..], keep)
        ensures s.path != rs[0].path
      {
        var k :| 0 <= k < |rs[1..]| && rs[1..][k] == s;
        assert rs[k + 1] == s;
      }
      DistinctAppend(if keep(rs[0].path) then [rs[0]] else [], Filter(rs[1..], keep));
    }
  }

  /** A sequence without duplicates holds each value at most once. */
  lemma {:induction false} NoDuplicatesCount(ps: seq<string>, x: string)
    requires NoDuplicates(ps)
    ensures multiset(ps)[x] <= 1
  {
    if ps != [] {
      assert ps == [ps[0]] + ps[1..];
      assert NoDuplicates(ps[1..]) by {
        assert forall i :: 0 <= i < |ps[1..]| ==> ps[1..][i] == ps[i + 1];
      }
      NoDuplicatesCount(ps[1..], x);
      if ps[0] == x {
        assert x !in ps[1..] by {
          assert forall i :: 0 <= i < |ps[1..]| ==> ps[1..][i] == ps[i + 1];
        }
      }
    }
  }

  /** A value held at most once occurs at one index only. */
  lemma CountAtMostOnce(ps: seq<string>, i: int, j: int)
    requires 0 <= i < j < |ps| && multiset(ps)[ps[i]] <= 1
    ensures ps[i] != ps[j]
  {
    assert ps == ps[..j] + [ps[j]] + ps[j + 1..];
    assert ps[i] == ps[..j][i];
  }

  /** A permutation of a sequence without duplicates has none either. */
  lemma NoDuplicatesPermutation(a: seq<string>, b: seq<string>)
    requires multiset(a) == multiset(b) && NoDuplicates(b)
    ensures NoDuplicates(a)
  {
    forall i, j | 0 <= i < j < |a|
      ensures a[i] != a[j]
    {
      NoDuplicatesCount(b, a[i]);
      CountAtMostOnce(a, i, j);
    }
  }

  /** In a well-formed tree, `find_and_sort_files_with_prefix` reports no path twice. */
  lemma SortedPathsDistinct(root: string, e: Entry, prefix: string)
    requires WellFormed(e)
    ensures NoDuplicates(SortedPaths(root, e, prefix))
  {
    var found := Find(root, e, prefix, false);
    AllFilesDistinct(root, e);
    FindIsFilteredListing(root, e, prefix, false);
    FilterDistinct(AllFiles(root, e), KeepTest(prefix, false));
    assert NoDuplicates(Paths(found));
    PathsPermutation(found);
    NoDuplicatesPermutation(SortedPaths(root, e, prefix), Paths(found));
  }

  /** A `None` prefix behaves exactly like the empty prefix, which lists every file. */
  lemma NonePrefixListsEverything(root: string, e: Entry)
    ensures SortedPaths(root, e, PrefixOf(NoneArg)) == Paths(SortByMtime(AllFiles(root, e)))
  {
    EmptyPrefixFindsAll(root, e, false);
  }

  /** Three files under two directories: the two files of the subject come out oldest
      first (in traversal order when equally old), the file of another subject is not
      reported. */
  lemma ThreeFileScenario(root: string, images: string, landmarks: string,
                          a: string, b: string, c: string, t1: nat, t2: nat, t3: nat, prefix: string)
    requires IsEntryName(images) && IsEntryName(landmarks)
    requires IsEntryName(a) && IsEntryName(b) && IsEntryName(c)
    requires StartsWith(a, prefix) && StartsWith(b, prefix) && !StartsWith(c, prefix)
    requires t1 <= t2
    ensures var tree := Dir("data", [
                Dir(images, [File(a, t1), File(c, t3)]),
                Dir(landmarks, [File(b, t2)])]);
      SortedPaths(root, tree, prefix)
        == [Join(Join(root, images), a), Join(Join(root, landmarks), b)]
  {
    var fa, fb, fc := File(a, t1), File(b, t2), File(c, t3);
    var di, dl := Dir(images, [fa, fc]), Dir(landmarks, [fb]);
    var imagesPath, landmarksPath := Join(root, images), Join(root, landmarks);
    var ra, rb := Record(Join(imagesPath, a), t1), Record(Join(landmarksPath, b), t2);
    SubjectFileAndOther(imagesPath, a, c, t1, t3, prefix);
    SubjectFileAlone(landmarksPath, b, t2, prefix);
    TwoDirectoriesSorted(root, di, dl, ra, rb, prefix);
  }

  // The lemmas from here to the end of the module are helpers of ThreeFileScenario.

  /** Two directories under the root that each yield one record, the first no newer. */
  lemma TwoDirectoriesSorted(root: string, d1: Entry, d2: Entry, r1: Record, r2: Record, prefix: string)
    requires d1.Dir? && d2.Dir?
    requires FindIn(Join(root, d1.name), d1.entries, prefix, false) == [r1]
    requires FindIn(Join(root, d2.name), d2.entries, prefix, false) == [r2]
    requires r1.mtime <= r2.mtime
    ensures SortedPaths(root, Dir("data", [d1, d2]), prefix) == [r1.path, r2.path]
  {
    FindUnderTwo(root, d1, d2, prefix);
    SortedPathsOfPair(root, Dir("data", [d1, d2]), r1, r2, prefix);
  }

  /** A walk that meets two records, the first no newer, reports their paths in that order. */
  lemma SortedPathsOfPair(root: string, e: Entry, r1: Record, r2: Record, prefix: string)
    requires Find(root, e, prefix, false) == [r1] + [r2]
    requires r1.mtime <= r2.mtime
    ensures SortedPaths(root, e, prefix) == [r1.path, r2.path]
  {
    assert [r1] + [r2] == [r1, r2];
    SortPair(r1, r2);
    assert Paths([r1, r2]) == [r1.path, r2.path];
  }

  /** The walk of a directory holding two directories visits the first, then the second. */
  lemma FindUnderTwo(root: string, d1: Entry, d2: Entry, prefix: string)
    requires d1.Dir? && d2.Dir?
    ensures Find(root, Dir("data", [d1, d2]), prefix, false)
         == FindIn(Join(root, d1.name), d1.entries, prefix, false)
            + FindIn(Join(root, d2.name), d2.entries, prefix, false)
  {
    FindInPair(root, [d1, d2], prefix);
  }

  /** A directory holding a file of the subject followed by a file of another subject. */
  lemma SubjectFileAndOther(dir: string, a: string, c: string, ta: nat, tc: nat, prefix: string)
    requires IsEntryName(a) && IsEntryName(c)
    requires StartsWith(a, prefix) && !StartsWith(c, prefix)
    ensures FindIn(dir, [File(a, ta), File(c, tc)], prefix, false) == [Record(Join(dir, a), ta)]
  {
    ChildFileByName(dir, a, ta, prefix);
    ChildFileByName(dir, c, tc, prefix);
    FindInPair(dir, [File(a, ta), File(c, tc)], prefix);
  }

  /** A directory holding only a file of the subject. */
  lemma SubjectFileAlone(dir: string, b: string, tb: nat, prefix: string)
    requires IsEntryName(b) && StartsWith(b, prefix)
    ensures FindIn(dir, [File(b, tb)], prefix, false) == [Record(Join(dir, b), tb)]
  {
    ChildFileByName(dir, b, tb, prefix);
    FindInSingle(dir, [File(b, tb)], prefix);
  }

  lemma FindInSingle(dir: string, entries: seq<Entry>, prefix: string)
    requires |entries| == 1
    ensures FindIn(dir, entries, prefix, false) == Find(Join(dir, entries[0].name), entries[0], prefix, false)
  {
    assert entries[1..] == [];
    assert FindIn(dir, entries[1..], prefix, false) == [];
  }

  lemma FindInPair(dir: string, entries: seq<Entry>, prefix: string)
    requires |entries| == 2
    ensures FindIn(dir, entries, prefix, false)
         == Find(Join(dir, entries[0].name), entries[0], prefix, false)
            + Find(Join(dir, entries[1].name), entries[1], prefix, false)
  {
    FindInCons(dir, entries, prefix, false);
    FindInSecond(dir, entries, prefix);
  }

  lemma FindInSecond(dir: string, entries: seq<Entry>, prefix: string)
    requires |entries| == 2
    ensures FindIn(dir, entries[1..], prefix, false) == Find(Join(dir, entries[1].name), entries[1], prefix, false)
  {
    FindInSingle(dir, entries[1..], prefix);
  }

  lemma SortPair(r1: Record, r2: Record)
    requires r1.mtime <= r2.mtime
    ensures SortByMtime([r1, r2]) == [r1, r2]
  {
    assert [r1, r2][..1] == [r1];
    assert SortByMtime([r1]) == [r1] by { assert [r1][..0] == []; }
  }
}
