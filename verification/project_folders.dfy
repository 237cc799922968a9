/** Project-folder discovery from `src/shared/utils/fs.ts`.

    The filesystem is an immutable value: `existing` answers `fs.existsSync`,
    and `listings` holds what `fs.readdir(folder, { withFileTypes: true })`
    returns for each folder it can read. An existing path without a listing
    (a file, or a folder that cannot be read) makes `readdir` reject. */
module ProjectFolders {
  import opened Results
  import opened Seqs
  import opened PathStrings
  import Ascii
  import Sorting

  /** A `fs.Dirent`: an entry name and whether it is a directory. */
  datatype Entry = Entry(name: string, isDirectory: bool)

  datatype FileSystem = FileSystem(listings: map<Path, seq<Entry>>, existing: set<Path>)

  /** `readdir` rejected for this folder. */
  datatype FsError = ReadDirFailed(folder: Path)

  /** The `options` of `getChildFolders`; an absent option is `false`. */
  datatype ChildOptions = ChildOptions(allowBin: bool, allowCache: bool)

  /** `findProjectFolders` hands `getChildFolders` to `flatMapAsync` as is,
      so its `options` argument is always undefined. */
  const NoChildOptions := ChildOptions(false, false)

  /** The `options` of `findProjectFolders`; an absent option is `false`. */
  datatype FindOptions = FindOptions(sort: bool, requirePubspec: bool)

  predicate Exists(fs: FileSystem, path: Path) {
    path in fs.existing
  }

  /** The entry is a directory and is not an excluded `bin` or `cache` folder. */
  predicate Listed(e: Entry, options: ChildOptions) {
    && e.isDirectory
    && (e.name != "bin" || options.allowBin)
    && (e.name != "cache" || options.allowCache)
  }

  function ListedBy(options: ChildOptions): Entry -> bool {
    e => Listed(e, options)
  }

  function JoinAll(parent: Path, entries: seq<Entry>): (r: seq<Path>)
    ensures |r| == |entries|
    ensures forall i :: 0 <= i < |entries| ==> r[i] == Join(parent, entries[i].name)
  {
    seq(|entries|, i requires 0 <= i < |entries| => Join(parent, entries[i].name))
  }

  /** `getChildFolders(parent, options)`: the three filters and the join, in
      the order the source applies them. */
  function GetChildFolders(fs: FileSystem, parent: Path, options: ChildOptions): (r: Result<seq<Path>, FsError>)
    ensures !Exists(fs, parent) ==> r == Ok([])
    ensures r.Err? <==> Exists(fs, parent) && parent !in fs.listings
    ensures r.Err? ==> r.error == ReadDirFailed(parent)
  {
    if !Exists(fs, parent) then Ok([])
    else if parent !in fs.listings then Err(ReadDirFailed(parent))
    else
      var files := fs.listings[parent];
      var dirs := Filter((f: Entry) => f.isDirectory, files);
      var withoutBin := Filter((f: Entry) => f.name != "bin" || options.allowBin, dirs);
      var withoutCache := Filter((f: Entry) => f.name != "cache" || options.allowCache, withoutBin);
      Ok(JoinAll(parent, withoutCache))
  }

  /** The child folders are the joined names of the listed entries of `parent`,
      in listing order. */
  lemma ChildFoldersFollowListing(fs: FileSystem, parent: Path, options: ChildOptions)
    requires Exists(fs, parent) && parent in fs.listings
    ensures GetChildFolders(fs, parent, options)
         == Ok(JoinAll(parent, Filter(ListedBy(options), fs.listings[parent])))
  {
    var files := fs.listings[parent];
    var isDir := (f: Entry) => f.isDirectory;
    var noBin := (f: Entry) => f.name != "bin" || options.allowBin;
    var noCache := (f: Entry) => f.name != "cache" || options.allowCache;
    var dirNoBin := (f: Entry) => f.isDirectory && (f.name != "bin" || options.allowBin);
    FilterFilter(isDir, noBin, dirNoBin, files);
    FilterFilter(dirNoBin, noCache, ListedBy(options), files);
  }

  /** A path is a child folder exactly when it is `parent` joined with the name
      of a listed directory entry. Files never appear. */
  lemma ChildFolderMembership(fs: FileSystem, parent: Path, options: ChildOptions, p: Path)
    requires Exists(fs, parent) && parent in fs.listings
    ensures p in GetChildFolders(fs, parent, options).value
        <==> exists e :: e in fs.listings[parent] && Listed(e, options) && p == Join(parent, e.name)
  {
    ChildFoldersFollowListing(fs, parent, options);
    var kept := Filter(ListedBy(options), fs.listings[parent]);
    if p in GetChildFolders(fs, parent, options).value {
      var i :| 0 <= i < |kept| && p == JoinAll(parent, kept)[i];
      assert kept[i] in kept;
    }
    if e :| e in fs.listings[parent] && Listed(e, options) && p == Join(parent, e.name) {
      FilterKeepsAllSatisfying(ListedBy(options), fs.listings[parent], e);
      var i :| 0 <= i < |kept| && kept[i] == e;
      assert JoinAll(parent, kept)[i] == p;
    }
  }

  /** By name: `parent/n` is a child folder exactly when `n` is listed as a
      directory and is not an excluded `bin` or `cache`. */
  lemma ChildFolderByName(fs: FileSystem, parent: Path, options: ChildOptions, n: string)
    requires Exists(fs, parent) && parent in fs.listings
    ensures Join(parent, n) in GetChildFolders(fs, parent, options).value
        <==> && Entry(n, true) in fs.listings[parent]
             && (n != "bin" || options.allowBin)
             && (n != "cache" || options.allowCache)
  {
    ChildFolderMembership(fs, parent, options, Join(parent, n));
    if Join(parent, n) in GetChildFolders(fs, parent, options).value {
      var e :| e in fs.listings[parent] && Listed(e, options) && Join(parent, n) == Join(parent, e.name);
      JoinInjective(parent, n, e.name);
    }
  }

  /** `child` is one of the folders `getChildFolders(parent)` yields during a scan. */
  ghost predicate ChildOf(fs: FileSystem, parent: Path, child: Path) {
    && Exists(fs, parent)
    && parent in fs.listings
    && exists e :: e in fs.listings[parent] && Listed(e, NoChildOptions) && child == Join(parent, e.name)
  }

  /** `flatMapAsync(parents, getChildFolders)`: the child folders of each parent,
      concatenated in parent order; any rejected listing rejects the whole. */
  function ChildrenOfAll(fs: FileSystem, parents: seq<Path>): (r: Result<seq<Path>, FsError>)
    ensures r.Err? <==> exists i :: 0 <= i < |parents| && GetChildFolders(fs, parents[i], NoChildOptions).Err?
    ensures r.Err? ==> exists i :: && 0 <= i < |parents|
                                   && GetChildFolders(fs, parents[i], NoChildOptions).Err?
                                   && r.error == ReadDirFailed(parents[i])
  {
    if parents == [] then Ok([])
    else
      var first :- GetChildFolders(fs, parents[0], NoChildOptions);
      var rest :- ChildrenOfAll(fs, parents[1..]);
      Ok(first + rest)
  }

  lemma {:induction false} ChildrenOfAllMembership(fs: FileSystem, parents: seq<Path>, p: Path)
    requires ChildrenOfAll(fs, parents).Ok?
    ensures p in ChildrenOfAll(fs, parents).value <==> exists i :: 0 <= i < |parents| && ChildOf(fs, parents[i], p)
    decreases |parents|
  {
    if parents != [] {
      var first := GetChildFolders(fs, parents[0], NoChildOptions).value;
      var rest := ChildrenOfAll(fs, parents[1..]).value;
      assert ChildrenOfAll(fs, parents).value == first + rest;
      ChildrenOfAllMembership(fs, parents[1..], p);
      if Exists(fs, parents[0]) {
        ChildFolderMembership(fs, parents[0], NoChildOptions, p);
      }
      if p in rest {
        var i :| 0 <= i < |parents[1..]| && ChildOf(fs, parents[1..][i], p);
        assert ChildOf(fs, parents[i + 1], p);
      }
      if i :| 0 <= i < |parents| && ChildOf(fs, parents[i], p) {
        if i > 0 {
          assert ChildOf(fs, parents[1..][i - 1], p);
        }
      }
    }
  }

  /** A single parent's level is its child folders, or its listing error. */
  lemma ChildrenOfOne(fs: FileSystem, p: Path)
    ensures ChildrenOfAll(fs, [p]) == GetChildFolders(fs, p, NoChildOptions)
  {
    if GetChildFolders(fs, p, NoChildOptions).Ok? {
      var first := GetChildFolders(fs, p, NoChildOptions).value;
      assert [p][1..] == [];
      assert first + [] == first;
    }
  }

  /** The level of a concatenation of parents is the concatenation of their
      levels: results stay in parent order and nothing is merged or dropped. */
  lemma {:induction false} ChildrenOfAllConcat(fs: FileSystem, a: seq<Path>, b: seq<Path>)
    requires ChildrenOfAll(fs, a).Ok? && ChildrenOfAll(fs, b).Ok?
    ensures ChildrenOfAll(fs, a + b) == Ok(ChildrenOfAll(fs, a).value + ChildrenOfAll(fs, b).value)
    decreases |a|
  {
    var levelB := ChildrenOfAll(fs, b).value;
    if a == [] {
      assert a + b == b;
      assert [] + levelB == levelB;
    } else {
      ChildrenOfAllUncons(fs, a);
      ChildrenOfAllConcat(fs, a[1..], b);
      ChildrenOfAllConcatStep(fs, a, b);
    }
  }

  /** The inductive step of `ChildrenOfAllConcat`, given the law for `a[1..]`. */
  lemma ChildrenOfAllConcatStep(fs: FileSystem, a: seq<Path>, b: seq<Path>)
    requires a != [] && ChildrenOfAll(fs, a).Ok? && ChildrenOfAll(fs, b).Ok?
    requires ChildrenOfAll(fs, a[1..]).Ok?
    requires ChildrenOfAll(fs, a[1..] + b) == Ok(ChildrenOfAll(fs, a[1..]).value + ChildrenOfAll(fs, b).value)
    ensures ChildrenOfAll(fs, a + b) == Ok(ChildrenOfAll(fs, a).value + ChildrenOfAll(fs, b).value)
  {
    ChildrenOfAllUncons(fs, a);
    var first := GetChildFolders(fs, a[0], NoChildOptions).value;
    var restA := ChildrenOfAll(fs, a[1..]).value;
    var levelB := ChildrenOfAll(fs, b).value;
    SplitFirst(a, b);
    ChildrenOfAllCons(fs, a[0], a[1..] + b);
    ConcatAssociates(first, restA, levelB);
  }

  lemma ChildrenOfAllUncons(fs: FileSystem, parents: seq<Path>)
    requires parents != [] && ChildrenOfAll(fs, parents).Ok?
    ensures GetChildFolders(fs, parents[0], NoChildOptions).Ok? && ChildrenOfAll(fs, parents[1..]).Ok?
    ensures ChildrenOfAll(fs, parents).value
         == GetChildFolders(fs, parents[0], NoChildOptions).value + ChildrenOfAll(fs, parents[1..]).value
  {
  }

  lemma ChildrenOfAllCons(fs: FileSystem, p: Path, tail: seq<Path>)
    requires GetChildFolders(fs, p, NoChildOptions).Ok? && ChildrenOfAll(fs, tail).Ok?
    ensures ChildrenOfAll(fs, [p] + tail)
         == Ok(GetChildFolders(fs, p, NoChildOptions).value + ChildrenOfAll(fs, tail).value)
  {
    var ps := [p] + tail;
    assert ps[0] == p && ps[1..] == tail;
  }

  /** Duplicates are kept: a parent listed twice contributes its child folders
      twice. */
  lemma RepeatedParentRepeatsChildren(fs: FileSystem, p: Path)
    requires GetChildFolders(fs, p, NoChildOptions).Ok?
    ensures var children := GetChildFolders(fs, p, NoChildOptions).value;
            ChildrenOfAll(fs, [p, p]) == Ok(children + children)
  {
    ChildrenOfOne(fs, p);
    ChildrenOfAllConcat(fs, [p], [p]);
    assert [p] + [p] == [p, p];
  }

  /** Every folder the scan considers: the roots, then their child folders,
      then the child folders of those. */
  function Candidates(fs: FileSystem, roots: seq<Path>): (r: Result<seq<Path>, FsError>)
    ensures r.Ok? ==> |r.value| >= |roots| && r.value[..|roots|] == roots
    ensures r.Ok? <==> ChildrenOfAll(fs, roots).Ok? && ChildrenOfAll(fs, ChildrenOfAll(fs, roots).value).Ok?
  {
    var level2Folders :- ChildrenOfAll(fs, roots);
    var level3Folders :- ChildrenOfAll(fs, level2Folders);
    Ok(roots + level2Folders + level3Folders)
  }

  /** A child folder of some root. */
  ghost predicate AtLevel2(fs: FileSystem, roots: seq<Path>, c: Path) {
    exists r :: r in roots && ChildOf(fs, r, c)
  }

  /** A child folder of a child folder of some root. */
  ghost predicate AtLevel3(fs: FileSystem, roots: seq<Path>, c: Path) {
    exists r, m :: r in roots && ChildOf(fs, r, m) && ChildOf(fs, m, c)
  }

  lemma Level2Membership(fs: FileSystem, roots: seq<Path>, c: Path)
    requires ChildrenOfAll(fs, roots).Ok?
    ensures c in ChildrenOfAll(fs, roots).value <==> AtLevel2(fs, roots, c)
  {
    ChildrenOfAllMembership(fs, roots, c);
    if c in ChildrenOfAll(fs, roots).value {
      var j :| 0 <= j < |roots| && ChildOf(fs, roots[j], c);
      assert roots[j] in roots;
    }
    if AtLevel2(fs, roots, c) {
      var r :| r in roots && ChildOf(fs, r, c);
      var j :| 0 <= j < |roots| && roots[j] == r;
    }
  }

  /** A failed scan names a root or a second-level folder whose listing
      failed. */
  lemma CandidatesErrorNamesUnreadableFolder(fs: FileSystem, roots: seq<Path>)
    requires Candidates(fs, roots).Err?
    ensures exists c :: && (c in roots || AtLevel2(fs, roots, c))
                        && GetChildFolders(fs, c, NoChildOptions).Err?
                        && Candidates(fs, roots).error == ReadDirFailed(c)
  {
    var level2 := ChildrenOfAll(fs, roots);
    if level2.Err? {
      var i :| && 0 <= i < |roots| && GetChildFolders(fs, roots[i], NoChildOptions).Err?
               && level2.error == ReadDirFailed(roots[i]);
      assert roots[i] in roots;
    } else {
      var level3 := ChildrenOfAll(fs, level2.value);
      var i :| && 0 <= i < |level2.value| && GetChildFolders(fs, level2.value[i], NoChildOptions).Err?
               && level3.error == ReadDirFailed(level2.value[i]);
      Level2Membership(fs, roots, level2.value[i]);
    }
  }

  lemma Level3Membership(fs: FileSystem, roots: seq<Path>, c: Path)
    requires ChildrenOfAll(fs, roots).Ok?
    requires ChildrenOfAll(fs, ChildrenOfAll(fs, roots).value).Ok?
    ensures c in ChildrenOfAll(fs, ChildrenOfAll(fs, roots).value).value <==> AtLevel3(fs, roots, c)
  {
    var level2 := ChildrenOfAll(fs, roots).value;
    ChildrenOfAllMembership(fs, level2, c);
    if c in ChildrenOfAll(fs, level2).value {
      var i :| 0 <= i < |level2| && ChildOf(fs, level2[i], c);
      Level2Membership(fs, roots, level2[i]);
      var r :| r in roots && ChildOf(fs, r, level2[i]);
      assert AtLevel3(fs, roots, c);
    }
    if AtLevel3(fs, roots, c) {
      var r, m :| r in roots && ChildOf(fs, r, m) && ChildOf(fs, m, c);
      Level2Membership(fs, roots, m);
      var i :| 0 <= i < |level2| && level2[i] == m;
    }
  }

  /** The scan never looks more than two levels below a root: a candidate is a
      root, a child folder of a root, or a child folder of one of those. */
  lemma CandidatesWithinTwoLevels(fs: FileSystem, roots: seq<Path>, c: Path)
    requires Candidates(fs, roots).Ok?
    ensures c in Candidates(fs, roots).value
        <==> c in roots || AtLevel2(fs, roots, c) || AtLevel3(fs, roots, c)
  {
    var level2 := ChildrenOfAll(fs, roots).value;
    var level3 := ChildrenOfAll(fs, level2).value;
    assert Candidates(fs, roots).value == roots + level2 + level3;
    Level2Membership(fs, roots, c);
    Level3Membership(fs, roots, c);
  }

  /** Every listed directory has a listing and every directory entry exists:
      a snapshot of a real, readable tree. */
  ghost predicate WellFormed(fs: FileSystem) {
    forall p, e :: p in fs.listings && e in fs.listings[p] && e.isDirectory ==>
      Exists(fs, Join(p, e.name)) && Join(p, e.name) in fs.listings
  }

  /** On a readable tree, the scan fails only if a root exists but cannot be listed. */
  lemma ScanOfReadableTreeSucceeds(fs: FileSystem, roots: seq<Path>)
    requires WellFormed(fs)
    requires forall i :: 0 <= i < |roots| && Exists(fs, roots[i]) ==> roots[i] in fs.listings
    ensures Candidates(fs, roots).Ok?
  {
    var level2 := ChildrenOfAll(fs, roots).value;
    forall i | 0 <= i < |level2|
      ensures level2[i] in fs.listings
    {
      ChildrenOfAllMembership(fs, roots, level2[i]);
      var j :| 0 <= j < |roots| && ChildOf(fs, roots[j], level2[i]);
      var e :| e in fs.listings[roots[j]] && Listed(e, NoChildOptions) && level2[i] == Join(roots[j], e.name);
    }
  }

  /** When no root exists, nothing below the roots is considered. */
  lemma MissingRootsHaveNoChildren(fs: FileSystem, roots: seq<Path>)
    requires forall i :: 0 <= i < |roots| ==> !Exists(fs, roots[i])
    ensures Candidates(fs, roots) == Ok(roots)
  {
    MissingParentsHaveNoChildren(fs, roots);
    assert ChildrenOfAll(fs, [] ) == Ok([]);
  }

  lemma {:induction false} MissingParentsHaveNoChildren(fs: FileSystem, parents: seq<Path>)
    requires forall i :: 0 <= i < |parents| ==> !Exists(fs, parents[i])
    ensures ChildrenOfAll(fs, parents) == Ok([])
    decreases |parents|
  {
    if parents != [] {
      MissingParentsHaveNoChildren(fs, parents[1..]);
      assert GetChildFolders(fs, parents[0], NoChildOptions) == Ok([]);
      var none: seq<Path> := [];
      assert none + none == none;
    }
  }

  /** `hasPubspec(folder)` */
  predicate HasPubspec(fs: FileSystem, folder: Path) {
    Exists(fs, Join(folder, "pubspec.yaml"))
  }

  /** `hasCreateTriggerFile(folder)`; the trigger file's name is a parameter. */
  predicate HasCreateTriggerFile(fs: FileSystem, folder: Path, triggerFile: string) {
    Exists(fs, Join(folder, triggerFile))
  }

  /** `isFlutterRepo(folder)` */
  predicate IsFlutterRepo(fs: FileSystem, folder: Path) {
    Exists(fs, Join(folder, "bin/flutter")) && Exists(fs, Join(folder, "bin/cache/dart-sdk"))
  }

  /** The filter `findProjectFolders` applies to each candidate. */
  predicate IsProjectFolder(fs: FileSystem, folder: Path, requirePubspec: bool, triggerFile: string) {
    if requirePubspec then HasPubspec(fs, folder)
    else HasPubspec(fs, folder) || HasCreateTriggerFile(fs, folder, triggerFile) || IsFlutterRepo(fs, folder)
  }

  /** Strict mode accepts exactly the folders with a pubspec, and every
      folder it accepts is accepted without it; either other marker is
      enough only outside strict mode. */
  lemma ProjectFolderModes(fs: FileSystem, folder: Path, triggerFile: string)
    ensures IsProjectFolder(fs, folder, true, triggerFile) <==> HasPubspec(fs, folder)
    ensures IsProjectFolder(fs, folder, true, triggerFile) ==> IsProjectFolder(fs, folder, false, triggerFile)
    ensures HasCreateTriggerFile(fs, folder, triggerFile) || IsFlutterRepo(fs, folder)
      ==> IsProjectFolder(fs, folder, false, triggerFile)
  {
  }

  function ProjectFolderTest(fs: FileSystem, requirePubspec: bool, triggerFile: string): Path -> bool {
    f => IsProjectFolder(fs, f, requirePubspec, triggerFile)
  }

  /** `findProjectFolders(roots, options)` */
  function FindProjectFolders(fs: FileSystem, roots: seq<Path>, options: FindOptions, triggerFile: string)
    : (r: Result<seq<Path>, FsError>)
    ensures r.Ok? <==> Candidates(fs, roots).Ok?
    ensures r.Err? ==> r.error == Candidates(fs, roots).error
    ensures r.Ok? ==> |r.value| <= |Candidates(fs, roots).value|
  {
    var allPossibleFolders :- Candidates(fs, roots);
    var projectFolders := Filter(ProjectFolderTest(fs, options.requirePubspec, triggerFile), allPossibleFolders);
    if options.sort then Ok(Sorting.SortBy(projectFolders, Ascii.LowerString))
    else Ok(projectFolders)
  }

  /** A candidate is returned exactly when it passes the marker test. In lenient
      mode that is a pubspec, the create-trigger file, or both Flutter repo
      paths; in strict mode it is a pubspec alone. */
  lemma FindProjectFoldersMembership(fs: FileSystem, roots: seq<Path>, options: FindOptions, triggerFile: string, f: Path)
    requires Candidates(fs, roots).Ok?
    ensures f in FindProjectFolders(fs, roots, options, triggerFile).value
        <==> && f in Candidates(fs, roots).value
             && (if options.requirePubspec then HasPubspec(fs, f)
                 else HasPubspec(fs, f) || HasCreateTriggerFile(fs, f, triggerFile) || IsFlutterRepo(fs, f))
  {
    var cands := Candidates(fs, roots).value;
    var test := ProjectFolderTest(fs, options.requirePubspec, triggerFile);
    var found := Filter(test, cands);
    if f in cands && test(f) {
      FilterKeepsAllSatisfying(test, cands, f);
      if options.sort {
        assert f in multiset(found);
        assert f in multiset(Sorting.SortBy(found, Ascii.LowerString));
      }
    }
  }

  /** In strict mode every returned folder has a `pubspec.yaml`. */
  lemma StrictResultsHavePubspec(fs: FileSystem, roots: seq<Path>, sort: bool, triggerFile: string, f: Path)
    requires FindProjectFolders(fs, roots, FindOptions(sort, true), triggerFile).Ok?
    requires f in FindProjectFolders(fs, roots, FindOptions(sort, true), triggerFile).value
    ensures HasPubspec(fs, f)
  {
    FindProjectFoldersMembership(fs, roots, FindOptions(sort, true), triggerFile, f);
  }

  /** Without `sort`, the result keeps the discovery order: it is the subsequence
      of the candidates that pass the test. */
  lemma UnsortedKeepsDiscoveryOrder(fs: FileSystem, roots: seq<Path>, options: FindOptions, triggerFile: string)
    requires Candidates(fs, roots).Ok? && !options.sort
    ensures IsSubsequence(FindProjectFolders(fs, roots, options, triggerFile).value, Candidates(fs, roots).value)
  {
    FilterIsSubsequence(ProjectFolderTest(fs, options.requirePubspec, triggerFile), Candidates(fs, roots).value);
  }

  /** Without `sort`, the found roots come first, then the found child folders
      of roots, then the found folders one level further down. */
  lemma UnsortedFollowsLevels(fs: FileSystem, roots: seq<Path>, options: FindOptions, triggerFile: string)
    requires Candidates(fs, roots).Ok? && !options.sort
    ensures var test := ProjectFolderTest(fs, options.requirePubspec, triggerFile);
            var level2 := ChildrenOfAll(fs, roots).value;
            FindProjectFolders(fs, roots, options, triggerFile).value
              == Filter(test, roots) + Filter(test, level2) + Filter(test, ChildrenOfAll(fs, level2).value)
  {
    var test := ProjectFolderTest(fs, options.requirePubspec, triggerFile);
    var level2 := ChildrenOfAll(fs, roots).value;
    var level3 := ChildrenOfAll(fs, level2).value;
    assert Candidates(fs, roots).value == (roots + level2) + level3;
    FilterConcat(test, roots + level2, level3);
    FilterConcat(test, roots, level2);
  }

  /** With `sort`, the result is the same folders, with the same multiplicities,
      ordered by lower-cased path, compared by UTF-16 code units. */
  lemma SortedByLowerCasedPath(fs: FileSystem, roots: seq<Path>, options: FindOptions, triggerFile: string)
    requires Candidates(fs, roots).Ok? && options.sort
    ensures var unsorted := FindProjectFolders(fs, roots, options.(sort := false), triggerFile).value;
            var sorted := FindProjectFolders(fs, roots, options, triggerFile).value;
            && multiset(sorted) == multiset(unsorted)
            && Sorting.SortedBy(sorted, Ascii.LowerString)
  {
    var found := Filter(ProjectFolderTest(fs, options.requirePubspec, triggerFile), Candidates(fs, roots).value);
    Sorting.SortBySorted(found, Ascii.LowerString);
  }

  /** Strict mode finds a subsequence of what lenient mode finds. */
  lemma StrictWithinLenient(fs: FileSystem, roots: seq<Path>, triggerFile: string)
    requires Candidates(fs, roots).Ok?
    ensures IsSubsequence(FindProjectFolders(fs, roots, FindOptions(false, true), triggerFile).value,
                          FindProjectFolders(fs, roots, FindOptions(false, false), triggerFile).value)
  {
    var cands := Candidates(fs, roots).value;
    var strict := ProjectFolderTest(fs, true, triggerFile);
    var lenient := ProjectFolderTest(fs, false, triggerFile);
    FilterFilter(lenient, strict, strict, cands);
    FilterIsSubsequence(strict, Filter(lenient, cands));
  }
}
