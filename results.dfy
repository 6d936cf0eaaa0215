/**
 * How the finder scripts put search results together: Python's string sort, the
 * `sorted(list(set(...)))` and `seen`-set de-duplications, the third script's filter of
 * `grep` matches, the recursive folder listing of `get_all_files_in_dir`, and the merge of
 * file and folder matches in `search_with_grep_multiple_dirs`.
 */
module SearchResults {
  import opened Wrappers
  import opened OrgStrings
  import opened Seqs
  import opened DocumentFiles

  // ---------------------------------------------------------------- sorting

  /** Ascending in Python's string order. */
  predicate Sorted(s: seq<string>) {
    forall i, j :: 0 <= i < j < |s| ==> LexLessEq(s[i], s[j])
  }

  /** `x` placed before the first element it does not exceed. */
  function Insert(x: string, s: seq<string>): (r: seq<string>)
    ensures |r| == |s| + 1
  {
    if s == [] then [x]
    else if LexLessEq(x, s[0]) then [x] + s
    else [s[0]] + Insert(x, s[1..])
  }

  /** `sorted(s)` / `s.sort()`: insertion of each element into the sorted rest. */
  function SortStrings(s: seq<string>): (r: seq<string>)
    ensures |r| == |s|
  {
    if s == [] then [] else Insert(s[0], SortStrings(s[1..]))
  }

  lemma {:induction false} InsertMembers(x: string, s: seq<string>)
    ensures multiset(Insert(x, s)) == multiset(s) + multiset{x}
  {
    if s != [] && !LexLessEq(x, s[0]) {
      InsertMembers(x, s[1..]);
      assert s == [s[0]] + s[1..];
    }
  }

  lemma {:induction false} InsertSorted(x: string, s: seq<string>)
    requires Sorted(s)
    ensures Sorted(Insert(x, s))
  {
    if s != [] {
      if LexLessEq(x, s[0]) {
        var r := [x] + s;
        forall i, j | 0 <= i < j < |r| ensures LexLessEq(r[i], r[j]) {
          if i == 0 && j > 1 {
            LexTransitive(x, s[0], s[j - 1]);
          }
        }
      } else {
        var t := Insert(x, s[1..]);
        InsertSorted(x, s[1..]);
        InsertMembers(x, s[1..]);
        LexTotal(x, s[0]);
        forall j | 0 <= j < |t| ensures LexLessEq(s[0], t[j]) {
          assert t[j] in multiset(t);
          if t[j] != x {
            assert t[j] in s[1..];
            var m :| 0 <= m < |s[1..]| && s[1..][m] == t[j];
            assert s[m + 1] == t[j];
          }
        }
        var r := [s[0]] + t;
        forall i, j | 0 <= i < j < |r| ensures LexLessEq(r[i], r[j]) {
          if i > 0 {
            assert r[i] == t[i - 1] && r[j] == t[j - 1];
          }
        }
      }
    }
  }

  /** Sorting gives an ascending permutation of its input. */
  lemma {:induction false} SortFacts(s: seq<string>)
    ensures Sorted(SortStrings(s))
    ensures multiset(SortStrings(s)) == multiset(s)
  {
    if s != [] {
      SortFacts(s[1..]);
      InsertSorted(s[0], SortStrings(s[1..]));
      InsertMembers(s[0], SortStrings(s[1..]));
      assert s == [s[0]] + s[1..];
    }
  }

  /** A sequence without repeats, sorted, is still without repeats. */
  lemma SortKeepsNoDup(s: seq<string>)
    requires NoDup(s)
    ensures NoDup(SortStrings(s))
  {
    var r := SortStrings(s);
    SortFacts(s);
    forall i, j | 0 <= i < j < |r| ensures r[i] != r[j] {
      if r[i] == r[j] {
        assert multiset(r)[r[i]] >= 2 by {
          assert r == r[..j] + [r[j]] + r[j + 1..];
          assert r[i] in r[..j];
        }
        var x := r[i];
        assert multiset(s)[x] >= 2;
        NoDupCountsOnce(s, x);
      }
    }
  }

  /** In a sequence without repeats each element occurs once. */
  lemma {:induction false} NoDupCountsOnce(s: seq<string>, x: string)
    requires NoDup(s)
    ensures multiset(s)[x] <= 1
  {
    if s != [] {
      var init := s[..|s| - 1];
      assert s == init + [s[|s| - 1]];
      assert NoDup(init) by {
        forall i, j | 0 <= i < j < |init| ensures init[i] != init[j] {
          assert init[i] == s[i] && init[j] == s[j];
        }
      }
      NoDupCountsOnce(init, x);
      if x == s[|s| - 1] {
        assert x !in init;
      }
    }
  }

  /** Two ascending sequences without repeats that hold the same strings are equal. */
  lemma {:induction false} SortedSetsEqual(a: seq<string>, b: seq<string>)
    requires Sorted(a) && NoDup(a) && Sorted(b) && NoDup(b)
    requires forall x :: x in a <==> x in b
    ensures a == b
    decreases |a|
  {
    if a != [] {
      assert a[0] in b;
      var k :| 0 <= k < |b| && b[k] == a[0];
      assert b[0] in a;
      var m :| 0 <= m < |a| && a[m] == b[0];
      if a[0] != b[0] {
        assert LexLessEq(a[0], a[m]) && LexLessEq(b[0], b[k]);
        LexAntisymmetric(a[0], b[0]);
      }
      var a1, b1 := a[1..], b[1..];
      forall x ensures x in a1 <==> x in b1 {
        if x in a1 {
          var i :| 0 <= i < |a1| && a1[i] == x;
          assert a[i + 1] == x && x != a[0];
          assert x in b;
          var j :| 0 <= j < |b| && b[j] == x;
          assert j != 0;
          assert b1[j - 1] == x;
        }
        if x in b1 {
          var j :| 0 <= j < |b1| && b1[j] == x;
          assert b[j + 1] == x && x != b[0];
          assert x in a;
          var i :| 0 <= i < |a| && a[i] == x;
          assert i != 0;
          assert a1[i - 1] == x;
        }
      }
      assert Sorted(a1) && NoDup(a1) by {
        forall i, j | 0 <= i < j < |a1| ensures LexLessEq(a1[i], a1[j]) && a1[i] != a1[j] {
          assert a1[i] == a[i + 1] && a1[j] == a[j + 1];
        }
      }
      assert Sorted(b1) && NoDup(b1) by {
        forall i, j | 0 <= i < j < |b1| ensures LexLessEq(b1[i], b1[j]) && b1[i] != b1[j] {
          assert b1[i] == b[i + 1] && b1[j] == b[j + 1];
        }
      }
      SortedSetsEqual(a1, b1);
      assert a == [a[0]] + a1 && b == [b[0]] + b1;
    }
  }

  // ---------------------------------------------------------------- de-duplication

  /** The loop over a `seen` set: each string at its first occurrence, later repeats dropped. */
  function Dedup(s: seq<string>): (r: seq<string>)
    ensures |r| <= |s|
  {
    if s == [] then []
    else
      var init := s[..|s| - 1];
      Dedup(init) + (if s[|s| - 1] in init then [] else [s[|s| - 1]])
  }

  /** De-duplication drops repeats only: no string twice, and the same strings as before. */
  lemma {:induction false} DedupFacts(s: seq<string>)
    ensures NoDup(Dedup(s))
    ensures forall x :: x in Dedup(s) <==> x in s
  {
    if s != [] {
      var init, last := s[..|s| - 1], s[|s| - 1];
      DedupFacts(init);
      assert s == init + [last];
      var d := Dedup(init);
      var r := Dedup(s);
      if last !in init {
        forall i, j | 0 <= i < j < |r| ensures r[i] != r[j] {
          if j == |d| {
            assert r[i] in d;
          } else {
            assert r[i] == d[i] && r[j] == d[j];
          }
        }
      }
    }
  }

  /** A sequence without repeats is left as it is. */
  lemma {:induction false} DedupOfNoDup(s: seq<string>)
    requires NoDup(s)
    ensures Dedup(s) == s
  {
    if s != [] {
      var init := s[..|s| - 1];
      assert NoDup(init) by {
        forall i, j | 0 <= i < j < |init| ensures init[i] != init[j] {
          assert init[i] == s[i] && init[j] == s[j];
        }
      }
      DedupOfNoDup(init);
      assert s[|s| - 1] !in init;
      assert s == init + [s[|s| - 1]];
    }
  }

  /** `sorted(list(set(s)))`, and `sorted(unique)` after the `seen` loop. */
  function SortedSet(s: seq<string>): seq<string> {
    SortStrings(Dedup(s))
  }

  /**
   * The result is ascending, without repeats, and holds exactly the strings of `s`; by
   * `SortedSetsEqual` no other sequence has these three properties, so the order in which
   * the set is listed does not matter.
   */
  lemma SortedSetFacts(s: seq<string>)
    ensures Sorted(SortedSet(s)) && NoDup(SortedSet(s))
    ensures forall x :: x in SortedSet(s) <==> x in s
  {
    DedupFacts(s);
    SortFacts(Dedup(s));
    SortKeepsNoDup(Dedup(s));
    forall x ensures x in SortedSet(s) <==> x in s {
      assert x in SortedSet(s) <==> x in multiset(SortedSet(s));
      assert x in Dedup(s) <==> x in multiset(Dedup(s));
    }
  }

  /** Sorting again, or de-duplicating again, changes nothing. */
  lemma SortedSetIdempotent(s: seq<string>)
    ensures SortedSet(SortedSet(s)) == SortedSet(s)
  {
    SortedSetFacts(s);
    SortedSetFacts(SortedSet(s));
    SortedSetsEqual(SortedSet(SortedSet(s)), SortedSet(s));
  }

  /** The `seen`/`unique_results` loop. */
  method UniqueInOrder(paths: seq<string>) returns (unique: seq<string>)
    ensures unique == Dedup(paths)
  {
    var seen: set<string> := {};
    unique := [];
    var i := 0;
    while i < |paths|
      invariant 0 <= i <= |paths|
      invariant unique == Dedup(paths[..i])
      invariant forall x :: x in seen <==> x in paths[..i]
    {
      assert paths[..i + 1][..i] == paths[..i];
      assert paths[..i + 1] == paths[..i] + [paths[i]];
      var path := paths[i];
      if path !in seen {
        seen := seen + {path};
        unique := unique + [path];
      }
      i := i + 1;
    }
    assert paths[..i] == paths;
  }

  // ---------------------------------------------------------------- the third script's grep filter

  /** What the third script asks: folder names included, all file types, and which paths `os.path.isfile` / `os.path.isdir` accept. */
  datatype GrepQuery = GrepQuery(searchPaths: bool, allTypes: bool, fileSet: set<string>, dirSet: set<string>)

  /** A file is kept in `all` mode or when it is a document; any other path only when folder names are included and it is a directory. */
  predicate GrepKeeps(q: GrepQuery, path: string) {
    if path in q.fileSet then q.allTypes || IsDocumentFile(path)
    else q.searchPaths && path in q.dirSet
  }

  /** The paths kept, in `grep`'s order. */
  function GrepKept(q: GrepQuery, paths: seq<string>): seq<string> {
    if paths == [] then []
    else GrepKept(q, paths[..|paths| - 1]) + (if GrepKeeps(q, paths[|paths| - 1]) then [paths[|paths| - 1]] else [])
  }

  lemma {:induction false} GrepKeptMembers(q: GrepQuery, paths: seq<string>)
    ensures forall x :: x in GrepKept(q, paths) <==> x in paths && GrepKeeps(q, x)
  {
    if paths != [] {
      GrepKeptMembers(q, paths[..|paths| - 1]);
      assert paths == paths[..|paths| - 1] + [paths[|paths| - 1]];
    }
  }

  /** `search_with_grep` once `grep` has answered: the kept paths, de-duplicated and sorted. */
  function SearchWithGrep(q: GrepQuery, foundPaths: seq<string>): seq<string> {
    SortedSet(GrepKept(q, foundPaths))
  }

  /** The result is ascending, without repeats, and holds exactly the matches the filter keeps. */
  lemma SearchWithGrepExact(q: GrepQuery, foundPaths: seq<string>)
    ensures var r := SearchWithGrep(q, foundPaths);
      Sorted(r) && NoDup(r) && forall x :: x in r <==> x in foundPaths && GrepKeeps(q, x)
  {
    GrepKeptMembers(q, foundPaths);
    SortedSetFacts(GrepKept(q, foundPaths));
  }

  /** Directories never pass when folder names are left out. */
  lemma NoFoldersUnlessAsked(q: GrepQuery, foundPaths: seq<string>, x: string)
    requires !q.searchPaths && x in SearchWithGrep(q, foundPaths)
    ensures x in q.fileSet
  {
    SearchWithGrepExact(q, foundPaths);
  }

  /** The `for path in found_paths` loop of `search_with_grep`, then the sort. */
  method FilterGrepMatches(q: GrepQuery, foundPaths: seq<string>) returns (results: seq<string>)
    ensures results == SearchWithGrep(q, foundPaths)
  {
    var kept: seq<string> := [];
    var i := 0;
    while i < |foundPaths|
      invariant 0 <= i <= |foundPaths|
      invariant kept == GrepKept(q, foundPaths[..i])
    {
      assert foundPaths[..i + 1][..i] == foundPaths[..i];
      var path := foundPaths[i];
      if path in q.fileSet {
        var isDocument := CheckDocumentFile(path);
        if q.allTypes || isDocument {
          kept := kept + [path];
        }
      } else if q.searchPaths && path in q.dirSet {
        kept := kept + [path];
      }
      i := i + 1;
    }
    assert foundPaths[..i] == foundPaths;
    results := SortedSet(kept);
  }

  // ---------------------------------------------------------------- the recursive folder listing

  /** A directory as `os.walk` sees it: its file names and its sub-directories, in listing order. */
  datatype Tree = Tree(files: seq<string>, dirs: seq<Subdir>)
  datatype Subdir = Subdir(name: string, tree: Tree)

  /** A name starting with `.`. */
  predicate Hidden(name: string) {
    StartsWith(name, ".")
  }

  /** `os.path.join(root, name)` for a name without `/`. */
  function PathJoin(root: string, name: string): string {
    if root == [] || EndsWith(root, "/") then root + name else root + "/" + name
  }

  /** A match of the file-type choice: every path, or only documents. */
  predicate TypeMatches(docsOnly: bool, path: string) {
    !docsOnly || IsDocumentFile(path)
  }

  /** The paths of one directory's own files, hidden names skipped, filtered by type. */
  function OwnFiles(root: string, names: seq<string>, docsOnly: bool): seq<string> {
    if names == [] then []
    else
      var name := names[|names| - 1];
      var full := PathJoin(root, name);
      OwnFiles(root, names[..|names| - 1], docsOnly) + (if !Hidden(name) && TypeMatches(docsOnly, full) then [full] else [])
  }

  /** `get_all_files_in_dir`: top-down, a directory's own files before those of its sub-directories; hidden sub-directories are pruned. */
  function Walk(root: string, t: Tree, docsOnly: bool): seq<string>
    decreases t
  {
    OwnFiles(root, t.files, docsOnly) + WalkDirs(root, t.dirs, docsOnly)
  }

  function WalkDirs(root: string, ds: seq<Subdir>, docsOnly: bool): seq<string>
    decreases ds
  {
    if ds == [] then []
    else
      (if Hidden(ds[0].name) then [] else Walk(PathJoin(root, ds[0].name), ds[0].tree, docsOnly))
      + WalkDirs(root, ds[1..], docsOnly)
  }

  lemma {:induction false} OwnFilesDocs(root: string, names: seq<string>)
    ensures OwnFiles(root, names, true) == Documents(OwnFiles(root, names, false))
  {
    if names != [] {
      var init := names[..|names| - 1];
      OwnFilesDocs(root, init);
      var name := names[|names| - 1];
      var last := if !Hidden(name) then [PathJoin(root, name)] else [];
      DocumentsInOrder(OwnFiles(root, init, false), last);
      assert Documents([]) == [];
      if last != [] {
        assert Documents(last) == Documents(last[..0]) + (if IsDocumentFile(last[0]) then [last[0]] else []);
      }
    }
  }

  /** The document listing is the full listing with the document filter applied. */
  lemma {:induction false} WalkDocs(root: string, t: Tree)
    ensures Walk(root, t, true) == Documents(Walk(root, t, false))
    decreases t
  {
    OwnFilesDocs(root, t.files);
    WalkDirsDocs(root, t.dirs);
    DocumentsInOrder(OwnFiles(root, t.files, false), WalkDirs(root, t.dirs, false));
  }

  lemma {:induction false} WalkDirsDocs(root: string, ds: seq<Subdir>)
    ensures WalkDirs(root, ds, true) == Documents(WalkDirs(root, ds, false))
    decreases ds
  {
    if ds != [] {
      var head := if Hidden(ds[0].name) then [] else Walk(PathJoin(root, ds[0].name), ds[0].tree, false);
      if !Hidden(ds[0].name) {
        WalkDocs(PathJoin(root, ds[0].name), ds[0].tree);
      } else {
        assert Documents([]) == [];
      }
      WalkDirsDocs(root, ds[1..]);
      DocumentsInOrder(head, WalkDirs(root, ds[1..], false));
    }
  }

  /** A hidden file added to a directory does not show in its listing. */
  lemma HiddenFileIgnored(root: string, t: Tree, name: string, docsOnly: bool)
    requires Hidden(name)
    ensures Walk(root, Tree(t.files + [name], t.dirs), docsOnly) == Walk(root, t, docsOnly)
  {
    assert (t.files + [name])[..|t.files|] == t.files;
  }

  /** A hidden sub-directory added to a directory, whatever it holds, does not show in its listing. */
  lemma HiddenDirIgnored(root: string, t: Tree, d: Subdir, docsOnly: bool)
    requires Hidden(d.name)
    ensures Walk(root, Tree(t.files, t.dirs + [d]), docsOnly) == Walk(root, t, docsOnly)
  {
    HiddenDirAppended(root, t.dirs, d, docsOnly);
  }

  lemma {:induction false} HiddenDirAppended(root: string, ds: seq<Subdir>, d: Subdir, docsOnly: bool)
    requires Hidden(d.name)
    ensures WalkDirs(root, ds + [d], docsOnly) == WalkDirs(root, ds, docsOnly)
    decreases |ds|
  {
    if ds == [] {
      assert ([] + [d])[1..] == [];
    } else {
      assert (ds + [d])[0] == ds[0];
      assert (ds + [d])[1..] == ds[1..] + [d];
      HiddenDirAppended(root, ds[1..], d, docsOnly);
    }
  }

  // ---------------------------------------------------------------- the fourth script's searches

  /** The fourth script's search modes. */
  datatype Mode = FilesMode | FoldersMode | FolderContentsMode

  /** The kept file matches: paths `os.path.isfile` accepts that match the file-type choice. */
  function FileMatches(docsOnly: bool, fileSet: set<string>, paths: seq<string>): seq<string> {
    if paths == [] then []
    else
      var p := paths[|paths| - 1];
      FileMatches(docsOnly, fileSet, paths[..|paths| - 1]) + (if p in fileSet && TypeMatches(docsOnly, p) then [p] else [])
  }

  lemma {:induction false} FileMatchesMembers(docsOnly: bool, fileSet: set<string>, paths: seq<string>)
    ensures forall x :: x in FileMatches(docsOnly, fileSet, paths) <==> x in paths && x in fileSet && TypeMatches(docsOnly, x)
  {
    if paths != [] {
      FileMatchesMembers(docsOnly, fileSet, paths[..|paths| - 1]);
      assert paths == paths[..|paths| - 1] + [paths[|paths| - 1]];
    }
  }

  /** `search_files_fast`: the matches of every search directory, filtered, then `sorted(list(set(...)))`. */
  function FilesFast(docsOnly: bool, fileSet: set<string>, matched: seq<seq<string>>): seq<string> {
    SortedSet(FileMatches(docsOnly, fileSet, Flatten(matched)))
  }

  /** `search_folders_fast`: the matches of every search directory, `sorted(list(set(...)))`. */
  function FoldersFast(matched: seq<seq<string>>): seq<string> {
    SortedSet(Flatten(matched))
  }

  /** `get_all_files_in_dir` of a folder, with `contents` saying what lies below each directory; anything else lists nothing. */
  function FolderFiles(contents: map<string, Tree>, folder: string, docsOnly: bool): seq<string> {
    if folder in contents then Walk(folder, contents[folder], docsOnly) else []
  }

  /** The listings of the folders, one after another. */
  function ContentsOf(contents: map<string, Tree>, folders: seq<string>, docsOnly: bool): seq<string> {
    if folders == [] then []
    else ContentsOf(contents, folders[..|folders| - 1], docsOnly) + FolderFiles(contents, folders[|folders| - 1], docsOnly)
  }

  lemma {:induction false} ContentsOfMembers(contents: map<string, Tree>, folders: seq<string>, docsOnly: bool, x: string)
    ensures x in ContentsOf(contents, folders, docsOnly) <==>
      exists f :: f in folders && x in FolderFiles(contents, f, docsOnly)
  {
    if folders != [] {
      var init, last := folders[..|folders| - 1], folders[|folders| - 1];
      ContentsOfMembers(contents, init, docsOnly, x);
      assert folders == init + [last];
      if x in ContentsOf(contents, folders, docsOnly) {
        if x in ContentsOf(contents, init, docsOnly) {
          var f :| f in init && x in FolderFiles(contents, f, docsOnly);
          assert f in folders;
        } else {
          assert last in folders;
        }
      } else {
        forall f | f in folders ensures x !in FolderFiles(contents, f, docsOnly) {
          if f != last {
            assert f in init;
          }
        }
      }
    }
  }

  /** The results `search_with_grep_multiple_dirs` works from, as the external searches returned them. */
  datatype Matches = Matches(fileMatches: seq<seq<string>>, folderMatches: seq<seq<string>>,
                             fileSet: set<string>, contents: map<string, Tree>)

  /**
   * `search_with_grep_multiple_dirs`: the folder search alone in folder mode; otherwise the
   * file search, and in folder-contents mode, when some folder matched, the listings of the
   * matched folders added and the whole de-duplicated (first occurrence kept) and sorted.
   */
  function SearchMultiple(mode: Mode, docsOnly: bool, m: Matches): seq<string> {
    match mode
    case FoldersMode => FoldersFast(m.folderMatches)
    case FilesMode => FilesFast(docsOnly, m.fileSet, m.fileMatches)
    case FolderContentsMode =>
      var found := FilesFast(docsOnly, m.fileSet, m.fileMatches);
      var folders := FoldersFast(m.folderMatches);
      if folders != [] then SortStrings(Dedup(found + ContentsOf(m.contents, folders, docsOnly))) else found
  }

  /** What a search may return: the matches of its mode, and in folder-contents mode the listing of every matched folder. */
  predicate Expected(mode: Mode, docsOnly: bool, m: Matches, x: string) {
    match mode
    case FoldersMode => x in Flatten(m.folderMatches)
    case FilesMode => x in Flatten(m.fileMatches) && x in m.fileSet && TypeMatches(docsOnly, x)
    case FolderContentsMode =>
      (x in Flatten(m.fileMatches) && x in m.fileSet && TypeMatches(docsOnly, x))
      || exists f :: f in Flatten(m.folderMatches) && x in FolderFiles(m.contents, f, docsOnly)
  }

  /** Whatever the mode, the result is ascending, without repeats, and holds exactly what is expected. */
  lemma SearchMultipleExact(mode: Mode, docsOnly: bool, m: Matches)
    ensures var r := SearchMultiple(mode, docsOnly, m);
      Sorted(r) && NoDup(r) && forall x :: x in r <==> Expected(mode, docsOnly, m, x)
  {
    var files := FileMatches(docsOnly, m.fileSet, Flatten(m.fileMatches));
    FileMatchesMembers(docsOnly, m.fileSet, Flatten(m.fileMatches));
    SortedSetFacts(files);
    SortedSetFacts(Flatten(m.folderMatches));
    if mode.FolderContentsMode? {
      var found := FilesFast(docsOnly, m.fileSet, m.fileMatches);
      var folders := FoldersFast(m.folderMatches);
      var all := found + ContentsOf(m.contents, folders, docsOnly);
      SortedSetFacts(all);
      forall x ensures x in ContentsOf(m.contents, folders, docsOnly) <==>
        exists f :: f in Flatten(m.folderMatches) && x in FolderFiles(m.contents, f, docsOnly)
      {
        ContentsOfMembers(m.contents, folders, docsOnly, x);
      }
    }
  }

  /** The collecting loop over the matched folders. */
  method CollectContents(contents: map<string, Tree>, folders: seq<string>, docsOnly: bool, start: seq<string>)
    returns (all: seq<string>)
    ensures all == start + ContentsOf(contents, folders, docsOnly)
  {
    all := start;
    var i := 0;
    while i < |folders|
      invariant 0 <= i <= |folders|
      invariant all == start + ContentsOf(contents, folders[..i], docsOnly)
    {
      assert folders[..i + 1][..i] == folders[..i];
      var folderFiles := FolderFiles(contents, folders[i], docsOnly);
      all := all + folderFiles;
      i := i + 1;
    }
    assert folders[..i] == folders;
  }

  /** `search_with_grep_multiple_dirs`, the external searches given. */
  method SearchWithGrepMultipleDirs(mode: Mode, docsOnly: bool, m: Matches) returns (results: seq<string>)
    ensures results == SearchMultiple(mode, docsOnly, m)
  {
    if mode == FoldersMode {
      return FoldersFast(m.folderMatches);
    }
    var allResults := FilesFast(docsOnly, m.fileSet, m.fileMatches);
    if mode == FolderContentsMode {
      var matchedFolders := FoldersFast(m.folderMatches);
      if matchedFolders != [] {
        allResults := CollectContents(m.contents, matchedFolders, docsOnly, allResults);
        var uniqueResults := UniqueInOrder(allResults);
        return SortStrings(uniqueResults);
      }
    }
    return allResults;
  }

  /**
   * The file picker of the fifth script runs the same search inline, except that in
   * folder-contents mode it de-duplicates and sorts even when no folder matched.
   */
  function PickerSearch(mode: Mode, docsOnly: bool, m: Matches): seq<string> {
    match mode
    case FoldersMode => FoldersFast(m.folderMatches)
    case FilesMode => FilesFast(docsOnly, m.fileSet, m.fileMatches)
    case FolderContentsMode =>
      var found := FilesFast(docsOnly, m.fileSet, m.fileMatches);
      SortStrings(Dedup(found + ContentsOf(m.contents, FoldersFast(m.folderMatches), docsOnly)))
  }

  /** The two ways of writing the search agree on every input: the extra sort of an already sorted set changes nothing. */
  lemma PickerSearchAgrees(mode: Mode, docsOnly: bool, m: Matches)
    ensures PickerSearch(mode, docsOnly, m) == SearchMultiple(mode, docsOnly, m)
  {
    if mode.FolderContentsMode? && FoldersFast(m.folderMatches) == [] {
      var found := FilesFast(docsOnly, m.fileSet, m.fileMatches);
      var files := FileMatches(docsOnly, m.fileSet, Flatten(m.fileMatches));
      assert ContentsOf(m.contents, [], docsOnly) == [];
      assert found + [] == found;
      SortedSetIdempotent(files);
    }
  }

  // ---------------------------------------------------------------- the second script's ordering

  /** `found_files.sort()` before numbering: whatever was assembled, in ascending order. */
  lemma SortedBeforeNumbering(q: PathQuery, docsOnly: bool, files: seq<string>, dirs: seq<string>,
                              paths: seq<string>, fileSet: set<string>)
    ensures var r := SortStrings(Assemble(q, docsOnly, files, dirs, paths, fileSet));
      Sorted(r) && multiset(r) == multiset(Assemble(q, docsOnly, files, dirs, paths, fileSet))
  {
    SortFacts(Assemble(q, docsOnly, files, dirs, paths, fileSet));
  }
}
