/**
 * The bookkeeping of the finder's Textual screens: the set of selected row indices that a
 * click toggles, the list handed back when a selection is confirmed, and the main screen's
 * lists of chosen directories and files, which never hold an entry twice.
 */
module FinderScreens {
  import opened Wrappers
  import opened OrgStrings
  import opened Seqs
  import opened SearchResults

  // ---------------------------------------------------------------- selection sets

  /** A click on row `i`: removed from the set when present, added otherwise. */
  function Toggled(s: set<nat>, i: nat): set<nat> {
    if i in s then s - {i} else s + {i}
  }

  /** Toggling flips the clicked row only, and a second click undoes the first. */
  lemma ToggleFacts(s: set<nat>, i: nat)
    ensures i in Toggled(s, i) <==> i !in s
    ensures forall j :: j != i ==> (j in Toggled(s, i) <==> j in s)
    ensures Toggled(Toggled(s, i), i) == s
  {
  }

  /** `[i for i in sorted(s) if i < n]`. */
  function AscendingBelow(s: set<nat>, n: nat): (r: seq<nat>)
    ensures |r| <= n
  {
    if n == 0 then [] else AscendingBelow(s, n - 1) + (if n - 1 in s then [n - 1] else [])
  }

  /** The indices come in strictly ascending order and are exactly the members of the set below `n`. */
  lemma {:induction false} AscendingBelowFacts(s: set<nat>, n: nat)
    ensures forall i, j :: 0 <= i < j < |AscendingBelow(s, n)| ==> AscendingBelow(s, n)[i] < AscendingBelow(s, n)[j]
    ensures forall x :: x in AscendingBelow(s, n) <==> x in s && x < n
  {
    if n > 0 {
      AscendingBelowFacts(s, n - 1);
      var init := AscendingBelow(s, n - 1);
      assert forall i :: 0 <= i < |init| ==> init[i] < n - 1 by {
        forall i | 0 <= i < |init| ensures init[i] < n - 1 {
          assert init[i] in init;
        }
      }
    }
  }

  /** The entries of the selected rows below `n`, in row order. */
  function PickedBelow(items: seq<string>, s: set<nat>, n: nat): seq<string>
    requires n <= |items|
  {
    if n == 0 then [] else PickedBelow(items, s, n - 1) + (if n - 1 in s then [items[n - 1]] else [])
  }

  /** `[items[i] for i in sorted(s) if i < len(items)]`. */
  function Picked(items: seq<string>, s: set<nat>): seq<string> {
    PickedBelow(items, s, |items|)
  }

  lemma {:induction false} PickedBelowIndices(items: seq<string>, s: set<nat>, n: nat)
    requires n <= |items|
    ensures var idx := AscendingBelow(s, n);
      |PickedBelow(items, s, n)| == |idx|
      && forall k :: 0 <= k < |idx| ==> idx[k] < n && PickedBelow(items, s, n)[k] == items[idx[k]]
  {
    if n > 0 {
      PickedBelowIndices(items, s, n - 1);
    }
  }

  /**
   * Confirming returns the entries of the selected rows in ascending row order, one per
   * selected row that exists; selected numbers past the end of the list are dropped.
   */
  lemma PickedInOrder(items: seq<string>, s: set<nat>)
    ensures var idx := AscendingBelow(s, |items|);
      (forall i, j :: 0 <= i < j < |idx| ==> idx[i] < idx[j])
      && (forall x :: x in idx <==> x in s && x < |items|)
      && |Picked(items, s)| == |idx|
      && forall k :: 0 <= k < |idx| ==> idx[k] < |items| && Picked(items, s)[k] == items[idx[k]]
  {
    AscendingBelowFacts(s, |items|);
    PickedBelowIndices(items, s, |items|);
  }

  /** No row selected, nothing picked. */
  lemma {:induction false} NothingSelectedNothingPicked(items: seq<string>, n: nat)
    requires n <= |items|
    ensures PickedBelow(items, {}, n) == []
  {
    if n > 0 {
      NothingSelectedNothingPicked(items, n - 1);
    }
  }

  /** The rows of `found` whose entry is already among `current`, below row `n`. */
  function MarkedBelow(found: seq<string>, current: seq<string>, n: nat): set<nat> {
    set i: nat | i < n && i < |found| && found[i] in current
  }

  // ---------------------------------------------------------------- the fourth script's screens

  /** `DirectorySelectScreen`: matching directories, with those chosen before already marked. */
  class DirectorySelectScreen {
    var directories: seq<string>
    var selectedIndices: set<nat>
    var currentSelected: seq<string>

    /** `current_selected or []`. */
    constructor(current: Option<seq<string>>)
      ensures directories == [] && selectedIndices == {}
      ensures currentSelected == (if current.Some? then current.value else [])
    {
      directories := [];
      selectedIndices := {};
      currentSelected := if current.Some? then current.value else [];
    }

    /** `on_mount`: the folder search of the home directory, each row already chosen marked. */
    method Mount(matched: seq<string>)
      modifies this
      ensures directories == FoldersFast([matched]) && currentSelected == old(currentSelected)
      ensures selectedIndices == old(selectedIndices) + MarkedBelow(directories, currentSelected, |directories|)
    {
      directories := FoldersFast([matched]);
      var i := 0;
      while i < |directories|
        invariant 0 <= i <= |directories|
        invariant directories == FoldersFast([matched]) && currentSelected == old(currentSelected)
        invariant selectedIndices == old(selectedIndices) + MarkedBelow(directories, currentSelected, i)
      {
        if directories[i] in currentSelected {
          selectedIndices := selectedIndices + {i};
        }
        assert MarkedBelow(directories, currentSelected, i + 1)
          == MarkedBelow(directories, currentSelected, i) + (if directories[i] in currentSelected then {i} else {});
        i := i + 1;
      }
    }

    /** `on_list_view_selected`: a row past the directories (the `No directories found.` row) is ignored. */
    method Select(index: nat)
      modifies this
      ensures directories == old(directories) && currentSelected == old(currentSelected)
      ensures selectedIndices == if index >= |directories| then old(selectedIndices) else Toggled(old(selectedIndices), index)
    {
      if index >= |directories| {
        return;
      }
      if index in selectedIndices {
        selectedIndices := selectedIndices - {index};
      } else {
        selectedIndices := selectedIndices + {index};
      }
    }

    /** `Add Selected`: the directories chosen before and the rows selected now, as a set. */
    method AddSelected() returns (allSelected: set<string>)
      ensures allSelected == (set x | x in currentSelected + Picked(directories, selectedIndices))
    {
      var selectedDirs := Picked(directories, selectedIndices);
      allSelected := set x | x in currentSelected + selectedDirs;
    }

    /** `Clear Selection`. */
    method Clear()
      modifies this
      ensures selectedIndices == {}
      ensures directories == old(directories) && currentSelected == old(currentSelected)
    {
      selectedIndices := {};
    }
  }

  /** What `Open Selected` does: nothing while no row is selected, hand the files to the program, or fail on a row past the list. */
  datatype OpenOutcome = Stay | OpenWith(files: seq<string>) | IndexError

  /** `FileSelectScreen`: the found files, any subset of them selected. */
  class FileSelectScreen {
    const files: seq<string>
    var selectedIndices: set<nat>

    constructor(found: seq<string>)
      ensures files == found && selectedIndices == {}
    {
      files := found;
      selectedIndices := {};
    }

    /** `on_list_view_selected`: this screen toggles whatever row it is told, with no bound check. */
    method Select(index: nat)
      modifies this
      ensures selectedIndices == Toggled(old(selectedIndices), index)
    {
      if index in selectedIndices {
        selectedIndices := selectedIndices - {index};
      } else {
        selectedIndices := selectedIndices + {index};
      }
    }

    /**
     * `Open Selected`: `[self.files[i] for i in sorted(...)]` with no bound check, so a selected
     * row past the list raises; otherwise the selected files in row order, or nothing to do.
     */
    method Open() returns (outcome: OpenOutcome)
      ensures outcome == if exists i :: i in selectedIndices && i >= |files| then IndexError
        else if selectedIndices == {} then Stay
        else OpenWith(Picked(files, selectedIndices))
      ensures outcome.OpenWith? ==> outcome.files != []
    {
      if exists i :: i in selectedIndices && i >= |files| {
        return IndexError;
      }
      var selectedFiles := Picked(files, selectedIndices);
      PickedInOrder(files, selectedIndices);
      if selectedIndices != {} {
        var i :| i in selectedIndices;
        assert i in AscendingBelow(selectedIndices, |files|);
      }
      if selectedFiles != [] {
        assert AscendingBelow(selectedIndices, |files|)[0] in selectedIndices;
        return OpenWith(selectedFiles);
      }
      return Stay;
    }
  }

  // ---------------------------------------------------------------- the fifth script's screens

  /** `DirectoryPickerScreen`: a folder search of the home directory and a selection among its results. */
  class DirectoryPickerScreen {
    const homeDir: string
    var foundDirectories: seq<string>
    var selectedIndices: set<nat>

    constructor(home: string)
      ensures homeDir == home && foundDirectories == [] && selectedIndices == {}
    {
      homeDir := home;
      foundDirectories := [];
      selectedIndices := {};
    }

    /** `Search`: a blank term changes nothing; otherwise the results replace the list and the selection is cleared. */
    method Search(searchInput: string, matched: seq<string>) returns (searched: bool)
      modifies this
      ensures searched <==> Strip(searchInput) != []
      ensures searched ==> foundDirectories == FoldersFast([matched]) && selectedIndices == {}
      ensures !searched ==> foundDirectories == old(foundDirectories) && selectedIndices == old(selectedIndices)
    {
      var searchTerm := Strip(searchInput);
      if searchTerm == [] {
        return false;
      }
      foundDirectories := FoldersFast([matched]);
      selectedIndices := {};
      return true;
    }

    /** `Clear Results`. */
    method Clear()
      modifies this
      ensures foundDirectories == [] && selectedIndices == {}
    {
      foundDirectories := [];
      selectedIndices := {};
    }

    /** `on_list_view_selected`: rows past the results are ignored. */
    method Select(index: nat)
      modifies this
      ensures foundDirectories == old(foundDirectories)
      ensures selectedIndices == if index >= |foundDirectories| then old(selectedIndices) else Toggled(old(selectedIndices), index)
    {
      if index >= |foundDirectories| {
        return;
      }
      if index in selectedIndices {
        selectedIndices := selectedIndices - {index};
      } else {
        selectedIndices := selectedIndices + {index};
      }
    }

    /** `Add Selected to List`: the selected directories in row order, or `None` (a warning) when there are none. */
    method AddSelected() returns (dismissed: Option<seq<string>>)
      ensures var picked := Picked(foundDirectories, selectedIndices);
        dismissed == if picked != [] then Some(picked) else None
    {
      var selectedDirs := Picked(foundDirectories, selectedIndices);
      if selectedDirs != [] {
        return Some(selectedDirs);
      }
      return None;
    }
  }

  /** What the file search did. */
  datatype SearchOutcome = NoTerm | NoDirectories | Searched

  /** `FilePickerScreen`: a search of the chosen directories and a selection among its results. */
  class FilePickerScreen {
    const searchDirs: seq<string>
    var foundFiles: seq<string>
    var selectedIndices: set<nat>

    constructor(dirs: seq<string>)
      ensures searchDirs == dirs && foundFiles == [] && selectedIndices == {}
    {
      searchDirs := dirs;
      foundFiles := [];
      selectedIndices := {};
    }

    /**
     * `Search`: a blank term or no directory to search changes nothing; otherwise the
     * results of the mode replace the list, sorted and without repeats, and the selection
     * is cleared.
     */
    method Search(searchInput: string, mode: Mode, docsOnly: bool, m: Matches) returns (outcome: SearchOutcome)
      modifies this
      ensures outcome == (if Strip(searchInput) == [] then NoTerm else if searchDirs == [] then NoDirectories else Searched)
      ensures outcome == Searched ==> foundFiles == PickerSearch(mode, docsOnly, m) && selectedIndices == {}
      ensures outcome != Searched ==> foundFiles == old(foundFiles) && selectedIndices == old(selectedIndices)
    {
      var searchTerm := Strip(searchInput);
      if searchTerm == [] {
        return NoTerm;
      }
      if searchDirs == [] {
        return NoDirectories;
      }
      if mode == FoldersMode {
        foundFiles := FoldersFast(m.folderMatches);
      } else {
        foundFiles := FilesFast(docsOnly, m.fileSet, m.fileMatches);
        if mode == FolderContentsMode {
          var folders := FoldersFast(m.folderMatches);
          var all := CollectContents(m.contents, folders, docsOnly, foundFiles);
          var uniqueResults := UniqueInOrder(all);
          foundFiles := SortStrings(uniqueResults);
        }
      }
      selectedIndices := {};
      return Searched;
    }

    /** `Clear Results`. */
    method Clear()
      modifies this
      ensures foundFiles == [] && selectedIndices == {}
    {
      foundFiles := [];
      selectedIndices := {};
    }

    /** `on_list_view_selected`: rows past the results are ignored. */
    method Select(index: nat)
      modifies this
      ensures foundFiles == old(foundFiles)
      ensures selectedIndices == if index >= |foundFiles| then old(selectedIndices) else Toggled(old(selectedIndices), index)
    {
      if index >= |foundFiles| {
        return;
      }
      if index in selectedIndices {
        selectedIndices := selectedIndices - {index};
      } else {
        selectedIndices := selectedIndices + {index};
      }
    }

    /** `Add Selected to List`: the selected files in row order, or `None` (a warning) when there are none. */
    method AddSelected() returns (dismissed: Option<seq<string>>)
      ensures var picked := Picked(foundFiles, selectedIndices);
        dismissed == if picked != [] then Some(picked) else None
    {
      var selectedFiles := Picked(foundFiles, selectedIndices);
      if selectedFiles != [] {
        return Some(selectedFiles);
      }
      return None;
    }
  }

  // ---------------------------------------------------------------- the main screen's lists

  /** `s.pop(i)`: the list without its entry at `i`. */
  function RemoveAt(s: seq<string>, i: nat): seq<string>
    requires i < |s|
  {
    s[..i] + s[i + 1..]
  }

  /** Removing an entry keeps a list free of repeats, and removes exactly that entry. */
  lemma RemoveAtFacts(s: seq<string>, i: nat)
    requires NoDup(s) && i < |s|
    ensures NoDup(RemoveAt(s, i))
    ensures forall x :: x in RemoveAt(s, i) <==> x in s && x != s[i]
  {
    var r := RemoveAt(s, i);
    forall a, b | 0 <= a < b < |r| ensures r[a] != r[b] {
      var a', b' := if a < i then a else a + 1, if b < i then b else b + 1;
      assert r[a] == s[a'] && r[b] == s[b'];
    }
    forall x ensures x in r <==> x in s && x != s[i] {
      if x in r {
        var a :| 0 <= a < |r| && r[a] == x;
        var a' := if a < i then a else a + 1;
        assert s[a'] == x;
      }
      if x in s && x != s[i] {
        var a :| 0 <= a < |s| && s[a] == x;
        assert a != i;
        assert r[if a < i then a else a - 1] == x;
      }
    }
  }

  /** `for f in result: if f not in lst: lst.append(f)`. */
  function Merged(existing: seq<string>, items: seq<string>): seq<string> {
    if items == [] then existing
    else
      var m := Merged(existing, items[..|items| - 1]);
      var x := items[|items| - 1];
      if x in m then m else m + [x]
  }

  /** The list keeps its entries in front, gains exactly the new ones, and gets no repeat. */
  lemma {:induction false} MergedFacts(existing: seq<string>, items: seq<string>)
    requires NoDup(existing)
    ensures NoDup(Merged(existing, items))
    ensures |Merged(existing, items)| >= |existing| && Merged(existing, items)[..|existing|] == existing
    ensures forall x :: x in Merged(existing, items) <==> x in existing || x in items
  {
    if items != [] {
      var init := items[..|items| - 1];
      MergedFacts(existing, init);
      var m := Merged(existing, init);
      var x := items[|items| - 1];
      assert items == init + [x];
      if x !in m {
        var r := m + [x];
        forall a, b | 0 <= a < b < |r| ensures r[a] != r[b] {
          if b == |m| {
            assert r[a] in m;
          } else {
            assert r[a] == m[a] && r[b] == m[b];
          }
        }
        assert r[..|existing|] == m[..|existing|];
      }
    }
  }

  /** Merging into a list without repeats is de-duplicating the two lists one after the other. */
  lemma {:induction false} MergedIsDedup(existing: seq<string>, items: seq<string>)
    requires NoDup(existing)
    ensures Merged(existing, items) == Dedup(existing + items)
  {
    if items == [] {
      assert existing + items == existing;
      DedupOfNoDup(existing);
    } else {
      var init := items[..|items| - 1];
      var x := items[|items| - 1];
      var all := existing + items;
      MergedIsDedup(existing, init);
      MergedFacts(existing, init);
      assert all[..|all| - 1] == existing + init && all[|all| - 1] == x;
      assert Dedup(all) == Dedup(existing + init) + (if x in existing + init then [] else [x]);
      assert x in Merged(existing, init) <==> x in existing + init;
    }
  }

  /** The loop of `on_files_picked` / `on_dirs_picked`. */
  method AppendMissing(existing: seq<string>, items: seq<string>) returns (lst: seq<string>)
    ensures lst == Merged(existing, items)
  {
    lst := existing;
    var i := 0;
    while i < |items|
      invariant 0 <= i <= |items|
      invariant lst == Merged(existing, items[..i])
    {
      assert items[..i + 1][..i] == items[..i];
      if items[i] !in lst {
        lst := lst + [items[i]];
      }
      i := i + 1;
    }
    assert items[..i] == items;
  }

  /** The file system as the main screen consults it: directories, files, the `HOME` directory and the password database's home directories. */
  datatype FileSystem = FileSystem(dirs: set<string>, files: set<string>, home: string, userHomes: map<string, string>)

  /** The index of the first `c` at or after `i`, or `|s|`. */
  function FindFrom(s: string, c: char, i: nat): (r: nat)
    requires i <= |s|
    ensures i <= r <= |s|
    decreases |s| - i
  {
    if i == |s| || s[i] == c then i else FindFrom(s, c, i + 1)
  }

  /** `s.rstrip('/')`. */
  function StripSlashes(s: string): (r: string)
    ensures |r| <= |s|
  {
    if s != [] && s[|s| - 1] == '/' then StripSlashes(s[..|s| - 1]) else s
  }

  /**
   * `os.path.expanduser`: `~` up to the first `/` becomes `HOME`, `~name` that user's home;
   * an unknown user leaves the path as it is; an empty result becomes `/`.
   */
  function ExpandUser(fs: FileSystem, path: string): string {
    if !StartsWith(path, "~") then path
    else
      var i := FindFrom(path, '/', 1);
      var name := path[1..i];
      if i != 1 && name !in fs.userHomes then path
      else
        var userHome := StripSlashes(if i == 1 then fs.home else fs.userHomes[name]);
        var r := userHome + path[i..];
        if r == [] then "/" else r
  }

  /** `~/notes` is the `notes` directory of the home directory. */
  lemma HomeExpanded(fs: FileSystem, path: string)
    requires path == "~/notes" && fs.home == "/home/user"
    ensures ExpandUser(fs, path) == "/home/user/notes"
  {
    assert path[1] == '/';
    assert path[1..] == "/notes";
    assert StripSlashes("/home/user") == "/home/user";
  }

  /** What a manual entry did: nothing for a blank entry, an error for a path that is not there, a warning for a duplicate, or an append. */
  datatype AddOutcome = Blank | NotThere | AlreadyListed | Added

  /** Which of the main screen's two lists a click was on. */
  datatype ListId = DirsList | FilesList

  /** `MainScreen`: the chosen directories and files. */
  class MainScreen {
    var selectedDirs: seq<string>
    var selectedFiles: seq<string>

    /** Neither list ever holds an entry twice. */
    predicate Valid()
      reads this
    {
      NoDup(selectedDirs) && NoDup(selectedFiles)
    }

    /** The directory list starts with the author's home directory. */
    constructor()
      ensures selectedDirs == ["/home/shaul"] && selectedFiles == [] && Valid()
    {
      selectedDirs := ["/home/shaul"];
      selectedFiles := [];
    }

    /** The manual directory entry: stripped, `~` expanded, then checked to be a directory and not yet listed. */
    method AddManualDir(value: string, fs: FileSystem) returns (outcome: AddOutcome)
      requires Valid()
      modifies this
      ensures Valid() && selectedFiles == old(selectedFiles)
      ensures var p := ExpandUser(fs, Strip(value));
        if Strip(value) == [] then outcome == Blank && selectedDirs == old(selectedDirs)
        else if p !in fs.dirs then outcome == NotThere && selectedDirs == old(selectedDirs)
        else if p in old(selectedDirs) then outcome == AlreadyListed && selectedDirs == old(selectedDirs)
        else outcome == Added && selectedDirs == old(selectedDirs) + [p]
    {
      var dirPath := Strip(value);
      if dirPath == [] {
        return Blank;
      }
      if StartsWith(dirPath, "~") {
        dirPath := ExpandUser(fs, dirPath);
      }
      if dirPath !in fs.dirs {
        return NotThere;
      }
      if dirPath in selectedDirs {
        return AlreadyListed;
      }
      MergedFacts(selectedDirs, [dirPath]);
      assert Merged(selectedDirs, [dirPath]) == selectedDirs + [dirPath];
      selectedDirs := selectedDirs + [dirPath];
      return Added;
    }

    /** The manual file entry: stripped, `~` expanded, then checked to be a file and not yet listed. */
    method AddManualFile(value: string, fs: FileSystem) returns (outcome: AddOutcome)
      requires Valid()
      modifies this
      ensures Valid() && selectedDirs == old(selectedDirs)
      ensures var p := ExpandUser(fs, Strip(value));
        if Strip(value) == [] then outcome == Blank && selectedFiles == old(selectedFiles)
        else if p !in fs.files then outcome == NotThere && selectedFiles == old(selectedFiles)
        else if p in old(selectedFiles) then outcome == AlreadyListed && selectedFiles == old(selectedFiles)
        else outcome == Added && selectedFiles == old(selectedFiles) + [p]
    {
      var filePath := Strip(value);
      if filePath == [] {
        return Blank;
      }
      if StartsWith(filePath, "~") {
        filePath := ExpandUser(fs, filePath);
      }
      if filePath !in fs.files {
        return NotThere;
      }
      if filePath in selectedFiles {
        return AlreadyListed;
      }
      MergedFacts(selectedFiles, [filePath]);
      assert Merged(selectedFiles, [filePath]) == selectedFiles + [filePath];
      selectedFiles := selectedFiles + [filePath];
      return Added;
    }

    /** A click on a list row removes exactly that entry; a click past the entries does nothing. */
    method Remove(list: ListId, index: nat)
      requires Valid()
      modifies this
      ensures Valid()
      ensures list == DirsList && index < |old(selectedDirs)| ==> selectedDirs == RemoveAt(old(selectedDirs), index)
      ensures list == FilesList && index < |old(selectedFiles)| ==> selectedFiles == RemoveAt(old(selectedFiles), index)
      ensures list == FilesList || index >= |old(selectedDirs)| ==> selectedDirs == old(selectedDirs)
      ensures list == DirsList || index >= |old(selectedFiles)| ==> selectedFiles == old(selectedFiles)
    {
      if list == DirsList {
        if selectedDirs != [] && index < |selectedDirs| {
          RemoveAtFacts(selectedDirs, index);
          selectedDirs := RemoveAt(selectedDirs, index);
        }
      } else {
        if selectedFiles != [] && index < |selectedFiles| {
          RemoveAtFacts(selectedFiles, index);
          selectedFiles := RemoveAt(selectedFiles, index);
        }
      }
    }

    /** `Pick Files`: the file picker opens on the chosen directories, and only when there is one. */
    method PickFiles() returns (searchDirs: Option<seq<string>>)
      ensures searchDirs == if selectedDirs == [] then None else Some(selectedDirs)
    {
      if selectedDirs == [] {
        return None;
      }
      return Some(selectedDirs);
    }

    /** `on_dirs_picked`: the picked directories not yet listed are appended in order. */
    method DirsPicked(result: Option<seq<string>>)
      requires Valid()
      modifies this
      ensures Valid() && selectedFiles == old(selectedFiles)
      ensures selectedDirs == if result.Some? then Merged(old(selectedDirs), result.value) else old(selectedDirs)
    {
      if result.Some? && result.value != [] {
        MergedFacts(selectedDirs, result.value);
        selectedDirs := AppendMissing(selectedDirs, result.value);
      }
    }

    /** `on_files_picked`: the picked files not yet listed are appended in order. */
    method FilesPicked(result: Option<seq<string>>)
      requires Valid()
      modifies this
      ensures Valid() && selectedDirs == old(selectedDirs)
      ensures selectedFiles == if result.Some? then Merged(old(selectedFiles), result.value) else old(selectedFiles)
    {
      if result.Some? && result.value != [] {
        MergedFacts(selectedFiles, result.value);
        selectedFiles := AppendMissing(selectedFiles, result.value);
      }
    }

    /** `Clear All`. */
    method ClearAll()
      modifies this
      ensures selectedDirs == [] && selectedFiles == [] && Valid()
    {
      selectedDirs := [];
      selectedFiles := [];
    }

    /**
     * `Open Selected Files`: nothing without selected files, without a program name, or when
     * `which` does not find the program; otherwise every selected file goes to the program.
     */
    method OpenSelected(programInput: string, onPath: set<string>) returns (program: string, toOpen: seq<string>)
      ensures program == Strip(programInput)
      ensures toOpen == if selectedFiles == [] || program == [] || program !in onPath then [] else selectedFiles
    {
      program := Strip(programInput);
      if selectedFiles == [] || program == [] || program !in onPath {
        return program, [];
      }
      return program, selectedFiles;
    }
  }
}
