/**
 * The finder scripts' document test: a path is a document when, ignoring letter case, it
 * ends in `.` and one of the listed extensions, or when it is a `~`, `.bak` or `.backup`
 * copy of such a path. Also the first two scripts' `search_files`: the `fd` output lines,
 * the document filter and the handling of `fd`'s exit codes.
 */
module DocumentFiles {
  import opened Wrappers
  import opened OrgStrings
  import opened Seqs

  /** `DOC_EXTENSIONS`, the same table in every finder script. */
  const DocExtensions: seq<string> := [
    "txt", "doc", "docx", "pdf", "odt", "ods", "odp", "rtf",
    "xls", "xlsx", "ppt", "pptx", "md", "csv", "html", "htm",
    "epub", "mobi", "tex", "log", "json", "xml", "yaml", "yml",
    "org"
  ]

  /** `BACKUP_SUFFIXES`. */
  const BackupSuffixes: seq<string> := ["~", ".bak", ".backup"]

  /** Both tables are written in lower case, so the `.lower()` calls on their entries change nothing. */
  lemma TablesAreLowerCase()
    ensures forall k :: 0 <= k < |DocExtensions| ==> Lower(DocExtensions[k]) == DocExtensions[k]
    ensures forall k :: 0 <= k < |BackupSuffixes| ==> Lower(BackupSuffixes[k]) == BackupSuffixes[k]
  {
  }

  /** `any(lower.endswith(f'.{ext}') for ext in DOC_EXTENSIONS)`, on a path already lowered. */
  predicate HasDocExtension(lower: string) {
    exists k :: 0 <= k < |DocExtensions| && EndsWith(lower, "." + DocExtensions[k])
  }

  /** The backup test for one suffix: the lowered path ends with it, and the original path without it has a document extension. */
  predicate BackupOf(path: string, suffix: string) {
    EndsWith(Lower(path), suffix) && HasDocExtension(Lower(path[..|path| - |suffix|]))
  }

  /** `is_document_file`: the extension test or the backup test. */
  predicate IsDocumentFile(path: string) {
    HasDocExtension(Lower(path))
    || exists k :: 0 <= k < |BackupSuffixes| && BackupOf(path, BackupSuffixes[k])
  }

  /** `is_document_file` with its `is_backup` flag loop, which stops at the first suffix that makes a backup. */
  method CheckDocumentFile(path: string) returns (isDocument: bool)
    ensures isDocument == IsDocumentFile(path)
  {
    var fileLower := Lower(path);
    var isDoc := HasDocExtension(fileLower);
    var isBackup := false;
    var k := 0;
    while k < |BackupSuffixes|
      invariant 0 <= k <= |BackupSuffixes|
      invariant isBackup <==> exists j :: 0 <= j < k && BackupOf(path, BackupSuffixes[j])
    {
      var suffix := BackupSuffixes[k];
      if EndsWith(fileLower, suffix) {
        var basePath := path[..|path| - |suffix|];
        if HasDocExtension(Lower(basePath)) {
          isBackup := true;
          break;
        }
      }
      assert !BackupOf(path, suffix);
      k := k + 1;
    }
    isDocument := isDoc || isBackup;
  }

  /** The test depends on the path only through its lowered form: letter case never matters. */
  lemma CaseInsensitive(p: string, q: string)
    requires Lower(p) == Lower(q)
    ensures IsDocumentFile(p) <==> IsDocumentFile(q)
  {
    forall k | 0 <= k < |BackupSuffixes|
      ensures BackupOf(p, BackupSuffixes[k]) <==> BackupOf(q, BackupSuffixes[k])
    {
      var s := BackupSuffixes[k];
      if |s| <= |p| {
        LowerSlice(p, 0, |p| - |s|);
        LowerSlice(q, 0, |q| - |s|);
        assert Lower(p[..|p| - |s|]) == Lower(q[..|q| - |s|]);
      }
    }
  }

  /** Every backup copy of a path with a document extension is a document. */
  lemma BackupOfDocument(p: string, k: nat)
    requires HasDocExtension(Lower(p)) && k < |BackupSuffixes|
    ensures IsDocumentFile(p + BackupSuffixes[k])
  {
    var s := BackupSuffixes[k];
    var bp := p + s;
    assert bp[..|bp| - |s|] == p;
    assert bp[|p|..] == s;
    LowerSlice(bp, |p|, |bp|);
    assert Lower(s) == s by {
      TablesAreLowerCase();
    }
    assert BackupOf(bp, s);
  }

  /** A document that is not itself a backup copy is one because of its own extension. */
  lemma PlainDocumentHasExtension(p: string)
    requires IsDocumentFile(p)
    requires forall k :: 0 <= k < |BackupSuffixes| ==> !EndsWith(Lower(p), BackupSuffixes[k])
    ensures HasDocExtension(Lower(p))
  {
  }

  /** Upper-case extensions count: `Report.PDF` is a document. */
  lemma UpperCaseExtension(p: string)
    requires p == "Report.PDF"
    ensures IsDocumentFile(p)
  {
    assert Lower(p) == "report.pdf";
    assert EndsWith(Lower(p), "." + DocExtensions[3]);
  }

  /** `notes.txt~` is the editor backup of a text file, so it is a document. */
  lemma TildeBackup(p: string)
    requires p == "notes.txt~"
    ensures IsDocumentFile(p)
  {
    assert p[..|p| - 1] == "notes.txt";
    assert Lower("notes.txt") == "notes.txt";
    assert EndsWith(Lower(p[..|p| - 1]), "." + DocExtensions[0]);
    assert BackupOf(p, BackupSuffixes[0]);
  }

  // ---------------------------------------------------------------- running fd

  /** `[line.strip() for line in stdout.split('\n') if line.strip()]`. */
  function OutputLines(stdout: string): (lines: seq<string>)
  {
    var pieces := Split(stdout, '\n');
    Filter((l: string) => l != [], seq(|pieces|, k requires 0 <= k < |pieces| => Strip(pieces[k])))
  }

  /** Every output line is non-empty and already stripped. */
  lemma OutputLinesShape(stdout: string)
    ensures forall k :: 0 <= k < |OutputLines(stdout)| ==>
      OutputLines(stdout)[k] != [] && Strip(OutputLines(stdout)[k]) == OutputLines(stdout)[k]
  {
    var pieces := Split(stdout, '\n');
    var stripped := seq(|pieces|, k requires 0 <= k < |pieces| => Strip(pieces[k]));
    var lines := OutputLines(stdout);
    FilterMembers((l: string) => l != [], stripped);
    forall k | 0 <= k < |lines| ensures Strip(lines[k]) == lines[k] {
      assert lines[k] in stripped;
      var j :| 0 <= j < |stripped| && stripped[j] == lines[k];
      StripIdempotent(pieces[j]);
    }
  }

  /** How a `subprocess.run(..., check=True)` of `fd` ended: its exit code and output, or the program missing. */
  datatype FdRun = Finished(code: int, stdout: string) | NotInstalled

  /** The files found, and the error message printed, if any. */
  datatype Search = Search(found: seq<string>, error: Option<string>)

  /** The documents among the paths, in their order. */
  function Documents(paths: seq<string>): (r: seq<string>) {
    Filter(IsDocumentFile, paths)
  }

  /** `check=True` raises for every exit code but `0`. */
  predicate Succeeded(run: FdRun) {
    run.Finished? && run.code == 0
  }

  /**
   * The `except` clauses of `search_files`: exit code `1` means nothing was found and is
   * silent; any other failing code, and a missing `fd`, print an error; all yield no files.
   */
  function FailedSearch(run: FdRun): Search
    requires !Succeeded(run)
  {
    match run
    case NotInstalled => Search([], Some("fd command not found"))
    case Finished(code, _) => if code == 1 then Search([], None) else Search([], Some("Error running fd"))
  }

  /** `search_files` of the first script: the documents among `fd`'s lines, or the failure. */
  function SearchDocuments(run: FdRun): Search {
    if Succeeded(run) then Search(Documents(OutputLines(run.stdout)), None) else FailedSearch(run)
  }

  /** A path is kept exactly when it is one of `fd`'s lines and a document. */
  lemma DocumentsExact(paths: seq<string>, p: string)
    ensures p in Documents(paths) <==> p in paths && IsDocumentFile(p)
  {
    FilterMembers(IsDocumentFile, paths);
  }

  /** Kept paths keep `fd`'s order: the documents of an earlier stretch of output come first. */
  lemma DocumentsInOrder(a: seq<string>, b: seq<string>)
    ensures Documents(a + b) == Documents(a) + Documents(b)
  {
    FilterAppend(IsDocumentFile, a, b);
  }

  /** `fd` exiting with code `1` is an empty result and no error; only other failures are reported. */
  lemma ExitCodeOneIsEmpty(run: FdRun)
    ensures SearchDocuments(run).error.None? <==> run.Finished? && (run.code == 0 || run.code == 1)
    ensures run.Finished? && run.code != 0 ==> SearchDocuments(run).found == []
  {
  }

  /** The filter loop of `search_files`: each line is tested and appended when it is a document. */
  method KeepDocuments(allFiles: seq<string>) returns (foundFiles: seq<string>)
    ensures foundFiles == Documents(allFiles)
  {
    foundFiles := [];
    var i := 0;
    while i < |allFiles|
      invariant 0 <= i <= |allFiles|
      invariant foundFiles == Documents(allFiles[..i])
    {
      assert allFiles[..i + 1] == allFiles[..i] + [allFiles[i]];
      DocumentsInOrder(allFiles[..i], [allFiles[i]]);
      var isDocument := CheckDocumentFile(allFiles[i]);
      if isDocument {
        foundFiles := foundFiles + [allFiles[i]];
      }
      i := i + 1;
    }
    assert allFiles[..i] == allFiles;
  }

  /** `search_files` of the first script, running nothing: the `fd` outcome is given. */
  method SearchFiles(run: FdRun) returns (result: Search)
    ensures result == SearchDocuments(run)
  {
    match run {
      case NotInstalled =>
        return Search([], Some("fd command not found"));
      case Finished(code, stdout) =>
        if code == 0 {
          var found := KeepDocuments(OutputLines(stdout));
          return Search(found, None);
        } else if code == 1 {
          return Search([], None);
        }
        return Search([], Some("Error running fd"));
    }
  }

  // ---------------------------------------------------------------- the search modes of the second script

  /** The second script's three searches: names only, matching file names plus matching folders, or the whole path. */
  datatype PathQuery = NamesOnly | FoldersOnly | FullPath

  /** The document filter, or every path when all file types are wanted. */
  function TypeFiltered(docsOnly: bool, paths: seq<string>): seq<string> {
    if docsOnly then Documents(paths) else paths
  }

  /**
   * The paths `search_files` of the second script collects from successful `fd` runs:
   * `files` from the `--type f` run, `dirs` from the `--type d` run, `paths` from the
   * untyped run; `fileSet` is what `os.path.isfile` accepts.
   */
  function Assemble(q: PathQuery, docsOnly: bool, files: seq<string>, dirs: seq<string>,
                    paths: seq<string>, fileSet: set<string>): seq<string>
  {
    match q
    case NamesOnly => TypeFiltered(docsOnly, files)
    case FoldersOnly => TypeFiltered(docsOnly, files) + dirs
    case FullPath => Filter((p: string) => p !in fileSet || !docsOnly || IsDocumentFile(p), paths)
  }

  /** In folders-only mode the filtered file matches come first and then every matching directory, unfiltered. */
  lemma FoldersComeLast(docsOnly: bool, files: seq<string>, dirs: seq<string>, paths: seq<string>, fileSet: set<string>)
    ensures var r := Assemble(FoldersOnly, docsOnly, files, dirs, paths, fileSet);
      |r| >= |dirs| && r[|r| - |dirs|..] == dirs
      && r[..|r| - |dirs|] == Assemble(NamesOnly, docsOnly, files, dirs, paths, fileSet)
  {
  }

  /** When the whole path is searched, a non-file match (a directory) is always kept and a file only if it passes the type filter. */
  lemma FullPathKeeps(docsOnly: bool, paths: seq<string>, fileSet: set<string>, p: string)
    ensures p in Assemble(FullPath, docsOnly, [], [], paths, fileSet) <==>
      p in paths && (p !in fileSet || !docsOnly || IsDocumentFile(p))
  {
    FilterMembers((p: string) => p !in fileSet || !docsOnly || IsDocumentFile(p), paths);
  }

  /**
   * `search_files` of the second script: the `fd` runs the mode needs, in order (`--type f`
   * then `--type d` for folders only), the first failing run ending the search as in the
   * first script; the collected paths otherwise.
   */
  function SearchPaths(q: PathQuery, docsOnly: bool, filesRun: FdRun, dirsRun: FdRun,
                       pathsRun: FdRun, fileSet: set<string>): Search
  {
    match q
    case NamesOnly =>
      if !Succeeded(filesRun) then FailedSearch(filesRun)
      else Search(Assemble(q, docsOnly, OutputLines(filesRun.stdout), [], [], fileSet), None)
    case FoldersOnly =>
      if !Succeeded(filesRun) then FailedSearch(filesRun)
      else if !Succeeded(dirsRun) then FailedSearch(dirsRun)
      else Search(Assemble(q, docsOnly, OutputLines(filesRun.stdout), OutputLines(dirsRun.stdout), [], fileSet), None)
    case FullPath =>
      if !Succeeded(pathsRun) then FailedSearch(pathsRun)
      else Search(Assemble(q, docsOnly, [], [], OutputLines(pathsRun.stdout), fileSet), None)
  }

  /** Searching names for documents is the first script's search. */
  lemma NamesSearchIsFirstScript(filesRun: FdRun, dirsRun: FdRun, pathsRun: FdRun, fileSet: set<string>)
    ensures SearchPaths(NamesOnly, true, filesRun, dirsRun, pathsRun, fileSet) == SearchDocuments(filesRun)
  {
  }

  /**
   * In folders-only mode a failure of either run discards what the other found: the
   * result is empty unless both runs succeed.
   */
  lemma FoldersNeedBothRuns(docsOnly: bool, filesRun: FdRun, dirsRun: FdRun, pathsRun: FdRun, fileSet: set<string>)
    requires !Succeeded(filesRun) || !Succeeded(dirsRun)
    ensures SearchPaths(FoldersOnly, docsOnly, filesRun, dirsRun, pathsRun, fileSet).found == []
    ensures SearchPaths(FoldersOnly, docsOnly, filesRun, dirsRun, pathsRun, fileSet).error.None? <==>
      (if !Succeeded(filesRun) then filesRun.Finished? && filesRun.code == 1 else dirsRun.Finished? && dirsRun.code == 1)
  {
  }
}
