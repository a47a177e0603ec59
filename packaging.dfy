/** The string logic of `package_for_repository`: which files and
    directories go into the plugin archive, the plugin name read from the
    metadata lines, the archive entry names, and the required-files check. */
module Packaging {
  import opened Wrappers
  import opened Strings

  /** Name and directory patterns kept out of the archive; a leading `*`
      means "file name ends with the rest". */
  const ExcludePatterns: seq<string> := [
    "__pycache__", "*.pyc", "*.pyo", "*.pyd", ".git", ".gitignore", "*.zip",
    "create_icon.py", "create_dem_icon.py", "preview_ui.py", "view_ui_in_qgis.py",
    "open_ui_designer.bat", "package_plugin.py", "package_plugin.bat",
    "package_for_repository.py", "downscalingGeoRegister2021.py",
    "QUICK_START.md", "VIEW_UI.md", "INSTALL.md", "PACKAGING.md",
    "DEM_SIZE_EVALUATION.md", "NODATA_SUPPORT.md", "PERFORMANCE.md", "GPU_SUPPORT.md",
    "test_gpu.py", "*.tif", "*.tiff", ".vscode", ".idea", "*.swp", "*.swo", "*.bak",
    ".DS_Store", "Thumbs.db"]

  /** User documentation that is packaged whatever the patterns say. */
  const DocFiles: seq<string> := [
    "INSTALLATION_GUIDE.md", "CUDA_TOOLKIT_INSTALL.md", "INSTALL_CUPY_WINDOWS.md",
    "GPU_TROUBLESHOOTING.md", "README.md"]

  const RequiredFiles: seq<string> := ["metadata.txt", "__init__.py", "LICENSE"]

  const DefaultPluginName: string := "DEM_Downscaling"

  const OutputDirName: string := "ready_to_install"

  // ---------------------------------------------------------------- files

  /** One pattern against a file: by suffix for `*` patterns, otherwise by
      occurrence in the file name or in the path relative to the plugin. */
  predicate PatternMatches(pattern: string, file: string, relativePath: string) {
    if |pattern| > 0 && pattern[0] == '*' then EndsWith(file, pattern[1..])
    else Contains(file, pattern) || Contains(relativePath, pattern)
  }

  /** The reference definition of the exclusion decision: some pattern
      matches and the file is not one of the documentation files. */
  predicate Excluded(file: string, relativePath: string) {
    (exists k :: 0 <= k < |ExcludePatterns| && MatchesPattern(k, file, relativePath)) && file !in DocFiles
  }

  /** The k-th exclusion pattern matches the file. */
  predicate MatchesPattern(k: int, file: string, relativePath: string) {
    0 <= k < |ExcludePatterns| && PatternMatches(ExcludePatterns[k], file, relativePath)
  }

  /** The `should_exclude` flag: the first matching pattern sets it and
      stops the scan; a documentation file clears it afterwards. */
  method ShouldExclude(file: string, relativePath: string) returns (exclude: bool)
    ensures exclude == Excluded(file, relativePath)
  {
    exclude := false;
    var k := 0;
    while k < |ExcludePatterns|
      invariant 0 <= k <= |ExcludePatterns|
      invariant !exclude ==> forall q :: 0 <= q < k ==> !MatchesPattern(q, file, relativePath)
      invariant exclude ==> MatchesPattern(k, file, relativePath)
    {
      var matches := PatternTest(ExcludePatterns[k], file, relativePath);
      if matches {
        assert MatchesPattern(k, file, relativePath);
        exclude := true;
        break;
      }
      assert !MatchesPattern(k, file, relativePath);
      k := k + 1;
    }
    if file in DocFiles {
      exclude := false;
    }
  }

  /** The test of one pattern inside the scan: by suffix for a `*` pattern,
      otherwise by occurrence in the name or the relative path. */
  method PatternTest(pattern: string, file: string, relativePath: string) returns (matches: bool)
    ensures matches == PatternMatches(pattern, file, relativePath)
  {
    if |pattern| > 0 && pattern[0] == '*' {
      matches := EndsWith(file, pattern[1..]);
    } else {
      matches := Contains(file, pattern) || Contains(relativePath, pattern);
    }
  }

  /** Documentation files are packaged wherever they sit. */
  lemma DocFilesNeverExcluded(file: string, relativePath: string)
    requires file in DocFiles
    ensures !Excluded(file, relativePath)
  {
  }

  /** The override matters: `INSTALL.md` occurs in `CUDA_TOOLKIT_INSTALL.md`,
      yet that file is packaged. */
  lemma CudaGuideKeptDespiteInstallPattern()
    ensures PatternMatches("INSTALL.md", "CUDA_TOOLKIT_INSTALL.md", "CUDA_TOOLKIT_INSTALL.md")
    ensures !Excluded("CUDA_TOOLKIT_INSTALL.md", "CUDA_TOOLKIT_INSTALL.md")
  {
    var f := "CUDA_TOOLKIT_INSTALL.md";
    assert OccursAt(f, "INSTALL.md", 13);
    ContainsAt(f, "INSTALL.md");
  }

  /** Compiled Python and raster files are dropped by their suffix alone. */
  lemma SuffixPatternsExclude(file: string, relativePath: string)
    requires EndsWith(file, ".pyc") || EndsWith(file, ".tif")
    requires file !in DocFiles
    ensures Excluded(file, relativePath)
  {
    var pyc, tif := ExcludePatterns[1], ExcludePatterns[25];
    assert pyc == "*.pyc" && tif == "*.tif";
    if EndsWith(file, ".pyc") {
      StarPattern(1, ".pyc", file, relativePath);
    } else {
      StarPattern(25, ".tif", file, relativePath);
    }
  }

  /** A `*` pattern matches by the suffix after the star. */
  lemma StarPattern(k: int, suffix: string, file: string, relativePath: string)
    requires 0 <= k < |ExcludePatterns| && ExcludePatterns[k] == "*" + suffix
    ensures MatchesPattern(k, file, relativePath) <==> EndsWith(file, suffix)
  {
    assert ExcludePatterns[k][1..] == suffix;
  }

  // ---------------------------------------------------------- directories

  /** `pattern.replace('*', '')`. */
  function Unstar(pattern: string): (r: string)
    ensures '*' !in r && |r| <= |pattern|
  {
    if |pattern| == 0 then []
    else if pattern[0] == '*' then Unstar(pattern[1..])
    else [pattern[0]] + Unstar(pattern[1..])
  }

  /** A directory is descended into when no de-starred pattern starts it or
      occurs in it. */
  predicate KeepDir(d: string) {
    forall k :: 0 <= k < |ExcludePatterns| ==>
      !(StartsWith(d, Unstar(ExcludePatterns[k])) || Contains(d, Unstar(ExcludePatterns[k])))
  }

  /** The `startswith` test adds nothing to the `in` test: a directory is
      pruned exactly when some de-starred pattern occurs in its name. */
  lemma KeepDirIsNoOccurrence(d: string)
    ensures KeepDir(d) <==> forall k :: 0 <= k < |ExcludePatterns| ==> !Contains(d, Unstar(ExcludePatterns[k]))
  {
    forall k | 0 <= k < |ExcludePatterns| && StartsWith(d, Unstar(ExcludePatterns[k]))
      ensures Contains(d, Unstar(ExcludePatterns[k]))
    {
      StartsWithContains(d, Unstar(ExcludePatterns[k]));
    }
  }

  /** The reference filter: the kept directories, in walk order. */
  function KeptDirs(dirs: seq<string>): (kept: seq<string>)
    ensures |kept| <= |dirs|
    ensures forall d :: d in kept <==> d in dirs && KeepDir(d)
  {
    if |dirs| == 0 then []
    else (if KeepDir(dirs[0]) then [dirs[0]] else []) + KeptDirs(dirs[1..])
  }

  /** `dirs[:] = [d for d in dirs if ...]`: the sub-directory list the walk
      will descend into is cut down in place. */
  method PruneDirs(dirs: array<string>) returns (n: nat)
    modifies dirs
    ensures n <= dirs.Length
    ensures dirs[..n] == KeptDirs(old(dirs[..]))
  {
    ghost var original := dirs[..];
    n := 0;
    var i := 0;
    while i < dirs.Length
      invariant 0 <= n <= i <= dirs.Length
      invariant dirs[..n] == KeptDirs(original[..i])
      invariant dirs[i..] == original[i..]
    {
      var d := dirs[i];
      assert original[..i + 1] == original[..i] + [d];
      KeptDirsAppend(original[..i], d);
      if KeepDir(d) {
        dirs[n] := d;
        assert dirs[..n + 1] == dirs[..n] + [d];
        n := n + 1;
      }
      assert dirs[i + 1..] == original[i + 1..];
      i := i + 1;
    }
    assert original[..dirs.Length] == original;
  }

  lemma {:induction false} KeptDirsAppend(dirs: seq<string>, d: string)
    ensures KeptDirs(dirs + [d]) == KeptDirs(dirs) + (if KeepDir(d) then [d] else [])
    decreases |dirs|
  {
    if |dirs| > 0 {
      assert (dirs + [d])[1..] == dirs[1..] + [d];
      KeptDirsAppend(dirs[1..], d);
    } else {
      assert dirs + [d] == [d];
    }
  }

  /** A pattern without `*` is used as it is. */
  lemma {:induction false} UnstarPlain(p: string)
    requires '*' !in p
    ensures Unstar(p) == p
  {
    if |p| > 0 {
      assert '*' !in p[1..];
      UnstarPlain(p[1..]);
      assert p == [p[0]] + p[1..];
    }
  }

  /** A directory that contains the k-th pattern is pruned. */
  lemma PrunedBy(d: string, k: int, p: string)
    requires 0 <= k < |ExcludePatterns| && ExcludePatterns[k] == p && '*' !in p && StartsWith(d, p)
    ensures !KeepDir(d)
  {
    UnstarPlain(p);
  }

  /** Cache, version-control and editor directories are never descended
      into. */
  lemma ToolDirsPruned(d: string)
    requires StartsWith(d, "__pycache__") || StartsWith(d, ".git") || StartsWith(d, ".vscode") || StartsWith(d, ".idea")
    ensures !KeepDir(d)
  {
    if StartsWith(d, "__pycache__") {
      PrunedBy(d, 0, "__pycache__");
    } else if StartsWith(d, ".git") {
      PrunedBy(d, 4, ".git");
    } else if StartsWith(d, ".vscode") {
      PrunedBy(d, 27, ".vscode");
    } else {
      PrunedBy(d, 28, ".idea");
    }
  }

  // ------------------------------------------------------------- the walk

  /** A file the walk reports: its name and its path relative to the plugin
      directory. */
  datatype WalkFile = WalkFile(name: string, relativePath: string)

  /** One step of the walk: the directory's path and its files. */
  datatype WalkDir = WalkDir(root: string, files: seq<WalkFile>)

  /** POSIX `os.path.join(a, b)`: an absolute `b` replaces `a`; otherwise
      `b` follows `a`, with one `/` added only when `a` is non-empty and does
      not already end in one. */
  function PathJoin(a: string, b: string): string {
    if StartsWith(b, "/") then b
    else if a == "" || EndsWith(a, "/") then a + b
    else a + "/" + b
  }

  /** The joined path ends with `b`. An absolute `b` or an empty `a` gives
      `b` alone; otherwise the path starts with `a`, and at most one `/` is
      added, right before `b`. */
  lemma PathJoinMeaning(a: string, b: string)
    ensures var r := PathJoin(a, b);
      && EndsWith(r, b)
      && (StartsWith(b, "/") || a == "" ==> r == b)
      && (!StartsWith(b, "/") && a != "" ==>
            && StartsWith(r, a) && |b| < |r| <= |a| + 1 + |b|
            && r[|r| - |b| - 1] == '/')
  {
  }

  /** The archive entry name: `os.path.join` of the plugin name and the
      relative path, with Windows separators turned into `/`. */
  function ArcName(pluginName: string, relativePath: string): (a: string)
    ensures '\\' !in a
  {
    ReplaceCharRemoves(PathJoin(pluginName, relativePath), '\\', '/');
    ReplaceChar(PathJoin(pluginName, relativePath), '\\', '/')
  }

  /** The entry name ends with the relative path; for a non-empty name and
      a relative path it starts with the name, and the path follows a `/`. */
  lemma ArcNameShape(pluginName: string, relativePath: string)
    ensures var a := ArcName(pluginName, relativePath);
      && EndsWith(a, ReplaceChar(relativePath, '\\', '/'))
      && (pluginName != "" && !StartsWith(relativePath, "/") ==>
            && StartsWith(a, ReplaceChar(pluginName, '\\', '/'))
            && |relativePath| < |a| <= |pluginName| + 1 + |relativePath|
            && a[|a| - |relativePath| - 1] == '/')
  {
    var j := PathJoin(pluginName, relativePath);
    PathJoinMeaning(pluginName, relativePath);
    ReplaceCharAffixes(j, relativePath, '\\', '/');
    ReplaceCharAffixes(j, pluginName, '\\', '/');
  }

  /** With POSIX paths, a plain name and a relative path the entry is just
      `name/relative_path`. */
  lemma ArcNamePosix(pluginName: string, relativePath: string)
    requires '\\' !in pluginName && '\\' !in relativePath
    requires pluginName != "" && !EndsWith(pluginName, "/") && !StartsWith(relativePath, "/")
    ensures ArcName(pluginName, relativePath) == pluginName + "/" + relativePath
  {
    ReplaceCharAbsent(pluginName + "/" + relativePath, '\\', '/');
  }

  /** `os.path.join` adds no separator after an empty name or one already
      ending in `/`, and an absolute path replaces the name: with POSIX
      paths `("", "metadata.txt")` gives `metadata.txt`, not `/metadata.txt`,
      and `("foo/", "x")` gives `foo/x`. */
  lemma ArcNameJoinEdges(pluginName: string, relativePath: string)
    requires '\\' !in pluginName && '\\' !in relativePath
    ensures StartsWith(relativePath, "/") || pluginName == "" ==> ArcName(pluginName, relativePath) == relativePath
    ensures !StartsWith(relativePath, "/") && EndsWith(pluginName, "/") ==>
      ArcName(pluginName, relativePath) == pluginName + relativePath
  {
    if StartsWith(relativePath, "/") || pluginName == "" {
      ReplaceCharAbsent(relativePath, '\\', '/');
    } else if EndsWith(pluginName, "/") {
      ReplaceCharAbsent(pluginName + relativePath, '\\', '/');
    }
  }

  /** Whether one reported file goes into the archive. */
  predicate Packaged(root: string, f: WalkFile) {
    !Contains(root, OutputDirName) && !Contains(f.relativePath, OutputDirName)
    && !Excluded(f.name, f.relativePath)
  }

  /** The reference list of packaged relative paths, in walk order. */
  function IncludedFiles(walk: seq<WalkDir>): seq<string> {
    if |walk| == 0 then [] else IncludedIn(walk[0].root, walk[0].files) + IncludedFiles(walk[1..])
  }

  function IncludedIn(root: string, files: seq<WalkFile>): seq<string> {
    if |files| == 0 then []
    else (if Packaged(root, files[0]) then [files[0].relativePath] else []) + IncludedIn(root, files[1..])
  }

  /** The archive entries that go with a list of relative paths. */
  function ArcNames(pluginName: string, paths: seq<string>): (r: seq<string>)
    ensures |r| == |paths|
    ensures forall i :: 0 <= i < |paths| ==> r[i] == ArcName(pluginName, paths[i])
  {
    if |paths| == 0 then [] else [ArcName(pluginName, paths[0])] + ArcNames(pluginName, paths[1..])
  }

  /** The `with zipfile.ZipFile(...)` block: walks the reported directories,
      skips the output directory, filters files and records each packaged
      file with its archive entry name. */
  method WriteArchive(pluginName: string, walk: seq<WalkDir>)
    returns (entries: seq<string>, filesIncluded: seq<string>)
    ensures filesIncluded == IncludedFiles(walk)
    ensures entries == ArcNames(pluginName, filesIncluded)
  {
    entries, filesIncluded := [], [];
    var w := 0;
    while w < |walk|
      invariant 0 <= w <= |walk|
      invariant filesIncluded + IncludedFiles(walk[w..]) == IncludedFiles(walk)
      invariant entries == ArcNames(pluginName, filesIncluded)
    {
      var root := walk[w].root;
      IncludedFilesStep(walk, w, filesIncluded);
      if Contains(root, OutputDirName) {
        IncludedInSkipped(root, walk[w].files);
        assert filesIncluded + [] == filesIncluded;
      } else {
        var dirEntries, dirFiles := WriteDirectory(pluginName, root, walk[w].files);
        ArcNamesConcat(pluginName, filesIncluded, dirFiles);
        entries := entries + dirEntries;
        filesIncluded := filesIncluded + dirFiles;
      }
      w := w + 1;
    }
  }

  /** The `for file in files` loop of one walk step whose root lies outside
      the output directory. */
  method WriteDirectory(pluginName: string, root: string, files: seq<WalkFile>)
    returns (entries: seq<string>, filesIncluded: seq<string>)
    requires !Contains(root, OutputDirName)
    ensures filesIncluded == IncludedIn(root, files)
    ensures entries == ArcNames(pluginName, filesIncluded)
  {
    entries, filesIncluded := [], [];
    var i := 0;
    while i < |files|
      invariant 0 <= i <= |files|
      invariant filesIncluded + IncludedIn(root, files[i..]) == IncludedIn(root, files)
      invariant entries == ArcNames(pluginName, filesIncluded)
    {
      IncludedInStep(root, files, i, filesIncluded);
      entries, filesIncluded := WriteFile(pluginName, root, files[i], entries, filesIncluded);
      i := i + 1;
    }
  }

  /** The body of the `for file in files` loop: a packaged file is written
      under its archive name and recorded. */
  method WriteFile(pluginName: string, root: string, file: WalkFile, entries: seq<string>, filesIncluded: seq<string>)
    returns (entries': seq<string>, filesIncluded': seq<string>)
    requires !Contains(root, OutputDirName)
    requires entries == ArcNames(pluginName, filesIncluded)
    ensures filesIncluded' == filesIncluded + if Packaged(root, file) then [file.relativePath] else []
    ensures entries' == ArcNames(pluginName, filesIncluded')
  {
    entries', filesIncluded' := entries, filesIncluded;
    var keep := IncludeFile(root, file);
    if keep {
      ArcNamesConcat(pluginName, filesIncluded, [file.relativePath]);
      entries' := entries + [ArcName(pluginName, file.relativePath)];
      filesIncluded' := filesIncluded + [file.relativePath];
    }
  }

  /** One more file of the directory moves from the remaining list to the
      packaged prefix when the rules admit it. */
  lemma IncludedFilesStep(walk: seq<WalkDir>, w: int, acc: seq<string>)
    requires 0 <= w < |walk| && acc + IncludedFiles(walk[w..]) == IncludedFiles(walk)
    ensures (acc + IncludedIn(walk[w].root, walk[w].files)) + IncludedFiles(walk[w + 1..]) == IncludedFiles(walk)
  {
    assert walk[w..][1..] == walk[w + 1..];
    var step := IncludedIn(walk[w].root, walk[w].files);
    assert IncludedFiles(walk[w..]) == step + IncludedFiles(walk[w + 1..]);
    AppendAssociates(acc, step, IncludedFiles(walk[w + 1..]));
  }

  lemma AppendAssociates<T>(a: seq<T>, b: seq<T>, c: seq<T>)
    ensures (a + b) + c == a + (b + c)
  {
  }

  lemma IncludedInStep(root: string, files: seq<WalkFile>, i: int, acc: seq<string>)
    requires 0 <= i < |files| && acc + IncludedIn(root, files[i..]) == IncludedIn(root, files)
    ensures var step := if Packaged(root, files[i]) then [files[i].relativePath] else [];
      (acc + step) + IncludedIn(root, files[i + 1..]) == IncludedIn(root, files)
  {
    assert files[i..][1..] == files[i + 1..];
    var step := if Packaged(root, files[i]) then [files[i].relativePath] else [];
    assert IncludedIn(root, files[i..]) == step + IncludedIn(root, files[i + 1..]);
    assert (acc + step) + IncludedIn(root, files[i + 1..]) == acc + (step + IncludedIn(root, files[i + 1..]));
  }

  /** The two checks one file of the walk goes through: a path inside the
      output directory is skipped, then the exclusion rules decide. */
  method IncludeFile(root: string, file: WalkFile) returns (keep: bool)
    requires !Contains(root, OutputDirName)
    ensures keep == Packaged(root, file)
  {
    if Contains(file.relativePath, OutputDirName) {
      return false;
    }
    var exclude := ShouldExclude(file.name, file.relativePath);
    keep := !exclude;
  }

  lemma IncludedInSkipped(root: string, files: seq<WalkFile>)
    requires Contains(root, OutputDirName)
    ensures IncludedIn(root, files) == []
  {
  }

  lemma ArcNamesConcat(pluginName: string, paths: seq<string>, more: seq<string>)
    ensures ArcNames(pluginName, paths + more) == ArcNames(pluginName, paths) + ArcNames(pluginName, more)
  {
    var l, r := ArcNames(pluginName, paths + more), ArcNames(pluginName, paths) + ArcNames(pluginName, more);
    assert |l| == |r|;
    forall i | 0 <= i < |l|
      ensures l[i] == r[i]
    {
      if i < |paths| {
        assert (paths + more)[i] == paths[i];
      } else {
        assert (paths + more)[i] == more[i - |paths|];
      }
    }
  }

  /** Every packaged path is one the rules admit and lies outside the output
      directory; conversely every admitted file of the walk is packaged. */
  lemma {:induction false} IncludedFilesMeaning(walk: seq<WalkDir>, p: string)
    ensures p in IncludedFiles(walk) <==>
      exists w, i :: 0 <= w < |walk| && 0 <= i < |walk[w].files|
        && walk[w].files[i].relativePath == p && Packaged(walk[w].root, walk[w].files[i])
  {
    if |walk| > 0 {
      IncludedFilesMeaning(walk[1..], p);
      IncludedInMeaning(walk[0].root, walk[0].files, p);
      if exists w, i :: (0 <= w < |walk| && 0 <= i < |walk[w].files|
                         && walk[w].files[i].relativePath == p && Packaged(walk[w].root, walk[w].files[i]))
      {
        var w, i :| 0 <= w < |walk| && 0 <= i < |walk[w].files|
          && walk[w].files[i].relativePath == p && Packaged(walk[w].root, walk[w].files[i]);
        if w > 0 {
          assert walk[1..][w - 1] == walk[w];
        }
      }
    }
  }

  lemma {:induction false} IncludedInMeaning(root: string, files: seq<WalkFile>, p: string)
    ensures p in IncludedIn(root, files) <==>
      exists i :: 0 <= i < |files| && files[i].relativePath == p && Packaged(root, files[i])
  {
    if |files| > 0 {
      IncludedInMeaning(root, files[1..], p);
      if exists i :: 0 <= i < |files| && files[i].relativePath == p && Packaged(root, files[i]) {
        var i :| 0 <= i < |files| && files[i].relativePath == p && Packaged(root, files[i]);
        if i > 0 {
          assert files[1..][i - 1] == files[i];
        }
      }
    }
  }

  // ------------------------------------------------------- required files

  /** `[f for f in required_files if f not in files_included]`. */
  function MissingFiles(filesIncluded: seq<string>): (missing: seq<string>)
    ensures forall f :: f in missing <==> f in RequiredFiles && f !in filesIncluded
    ensures |missing| <= |RequiredFiles|
  {
    MissingAmong(RequiredFiles, filesIncluded)
  }

  function MissingAmong(required: seq<string>, filesIncluded: seq<string>): (missing: seq<string>)
    ensures forall f :: f in missing <==> f in required && f !in filesIncluded
    ensures |missing| <= |required|
  {
    if |required| == 0 then []
    else (if required[0] in filesIncluded then [] else [required[0]]) + MissingAmong(required[1..], filesIncluded)
  }

  // ---------------------------------------------------------- plugin name

  const NameKey: string := "name="

  predicate IsNameLine(line: string) {
    StartsWith(line, NameKey)
  }

  /** The name a `name=` line gives: the text after the first `=`, stripped,
      with spaces turned into underscores. */
  function NameFromLine(line: string): (name: string)
    requires IsNameLine(line)
    ensures ' ' !in name
  {
    ReplaceCharRemoves(Strip(line[|NameKey|..]), ' ', '_');
    ReplaceChar(Strip(line[|NameKey|..]), ' ', '_')
  }

  /** The reference definition: the first `name=` line of the metadata
      file, or the default when there is no file or no such line. */
  function PluginNameOf(metadata: Option<seq<string>>): string {
    if metadata.None? then DefaultPluginName else FirstName(metadata.value)
  }

  function FirstName(lines: seq<string>): string {
    if |lines| == 0 then DefaultPluginName
    else if IsNameLine(lines[0]) then NameFromLine(lines[0])
    else FirstName(lines[1..])
  }

  /** The metadata scan: the loop stops at the first `name=` line. */
  method ReadPluginName(metadata: Option<seq<string>>) returns (pluginName: string)
    ensures pluginName == PluginNameOf(metadata)
  {
    pluginName := DefaultPluginName;
    if metadata.Some? {
      var lines := metadata.value;
      var i := 0;
      while i < |lines|
        invariant 0 <= i <= |lines|
        invariant FirstName(lines[i..]) == FirstName(lines)
        invariant pluginName == DefaultPluginName
      {
        assert lines[i..][1..] == lines[i + 1..];
        if StartsWith(lines[i], NameKey) {
          pluginName := NameFromLine(lines[i]);
          return;
        }
        i := i + 1;
      }
    }
  }

  /** Line i is a `name=` line and no line before it is. */
  predicate FirstNameLineAt(lines: seq<string>, i: int) {
    0 <= i < |lines| && IsNameLine(lines[i]) && forall j :: 0 <= j < i ==> !IsNameLine(lines[j])
  }

  /** What the plugin name means: no file or no `name=` line gives the
      default; otherwise it comes from the first such line and the lines
      before it play no part. */
  lemma PluginNameMeaning(lines: seq<string>)
    ensures (forall i :: 0 <= i < |lines| ==> !IsNameLine(lines[i])) ==> FirstName(lines) == DefaultPluginName
    ensures forall i :: FirstNameLineAt(lines, i) ==> FirstName(lines) == NameFromLine(lines[i])
    ensures ' ' !in FirstName(lines)
  {
    if forall i :: 0 <= i < |lines| ==> !IsNameLine(lines[i]) {
      NoNameLine(lines);
    }
    forall i | FirstNameLineAt(lines, i)
      ensures FirstName(lines) == NameFromLine(lines[i])
    {
      NameLineDecides(lines, i);
    }
    FirstNameHasNoSpace(lines);
  }

  lemma {:induction false} NoNameLine(lines: seq<string>)
    requires forall i :: 0 <= i < |lines| ==> !IsNameLine(lines[i])
    ensures FirstName(lines) == DefaultPluginName
  {
    if |lines| > 0 {
      assert forall i :: 0 <= i < |lines| - 1 ==> lines[1..][i] == lines[i + 1];
      NoNameLine(lines[1..]);
    }
  }

  lemma {:induction false} NameLineDecides(lines: seq<string>, i: int)
    requires FirstNameLineAt(lines, i)
    ensures FirstName(lines) == NameFromLine(lines[i])
    decreases i
  {
    if i > 0 {
      assert !IsNameLine(lines[0]);
      assert lines[1..][i - 1] == lines[i];
      assert forall j :: 0 <= j < i - 1 ==> lines[1..][j] == lines[j + 1];
      assert FirstNameLineAt(lines[1..], i - 1);
      NameLineDecides(lines[1..], i - 1);
    }
  }

  lemma {:induction false} FirstNameHasNoSpace(lines: seq<string>)
    ensures ' ' !in FirstName(lines)
  {
    if |lines| > 0 && !IsNameLine(lines[0]) {
      FirstNameHasNoSpace(lines[1..]);
    }
  }

  /** The line read from the file keeps its newline; stripping removes it
      together with trailing blanks. */
  lemma StripExample()
    ensures Strip("DEM Downscaling \n") == "DEM Downscaling"
  {
    var s := "DEM Downscaling \n";
    assert !IsSpace(s[0]);
    assert StripLeft(s) == s;
    assert IsSpace(s[16]) && s[..16] == "DEM Downscaling ";
    assert IsSpace(s[..16][15]) && s[..16][..15] == "DEM Downscaling";
    assert !IsSpace("DEM Downscaling"[14]);
  }

  /** The archive file name: the one given, or `<plugin name>.zip`. */
  function ZipFileName(outputFilename: Option<string>, pluginName: string): (z: string)
    ensures outputFilename.None? ==> StartsWith(z, pluginName) && EndsWith(z, ".zip") && |z| == |pluginName| + 4
    ensures outputFilename.Some? ==> z == outputFilename.value
  {
    if outputFilename.Some? then outputFilename.value else pluginName + ".zip"
  }
}
