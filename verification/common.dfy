/**
 * pkg/common: the list of Go source files of a directory (`CollectGoFiles`)
 * and the `GoFile` record it returns.
 *
 * The directory listing (`os.ReadDir`) and the path helpers (`filepath.Rel`,
 * `filepath.Join`) are parameters: `readDir(dir)` is the listing or the
 * operating system's error, `rel(base, target)` the relative path or its
 * error, `join(a, b)` the joined path.
 */
module Common {
  import opened Wrappers
  import opened Strings
  import opened Errors
  import opened Sorting

  datatype GoFile = GoFile(name: string, path: string, url: string)

  /** A listed entry that is a Go source file: not a directory, `*.go`, not `*_test.go`. */
  predicate IsGoSource(e: DirEntry) {
    !e.isDir && HasSuffix(e.name, ".go") && !HasSuffix(e.name, "_test.go")
  }

  /** The path recorded for the source file `name` of `dir`. */
  function RelPath(dir: string, subDir: string, name: string,
                   rel: (string, string) -> Result<string, Error>,
                   join: (string, string) -> string): Result<string, Error>
  {
    if subDir == "" then Ok(name)
    else match rel(dir, join(subDir, name))
      case Ok(p) => Ok(p)
      case Err(e) => Err(RelPathFailed(e))
  }

  /**
   * What the loop of CollectGoFiles yields for the listing `entries`: the
   * source files in listing order, or the first relative-path error.
   */
  function CollectFrom(entries: seq<DirEntry>, dir: string, subDir: string,
                       rel: (string, string) -> Result<string, Error>,
                       join: (string, string) -> string): Result<seq<GoFile>, Error>
  {
    if entries == [] then Ok([])
    else
      var e := entries[|entries| - 1];
      match CollectFrom(entries[..|entries| - 1], dir, subDir, rel, join)
      case Err(err) => Err(err)
      case Ok(files) =>
        if !IsGoSource(e) then Ok(files)
        else match RelPath(dir, subDir, e.name, rel, join)
          case Err(err) => Err(err)
          case Ok(p) => Ok(files + [GoFile(e.name, p, "")])
  }

  /** The names of the source files of `entries`, in listing order. */
  function SourceNames(entries: seq<DirEntry>): seq<string> {
    if entries == [] then []
    else
      var e := entries[|entries| - 1];
      SourceNames(entries[..|entries| - 1]) + (if IsGoSource(e) then [e.name] else [])
  }

  function NameOf(f: GoFile): string { f.name }

  method CollectGoFiles(dir: string, subDir: string,
                        readDir: string -> Result<seq<DirEntry>, Error>,
                        rel: (string, string) -> Result<string, Error>,
                        join: (string, string) -> string)
    returns (r: Result<seq<GoFile>, Error>)
    ensures readDir(dir).Err? ==> r == Err(ReadDirFailed(dir, readDir(dir).error))
    ensures readDir(dir).Ok? ==> r == CollectFrom(readDir(dir).value, dir, subDir, rel, join)
  {
    var files: seq<GoFile> := [];
    var listing := readDir(dir);
    if listing.Err? {
      return Err(ReadDirFailed(dir, listing.error));
    }
    var entries := listing.value;
    var i := 0;
    while i < |entries|
      invariant 0 <= i <= |entries|
      invariant CollectFrom(entries[..i], dir, subDir, rel, join) == Ok(files)
    {
      var entry := entries[i];
      assert entries[..i + 1][..i] == entries[..i];
      if !entry.isDir && HasSuffix(entry.name, ".go") && !HasSuffix(entry.name, "_test.go") {
        var relPath := entry.name;
        if subDir != "" {
          var res := rel(dir, join(subDir, entry.name));
          if res.Err? {
            r := Err(RelPathFailed(res.error));
            PrefixErrorSticks(entries, i + 1, dir, subDir, rel, join);
            assert entries[..|entries|] == entries;
            return;
          }
          relPath := res.value;
        }
        files := files + [GoFile(entry.name, relPath, "")];
      }
      i := i + 1;
    }
    assert entries[..i] == entries;
    r := Ok(files);
  }

  /** Once a prefix of the listing fails, the whole listing fails with the same error. */
  lemma {:induction false} PrefixErrorSticks(entries: seq<DirEntry>, n: nat, dir: string, subDir: string,
                                             rel: (string, string) -> Result<string, Error>,
                                             join: (string, string) -> string)
    requires n <= |entries|
    requires CollectFrom(entries[..n], dir, subDir, rel, join).Err?
    ensures CollectFrom(entries, dir, subDir, rel, join) == CollectFrom(entries[..n], dir, subDir, rel, join)
    decreases |entries| - n
  {
    if n < |entries| {
      assert entries[..n + 1][..n] == entries[..n];
      PrefixErrorSticks(entries, n + 1, dir, subDir, rel, join);
    } else {
      assert entries[..n] == entries;
    }
  }

  /**
   * Every collected file is a `*.go` file that is not a `*_test.go` file, its
   * URL is empty, and at the top level (`subDir == ""`) its path is its name.
   */
  lemma {:induction false} CollectedFilesAreSources(entries: seq<DirEntry>, dir: string, subDir: string,
                                                    rel: (string, string) -> Result<string, Error>,
                                                    join: (string, string) -> string)
    requires CollectFrom(entries, dir, subDir, rel, join).Ok?
    ensures forall f | f in CollectFrom(entries, dir, subDir, rel, join).value ::
      HasSuffix(f.name, ".go") && !HasSuffix(f.name, "_test.go") && f.url == ""
      && (subDir == "" ==> f.path == f.name)
  {
    if entries != [] {
      CollectedFilesAreSources(entries[..|entries| - 1], dir, subDir, rel, join);
    }
  }

  /**
   * The collected files are the source entries of the listing, in listing
   * order: their names are exactly `SourceNames(entries)`.
   */
  lemma {:induction false} CollectedNames(entries: seq<DirEntry>, dir: string, subDir: string,
                                          rel: (string, string) -> Result<string, Error>,
                                          join: (string, string) -> string)
    requires CollectFrom(entries, dir, subDir, rel, join).Ok?
    ensures Map(NameOf, CollectFrom(entries, dir, subDir, rel, join).value) == SourceNames(entries)
  {
    if entries != [] {
      var init := entries[..|entries| - 1];
      CollectedNames(init, dir, subDir, rel, join);
      var files := CollectFrom(init, dir, subDir, rel, join).value;
      if IsGoSource(entries[|entries| - 1]) {
        var f := CollectFrom(entries, dir, subDir, rel, join).value;
        assert f == files + [f[|f| - 1]];
        MapAppend(NameOf, files, [f[|f| - 1]]);
      }
    }
  }

  /** SourceNames keeps listing order across any split of the listing. */
  lemma {:induction false} SourceNamesAppend(a: seq<DirEntry>, b: seq<DirEntry>)
    ensures SourceNames(a + b) == SourceNames(a) + SourceNames(b)
    decreases |b|
  {
    if b != [] {
      var b' := b[..|b| - 1];
      assert (a + b)[..|a + b| - 1] == a + b';
      SourceNamesAppend(a, b');
    } else {
      assert a + b == a;
    }
  }

  /** A single entry contributes its name exactly when it is a source file; a directory never does. */
  lemma SourceNamesSingle(e: DirEntry)
    ensures SourceNames([e]) == if IsGoSource(e) then [e.name] else []
    ensures e.isDir ==> SourceNames([e]) == []
  {
    assert [e][..0] == [];
  }

  /** Without a sub-directory no relative path is computed, so collection cannot fail. */
  lemma {:induction false} TopLevelNeverFails(entries: seq<DirEntry>, dir: string,
                                              rel: (string, string) -> Result<string, Error>,
                                              join: (string, string) -> string)
    ensures CollectFrom(entries, dir, "", rel, join).Ok?
  {
    if entries != [] {
      TopLevelNeverFails(entries[..|entries| - 1], dir, rel, join);
    }
  }

  /** A relative-path failure on any source entry makes the whole call fail. */
  lemma {:induction false} RelFailureFails(entries: seq<DirEntry>, k: nat, dir: string, subDir: string,
                                           rel: (string, string) -> Result<string, Error>,
                                           join: (string, string) -> string)
    requires k < |entries| && IsGoSource(entries[k])
    requires subDir != "" && rel(dir, join(subDir, entries[k].name)).Err?
    ensures CollectFrom(entries, dir, subDir, rel, join).Err?
  {
    assert entries[..k + 1][..k] == entries[..k];
    PrefixErrorSticks(entries, k + 1, dir, subDir, rel, join);
  }
}
