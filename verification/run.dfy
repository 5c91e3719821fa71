/**
 * pkg/gen/run.go: fetching one package (`docGet`) and the local
 * sub-directory workaround (`workaroundLocalSubDirs`).
 *
 * The documentation service (`doc.Get`) and the directory listing
 * (`os.ReadDir`) are parameters, bundled with `filepath.Base` in `Env`.
 */
module Run {
  import opened Wrappers
  import opened Strings
  import opened Errors
  import opened Doc

  /** The collaborators the core calls but the model does not see into. */
  datatype Env = Env(
    /** doc.Get: the package for an import path, or the service's error */
    load: string -> Result<PackageInfo, Error>,
    /** os.ReadDir */
    readDir: string -> Result<seq<DirEntry>, Error>,
    /** filepath.Base */
    base: string -> string)

  /** The names of the directory entries of a listing, in listing order. */
  function DirNames(entries: seq<DirEntry>): seq<string> {
    if entries == [] then []
    else
      var e := entries[|entries| - 1];
      DirNames(entries[..|entries| - 1]) + (if e.isDir then [e.name] else [])
  }

  /** What `workaroundLocalSubDirs(p, pkg)` makes of a package whose contents are `info`. */
  function Workaround(info: PackageInfo, pkg: string, readDir: string -> Result<seq<DirEntry>, Error>): (r: Result<PackageInfo, Error>)
    ensures !HasPrefix(pkg, ".") ==> r == Ok(info)
    ensures r.Ok? ==> r.value == info.(subdirectories := r.value.subdirectories)
    ensures r.Ok? ==> exists extra :: r.value.subdirectories == info.subdirectories + extra
    ensures r.Err? ==> HasPrefix(pkg, ".") && readDir(info.importPath).Err?
    ensures HasPrefix(pkg, ".") && readDir(info.importPath).Err? ==>
      r == Err(ImportPathReadFailed(info.importPath, readDir(info.importPath).error))
    ensures HasPrefix(pkg, ".") && readDir(info.importPath).Ok? ==>
      r == Ok(info.(subdirectories := info.subdirectories + DirNames(readDir(info.importPath).value)))
  {
    if !HasPrefix(pkg, ".") then
      assert info.subdirectories == info.subdirectories + [];
      Ok(info)
    else match readDir(info.importPath)
      case Err(e) => Err(ImportPathReadFailed(info.importPath, e))
      case Ok(entries) => Ok(info.(subdirectories := info.subdirectories + DirNames(entries)))
  }

  /** What `docGet(name)` returns: the loaded package after the workaround, or the first error. */
  function DocGetSpec(env: Env, name: string): (r: Result<PackageInfo, Error>)
    ensures r.Ok? <==> env.load(name).Ok? && Workaround(env.load(name).value, name, env.readDir).Ok?
    ensures r.Ok? && !HasPrefix(name, ".") ==> r.value == env.load(name).value
  {
    match env.load(name)
    case Err(e) => Err(e)
    case Ok(info) => Workaround(info, name, env.readDir)
  }

  method WorkaroundLocalSubDirs(p: Package, pkg: string, readDir: string -> Result<seq<DirEntry>, Error>)
    returns (err: Option<Error>)
    modifies p
    ensures err.None? <==> Workaround(old(p.View()), pkg, readDir).Ok?
    ensures err.None? ==> p.View() == Workaround(old(p.View()), pkg, readDir).value
    ensures err.Some? ==> err.value == Workaround(old(p.View()), pkg, readDir).error && p.View() == old(p.View())
  {
    if !HasPrefix(pkg, ".") {
      return None;
    }
    var files := readDir(p.importPath);
    if files.Err? {
      return Some(ImportPathReadFailed(p.importPath, files.error));
    }
    var entries := files.value;
    ghost var before := p.subdirectories;
    var i := 0;
    while i < |entries|
      invariant 0 <= i <= |entries|
      invariant p.subdirectories == before + DirNames(entries[..i])
      invariant p.View() == old(p.View()).(subdirectories := p.subdirectories)
    {
      assert entries[..i + 1][..i] == entries[..i];
      if entries[i].isDir {
        p.subdirectories := p.subdirectories + [entries[i].name];
      }
      i := i + 1;
    }
    assert entries[..i] == entries;
    return None;
  }

  method DocGet(env: Env, name: string) returns (r: Result<Package, Error>)
    ensures r.Ok? <==> DocGetSpec(env, name).Ok?
    ensures r.Ok? ==> fresh(r.value) && r.value.View() == DocGetSpec(env, name).value
    ensures r.Err? ==> r.error == DocGetSpec(env, name).error
  {
    var loaded := env.load(name);
    if loaded.Err? {
      return Err(loaded.error);
    }
    var p := new Package(loaded.value);
    var err := WorkaroundLocalSubDirs(p, name, env.readDir);
    if err.Some? {
      return Err(err.value);
    }
    return Ok(p);
  }

  /** DirNames keeps listing order across any split of the listing. */
  lemma {:induction false} DirNamesAppend(a: seq<DirEntry>, b: seq<DirEntry>)
    ensures DirNames(a + b) == DirNames(a) + DirNames(b)
    decreases |b|
  {
    if b != [] {
      var b' := b[..|b| - 1];
      assert (a + b)[..|a + b| - 1] == a + b';
      DirNamesAppend(a, b');
    } else {
      assert a + b == a;
    }
  }

  /** Every directory entry's name is taken, and every taken name is a directory entry's. */
  lemma {:induction false} DirNamesMembers(entries: seq<DirEntry>)
    ensures forall i | 0 <= i < |entries| && entries[i].isDir :: entries[i].name in DirNames(entries)
    ensures forall n | n in DirNames(entries) :: exists i :: 0 <= i < |entries| && entries[i].isDir && entries[i].name == n
  {
    if entries != [] {
      var init := entries[..|entries| - 1];
      DirNamesMembers(init);
      forall n | n in DirNames(entries)
        ensures exists i :: 0 <= i < |entries| && entries[i].isDir && entries[i].name == n
      {
        if n in DirNames(init) {
          var i :| 0 <= i < |init| && init[i].isDir && init[i].name == n;
          assert entries[i] == init[i];
        } else {
          assert entries[|entries| - 1].isDir && entries[|entries| - 1].name == n;
        }
      }
    }
  }

  /** A listing without directories adds nothing, whatever the file names. */
  lemma {:induction false} DirNamesSkipsFiles(entries: seq<DirEntry>)
    requires forall i | 0 <= i < |entries| :: !entries[i].isDir
    ensures DirNames(entries) == []
  {
    if entries != [] {
      DirNamesSkipsFiles(entries[..|entries| - 1]);
    }
  }

  /** For a local name whose directory can be read, the directory names are appended after the existing entries. */
  lemma LocalWorkaroundAppends(info: PackageInfo, pkg: string, readDir: string -> Result<seq<DirEntry>, Error>)
    requires HasPrefix(pkg, ".") && readDir(info.importPath).Ok?
    ensures Workaround(info, pkg, readDir) == Ok(info.(subdirectories := info.subdirectories + DirNames(readDir(info.importPath).value)))
  {
  }
}
