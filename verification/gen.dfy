/**
 * pkg/gen/types.go: the generator's configuration, the post-processing of a
 * fetched package in `Gen.get`, and the sub-package fetcher.
 *
 * The fetcher runs one goroutine per sub-directory and appends under a mutex;
 * the model runs the loads one after the other, in sub-directory order, and
 * `FetchOrderIndependent` shows that the sorted outcome does not depend on
 * that order.
 */
module Gen {
  import opened Wrappers
  import opened Strings
  import opened Errors
  import opened Sorting
  import opened Doc
  import opened Run

  datatype Config = Config(
    title: string,
    includeSections: seq<string>,
    excludePaths: seq<string>,
    recursive: bool,
    respectCase: bool,
    short: bool,
    printSource: bool,
    unexported: bool,
    skipSubPkgs: bool,
    output: string,
    verbose: bool)

  const EmptyConfig := Config("", [], [], false, false, false, false, false, false, "", false)

  // ---------------------------------------------------------------------------
  // Example promotion

  /** A symbol that owns examples: a function or a type. */
  datatype Owner = Owner(name: string, doc: string, examples: seq<Example>)

  function FuncOwner(f: Func): Owner { Owner(f.name, f.doc, f.examples) }

  function TypeOwner(t: Type): Owner { Owner(t.name, t.doc, t.examples) }

  /** An example as promoted: an empty name or doc is taken from the owning symbol. */
  function Inherit(e: Example, o: Owner): (r: Example)
    ensures e.name != "" ==> r.name == e.name
    ensures e.name == "" ==> r.name == o.name
    ensures e.doc != "" ==> r.doc == e.doc
    ensures e.doc == "" ==> r.doc == o.doc
    ensures r.code == e.code && r.output == e.output
  {
    var named := if e.name == "" then e.(name := o.name) else e;
    if named.doc == "" then named.(doc := o.doc) else named
  }

  /** The promoted copies of one owner's examples, in example order. */
  function InheritAll(es: seq<Example>, o: Owner): (r: seq<Example>)
    ensures |r| == |es|
  {
    if es == [] then [] else InheritAll(es[..|es| - 1], o) + [Inherit(es[|es| - 1], o)]
  }

  /** The k-th promoted copy is the k-th example with the owner's name and doc filled in. */
  lemma {:induction false} InheritAllAt(es: seq<Example>, o: Owner, k: nat)
    requires k < |es|
    ensures |InheritAll(es, o)| == |es| && InheritAll(es, o)[k] == Inherit(es[k], o)
  {
    if k < |es| - 1 {
      InheritAllAt(es[..|es| - 1], o, k);
    }
  }

  /** Everything promoted from `owners`: owner by owner, each owner's examples in order. */
  function Promoted(owners: seq<Owner>): seq<Example> {
    if owners == [] then []
    else
      var o := owners[|owners| - 1];
      Promoted(owners[..|owners| - 1]) + InheritAll(o.examples, o)
  }

  /** The number of examples the owners hold. */
  function ExampleCount(owners: seq<Owner>): nat {
    if owners == [] then 0 else ExampleCount(owners[..|owners| - 1]) + |owners[|owners| - 1].examples|
  }

  /** The examples of the package after the `functions` and `types` promotions. */
  function PromoteExamples(sections: seq<string>, info: PackageInfo): (r: PackageInfo)
    ensures r == info.(examples := r.examples)
    ensures |info.examples| <= |r.examples| && r.examples[..|info.examples|] == info.examples
  {
    var withFuncs := if !Contains(sections, "functions") then info.examples + Promoted(Map(FuncOwner, info.funcs)) else info.examples;
    var withTypes := if !Contains(sections, "types") then withFuncs + Promoted(Map(TypeOwner, info.types)) else withFuncs;
    info.(examples := withTypes)
  }

  /** A command package is named after the base of the requested name and loses a leading "Package main is ". */
  function RenameCommand(info: PackageInfo, name: string, base: string -> string): (r: PackageInfo)
    ensures !info.isCmd ==> r == info
    ensures info.isCmd ==> r == info.(name := base(name), doc := r.doc)
    ensures info.isCmd && HasPrefix(info.doc, "Package main is ") ==> "Package main is " + r.doc == info.doc
    ensures info.isCmd && !HasPrefix(info.doc, "Package main is ") ==> r.doc == info.doc
  {
    if info.isCmd then info.(name := base(name), doc := TrimPrefix(info.doc, "Package main is ")) else info
  }

  /** A non-empty title replaces the package name. */
  function ApplyTitle(info: PackageInfo, title: string): (r: PackageInfo)
    ensures title != "" ==> r == info.(name := title)
    ensures title == "" ==> r == info
  {
    if title != "" then info.(name := title) else info
  }

  /** Everything `get` does to a fetched package, in the order it does it. */
  function PostProcess(cfg: Config, name: string, base: string -> string, info: PackageInfo): (r: PackageInfo)
    ensures SortedBy(r.subdirectories, Identity) && multiset(r.subdirectories) == multiset(info.subdirectories)
    ensures r.importPath == info.importPath && r.isCmd == info.isCmd
    ensures r.funcs == info.funcs && r.types == info.types
    ensures |info.examples| <= |r.examples| && r.examples[..|info.examples|] == info.examples
    ensures cfg.title != "" ==> r.name == cfg.title
    ensures cfg.title == "" && info.isCmd ==> r.name == base(name)
    ensures cfg.title == "" && !info.isCmd ==> r.name == info.name && r.doc == info.doc
    ensures r.examples == PromoteExamples(cfg.includeSections, info).examples
    ensures info.isCmd ==> r.doc == TrimPrefix(info.doc, "Package main is ")
  {
    var sorted := info.(subdirectories := SortBy(info.subdirectories, Identity));
    ApplyTitle(RenameCommand(PromoteExamples(cfg.includeSections, sorted), name, base), cfg.title)
  }

  // ---------------------------------------------------------------------------
  // Sub-packages

  datatype SubPkg = SubPkg(path: string, pkg: Package)

  /** The result of `get`: the package and its sub-packages. */
  datatype Pkg = Pkg(package: Package, subPkgs: seq<SubPkg>)

  function PathOf(sp: SubPkg): string { sp.path }

  function SubPath(importPath: string, subDir: string): string { importPath + "/" + subDir }

  /** What `fetch` keeps of one sub-directory: its import path, when it loads as a package with a name. */
  function KeptPath(env: Env, path: string): seq<string> {
    var r := DocGetSpec(env, path);
    if r.Ok? && r.value.name != "" then [path] else []
  }

  /** What `fetch` records of one sub-directory that fails to load: the wrapped error. */
  function LoadError(env: Env, path: string): seq<Error> {
    var r := DocGetSpec(env, path);
    if r.Err? then [FetchFailed(path, r.error)] else []
  }

  /** The sub-directories that load as packages with a name, as import paths, in sub-directory order. */
  function FetchedPaths(env: Env, importPath: string, subDirs: seq<string>): seq<string> {
    if subDirs == [] then []
    else
      FetchedPaths(env, importPath, subDirs[..|subDirs| - 1]) + KeptPath(env, SubPath(importPath, subDirs[|subDirs| - 1]))
  }

  /** The errors of the sub-directories that fail to load, in sub-directory order. */
  function FetchErrors(env: Env, importPath: string, subDirs: seq<string>): seq<Error> {
    if subDirs == [] then []
    else
      FetchErrors(env, importPath, subDirs[..|subDirs| - 1]) + LoadError(env, SubPath(importPath, subDirs[|subDirs| - 1]))
  }

  /** multierror's ErrorOrNil: no error when nothing was gathered. */
  function ErrorOrNil(errors: seq<Error>): (r: Option<Error>)
    ensures r.None? <==> errors == []
  {
    if errors == [] then None else Some(Multi(errors))
  }

  /** The sub-package holds what `docGet` returns for its path. */
  ghost predicate AsLoaded(env: Env, sp: SubPkg)
    reads sp.pkg
  {
    DocGetSpec(env, sp.path).Ok? && sp.pkg.View() == DocGetSpec(env, sp.path).value
  }

  class SubPkgFetcher {
    const importPath: string
    const recursive: bool
    var errors: seq<Error>
    var packages: seq<SubPkg>

    constructor (importPath: string, recursive: bool)
      ensures this.importPath == importPath && this.recursive == recursive
      ensures errors == [] && packages == []
    {
      this.importPath := importPath;
      this.recursive := recursive;
      errors := [];
      packages := [];
    }

    /** Loads one sub-directory and records its package or its error. */
    method FetchOne(env: Env, subDir: string)
      modifies this
      ensures errors == old(errors) + LoadError(env, SubPath(importPath, subDir))
      ensures Map(PathOf, packages) == Map(PathOf, old(packages)) + KeptPath(env, SubPath(importPath, subDir))
      ensures |old(packages)| <= |packages| && packages[..|old(packages)|] == old(packages)
      ensures forall i | |old(packages)| <= i < |packages| :: fresh(packages[i].pkg) && AsLoaded(env, packages[i])
    {
      var path := SubPath(importPath, subDir);
      var sp := DocGet(env, path);
      if sp.Err? {
        errors := errors + [FetchFailed(path, sp.error)];
        return;
      }
      if sp.value.name != "" {
        MapAppend(PathOf, packages, [SubPkg(path, sp.value)]);
        packages := packages + [SubPkg(path, sp.value)];
      }
    }

    /** The loop of `Fetch`: one `fetch` per sub-directory, in order. */
    method FetchEach(env: Env, subDirs: seq<string>)
      modifies this
      ensures errors == old(errors) + FetchErrors(env, importPath, subDirs)
      ensures Map(PathOf, packages) == Map(PathOf, old(packages)) + FetchedPaths(env, importPath, subDirs)
      ensures |old(packages)| <= |packages| && packages[..|old(packages)|] == old(packages)
      ensures forall j | |old(packages)| <= j < |packages| :: fresh(packages[j].pkg) && AsLoaded(env, packages[j])
    {
      var i := 0;
      while i < |subDirs|
        invariant 0 <= i <= |subDirs|
        invariant errors == old(errors) + FetchErrors(env, importPath, subDirs[..i])
        invariant Map(PathOf, packages) == Map(PathOf, old(packages)) + FetchedPaths(env, importPath, subDirs[..i])
        invariant |old(packages)| <= |packages| && packages[..|old(packages)|] == old(packages)
        invariant forall j | |old(packages)| <= j < |packages| :: fresh(packages[j].pkg) && AsLoaded(env, packages[j])
      {
        FetchStep(env, importPath, subDirs, i);
        ghost var before := packages;
        FetchOne(env, subDirs[i]);
        ConcatAssoc(old(errors), FetchErrors(env, importPath, subDirs[..i]), LoadError(env, SubPath(importPath, subDirs[i])));
        ConcatAssoc(Map(PathOf, old(packages)), FetchedPaths(env, importPath, subDirs[..i]), KeptPath(env, SubPath(importPath, subDirs[i])));
        forall j | |old(packages)| <= j < |packages|
          ensures fresh(packages[j].pkg) && AsLoaded(env, packages[j])
        {
          if j < |before| {
            assert packages[j] == before[j];
          }
        }
        i := i + 1;
      }
      assert subDirs[..i] == subDirs;
    }

    /**
     * `Fetch`: loads every sub-directory of `pkg`, then sorts the gathered
     * packages by path and returns them with the gathered errors, if any.
     */
    method Fetch(env: Env, pkg: Package) returns (sps: seq<SubPkg>, err: Option<Error>)
      modifies this
      ensures errors == old(errors) + FetchErrors(env, importPath, pkg.subdirectories)
      ensures err == ErrorOrNil(errors)
      ensures sps == packages && SortedBy(packages, PathOf)
      ensures Map(PathOf, packages) == SortBy(Map(PathOf, old(packages)) + FetchedPaths(env, importPath, pkg.subdirectories), Identity)
      ensures forall sp | sp in packages && sp !in old(packages) :: fresh(sp.pkg) && AsLoaded(env, sp)
    {
      FetchEach(env, pkg.subdirectories);
      ghost var gathered := packages;
      packages := SortBy(packages, PathOf);
      SortByMap(gathered, PathOf, PathOf, Identity);
      SortByMembers(gathered, PathOf);
      NewMembers(old(packages), gathered);
      sps := packages;
      err := ErrorOrNil(errors);
    }
  }

  /** Sequence concatenation is associative. */
  lemma ConcatAssoc<T>(a: seq<T>, b: seq<T>, c: seq<T>)
    ensures a + b + c == a + (b + c)
  {
  }

  lemma FetchStep(env: Env, importPath: string, subDirs: seq<string>, i: nat)
    requires i < |subDirs|
    ensures FetchErrors(env, importPath, subDirs[..i + 1]) ==
      FetchErrors(env, importPath, subDirs[..i]) + LoadError(env, SubPath(importPath, subDirs[i]))
    ensures FetchedPaths(env, importPath, subDirs[..i + 1]) ==
      FetchedPaths(env, importPath, subDirs[..i]) + KeptPath(env, SubPath(importPath, subDirs[i]))
  {
    assert subDirs[..i + 1][..i] == subDirs[..i];
  }

  lemma PromotedStep(owners: seq<Owner>, i: nat)
    requires i < |owners|
    ensures Promoted(owners[..i + 1]) == Promoted(owners[..i]) + InheritAll(owners[i].examples, owners[i])
  {
    assert owners[..i + 1][..i] == owners[..i];
  }

  lemma InheritAllStep(es: seq<Example>, j: nat, o: Owner)
    requires j < |es|
    ensures InheritAll(es[..j + 1], o) == InheritAll(es[..j], o) + [Inherit(es[j], o)]
  {
    assert es[..j + 1][..j] == es[..j];
  }

  /** An element of `xs` not in its prefix `prefix` lies beyond that prefix. */
  lemma NewMembers<T>(prefix: seq<T>, xs: seq<T>)
    requires |prefix| <= |xs| && xs[..|prefix|] == prefix
    ensures forall x | x in xs && x !in prefix :: exists j :: |prefix| <= j < |xs| && xs[j] == x
  {
    forall x | x in xs && x !in prefix
      ensures exists j :: |prefix| <= j < |xs| && xs[j] == x
    {
      var j :| 0 <= j < |xs| && xs[j] == x;
    }
  }

  /** The inner promotion loop: append the promoted copies of one owner's examples. */
  method AppendInherited(p: Package, o: Owner)
    modifies p
    ensures p.View() == old(p.View()).(examples := old(p.examples) + InheritAll(o.examples, o))
  {
    ghost var info := p.View();
    var j := 0;
    while j < |o.examples|
      invariant 0 <= j <= |o.examples|
      invariant p.examples == info.examples + InheritAll(o.examples[..j], o)
      invariant p.View() == info.(examples := p.examples)
    {
      var e := o.examples[j];
      if e.name == "" {
        e := e.(name := o.name);
      }
      if e.doc == "" {
        e := e.(doc := o.doc);
      }
      assert e == Inherit(o.examples[j], o);
      InheritAllStep(o.examples, j, o);
      ConcatAssoc(info.examples, InheritAll(o.examples[..j], o), [e]);
      p.examples := p.examples + [e];
      j := j + 1;
    }
    assert o.examples[..j] == o.examples;
  }

  /** The promotion loops of `get`: append the promoted examples of `owners` to the package. */
  method AppendPromoted(p: Package, owners: seq<Owner>)
    modifies p
    ensures p.View() == old(p.View()).(examples := old(p.examples) + Promoted(owners))
  {
    var i := 0;
    while i < |owners|
      invariant 0 <= i <= |owners|
      invariant p.View() == old(p.View()).(examples := old(p.examples) + Promoted(owners[..i]))
    {
      ghost var before := p.View();
      AppendInherited(p, owners[i]);
      PromotedStep(owners, i);
      assert p.View() == before.(examples := before.examples + InheritAll(owners[i].examples, owners[i]));
      i := i + 1;
    }
    assert owners[..i] == owners;
  }

  class Gen {
    var config: Config

    /** `New`: a generator with the zero configuration (the HTTP client is not modelled). */
    constructor ()
      ensures config == EmptyConfig
    {
      config := EmptyConfig;
    }

    method WithConfig(c: Config) returns (g: Gen)
      modifies this
      ensures config == c && g == this
    {
      config := c;
      g := this;
    }

    /**
     * The in-place steps of `get` between the fetch and the sub-packages:
     * sort, promote examples, rename a command, apply the title.
     */
    method Adjust(p: Package, name: string, base: string -> string)
      modifies p
      ensures p.View() == PostProcess(config, name, base, old(p.View()))
    {
      ghost var info := p.View();
      p.subdirectories := SortBy(p.subdirectories, Identity);
      ghost var sorted := p.View();
      assert sorted == info.(subdirectories := SortBy(info.subdirectories, Identity));
      if !Contains(config.includeSections, "functions") {
        AppendPromoted(p, Map(FuncOwner, p.funcs));
      }
      if !Contains(config.includeSections, "types") {
        AppendPromoted(p, Map(TypeOwner, p.types));
      }
      assert p.View() == PromoteExamples(config.includeSections, sorted);
      if p.isCmd {
        p.name := base(name);
        p.doc := TrimPrefix(p.doc, "Package main is ");
      }
      assert p.View() == RenameCommand(PromoteExamples(config.includeSections, sorted), name, base);
      if config.title != "" {
        p.name := config.title;
      }
    }

    /** The sub-package block of `get`: a fresh fetcher for `name` run over `p`'s sub-directories. */
    method FetchSubPkgs(env: Env, name: string, p: Package) returns (r: Result<seq<SubPkg>, Error>)
      ensures var errs := FetchErrors(env, name, p.subdirectories);
        (r.Ok? <==> errs == []) && (r.Err? ==> r.error == Multi(errs))
      ensures r.Ok? ==> Map(PathOf, r.value) == SortBy(FetchedPaths(env, name, p.subdirectories), Identity)
      ensures r.Ok? ==> forall sp | sp in r.value :: fresh(sp.pkg) && AsLoaded(env, sp)
    {
      var f := new SubPkgFetcher(name, config.recursive);
      ghost var paths := FetchedPaths(env, name, p.subdirectories);
      ghost var errs := FetchErrors(env, name, p.subdirectories);
      assert Map(PathOf, f.packages) + paths == paths;
      assert f.errors + errs == errs;
      var subs, err := f.Fetch(env, p);
      assert f.errors == errs;
      if err.Some? {
        return Err(err.value);
      }
      return Ok(subs);
    }

    /**
     * `get`: fetch the package, post-process it in place, then fetch its
     * sub-packages unless they are skipped. Any sub-package error fails the call.
     */
    method Get(env: Env, name: string) returns (r: Result<Pkg, Error>)
      ensures DocGetSpec(env, name).Err? ==> r == Err(DocGetSpec(env, name).error)
      ensures r.Ok? ==> DocGetSpec(env, name).Ok? && fresh(r.value.package)
      ensures r.Ok? ==> r.value.package.View() == PostProcess(config, name, env.base, DocGetSpec(env, name).value)
      ensures DocGetSpec(env, name).Ok? && config.skipSubPkgs ==> r.Ok? && r.value.subPkgs == []
      ensures DocGetSpec(env, name).Ok? && !config.skipSubPkgs ==>
        var post := PostProcess(config, name, env.base, DocGetSpec(env, name).value);
        var errs := FetchErrors(env, name, post.subdirectories);
        (r.Ok? <==> errs == [])
        && (r.Err? ==> r.error == Multi(errs))
        && (r.Ok? ==> Map(PathOf, r.value.subPkgs) == SortBy(FetchedPaths(env, name, post.subdirectories), Identity))
        && (r.Ok? ==> forall sp | sp in r.value.subPkgs :: fresh(sp.pkg) && AsLoaded(env, sp))
    {
      var res := DocGet(env, name);
      if res.Err? {
        return Err(res.error);
      }
      var p := res.value;
      Adjust(p, name, env.base);
      var pk := Pkg(p, []);
      if !config.skipSubPkgs {
        var subs := FetchSubPkgs(env, name, p);
        if subs.Err? {
          return Err(subs.error);
        }
        pk := Pkg(p, subs.value);
      }
      return Ok(pk);
    }
  }

  // ---------------------------------------------------------------------------
  // Properties of example promotion

  /** Promotion goes owner by owner: promoting `a + b` promotes `a`, then `b`. */
  lemma {:induction false} PromotedAppend(a: seq<Owner>, b: seq<Owner>)
    ensures Promoted(a + b) == Promoted(a) + Promoted(b)
    decreases |b|
  {
    if b == [] {
      assert a + b == a;
    } else {
      var b' := b[..|b| - 1];
      assert (a + b)[..|a + b| - 1] == a + b';
      PromotedAppend(a, b');
    }
  }

  /** Every example is promoted exactly once: the promoted list is as long as all the owners' example lists together. */
  lemma {:induction false} PromotedLength(owners: seq<Owner>)
    ensures |Promoted(owners)| == ExampleCount(owners)
  {
    if owners != [] {
      PromotedLength(owners[..|owners| - 1]);
    }
  }

  /**
   * The k-th example of the i-th owner is promoted at position
   * `|Promoted(owners[..i])| + k`, with the owner's name and doc filled in:
   * owners in order, and each owner's examples in order.
   */
  lemma PromotedAt(owners: seq<Owner>, i: nat, k: nat)
    requires i < |owners| && k < |owners[i].examples|
    ensures |Promoted(owners[..i])| + k < |Promoted(owners)|
    ensures Promoted(owners)[|Promoted(owners[..i])| + k] == Inherit(owners[i].examples[k], owners[i])
  {
    var o := owners[i];
    assert owners == owners[..i + 1] + owners[i + 1..];
    PromotedAppend(owners[..i + 1], owners[i + 1..]);
    PromotedStep(owners, i);
    InheritAllAt(o.examples, o, k);
  }

  /**
   * A section that is not included has its examples appended (functions
   * first, then types) after the package's own; an included one adds nothing.
   */
  lemma PromotionBySection(sections: seq<string>, info: PackageInfo)
    ensures PromoteExamples(sections, info).examples ==
      info.examples
      + (if "functions" in sections then [] else Promoted(Map(FuncOwner, info.funcs)))
      + (if "types" in sections then [] else Promoted(Map(TypeOwner, info.types)))
  {
  }

  /** With no sections listed, both promotions run (although an empty list is documented as "all sections"). */
  lemma EmptySectionsPromoteAll(info: PackageInfo)
    ensures PromoteExamples([], info).examples ==
      info.examples + Promoted(Map(FuncOwner, info.funcs)) + Promoted(Map(TypeOwner, info.types))
  {
  }

  // ---------------------------------------------------------------------------
  // Properties of sub-package fetching

  /** A path is fetched exactly when it names a sub-directory that loads as a package with a name. */
  lemma {:induction false} FetchedPathsMembers(env: Env, importPath: string, subDirs: seq<string>, path: string)
    ensures path in FetchedPaths(env, importPath, subDirs) <==>
      exists d :: d in subDirs && path == SubPath(importPath, d)
        && DocGetSpec(env, path).Ok? && DocGetSpec(env, path).value.name != ""
  {
    if subDirs != [] {
      var init := subDirs[..|subDirs| - 1];
      var last := subDirs[|subDirs| - 1];
      FetchedPathsMembers(env, importPath, init, path);
      assert subDirs == init + [last];
    }
  }

  /** Fetching fails exactly when some sub-directory fails to load, and there is one error per such sub-directory. */
  lemma {:induction false} FetchErrorsFailures(env: Env, importPath: string, subDirs: seq<string>)
    ensures FetchErrors(env, importPath, subDirs) == [] <==>
      forall d | d in subDirs :: DocGetSpec(env, SubPath(importPath, d)).Ok?
    ensures |FetchErrors(env, importPath, subDirs)| + |FetchedPaths(env, importPath, subDirs)| <= |subDirs|
  {
    if subDirs != [] {
      var init := subDirs[..|subDirs| - 1];
      FetchErrorsFailures(env, importPath, init);
      assert subDirs == init + [subDirs[|subDirs| - 1]];
    }
  }

  lemma {:induction false} FetchedPathsAppend(env: Env, importPath: string, a: seq<string>, b: seq<string>)
    ensures FetchedPaths(env, importPath, a + b) == FetchedPaths(env, importPath, a) + FetchedPaths(env, importPath, b)
    decreases |b|
  {
    if b == [] {
      assert a + b == a;
    } else {
      var b' := b[..|b| - 1];
      assert (a + b)[..|a + b| - 1] == a + b';
      FetchedPathsAppend(env, importPath, a, b');
    }
  }

  lemma {:induction false} FetchedPathsPermutation(env: Env, importPath: string, a: seq<string>, b: seq<string>)
    requires multiset(a) == multiset(b)
    ensures multiset(FetchedPaths(env, importPath, a)) == multiset(FetchedPaths(env, importPath, b))
    decreases |a|
  {
    if a != [] {
      var init := a[..|a| - 1];
      var last := a[|a| - 1];
      assert a == init + [last];
      assert last in multiset(b);
      var j :| 0 <= j < |b| && b[j] == last;
      assert b == b[..j] + [last] + b[j + 1..];
      var rest := b[..j] + b[j + 1..];
      assert multiset(b) == multiset(b[..j]) + multiset{last} + multiset(b[j + 1..]);
      assert multiset(a) == multiset(init) + multiset{last};
      assert multiset(rest) == multiset(b[..j]) + multiset(b[j + 1..]);
      assert multiset(init) == multiset(a) - multiset{last};
      assert multiset(rest) == multiset(b) - multiset{last};
      FetchedPathsPermutation(env, importPath, init, rest);
      FetchedPathsAppend(env, importPath, init, [last]);
      FetchedPathsAppend(env, importPath, b[..j], b[j + 1..]);
      FetchedPathsAppend(env, importPath, b[..j] + [last], b[j + 1..]);
      FetchedPathsAppend(env, importPath, b[..j], [last]);
    }
  }

  lemma {:induction false} FetchErrorsAppend(env: Env, importPath: string, a: seq<string>, b: seq<string>)
    ensures FetchErrors(env, importPath, a + b) == FetchErrors(env, importPath, a) + FetchErrors(env, importPath, b)
    decreases |b|
  {
    if b == [] {
      assert a + b == a;
    } else {
      var b' := b[..|b| - 1];
      assert (a + b)[..|a + b| - 1] == a + b';
      FetchErrorsAppend(env, importPath, a, b');
    }
  }

  /**
   * The gathered errors are the same whatever the order of the
   * sub-directories, up to their order in the list.
   */
  lemma {:induction false} FetchErrorsPermutation(env: Env, importPath: string, a: seq<string>, b: seq<string>)
    requires multiset(a) == multiset(b)
    ensures multiset(FetchErrors(env, importPath, a)) == multiset(FetchErrors(env, importPath, b))
    decreases |a|
  {
    if a != [] {
      var init := a[..|a| - 1];
      var last := a[|a| - 1];
      assert a == init + [last];
      assert last in multiset(b);
      var j :| 0 <= j < |b| && b[j] == last;
      assert b == b[..j] + [last] + b[j + 1..];
      var rest := b[..j] + b[j + 1..];
      assert multiset(b) == multiset(b[..j]) + multiset{last} + multiset(b[j + 1..]);
      assert multiset(a) == multiset(init) + multiset{last};
      assert multiset(rest) == multiset(b[..j]) + multiset(b[j + 1..]);
      assert multiset(init) == multiset(a) - multiset{last};
      assert multiset(rest) == multiset(b) - multiset{last};
      FetchErrorsPermutation(env, importPath, init, rest);
      FetchErrorsAppend(env, importPath, init, [last]);
      FetchErrorsAppend(env, importPath, b[..j], b[j + 1..]);
      FetchErrorsAppend(env, importPath, b[..j] + [last], b[j + 1..]);
      FetchErrorsAppend(env, importPath, b[..j], [last]);
    }
  }

  /**
   * The sorted sub-package paths do not depend on the order in which the
   * sub-directories are loaded: every completion order of the concurrent
   * loads gives the same result.
   */
  lemma FetchOrderIndependent(env: Env, importPath: string, a: seq<string>, b: seq<string>)
    requires multiset(a) == multiset(b)
    ensures SortBy(FetchedPaths(env, importPath, a), Identity) == SortBy(FetchedPaths(env, importPath, b), Identity)
  {
    FetchedPathsPermutation(env, importPath, a, b);
    SortedUnique(SortBy(FetchedPaths(env, importPath, a), Identity), SortBy(FetchedPaths(env, importPath, b), Identity));
  }
}
