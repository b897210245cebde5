/**
 Assembling the payload of a module: the module_utils found for it, the module itself and the
 package files on the way to it are written into one zip archive.
*/
module PayloadZip {
  import opened Basics
  import opened ImportClosure
  import opened ImportSearch

  const INIT := "__init__"

  /** The path of a member, as the parts between slashes and without the `.py` of the last one. */
  type Path = seq<string>

  /** The packages that are made up: the two of the core, and those of a collection down to its module_utils. */
  predicate MadeUp(n: Name) {
    || n == ["distronode"] || n == ["distronode", "module_utils"]
    || (n != [] && n[0] == "distronode_collections" && |n| < 6)
  }

  predicate PackageOf(world: World, n: Name) {
    MadeUp(n) || (n in world && world[n].isPackage)
  }

  function PathOf(world: World, n: Name): Path {
    if PackageOf(world, n) then n + [INIT] else n
  }

  /** The names a module can have: below `distronode.modules`, or below the modules directory of a collection. */
  predicate ModuleName(fqn: Name) {
    || (|fqn| >= 3 && fqn[0] == "distronode" && fqn[1] == "modules")
    || (|fqn| >= 6 && IsCollection(fqn) && fqn[3..5] == ["plugins", "modules"])
  }

  /** The package files on the way to a module, from the directory at depth `start` down to before depth `end`. */
  function FilesBetween(fqn: Name, start: nat, end: nat): set<Path> {
    set i | start <= i < end && i < |fqn| :: fqn[..i] + [INIT]
  }

  /** The package files `AddModule` may write: the distronode packages come with module_utils. */
  function PackageFiles(fqn: Name): set<Path>
    requires fqn != []
  {
    FilesBetween(fqn, if fqn[0] == "distronode" then 2 else 1, |fqn|)
  }

  /** Every directory on the way to a member is a package. */
  predicate DirectoriesArePackages(paths: seq<Path>) {
    forall p, k :: p in paths && 0 < k < |p| ==> p[..k] + [INIT] in paths
  }

  predicate AncestorsArePackages(world: World, have: set<Name>) {
    forall n, k :: n in have && 0 < k < |n| ==>
      n[..k] in have && (MadeUp(n[..k]) || (n[..k] in world && world[n[..k]].isPackage))
  }

  /** No module is called like a package file. */
  predicate NoneNamedInit(have: set<Name>, fqn: Name) {
    && (forall n :: n in have && n != [] ==> n[|n| - 1] != INIT)
    && (fqn != [] ==> fqn[|fqn| - 1] != INIT)
  }

  class ZipFile {
    var names: seq<Path>  // in the order in which the members were written

    constructor ()
      ensures names == []
    {
      names := [];
    }

    method WriteMember(path: Path)
      modifies this
      ensures names == old(names) + [path]
    {
      names := names + [path];
    }

    /** The cached module_utils are written in some order, each once. */
    method WriteUtils(world: World, cache: set<Name>) returns (ghost order: seq<Name>)
      modifies this
      ensures Written(world, cache, order, old(names), names)
    {
      order := [];
      var todo := cache;
      while todo != {}
        invariant todo <= cache && Written(world, cache - todo, order, old(names), names)
        decreases todo
      {
        var n :| n in todo;
        ghost var done := cache - todo;
        WriteMember(PathOf(world, n));
        todo := todo - {n};
        assert cache - todo == done + {n};
        order := order + [n];
      }
      assert cache - {} == cache;
    }

    /** The module and the package files on its way; for a collection, those already written are left alone. */
    method AddModule(fqn: Name) returns (ghost inits: seq<Path>)
      requires fqn != []
      modifies this
      ensures names == old(names) + [fqn] + inits && ModuleInits(old(names), fqn, inits)
    {
      WriteMember(fqn);
      var start, existing := 1, names;
      if fqn[0] == "distronode" {
        start, existing := 2, [];
      }
      hide FilesBetween, Distinct;
      inits := [];
      var idx := start;
      NoFileYet(fqn, start);
      while idx < |fqn|
        invariant start <= idx && (idx > start ==> idx <= |fqn|)
        invariant names == old(names) + [fqn] + inits
        invariant Distinct(inits) && Elements(inits) == FilesBetween(fqn, start, idx) - Elements(existing)
      {
        var packagePath := fqn[..idx] + [INIT];
        OneMoreFile(fqn, start, idx);
        if packagePath !in existing {
          AppendDistinct(inits, packagePath);
          WriteMember(packagePath);
          inits := inits + [packagePath];
        }
        idx := idx + 1;
      }
      AllFiles(fqn, start, idx);
      assert PackageFiles(fqn) == FilesBetween(fqn, start, |fqn|);
      assert forall p :: p in inits <==> p in Elements(inits);
    }
  }

  lemma {:induction false} NoFileYet(fqn: Name, start: nat)
    ensures FilesBetween(fqn, start, start) == {} && Distinct<Path>([]) && Elements<Path>([]) == {}
  {
  }

  lemma {:induction false} AllFiles(fqn: Name, start: nat, idx: nat)
    requires idx >= |fqn|
    ensures FilesBetween(fqn, start, idx) == FilesBetween(fqn, start, |fqn|)
  {
  }

  /** The next file is longer than those before it. */
  lemma {:induction false} OneMoreFile(fqn: Name, start: nat, idx: nat)
    requires start <= idx < |fqn|
    ensures fqn[..idx] + [INIT] !in FilesBetween(fqn, start, idx)
    ensures FilesBetween(fqn, start, idx + 1) == FilesBetween(fqn, start, idx) + {fqn[..idx] + [INIT]}
  {
    assert forall p :: p in FilesBetween(fqn, start, idx) ==> |p| <= idx;
  }

  lemma {:induction false} AppendDistinct(paths: seq<Path>, p: Path)
    requires Distinct(paths) && p !in Elements(paths)
    ensures Distinct(paths + [p]) && Elements(paths + [p]) == Elements(paths) + {p}
  {
    assert Distinct([p]) && Elements([p]) == {p};
    JoinDistinct(paths, [p]);
  }

  /** `order` lists the cached names once each, and `after` has their members behind those of `before`. */
  ghost predicate Written(world: World, cache: set<Name>, order: seq<Name>, before: seq<Path>, after: seq<Path>) {
    && |after| == |before| + |order| && after[..|before|] == before
    && (forall n :: n in cache <==> n in order)
    && (forall i, j :: 0 <= i < j < |order| ==> order[i] != order[j])
    && (forall i :: 0 <= i < |order| ==> after[|before| + i] == PathOf(world, order[i]))
  }

  /** The package files written for a module after the members of `before`. */
  ghost predicate ModuleInits(before: seq<Path>, fqn: Name, inits: seq<Path>)
    requires fqn != []
  {
    && Distinct(inits)
    && forall p :: p in inits <==> p in PackageFiles(fqn) && (fqn[0] == "distronode" || p !in before + [fqn])
  }

  // ---------------------------------------------------------------- the payload is well formed

  /** The cached names are those of a finished search. */
  ghost predicate Collected(world: World, start: set<Import>, have: set<Name>, fqn: Name) {
    LeastClosed(world, start, have) && ModuleName(fqn) && NoneNamedInit(have, fqn)
  }

  lemma {:induction false} UtilsPaths(world: World, cache: set<Name>, order: seq<Name>, paths: seq<Path>)
    requires Written(world, cache, order, [], paths)
    ensures forall p :: p in paths <==> exists n :: n in cache && p == PathOf(world, n)
  {
    hide PathOf;
    assert forall i :: 0 <= i < |paths| ==> paths[i] == PathOf(world, order[i]) && order[i] in cache;
    forall n | n in cache
      ensures PathOf(world, n) in paths
    {
      var i :| 0 <= i < |order| && order[i] == n;
      assert paths[i] == PathOf(world, n);
    }
  }

  /** Different names have different paths when none is named like a package file. */
  lemma {:induction false} PathsDiffer(world: World, m: Name, n: Name)
    requires m != n
    requires (m != [] ==> m[|m| - 1] != INIT) && (n != [] ==> n[|n| - 1] != INIT)
    ensures PathOf(world, m) != PathOf(world, n)
  {
    if PackageOf(world, m) && PackageOf(world, n) {
      assert m == (m + [INIT])[..|m|] && n == (n + [INIT])[..|n|];
    } else if PackageOf(world, m) {
      assert (m + [INIT])[|m|] == INIT;
    } else if PackageOf(world, n) {
      assert (n + [INIT])[|n|] == INIT;
    }
  }

  lemma {:induction false} DifferentDirectories()
    ensures "modules" != "module_utils"
  {
    assert |"modules"| != |"module_utils"|;
  }

  lemma {:induction false} SecondPart(world: World, n: Name)
    requires Proper(world, n) && |n| >= 2 && n[0] == "distronode"
    ensures n[1] == "module_utils"
  {
    if IsCore(n) {
      assert n[..2][1] == n[1];
    }
    assert |"distronode"| != |"distronode_collections"|;
  }

  lemma {:induction false} FifthPart(world: World, n: Name)
    requires Proper(world, n) && |n| >= 6 && IsCollection(n)
    ensures n[4] == "module_utils"
  {
    assert |"distronode"| != |"distronode_collections"|;
    assert n[3..5][1] == n[4];
  }

  lemma {:induction false} ModuleParts(fqn: Name)
    requires ModuleName(fqn)
    ensures |fqn| >= 3
    ensures fqn[0] == "distronode" ==> fqn[1] == "modules"
    ensures fqn[0] != "distronode" ==> IsCollection(fqn) && |fqn| >= 6 && fqn[4] == "modules"
  {
    if IsCollection(fqn) && |fqn| >= 6 {
      assert |"distronode"| != |"distronode_collections"|;
      assert fqn[3..5][1] == fqn[4];
    }
  }

  /** A collected name agrees with the module name at most down to the directory above the modules. */
  lemma {:induction false} ModuleStandsApart(world: World, n: Name, fqn: Name, k: nat)
    requires Proper(world, n) && ModuleName(fqn) && 0 < k <= |n| && k <= |fqn| && n[..k] == fqn[..k]
    ensures fqn[0] == "distronode" ==> k == 1
    ensures fqn[0] != "distronode" ==> IsCollection(n) && (|n| >= 6 ==> k <= 4) && k < |fqn|
  {
    hide Proper, ModuleName;
    DifferentDirectories();
    ModuleParts(fqn);
    assert n[0] == n[..k][0] == fqn[0];
    if fqn[0] == "distronode" {
      if k >= 2 {
        assert n[1] == n[..k][1] == fqn[1];
        SecondPart(world, n);
      }
    } else if |n| >= 6 {
      if k >= 5 {
        assert n[4] == n[..k][4] == fqn[4];
        FifthPart(world, n);
      }
    }
  }

  /** The upper packages of a collected collection module are collected too: they always exist. */
  lemma {:induction false} UpperPackage(world: World, start: set<Import>, have: set<Name>, n: Name, k: nat)
    requires Closed(world, start, have)
    requires n in have && 0 < k < |n| && k <= 5 && IsCollection(n)
    ensures n[..k] in have && PackageOf(world, n[..k])
  {
    var e := Entry(n[..k], false, false);
    assert AsksAncestor(have, e);
    assert Asks(world, start, have, e);
    assert Locate(world, e) == Some(n[..k]);
  }

  /** No two members of the payload have the same path. */
  lemma {:induction false} PayloadDistinct(world: World, start: set<Import>, have: set<Name>, fqn: Name,
                                           order: seq<Name>, utils: seq<Path>, inits: seq<Path>)
    requires Collected(world, start, have, fqn)
    requires Written(world, have, order, [], utils) && ModuleInits(utils, fqn, inits)
    ensures Distinct(utils + [fqn] + inits)
  {
    hide LeastClosed, PathOf, ModuleName, Proper, PackageFiles, Written, NoneNamedInit;
    LeastIsProper(world, start, have);
    UtilsDistinct(world, have, fqn, order, utils);
    UtilsPaths(world, have, order, utils);
    forall p | p in utils
      ensures p != fqn && p !in inits
    {
      var n :| n in have && p == PathOf(world, n);
      UtilIsNotOfModule(world, have, fqn, utils, inits, n);
    }
    ModuleParts(fqn);
    ModuleIsNoInit(have, fqn, utils, inits);
    ThreeDistinct(utils, fqn, inits);
  }

  lemma {:induction false} UtilsDistinct(world: World, have: set<Name>, fqn: Name, order: seq<Name>, utils: seq<Path>)
    requires NoneNamedInit(have, fqn) && Written(world, have, order, [], utils)
    ensures Distinct(utils)
  {
    hide PathOf;
    forall i, j | 0 <= i < j < |utils|
      ensures utils[i] != utils[j]
    {
      assert order[i] in have && order[j] in have;
      PathsDiffer(world, order[i], order[j]);
      assert utils[i] == utils[0 + i] && utils[j] == utils[0 + j];
    }
  }

  lemma {:induction false} ThreeDistinct(before: seq<Path>, p: Path, after: seq<Path>)
    requires Distinct(before) && Distinct(after) && p !in before && p !in after
    requires forall q :: q in before ==> q !in after
    ensures Distinct(before + [p] + after)
  {
    JoinDistinct(before, [p]);
    JoinDistinct(before + [p], after);
  }

  lemma {:induction false} ModuleIsNoInit(have: set<Name>, fqn: Name, utils: seq<Path>, inits: seq<Path>)
    requires fqn != [] && NoneNamedInit(have, fqn) && ModuleInits(utils, fqn, inits)
    ensures fqn !in inits
  {
    hide PackageFiles;
    InitsEndInInit(fqn);
  }

  lemma {:induction false} InitsEndInInit(fqn: Name)
    requires fqn != []
    ensures forall p :: p in PackageFiles(fqn) ==> |p| > 0 && p[|p| - 1] == INIT
  {
  }

  lemma {:induction false} UtilIsNotOfModule(world: World, have: set<Name>, fqn: Name, utils: seq<Path>,
                                             inits: seq<Path>, n: Name)
    requires ModuleName(fqn) && NoneNamedInit(have, fqn) && n in have && Proper(world, n)
    requires ModuleInits(utils, fqn, inits) && PathOf(world, n) in utils
    ensures PathOf(world, n) != fqn && PathOf(world, n) !in inits
  {
    hide PackageOf, Proper, ModuleName;
    var p := PathOf(world, n);
    if p == fqn && !PackageOf(world, n) {
      ModuleParts(fqn);
      assert n[..|fqn|] == fqn == fqn[..|fqn|];
      ModuleStandsApart(world, n, fqn, |fqn|);
    }
    if p in inits {
      var i :| 2 <= i < |fqn| && p == fqn[..i] + [INIT];
      assert p[|p| - 1] == INIT;
      assert fqn[0] == "distronode";
      assert PackageOf(world, n) && n == p[..i];
      ModuleStandsApart(world, n, fqn, i);
    }
  }

  /**
   Every directory of the payload is a package exactly when every ancestor of a collected module
   was collected as one.
  */
  lemma {:induction false} PayloadDirectories(world: World, start: set<Import>, have: set<Name>, fqn: Name,
                                              order: seq<Name>, utils: seq<Path>, inits: seq<Path>)
    requires Collected(world, start, have, fqn)
    requires Written(world, have, order, [], utils) && ModuleInits(utils, fqn, inits)
    ensures DirectoriesArePackages(utils + [fqn] + inits) <==> AncestorsArePackages(world, have)
  {
    hide LeastClosed, PathOf, ModuleInits, Written, MadeUp, Collected;
    var all := utils + [fqn] + inits;
    UtilsPaths(world, have, order, utils);
    if DirectoriesArePackages(all) {
      forall n, k | n in have && 0 < k < |n|
        ensures n[..k] in have && PackageOf(world, n[..k])
      {
        DirectoryIsPath(world, n, k);
        assert n[..k] + [INIT] in all;
        DirectoryComesFrom(world, start, have, fqn, order, utils, inits, n, k);
      }
    }
    if AncestorsArePackages(world, have) {
      forall p, k | p in all && 0 < k < |p|
        ensures p[..k] + [INIT] in all
      {
        DirectoryIsThere(world, start, have, fqn, order, utils, inits, p, k);
      }
    }
  }

  /** A directory above a collected name is a directory above its path. */
  lemma {:induction false} DirectoryIsPath(world: World, n: Name, k: nat)
    requires k <= |n|
    ensures k < |n| ==> k < |PathOf(world, n)|
    ensures PathOf(world, n)[..k] == n[..k]
  {
  }

  lemma {:induction false} DirectoryComesFrom(world: World, start: set<Import>, have: set<Name>, fqn: Name,
                                              order: seq<Name>, utils: seq<Path>, inits: seq<Path>, n: Name, k: nat)
    requires Collected(world, start, have, fqn) && n in have && 0 < k < |n|
    requires Written(world, have, order, [], utils) && ModuleInits(utils, fqn, inits)
    requires n[..k] + [INIT] in utils + [fqn] + inits
    ensures n[..k] in have && PackageOf(world, n[..k])
  {
    hide Written, Find, Proper, ModuleName, Closed, PackageOf;
    var d := n[..k] + [INIT];
    assert d[|d| - 1] == INIT && d[..k] == n[..k];
    UtilsPaths(world, have, order, utils);
    LeastIsProper(world, start, have);
    if d in utils {
      var m :| m in have && d == PathOf(world, m);
      assert PackageOf(world, m) && m == d[..k];
    } else {
      var i :| 0 < i < |fqn| && d == fqn[..i] + [INIT] && (fqn[0] == "distronode" ==> i >= 2);
      assert i == k && fqn[..i] == d[..k];
      ModuleStandsApart(world, n, fqn, k);
      UpperPackage(world, start, have, n, k);
    }
  }

  lemma {:induction false} DirectoryIsThere(world: World, start: set<Import>, have: set<Name>, fqn: Name,
                                            order: seq<Name>, utils: seq<Path>, inits: seq<Path>, p: Path, k: nat)
    requires Collected(world, start, have, fqn) && AncestorsArePackages(world, have)
    requires Written(world, have, order, [], utils) && ModuleInits(utils, fqn, inits)
    requires p in utils + [fqn] + inits && 0 < k < |p|
    ensures p[..k] + [INIT] in utils + [fqn] + inits
  {
    hide Written, PackageOf, Asks, Locate, ModuleName, ModuleInits, PathOf, NoneNamedInit;
    UtilsPaths(world, have, order, utils);
    if p in utils {
      var n :| n in have && p == PathOf(world, n);
      UtilDirectory(world, have, utils, n, k);
    } else {
      ModuleParts(fqn);
      ModuleDirectory(have, fqn, utils, inits, p, k);
      if p[..k] == ["distronode"] {
        assert ["distronode"] in PRELOADED && PRELOADED <= have;
        PreloadedPath(world);
      }
    }
  }

  lemma {:induction false} PreloadedPath(world: World)
    ensures PathOf(world, ["distronode"]) == ["distronode"] + [INIT]
  {
  }

  lemma {:induction false} UtilDirectory(world: World, have: set<Name>, utils: seq<Path>, n: Name, k: nat)
    requires AncestorsArePackages(world, have) && n in have && 0 < k < |PathOf(world, n)|
    requires forall m :: m in have ==> PathOf(world, m) in utils
    ensures PathOf(world, n)[..k] + [INIT] in utils
  {
    hide MadeUp;
    if k == |n| {
      assert PathOf(world, n) == n[..k] + [INIT];
    } else {
      assert PathOf(world, n)[..k] == n[..k];
      assert PathOf(world, n[..k]) == n[..k] + [INIT];
    }
  }

  /** The directories on the way to the module or its package files, but for the distronode package itself. */
  lemma {:induction false} ModuleDirectory(have: set<Name>, fqn: Name, utils: seq<Path>, inits: seq<Path>, p: Path,
                                           k: nat)
    requires ModuleName(fqn) && fqn != [] && ModuleInits(utils, fqn, inits) && p in [fqn] + inits && 0 < k < |p|
    ensures (fqn[0] == "distronode" && k == 1 && p[..k] == ["distronode"]) || p[..k] + [INIT] in utils + [fqn] + inits
  {
    hide ModuleName;
    assert p[..k] == fqn[..k];
    if k < |fqn| && !(fqn[0] == "distronode" && k == 1) {
      assert fqn[..k] + [INIT] in PackageFiles(fqn);
    }
  }

  /** Ancestors exist as packages on disk. */
  predicate PackagesOnDisk(world: World) {
    && Tidy(world)
    && forall n, k :: n in world && 0 < k < |n| && n[..k] in world ==> world[n[..k]].isPackage
  }

  lemma {:induction false} CollectedAsPackages(world: World, start: set<Import>, have: set<Name>)
    requires PackagesOnDisk(world) && LeastClosed(world, start, have)
    ensures AncestorsArePackages(world, have)
  {
    hide Tidy, LeastClosed, MadeUp;
    LeastIsProper(world, start, have);
    forall n, k | n in have && 0 < k < |n|
      ensures n[..k] in have && PackageOf(world, n[..k])
    {
      AncestorAsPackage(world, start, have, n, k);
    }
  }

  lemma {:induction false} AncestorAsPackage(world: World, start: set<Import>, have: set<Name>, n: Name, k: nat)
    requires PackagesOnDisk(world) && LeastClosed(world, start, have)
    requires n in have && Proper(world, n) && 0 < k < |n|
    ensures n[..k] in have && PackageOf(world, n[..k])
  {
    hide Tidy, AsksImport;
    var p := n[..k];
    if p !in PRELOADED {
      AncestorIsOurs(world, n, k);
      if IsCollection(n) && k <= 5 {
        UpperPackage(world, start, have, n, k);
      } else {
        var e := Entry(p, false, false);
        assert AsksAncestor(have, e) && Asks(world, start, have, e);
        TidyAncestor(world, n, k);
      }
    }
  }

  /** The members of a payload: the collected modules, the module, and the package files on its way. */
  predicate Belongs(world: World, have: set<Name>, fqn: Name, p: Path) {
    (exists n :: n in have && p == PathOf(world, n)) || p == fqn || (fqn != [] && p in PackageFiles(fqn))
  }

  lemma {:induction false} MembersBelong(world: World, have: set<Name>, fqn: Name, order: seq<Name>, utils: seq<Path>,
                                         inits: seq<Path>)
    requires fqn != [] && Written(world, have, order, [], utils) && ModuleInits(utils, fqn, inits)
    ensures forall p :: p in utils + [fqn] + inits <==> Belongs(world, have, fqn, p)
  {
    hide Written, PathOf, PackageFiles;
    UtilsPaths(world, have, order, utils);
  }

  /** Members of the archive by what is on disk: packages as package files, other modules as themselves. */
  predicate ByDisk(world: World, have: set<Name>, paths: seq<Path>) {
    && (forall n :: n in have ==> MadeUp(n) || n in world)
    && (forall n :: n in have && (MadeUp(n) || world[n].isPackage) ==> n + ["__init__"] in paths)
    && (forall n :: n in have && !MadeUp(n) && !world[n].isPackage ==>
          && n in paths
          && (n + ["__init__"] in paths <==>
                n + ["__init__"] in have && n + ["__init__"] in world && !world[n + ["__init__"]].isPackage))
  }

  lemma {:induction false} PathsByDisk(world: World, start: set<Import>, have: set<Name>, fqn: Name, paths: seq<Path>)
    requires ModuleName(fqn) && LeastClosed(world, start, have)
    requires forall p :: p in paths <==> Belongs(world, have, fqn, p)
    ensures ByDisk(world, have, paths)
  {
    hide LeastClosed, ModuleName, PackageFiles;
    LeastIsProper(world, start, have);
    forall n | n in have
      ensures MadeUp(n) || n in world
      ensures PathOf(world, n) in paths
    {
      ProperIsThere(world, n);
      assert Belongs(world, have, fqn, PathOf(world, n));
    }
    forall n | n in have && !MadeUp(n) && !world[n].isPackage
      ensures n + [INIT] in paths <==> n + [INIT] in have && n + [INIT] in world && !world[n + [INIT]].isPackage
    {
      NotOfModule(world, fqn, n);
      assert Belongs(world, have, fqn, n + [INIT]) <==> exists m :: m in have && n + [INIT] == PathOf(world, m);
      PlainPath(world, have, n);
    }
  }

  lemma {:induction false} ProperIsThere(world: World, n: Name)
    requires Proper(world, n)
    ensures MadeUp(n) || n in world
    ensures !MadeUp(n) ==> Ours(n) && !BadPath(n)
  {
  }

  /** Only `n/__init__` itself, as a plain module, is written where the package file of a plain module would be. */
  lemma {:induction false} PlainPath(world: World, have: set<Name>, n: Name)
    requires n != [] && !PackageOf(world, n) && forall m :: m in have ==> MadeUp(m) || m in world
    ensures (exists m :: m in have && n + [INIT] == PathOf(world, m)) <==>
            n + [INIT] in have && n + [INIT] in world && !world[n + [INIT]].isPackage
  {
    var p := n + [INIT];
    assert p[..|n|] == n && (|n| == 1 ==> n == [p[0]]) && p[0] == n[0];
    assert !MadeUp(p);
    forall m | m in have
      ensures p == PathOf(world, m) ==> m == p
    {
      assert (m + [INIT])[..|m|] == m;
    }
    if p in have && p in world && !world[p].isPackage {
      assert PathOf(world, p) == p;
    }
  }

  /** A file below module_utils is neither the module nor on the way to it. */
  lemma {:induction false} NotOfModule(world: World, fqn: Name, n: Name)
    requires ModuleName(fqn) && Proper(world, n) && !MadeUp(n)
    ensures n != [] && n + [INIT] != fqn && fqn != [] && n + [INIT] !in PackageFiles(fqn)
  {
    hide ModuleName;
    ModuleParts(fqn);
    forall i | 0 < i <= |fqn|
      ensures n != fqn[..i]
    {
      if n == fqn[..i] {
        assert n[..i] == fqn[..i];
        ModuleStandsApart(world, n, fqn, i);
      }
    }
    var p := n + [INIT];
    assert p[..|n|] == n;
    if |n| < |fqn| {
      assert n != fqn[..|n|];
    }
    forall i | 0 < i < |fqn|
      ensures p != fqn[..i] + [INIT]
    {
      assert (fqn[..i] + [INIT])[..i] == fqn[..i];
    }
  }

  lemma {:induction false} LeastHasPreloaded(world: World, start: set<Import>, have: set<Name>)
    requires LeastClosed(world, start, have)
    ensures PRELOADED <= have
  {
  }

  lemma {:induction false} OnTheWay(world: World, have: set<Name>, fqn: Name, paths: seq<Path>)
    requires ModuleName(fqn) && PRELOADED <= have
    requires forall p :: p in paths <==> Belongs(world, have, fqn, p)
    ensures fqn in paths && forall k :: 0 < k < |fqn| ==> fqn[..k] + ["__init__"] in paths
  {
    hide ModuleName;
    ModuleParts(fqn);
    forall k | 0 < k < |fqn|
      ensures fqn[..k] + [INIT] in paths
    {
      if fqn[0] == "distronode" && k == 1 {
        assert fqn[..1] == ["distronode"] && ["distronode"] in PRELOADED;
        PreloadedPath(world);
      } else {
        assert fqn[..k] + [INIT] in PackageFiles(fqn);
      }
      assert Belongs(world, have, fqn, fqn[..k] + [INIT]);
    }
  }

  /**
   The payload of a module holds exactly what belongs to it.  Members never share a path, and
   every directory is a package exactly when every ancestor of a collected module was collected
   as a package.
  */
  method Assemble(world: World, script: Source, fqn: Name) returns (r: Result<seq<Path>, Problem>, have: set<Name>)
    requires ModuleName(fqn)
    ensures r.Success? ==> LeastClosed(world, script.imports, have)
    ensures r.Success? ==> forall p :: p in r.value <==> Belongs(world, have, fqn, p)
    ensures r.Success? ==> ByDisk(world, have, r.value) && fqn in r.value
    ensures r.Success? ==> forall k :: 0 < k < |fqn| ==> fqn[..k] + ["__init__"] in r.value
    ensures r.Success? && NoneNamedInit(have, fqn) ==> Distinct(r.value)
    ensures r.Success? && NoneNamedInit(have, fqn)
            ==> (DirectoriesArePackages(r.value) <==> AncestorsArePackages(world, have))
    ensures r.Success? && NoneNamedInit(have, fqn) && PackagesOnDisk(world) ==> DirectoriesArePackages(r.value)
  {
    hide ModuleName, PathOf, Written, ModuleInits, LeastClosed, Faultless, AncestorsThere, Tidy, Distinct;
    hide Belongs, ByDisk, Search, StandsFor, ImportedBy;
    hide DirectoriesArePackages, AncestorsArePackages, NoneNamedInit, PackagesOnDisk, RealProblem, Closed;
    have := {};
    ModuleParts(fqn);
    var found;
    ghost var picks;
    found, picks := RecursiveFinder(world, script);
    if found.Failure? {
      return Failure(found.error), have;
    }
    have := found.value;
    var zf := new ZipFile();
    ghost var order := zf.WriteUtils(world, found.value);
    ghost var utils := zf.names;
    ghost var inits := zf.AddModule(fqn);
    MembersBelong(world, have, fqn, order, utils, inits);
    PathsByDisk(world, script.imports, have, fqn, zf.names);
    assert PRELOADED <= have by { LeastHasPreloaded(world, script.imports, have); }
    OnTheWay(world, have, fqn, zf.names);
    if NoneNamedInit(have, fqn) {
      PayloadDistinct(world, script.imports, have, fqn, order, utils, inits);
      PayloadDirectories(world, script.imports, have, fqn, order, utils, inits);
      if PackagesOnDisk(world) {
        CollectedAsPackages(world, script.imports, have);
      }
    }
    r := Success(zf.names);
  }
}
