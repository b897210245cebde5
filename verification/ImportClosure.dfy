/**
 Collecting the module_utils a module needs.  A worklist of imported names is resolved
 against the files on disk; every file found brings its own imports and its ancestor packages.

 The worklist is a multiset, and a run takes its entries in any order; the order that sorting gives
 is one of them.
*/
module ImportClosure {
  import opened Basics

  type Name = seq<string>

  /** An import found in a source file; below the top level of the file it is optional. */
  datatype Import = Import(name: Name, optional: bool)

  datatype Source = Source(isPackage: bool, parses: bool, imports: set<Import>)

  /** The modules on disk. */
  type World = map<Name, Source>

  /** `ambiguous`: the last part may be an attribute of the module before it. */
  datatype Entry = Entry(name: Name, ambiguous: bool, optional: bool)

  datatype Problem =
    | CannotParse(name: Name) | CannotFind(entry: Entry) | BadCollectionPath(name: Name)
    | CannotParseModule

  const CORE: Name := ["distronode", "module_utils"]
  const BASIC: Name := CORE + ["basic"]
  const SIX: Name := CORE + ["six"]
  const PRELOADED: set<Name> := {["distronode"], CORE}
  const BASIC_ENTRY := Entry(BASIC, false, false)
  const EMPTY_PACKAGE := Source(true, true, {})

  predicate IsCore(n: Name) {
    |n| >= 2 && n[..2] == CORE
  }

  predicate IsCollection(n: Name) {
    |n| >= 1 && n[0] == "distronode_collections"
  }

  predicate Ours(n: Name) {
    IsCore(n) || IsCollection(n)
  }

  predicate BadPath(n: Name) {
    IsCollection(n) && |n| >= 6 && n[3..5] != ["plugins", "module_utils"]
  }

  /** six makes its submodules at run time: all of them stand for six itself. */
  predicate SixLike(n: Name) {
    IsCore(n) && |n| >= 3 && n[2] == "six"
  }

  /** Collection packages down to module_utils are made up as empty ones; everything else is on disk or missing. */
  function Find(world: World, n: Name): Option<Source> {
    if IsCollection(n) && |n| < 6 then Some(EMPTY_PACKAGE)
    else if n in world then Some(world[n])
    else None
  }

  /** The parts of the name below module_utils. */
  function BelowUtils(n: Name): nat {
    var above := if IsCore(n) then 2 else 5;
    if |n| < above then 0 else |n| - above
  }

  function Candidates(e: Entry): (c: seq<Name>) {
    if SixLike(e.name) then [SIX]
    else if e.ambiguous && BelowUtils(e.name) > 1 then [e.name, e.name[..|e.name| - 1]]
    else [e.name]
  }

  /** The first candidate that exists. */
  function Locate(world: World, e: Entry): Option<Name> {
    if !Ours(e.name) || BadPath(e.name) then None
    else
      var c := Candidates(e);
      if Find(world, c[0]).Some? then Some(c[0])
      else if |c| > 1 && Find(world, c[1]).Some? then Some(c[1])
      else None
  }

  // ---------------------------------------------------------------- the algorithm

  datatype Verdict = Skip | Add(name: Name) | Raise(problem: Problem)

  /** What happens to one entry. */
  function Judge(world: World, cache: set<Name>, e: Entry): Verdict {
    if e.name in cache || !Ours(e.name) then Skip
    else if BadPath(e.name) then Raise(BadCollectionPath(e.name))
    else
      match Locate(world, e)
      case None => if e.optional then Skip else Raise(CannotFind(e))
      case Some(n) =>
        if n in cache then Skip
        else if !Find(world, n).value.parses then Raise(CannotParse(n))
        else Add(n)
  }

  function ImportEntry(i: Import): Entry {
    Entry(i.name, true, i.optional)
  }

  function ImportsOf(world: World, n: Name): set<Import> {
    if n !in PRELOADED && Find(world, n).Some? then Find(world, n).value.imports else {}
  }

  function NewImports(world: World, n: Name, cache: set<Name>): set<Entry> {
    set i | i in ImportsOf(world, n) && i.name !in cache :: ImportEntry(i)
  }

  function NewAncestors(n: Name, cache: set<Name>, optional: bool): set<Entry> {
    set k | 0 < k < |n| && n[..k] !in cache :: Entry(n[..k], false, optional)
  }

  // ---------------------------------------------------------------- what the result means

  /** The imports that a payload with the modules of `have` asks for. */
  predicate AsksImport(world: World, start: set<Import>, have: set<Name>, e: Entry) {
    || e == BASIC_ENTRY
    || (exists i :: i in start && e == ImportEntry(i))
    || (exists n, i :: n in have && i in ImportsOf(world, n) && e == ImportEntry(i))
  }

  predicate AsksAncestor(have: set<Name>, e: Entry) {
    !e.ambiguous && exists n, k :: n in have && 0 < k < |n| && e.name == n[..k]
  }

  predicate Asks(world: World, start: set<Import>, have: set<Name>, e: Entry) {
    AsksImport(world, start, have, e) || AsksAncestor(have, e)
  }

  /** Everything asked for that exists is there. */
  ghost predicate Closed(world: World, start: set<Import>, have: set<Name>) {
    && PRELOADED <= have
    && forall e :: Asks(world, start, have, e) && Locate(world, e).Some? ==> Locate(world, e).value in have
  }

  /** The smallest closed set. */
  ghost predicate LeastClosed(world: World, start: set<Import>, have: set<Name>) {
    Closed(world, start, have) && forall other :: Closed(world, start, other) ==> have <= other
  }

  /** Every required import can be found, every collection path is proper and every module can be parsed. */
  ghost predicate Faultless(world: World, start: set<Import>, have: set<Name>) {
    && (forall n :: n in have && n !in PRELOADED ==> Find(world, n).Some? && Find(world, n).value.parses)
    && (forall e :: AsksImport(world, start, have, e) ==>
          && !BadPath(e.name)
          && (!e.optional && Ours(e.name) && e.name !in PRELOADED ==> Locate(world, e).Some?))
  }

  /** The ancestors of every module on disk are there too. */
  predicate Tidy(world: World) {
    forall n, k :: n in world && 0 < k < |n| && ((IsCore(n) && k > 2) || (IsCollection(n) && k > 5)) ==> n[..k] in world
  }

  /** Every ancestor of a collected module exists. */
  predicate Gapless(world: World, have: set<Name>) {
    forall n, k :: n in have && 0 < k < |n| && n[..k] !in PRELOADED ==> Locate(world, Entry(n[..k], false, false)).Some?
  }

  /** No import that the modules of `have` ask for is optional. */
  ghost predicate AllRequired(world: World, start: set<Import>, have: set<Name>) {
    forall e :: AsksImport(world, start, have, e) ==> !e.optional
  }

  /** Ancestors are missing only where they do not exist. */
  predicate AncestorsThere(world: World, have: set<Name>) {
    forall n, k :: n in have && 0 < k < |n| ==> n[..k] in have || Locate(world, Entry(n[..k], false, true)).None?
  }

  /** The reported problem is a real one of the modules of `have`. */
  ghost predicate RealProblem(world: World, start: set<Import>, have: set<Name>, p: Problem) {
    match p
    case CannotParse(n) => n in have && n !in PRELOADED && Find(world, n).Some? && !Find(world, n).value.parses
    case CannotFind(e) =>
      && Asks(world, start, have, e) && !e.optional && Ours(e.name) && !BadPath(e.name)
      && e.name !in PRELOADED && Locate(world, e).None?
    case BadCollectionPath(n) => BadPath(n) && exists e :: AsksImport(world, start, have, e) && e.name == n
    case CannotParseModule => false
  }

  // ---------------------------------------------------------------- invariants of the worklist

  /** The names that can be located at all. */
  predicate Proper(world: World, n: Name) {
    n in PRELOADED || (Ours(n) && !BadPath(n) && Find(world, n).Some? && (SixLike(n) ==> n == SIX))
  }

  /** What is known of a cached name. */
  predicate Cached(world: World, n: Name) {
    Proper(world, n) && (n !in PRELOADED ==> Find(world, n).value.parses)
  }

  predicate Settled(world: World, cache: set<Name>, e: Entry) {
    || e.name in cache
    || !Ours(e.name)
    || (!BadPath(e.name) && match Locate(world, e) case Some(n) => n in cache case None => e.optional)
  }

  predicate Handled(world: World, cache: set<Name>, todo: multiset<Entry>, e: Entry) {
    e in todo || Settled(world, cache, e)
  }

  predicate AncestorHandled(world: World, cache: set<Name>, todo: multiset<Entry>, p: Name) {
    || p in cache || Entry(p, false, true) in todo || Entry(p, false, false) in todo
    || Locate(world, Entry(p, false, true)).None?
  }

  ghost predicate Progress(world: World, start: set<Import>, cache: set<Name>, todo: multiset<Entry>) {
    && PRELOADED <= cache
    && (forall n :: n in cache ==> Cached(world, n))
    && (forall e :: AsksImport(world, start, cache, e) ==> Handled(world, cache, todo, e))
    && (forall n, k :: n in cache && 0 < k < |n| ==> AncestorHandled(world, cache, todo, n[..k]))
    && (forall e :: e in todo ==> Asks(world, start, cache, e))
    && (forall other :: Closed(world, start, other) ==> cache <= other)
  }

  /** All names that occur in an import, and the two that are always known. */
  ghost function Mentioned(world: World, start: set<Import>): set<Name> {
    (set i | i in start :: i.name) + (set n, i | n in world && i in world[n].imports :: i.name) + {BASIC, SIX, CORE}
  }

  ghost function Universe(world: World, start: set<Import>): set<Name> {
    set n, k | n in Mentioned(world, start) && 0 <= k <= |n| :: n[..k]
  }

  // ---------------------------------------------------------------- facts about locating

  /**
   Where a core name is found.  Everything below six is six.  Otherwise a name is found under
   itself; an ambiguous one that lies more than one part below module_utils may also be an
   attribute of the module before it.
  */
  lemma {:induction false} CoreLocates(world: World, e: Entry)
    requires |e.name| >= 2 && e.name[0] == "distronode" && e.name[1] == "module_utils"
    ensures Ours(e.name) && !BadPath(e.name)
    ensures var n, six := e.name, ["distronode", "module_utils", "six"];
            if |n| >= 3 && n[2] == "six" then Locate(world, e) == (if six in world then Some(six) else None)
            else if n in world then Locate(world, e) == Some(n)
            else if e.ambiguous && |n| > 3 && n[..|n| - 1] in world then Locate(world, e) == Some(n[..|n| - 1])
            else Locate(world, e).None?
  {
    var n := e.name;
    assert n[..2] == ["distronode", "module_utils"];
    assert SIX == ["distronode", "module_utils", "six"];
  }

  /** Where a name of a collection is found; its packages down to module_utils always are. */
  lemma {:induction false} CollectionLocates(world: World, e: Entry)
    requires |e.name| >= 1 && e.name[0] == "distronode_collections"
    ensures Ours(e.name)
    ensures BadPath(e.name) <==> |e.name| >= 6 && !(e.name[3] == "plugins" && e.name[4] == "module_utils")
    ensures var n := e.name;
            if BadPath(n) then Locate(world, e).None?
            else if |n| < 6 || n in world then Locate(world, e) == Some(n)
            else if e.ambiguous && |n| > 6 && n[..|n| - 1] in world then Locate(world, e) == Some(n[..|n| - 1])
            else Locate(world, e).None?
  {
    var n := e.name;
    assert !IsCore(n) by { assert |n| >= 2 ==> n[..2][0] == n[0]; }
    if |n| >= 6 {
      assert n[3..5] == [n[3], n[4]];
    }
  }

  /** All other names are left alone. */
  lemma {:induction false} OursExactly(n: Name)
    ensures Ours(n) <==>
            || (|n| >= 2 && n[0] == "distronode" && n[1] == "module_utils")
            || (|n| >= 1 && n[0] == "distronode_collections")
  {
    if |n| >= 2 {
      assert n[..2] == [n[0], n[1]];
    }
  }

  /** A cached name is found under its own name, whoever asks for it. */
  lemma {:induction false} CachedLocates(world: World, e: Entry)
    requires Proper(world, e.name) && Locate(world, e).Some?
    ensures Locate(world, e).value == e.name
  {
  }

  lemma {:induction false} LocatedIsProper(world: World, e: Entry)
    requires Locate(world, e).Some?
    ensures var n := Locate(world, e).value; Proper(world, n) && Find(world, n).Some?
  {
    if !SixLike(e.name) {
      var n := Locate(world, e).value;
      if n != e.name {
        assert n == e.name[..|e.name| - 1];
        if IsCore(e.name) {
          assert n[..2] == e.name[..2];
        } else {
          assert |n| >= 6 && n[3..5] == e.name[3..5];
        }
      }
    }
  }

  lemma {:induction false} PrefixInUniverse(world: World, start: set<Import>, n: Name, k: nat)
    requires n in Universe(world, start) && k <= |n|
    ensures n[..k] in Universe(world, start)
  {
    hide Mentioned;
    var m, j :| m in Mentioned(world, start) && 0 <= j <= |m| && n == m[..j];
    assert m[..k] == n[..k];
  }

  lemma {:induction false} MentionedInUniverse(world: World, start: set<Import>, n: Name)
    requires n in Mentioned(world, start)
    ensures n in Universe(world, start)
  {
    hide Mentioned;
    assert n[..|n|] == n;
  }

  /** Nothing outside the universe is ever asked for or found. */
  lemma {:induction false} AskedInUniverse(world: World, start: set<Import>, have: set<Name>, e: Entry)
    requires Asks(world, start, have, e) && have <= Universe(world, start)
    ensures e.name in Universe(world, start)
    ensures Locate(world, e).Some? ==> Locate(world, e).value in Universe(world, start)
  {
    hide Universe;
    if AsksImport(world, start, have, e) {
      MentionedInUniverse(world, start, e.name);
    } else {
      var n, k :| n in have && 0 < k < |n| && e.name == n[..k];
      PrefixInUniverse(world, start, n, k);
    }
    MentionedInUniverse(world, start, SIX);
    if |e.name| > 0 {
      PrefixInUniverse(world, start, e.name, |e.name| - 1);
    }
  }

  lemma {:induction false} AsksGrows(world: World, start: set<Import>, have: set<Name>, more: set<Name>, e: Entry)
    requires have <= more && Asks(world, start, have, e)
    ensures Asks(world, start, more, e)
  {
  }

  // ---------------------------------------------------------------- the steps keep the invariant

  lemma {:induction false} StartsWell(world: World, start: set<Import>)
    ensures Progress(world, start, PRELOADED, FirstEntries(start))
  {
    assert CORE[..1] == ["distronode"];
  }

  lemma {:induction false} SkipKeeps(world: World, start: set<Import>, cache: set<Name>, todo: multiset<Entry>,
                                     e: Entry)
    requires e in todo && Progress(world, start, cache, todo) && Judge(world, cache, e).Skip?
    ensures Progress(world, start, cache, todo - multiset{e})
  {
    assert Settled(world, cache, e);
    forall n, k | n in cache && 0 < k < |n|
      ensures AncestorHandled(world, cache, todo - multiset{e}, n[..k])
    {
      AncestorSurvives(world, cache, todo, e, n, k);
    }
  }

  lemma {:induction false} AncestorSurvives(world: World, cache: set<Name>, todo: multiset<Entry>, e: Entry, n: Name,
                                            k: nat)
    requires e in todo && Judge(world, cache, e).Skip? && n in cache && Cached(world, n) && PRELOADED <= cache
    requires 0 < k < |n| && AncestorHandled(world, cache, todo, n[..k])
    ensures AncestorHandled(world, cache, todo - multiset{e}, n[..k])
  {
    var p := n[..k];
    if e.name == p && !e.ambiguous && p !in cache {
      if Ours(p) {
        assert Locate(world, Entry(p, false, true)) == Locate(world, e);
        if Locate(world, e).Some? {
          AncestorNotSix(world, n, k);
        }
      }
    }
  }

  /** A proper ancestor of a cached name is not a part of six. */
  lemma {:induction false} AncestorNotSix(world: World, n: Name, k: nat)
    requires Proper(world, n) && 0 < k < |n|
    ensures !SixLike(n[..k]) && !BadPath(n[..k])
  {
    if IsCore(n[..k]) {
      assert n[..k][..2] == n[..2];
    }
    if IsCollection(n) && k >= 6 {
      assert n[..k][3..5] == n[3..5];
    }
  }

  /** The worklist after `n` was added. */
  function AfterAdd(world: World, cache: set<Name>, todo: multiset<Entry>, e: Entry, n: Name): multiset<Entry> {
    todo - multiset{e} + multiset(NewImports(world, n, cache)) + multiset(NewAncestors(n, cache + {n}, e.optional))
  }

  lemma {:induction false} AddKeepsImports(world: World, start: set<Import>, cache: set<Name>, todo: multiset<Entry>,
                                           e: Entry, f: Entry)
    requires e in todo && Progress(world, start, cache, todo) && Judge(world, cache, e).Add?
    requires var n := Judge(world, cache, e).name; AsksImport(world, start, cache + {n}, f)
    ensures var n := Judge(world, cache, e).name;
            Handled(world, cache + {n}, AfterAdd(world, cache, todo, e, n), f)
  {
    hide Locate, NewAncestors, Find, Asks;
    var n := Judge(world, cache, e).name;
    if AsksImport(world, start, cache, f) {
      assert Handled(world, cache, todo, f);
      if f in todo && f != e {
        assert f in todo - multiset{e};
      }
    } else {
      var i :| i in ImportsOf(world, n) && f == ImportEntry(i);
      if i.name !in cache {
        assert f in NewImports(world, n, cache);
      }
    }
  }

  lemma {:induction false} AddKeepsAncestors(world: World, start: set<Import>, cache: set<Name>,
                                             todo: multiset<Entry>, e: Entry, m: Name, k: nat)
    requires e in todo && Progress(world, start, cache, todo) && Judge(world, cache, e).Add?
    requires var n := Judge(world, cache, e).name; m in cache + {n} && 0 < k < |m|
    ensures var n := Judge(world, cache, e).name;
            AncestorHandled(world, cache + {n}, AfterAdd(world, cache, todo, e, n), m[..k])
  {
    hide NewImports, Asks, AsksImport, Closed;
    var n := Judge(world, cache, e).name;
    var p := m[..k];
    if m == n {
      if p !in cache + {n} {
        assert Entry(p, false, e.optional) in NewAncestors(n, cache + {n}, e.optional);
      }
    } else {
      assert AncestorHandled(world, cache, todo, p);
      AncestorNotSix(world, m, k);
      if e.name == p && !e.ambiguous {
        assert n == p;
      } else {
        assert Entry(p, false, true) in todo ==> Entry(p, false, true) in todo - multiset{e};
        assert Entry(p, false, false) in todo ==> Entry(p, false, false) in todo - multiset{e};
      }
    }
  }

  lemma {:induction false} AddKeeps(world: World, start: set<Import>, cache: set<Name>, todo: multiset<Entry>, e: Entry)
    requires e in todo && Progress(world, start, cache, todo) && Judge(world, cache, e).Add?
    ensures var n := Judge(world, cache, e).name;
            Progress(world, start, cache + {n}, AfterAdd(world, cache, todo, e, n))
  {
    hide Locate, AsksImport, AsksAncestor, Handled, AncestorHandled, Find;
    var n := Judge(world, cache, e).name;
    var later := AfterAdd(world, cache, todo, e, n);
    LocatedIsProper(world, e);
    forall f | AsksImport(world, start, cache + {n}, f)
      ensures Handled(world, cache + {n}, later, f)
    {
      AddKeepsImports(world, start, cache, todo, e, f);
    }
    forall m, k | m in cache + {n} && 0 < k < |m|
      ensures AncestorHandled(world, cache + {n}, later, m[..k])
    {
      AddKeepsAncestors(world, start, cache, todo, e, m, k);
    }
    forall f | f in later
      ensures Asks(world, start, cache + {n}, f)
    {
      if f in todo {
        AsksGrows(world, start, cache, cache + {n}, f);
      } else {
        NewIsAsked(world, start, cache, n, e.optional, f);
      }
    }
    forall other | Closed(world, start, other)
      ensures cache + {n} <= other
    {
      AsksGrows(world, start, cache, other, e);
    }
  }

  lemma {:induction false} NewIsAsked(world: World, start: set<Import>, cache: set<Name>, n: Name, optional: bool,
                                      f: Entry)
    requires f in NewImports(world, n, cache) || f in NewAncestors(n, cache + {n}, optional)
    ensures Asks(world, start, cache + {n}, f)
  {
    assert n in cache + {n};
    if f in NewImports(world, n, cache) {
      var i :| i in ImportsOf(world, n) && f == ImportEntry(i);
    } else {
      var k :| 0 < k < |n| && f == Entry(n[..k], false, optional);
    }
  }

  // ---------------------------------------------------------------- what the outcome says

  lemma {:induction false} DoneIsClosed(world: World, start: set<Import>, cache: set<Name>)
    requires Progress(world, start, cache, multiset{})
    ensures LeastClosed(world, start, cache) && Faultless(world, start, cache) && AncestorsThere(world, cache)
    ensures BASIC in cache
  {
    forall e | Asks(world, start, cache, e) && Locate(world, e).Some?
      ensures Locate(world, e).value in cache
    {
      DoneHasLocated(world, start, cache, e);
    }
    assert Handled(world, cache, multiset{}, BASIC_ENTRY);
    forall e | AsksImport(world, start, cache, e)
      ensures !BadPath(e.name) && (!e.optional && Ours(e.name) && e.name !in PRELOADED ==> Locate(world, e).Some?)
    {
      assert Handled(world, cache, multiset{}, e);
      if e.name in cache {
        assert Cached(world, e.name);
      }
    }
    forall n, k | n in cache && 0 < k < |n|
      ensures n[..k] in cache || Locate(world, Entry(n[..k], false, true)).None?
    {
      assert AncestorHandled(world, cache, multiset{}, n[..k]);
    }
  }

  lemma {:induction false} DoneHasLocated(world: World, start: set<Import>, cache: set<Name>, e: Entry)
    requires Progress(world, start, cache, multiset{})
    requires Asks(world, start, cache, e) && Locate(world, e).Some?
    ensures Locate(world, e).value in cache
  {
    if AsksImport(world, start, cache, e) {
      assert Handled(world, cache, multiset{}, e);
    } else {
      var n, k :| n in cache && 0 < k < |n| && e.name == n[..k];
      assert AncestorHandled(world, cache, multiset{}, n[..k]);
      assert Locate(world, e) == Locate(world, Entry(n[..k], false, true));
    }
    if e.name in cache {
      assert Cached(world, e.name);
      CachedLocates(world, e);
    }
  }

  lemma {:induction false} AncestorsProper(world: World, cache: set<Name>, e: Entry)
    requires AsksAncestor(cache, e) && forall n :: n in cache ==> Cached(world, n)
    ensures !BadPath(e.name)
  {
    var n, k :| n in cache && 0 < k < |n| && e.name == n[..k];
    AncestorNotSix(world, n, k);
  }

  lemma {:induction false} RaisedForCause(world: World, start: set<Import>, cache: set<Name>, todo: multiset<Entry>,
                                          e: Entry, have: set<Name>)
    requires e in todo && Progress(world, start, cache, todo) && Judge(world, cache, e).Raise?
    requires Closed(world, start, have)
    ensures RealProblem(world, start, have, Judge(world, cache, e).problem)
  {
    hide BadPath, Locate, AsksAncestor, AsksImport, Handled, AncestorHandled, Ours, Find, Cached;
    AsksGrows(world, start, cache, have, e);
    if Locate(world, e).Some? {
      LocatedIsProper(world, e);
    }
    if BadPath(e.name) {
      if AsksAncestor(cache, e) {
        AncestorsProper(world, cache, e);
      } else {
        ImportGrows(world, start, cache, have, e);
      }
    }
  }

  lemma {:induction false} ImportGrows(world: World, start: set<Import>, have: set<Name>, more: set<Name>, e: Entry)
    requires have <= more && AsksImport(world, start, have, e)
    ensures AsksImport(world, start, more, e)
  {
  }

  /** The smallest closed set holds only names that can be located. */
  lemma {:induction false} LeastIsProper(world: World, start: set<Import>, have: set<Name>)
    requires LeastClosed(world, start, have)
    ensures forall n :: n in have ==> Proper(world, n)
  {
    var proper := set n | n in have && Proper(world, n);
    forall e | Asks(world, start, proper, e) && Locate(world, e).Some?
      ensures Locate(world, e).value in proper
    {
      AsksGrows(world, start, proper, have, e);
      LocatedIsProper(world, e);
    }
    assert Closed(world, start, proper);
  }

  lemma {:induction false} TidyAncestor(world: World, n: Name, k: nat)
    requires Tidy(world) && 0 < k < |n| && Ours(n[..k]) && n[..k] !in PRELOADED && Proper(world, n)
    ensures Locate(world, Entry(n[..k], false, false)).Some?
  {
    AncestorNotSix(world, n, k);
    if IsCore(n[..k]) {
      assert n[..k][..2] == n[..2];
    }
  }

  /** Tidy packages leave no gaps in the smallest closed set. */
  lemma {:induction false} TidyIsGapless(world: World, start: set<Import>, have: set<Name>)
    requires Tidy(world) && LeastClosed(world, start, have)
    ensures Gapless(world, have)
  {
    hide Tidy, LeastClosed, Locate, Proper;
    LeastIsProper(world, start, have);
    forall n, k | n in have && 0 < k < |n| && n[..k] !in PRELOADED
      ensures Locate(world, Entry(n[..k], false, false)).Some?
    {
      AncestorIsOurs(world, n, k);
      TidyAncestor(world, n, k);
    }
  }

  lemma {:induction false} AncestorIsOurs(world: World, n: Name, k: nat)
    requires Proper(world, n) && 0 < k < |n| && n[..k] !in PRELOADED
    ensures Ours(n[..k]) && (IsCollection(n) <==> IsCollection(n[..k])) && (IsCore(n) ==> k > 2)
  {
    assert n[..k][0] == n[0];
    if IsCore(n) {
      assert k >= 2 ==> n[..k][..2] == n[..2];
      assert n[..1] == [n[..2][0]];
    }
  }

  /** Without gaps only a fault of the smallest closed set makes the search fail. */
  lemma {:induction false} GaplessBlame(world: World, start: set<Import>, have: set<Name>, p: Problem)
    requires Gapless(world, have) && LeastClosed(world, start, have) && RealProblem(world, start, have, p)
    ensures !Faultless(world, start, have)
  {
    hide Locate, AsksImport, Closed;
    if p.CannotFind? {
      SameWithoutOptional(world, p.entry);
    }
  }

  lemma {:induction false} SameWithoutOptional(world: World, e: Entry)
    ensures Locate(world, e) == Locate(world, Entry(e.name, e.ambiguous, false))
  {
  }

  /** A smallest closed set always exists, so speaking of it never speaks of nothing. */
  lemma {:induction false} LeastExists(world: World, start: set<Import>) returns (have: set<Name>)
    ensures LeastClosed(world, start, have)
  {
    hide Locate, Asks, Universe;
    CoreInUniverse(world, start);
    var all := Universe(world, start);
    forall e | Asks(world, start, all, e) && Locate(world, e).Some?
      ensures Locate(world, e).value in all
    {
      AskedInUniverse(world, start, all, e);
    }
    assert Closed(world, start, all);
    have := set n | n in all && forall other :: Closed(world, start, other) ==> n in other;
    forall e | Asks(world, start, have, e) && Locate(world, e).Some?
      ensures Locate(world, e).value in have
    {
      forall other | Closed(world, start, other)
        ensures Locate(world, e).value in other
      {
        AsksGrows(world, start, have, other, e);
      }
    }
  }

  lemma {:induction false} CoreInUniverse(world: World, start: set<Import>)
    ensures PRELOADED <= Universe(world, start)
  {
    MentionedInUniverse(world, start, CORE);
    PrefixInUniverse(world, start, CORE, 1);
    assert CORE[..1] == ["distronode"];
  }

  // ---------------------------------------------------------------- scripts without optional imports

  /** Nothing on the worklist is optional, and no ancestor is left out. */
  predicate NothingOptional(cache: set<Name>, todo: multiset<Entry>) {
    && (forall e :: e in todo ==> !e.optional)
    && (forall n, k :: n in cache && 0 < k < |n| ==> n[..k] in cache || Entry(n[..k], false, false) in todo)
  }

  lemma {:induction false} StartsRequired(world: World, start: set<Import>, have: set<Name>)
    requires AllRequired(world, start, have)
    ensures NothingOptional(PRELOADED, FirstEntries(start))
  {
    assert CORE[..1] == ["distronode"];
    forall i | i in start
      ensures !ImportEntry(i).optional
    {
      assert AsksImport(world, start, have, ImportEntry(i));
    }
  }

  lemma {:induction false} SkipKeepsRequired(world: World, start: set<Import>, cache: set<Name>,
                                             todo: multiset<Entry>, e: Entry)
    requires e in todo && Progress(world, start, cache, todo) && Judge(world, cache, e).Skip?
             && NothingOptional(cache, todo)
    ensures NothingOptional(cache, todo - multiset{e})
  {
    hide Progress, Locate, BadPath;
    forall n, k | n in cache && 0 < k < |n|
      ensures n[..k] in cache || Entry(n[..k], false, false) in todo - multiset{e}
    {
      if e == Entry(n[..k], false, false) && n[..k] !in cache {
        assert Cached(world, n) && PRELOADED <= cache by { KnownCached(world, start, cache, todo, n); }
        AncestorIsOurs(world, n, k);
        AncestorNotSix(world, n, k);
        AloneLocates(world, e);
      }
    }
  }

  lemma {:induction false} KnownCached(world: World, start: set<Import>, cache: set<Name>, todo: multiset<Entry>,
                                       n: Name)
    requires Progress(world, start, cache, todo) && n in cache
    ensures Cached(world, n) && PRELOADED <= cache
  {
  }

  /** An unambiguous name that is no part of six is located under its own name or not at all. */
  lemma {:induction false} AloneLocates(world: World, e: Entry)
    requires !e.ambiguous && !SixLike(e.name) && Locate(world, e).Some?
    ensures Locate(world, e).value == e.name
  {
  }

  lemma {:induction false} AddKeepsRequired(world: World, start: set<Import>, cache: set<Name>, todo: multiset<Entry>,
                                            e: Entry, have: set<Name>)
    requires e in todo && Progress(world, start, cache, todo) && Judge(world, cache, e).Add?
    requires NothingOptional(cache, todo) && AllRequired(world, start, have) && Closed(world, start, have)
    ensures var n := Judge(world, cache, e).name;
            NothingOptional(cache + {n}, AfterAdd(world, cache, todo, e, n))
  {
    hide Locate, AsksAncestor;
    var n := Judge(world, cache, e).name;
    AddKeeps(world, start, cache, todo, e);
    var later := AfterAdd(world, cache, todo, e, n);
    forall f | f in later
      ensures !f.optional
    {
      if f in NewImports(world, n, cache) {
        assert AsksImport(world, start, have, f);
      }
    }
    forall m, k | m in cache + {n} && 0 < k < |m|
      ensures m[..k] in cache + {n} || Entry(m[..k], false, false) in later
    {
      if m == n {
        assert m[..k] in cache + {n} || Entry(m[..k], false, e.optional) in NewAncestors(n, cache + {n}, e.optional);
      } else if m[..k] !in cache {
        if Entry(m[..k], false, false) == e {
          AncestorNotSix(world, m, k);
          AloneLocates(world, e);
        }
      }
    }
  }

  lemma {:induction false} DoneIsGapless(world: World, start: set<Import>, cache: set<Name>)
    requires Progress(world, start, cache, multiset{}) && NothingOptional(cache, multiset{})
    ensures Gapless(world, cache)
  {
    forall n, k | n in cache && 0 < k < |n| && n[..k] !in PRELOADED
      ensures Locate(world, Entry(n[..k], false, false)).Some?
    {
      assert Cached(world, n[..k]);
      assert Cached(world, n);
      AncestorNotSix(world, n, k);
    }
  }

  // ---------------------------------------------------------------- whole runs

  function FirstEntries(start: set<Import>): multiset<Entry> {
    multiset(set i | i in start :: ImportEntry(i)) + multiset{BASIC_ENTRY}
  }

  /** The outcome of the run that takes the entries in the order of `picks`; none if that is not a run to the end. */
  function Follow(world: World, cache: set<Name>, todo: multiset<Entry>,
                  picks: seq<Entry>): Option<Result<set<Name>, Problem>>
    decreases |picks|
  {
    if picks == [] then if todo == multiset{} then Some(Success(cache)) else None
    else if picks[0] !in todo then None
    else
      match Judge(world, cache, picks[0])
      case Skip => Follow(world, cache, todo - multiset{picks[0]}, picks[1..])
      case Raise(problem) => if |picks| == 1 then Some(Failure(problem)) else None
      case Add(n) => Follow(world, cache + {n}, AfterAdd(world, cache, todo, picks[0], n), picks[1..])
  }

  function Search(world: World, start: set<Import>, picks: seq<Entry>): Option<Result<set<Name>, Problem>> {
    Follow(world, PRELOADED, FirstEntries(start), picks)
  }

  /** What a run has in hand at its end, from what it has in hand on the way. */
  lemma {:induction false} FollowKeeps(world: World, start: set<Import>, cache: set<Name>, todo: multiset<Entry>,
                                       picks: seq<Entry>)
    requires Progress(world, start, cache, todo)
    ensures match Follow(world, cache, todo, picks)
            case Some(Success(all)) => Progress(world, start, all, multiset{})
            case Some(Failure(p)) => forall have :: Closed(world, start, have) ==> RealProblem(world, start, have, p)
            case None => true
    decreases |picks|
  {
    hide Progress, Closed, RealProblem, Judge, AfterAdd;
    if picks != [] && picks[0] in todo {
      var e := picks[0];
      match Judge(world, cache, e)
      case Skip =>
        SkipKeeps(world, start, cache, todo, e);
        FollowKeeps(world, start, cache, todo - multiset{e}, picks[1..]);
      case Raise(problem) =>
        forall have | Closed(world, start, have)
          ensures RealProblem(world, start, have, problem)
        {
          RaisedForCause(world, start, cache, todo, e, have);
        }
      case Add(n) =>
        AddKeeps(world, start, cache, todo, e);
        FollowKeeps(world, start, cache + {n}, AfterAdd(world, cache, todo, e, n), picks[1..]);
    }
  }

  lemma {:induction false} FollowKeepsRequired(world: World, start: set<Import>, cache: set<Name>,
                                               todo: multiset<Entry>, picks: seq<Entry>, have: set<Name>)
    requires Progress(world, start, cache, todo) && NothingOptional(cache, todo)
    requires AllRequired(world, start, have) && Closed(world, start, have)
    ensures match Follow(world, cache, todo, picks)
            case Some(Success(all)) => NothingOptional(all, multiset{})
            case _ => true
    decreases |picks|
  {
    hide Progress, Closed, AllRequired, NothingOptional, Judge, AfterAdd;
    if picks != [] && picks[0] in todo {
      var e := picks[0];
      match Judge(world, cache, e)
      case Skip =>
        SkipKeeps(world, start, cache, todo, e);
        SkipKeepsRequired(world, start, cache, todo, e);
        FollowKeepsRequired(world, start, cache, todo - multiset{e}, picks[1..], have);
      case Raise(_) =>
      case Add(n) =>
        AddKeeps(world, start, cache, todo, e);
        AddKeepsRequired(world, start, cache, todo, e, have);
        FollowKeepsRequired(world, start, cache + {n}, AfterAdd(world, cache, todo, e, n), picks[1..], have);
    }
  }

  /**
   Every run to the end, in whatever order it takes the entries: success gives the smallest
   closed set, with every required import found; a problem is a real one of every closed set.
  */
  lemma {:induction false} EveryRun(world: World, start: set<Import>, picks: seq<Entry>)
    ensures match Search(world, start, picks)
            case Some(Success(have)) =>
              LeastClosed(world, start, have) && Faultless(world, start, have) && AncestorsThere(world, have)
                && BASIC in have
            case Some(Failure(p)) => forall have :: Closed(world, start, have) ==> RealProblem(world, start, have, p)
            case None => true
  {
    hide Progress, LeastClosed, Faultless, AncestorsThere, Closed, RealProblem, Follow;
    StartsWell(world, start);
    FollowKeeps(world, start, PRELOADED, FirstEntries(start), picks);
    match Search(world, start, picks)
    case Some(Success(have)) => DoneIsClosed(world, start, have);
    case _ =>
  }

  lemma {:induction false} OnlyOneLeast(world: World, start: set<Import>, have: set<Name>, other: set<Name>)
    requires LeastClosed(world, start, have) && LeastClosed(world, start, other)
    ensures other == have
  {
  }

  /** If the smallest closed set has no gaps, every run succeeds or fails with its faults alone. */
  lemma {:induction false} GaplessDecides(world: World, start: set<Import>, have: set<Name>, picks: seq<Entry>)
    requires LeastClosed(world, start, have) && Gapless(world, have) && Search(world, start, picks).Some?
    ensures Search(world, start, picks).value.Success? <==> Faultless(world, start, have)
  {
    hide LeastClosed, Closed, Faultless, Gapless, RealProblem, Search, AncestorsThere;
    EveryRun(world, start, picks);
    match Search(world, start, picks).value
    case Success(found) => OnlyOneLeast(world, start, have, found);
    case Failure(p) =>
      assert Closed(world, start, have) by { LeastIsClosed(world, start, have); }
      GaplessBlame(world, start, have, p);
  }

  lemma {:induction false} LeastIsClosed(world: World, start: set<Import>, have: set<Name>)
    requires LeastClosed(world, start, have)
    ensures Closed(world, start, have)
  {
  }

  /** If nothing is optional, every run succeeds exactly when the smallest closed set has neither faults nor gaps. */
  lemma {:induction false} RequiredDecides(world: World, start: set<Import>, have: set<Name>, picks: seq<Entry>)
    requires LeastClosed(world, start, have) && AllRequired(world, start, have) && Search(world, start, picks).Some?
    ensures Search(world, start, picks).value.Success? <==> Faultless(world, start, have) && Gapless(world, have)
  {
    hide LeastClosed, Closed, Faultless, Gapless, AllRequired, RealProblem, AncestorsThere, NothingOptional;
    hide Progress, Follow;
    if Search(world, start, picks).value.Success? {
      var found := Search(world, start, picks).value.value;
      EveryRun(world, start, picks);
      OnlyOneLeast(world, start, have, found);
      assert Closed(world, start, have) by { LeastIsClosed(world, start, have); }
      StartsWell(world, start);
      StartsRequired(world, start, have);
      FollowKeeps(world, start, PRELOADED, FirstEntries(start), picks);
      FollowKeepsRequired(world, start, PRELOADED, FirstEntries(start), picks, have);
      DoneIsGapless(world, start, found);
    } else if Gapless(world, have) {
      GaplessDecides(world, start, have, picks);
    }
  }

  // ---------------------------------------------------------------- the measure of the worklist loop

  lemma {:induction false} AddedInUniverse(world: World, start: set<Import>, cache: set<Name>, todo: multiset<Entry>,
                                           e: Entry)
    requires e in todo && Progress(world, start, cache, todo) && cache <= Universe(world, start)
             && Judge(world, cache, e).Add?
    ensures var n := Judge(world, cache, e).name; n in Universe(world, start) && n !in cache
  {
    hide Universe, AsksImport, AsksAncestor;
    AskedInUniverse(world, start, cache, e);
  }

  lemma {:induction false} Shrinks<T>(all: set<T>, have: set<T>, x: T)
    requires x in all && x !in have
    ensures |all - (have + {x})| < |all - have|
  {
    assert all - have == (all - (have + {x})) + {x};
  }
}
