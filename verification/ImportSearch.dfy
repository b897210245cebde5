/**
 The search as it is run: the worklist is sorted before every step and its least entry is taken.
 What holds of every order holds of this one; where the order decides, it is the order of names
 that does.
*/
module ImportSearch {
  import opened Basics
  import opened ImportClosure
  import opened ImportOrder

  // ---------------------------------------------------------------- the order of the worklist

  predicate TextLeq(a: string, b: string) {
    a == [] || (b != [] && (a[0] < b[0] || (a[0] == b[0] && TextLeq(a[1..], b[1..]))))
  }

  /** Names are compared part by part; a package comes before what is in it. */
  predicate NameLeq(a: Name, b: Name) {
    a == [] || (b != [] && if a[0] == b[0] then NameLeq(a[1..], b[1..]) else TextLeq(a[0], b[0]))
  }

  /** Of entries for one name the unambiguous come first, and then the required ones. */
  predicate EntryLeq(e: Entry, f: Entry) {
    if e.name != f.name then NameLeq(e.name, f.name)
    else if e.ambiguous != f.ambiguous then f.ambiguous
    else e.optional ==> f.optional
  }

  lemma {:induction false} TextOrder(a: string, b: string)
    ensures TextLeq(a, b) || TextLeq(b, a)
    ensures TextLeq(a, b) && TextLeq(b, a) ==> a == b
  {
    if a != [] && b != [] && a[0] == b[0] {
      TextOrder(a[1..], b[1..]);
      assert a == [a[0]] + a[1..] && b == [b[0]] + b[1..];
    }
  }

  lemma {:induction false} TextTransitive(a: string, b: string, c: string)
    requires TextLeq(a, b) && TextLeq(b, c)
    ensures TextLeq(a, c)
  {
    if a != [] && a[0] == b[0] == c[0] {
      TextTransitive(a[1..], b[1..], c[1..]);
    }
  }

  lemma {:induction false} NameOrder(a: Name, b: Name)
    ensures NameLeq(a, b) || NameLeq(b, a)
    ensures NameLeq(a, b) && NameLeq(b, a) ==> a == b
  {
    if a != [] && b != [] {
      TextOrder(a[0], b[0]);
      if a[0] == b[0] {
        NameOrder(a[1..], b[1..]);
        assert a == [a[0]] + a[1..] && b == [b[0]] + b[1..];
      }
    }
  }

  lemma {:induction false} NameTransitive(a: Name, b: Name, c: Name)
    requires NameLeq(a, b) && NameLeq(b, c)
    ensures NameLeq(a, c)
  {
    if a != [] {
      if a[0] == b[0] == c[0] {
        NameTransitive(a[1..], b[1..], c[1..]);
      } else if a[0] != b[0] && b[0] != c[0] {
        TextTransitive(a[0], b[0], c[0]);
        TextOrder(a[0], b[0]);
      }
    }
  }

  /** The entries are in a total order. */
  lemma {:induction false} EntryOrder(e: Entry, f: Entry)
    ensures EntryLeq(e, f) || EntryLeq(f, e)
    ensures EntryLeq(e, f) && EntryLeq(f, e) ==> e == f
  {
    hide NameLeq;
    NameOrder(e.name, f.name);
  }

  lemma {:induction false} EntryTransitive(e: Entry, f: Entry, g: Entry)
    requires EntryLeq(e, f) && EntryLeq(f, g)
    ensures EntryLeq(e, g)
  {
    hide NameLeq;
    if e.name != f.name && f.name != g.name {
      NameTransitive(e.name, f.name, g.name);
      NameOrder(e.name, f.name);
    }
  }

  lemma {:induction false} LeastEntry(todo: multiset<Entry>) returns (e: Entry)
    requires |todo| > 0
    ensures e in todo && forall f :: f in todo ==> EntryLeq(e, f)
    decreases |todo|
  {
    hide EntryLeq;
    var x :| x in todo;
    var rest := todo - multiset{x};
    EntryOrder(x, x);
    e := x;
    assert forall f :: f in todo ==> f == x || f in rest;
    if |rest| > 0 {
      var y := LeastEntry(rest);
      EntryOrder(x, y);
      e := if EntryLeq(x, y) then x else y;
      forall f | f in rest
        ensures EntryLeq(e, f)
      {
        if e == x {
          EntryTransitive(x, y, f);
        }
      }
    }
  }

  // ---------------------------------------------------------------- sorted runs

  /** Every pick is the least entry of the worklist. */
  predicate SortedFollow(world: World, cache: set<Name>, todo: multiset<Entry>, picks: seq<Entry>)
    decreases |picks|
  {
    picks != [] && picks[0] in todo ==>
      && (forall f :: f in todo ==> EntryLeq(picks[0], f))
      && match Judge(world, cache, picks[0])
         case Skip => SortedFollow(world, cache, todo - multiset{picks[0]}, picks[1..])
         case Raise(_) => true
         case Add(n) => SortedFollow(world, cache + {n}, AfterAdd(world, cache, todo, picks[0], n), picks[1..])
  }

  predicate SortedSearch(world: World, start: set<Import>, picks: seq<Entry>) {
    SortedFollow(world, PRELOADED, FirstEntries(start), picks)
  }

  lemma {:induction false} FollowAlike(world: World, cache: set<Name>, todo: multiset<Entry>, one: seq<Entry>,
                                       two: seq<Entry>)
    requires Follow(world, cache, todo, one).Some? && SortedFollow(world, cache, todo, one)
    requires Follow(world, cache, todo, two).Some? && SortedFollow(world, cache, todo, two)
    ensures one == two
    decreases |one|
  {
    hide Judge, AfterAdd, EntryLeq;
    if one != [] && two != [] {
      EntryOrder(one[0], two[0]);
      assert one == [one[0]] + one[1..] && two == [two[0]] + two[1..];
      match Judge(world, cache, one[0])
      case Skip => FollowAlike(world, cache, todo - multiset{one[0]}, one[1..], two[1..]);
      case Raise(_) =>
      case Add(n) => FollowAlike(world, cache + {n}, AfterAdd(world, cache, todo, one[0], n), one[1..], two[1..]);
    }
  }

  /** A script has one sorted run. */
  lemma {:induction false} OneSortedRun(world: World, start: set<Import>, one: seq<Entry>, two: seq<Entry>)
    requires Search(world, start, one).Some? && SortedSearch(world, start, one)
    requires Search(world, start, two).Some? && SortedSearch(world, start, two)
    ensures one == two
  {
    hide Follow, SortedFollow;
    FollowAlike(world, PRELOADED, FirstEntries(start), one, two);
  }

  // ---------------------------------------------------------------- what an import brings in

  /** A file on disk below the module_utils of the core or of a collection. */
  predicate UtilFile(world: World, m: Name) {
    && m in world
    && ((|m| >= 3 && m[0] == "distronode" && m[1] == "module_utils" && m[2] != "six")
        || (|m| >= 6 && m[0] == "distronode_collections" && m[3] == "plugins" && m[4] == "module_utils"))
  }

  /** Importing `n` means the file `m`: that name, something inside it, or any part of six. */
  predicate StandsFor(world: World, n: Name, m: Name) {
    || (UtilFile(world, m) && (n == m || (|n| == |m| + 1 && n[..|m|] == m && n !in world)))
    || (m == ["distronode", "module_utils", "six"] && m in world && |n| >= 3 && n[..3] == m)
  }

  /** A collected file whose own imports are read. */
  predicate ReadsFile(world: World, k: Name) {
    && k in world && k != ["distronode"] && k != ["distronode", "module_utils"]
    && !(k != [] && k[0] == "distronode_collections" && |k| < 6)
  }

  predicate ImportedBy(world: World, start: set<Import>, have: set<Name>, i: Import) {
    i in start || exists k :: k in have && ReadsFile(world, k) && i in world[k].imports
  }

  lemma {:induction false} StandsLocates(world: World, n: Name, m: Name, optional: bool)
    requires StandsFor(world, n, m)
    ensures Locate(world, Entry(n, true, optional)) == Some(m)
  {
    hide Locate;
    var e := Entry(n, true, optional);
    if |n| >= 3 && n[..3] == ["distronode", "module_utils", "six"] {
      assert n[0] == n[..3][0] && n[1] == n[..3][1] && n[2] == n[..3][2];
    } else {
      assert |n| == |m| + 1 ==> n[..|n| - 1] == m && m[0] == n[0] && m[1] == n[1];
      assert n[0] == m[0];
    }
    if n[0] == "distronode" {
      CoreLocates(world, e);
    } else {
      CollectionLocates(world, e);
    }
  }

  lemma {:induction false} ImportsAreThere(world: World, start: set<Import>, have: set<Name>)
    requires LeastClosed(world, start, have)
    ensures forall i, m :: ImportedBy(world, start, have, i) && StandsFor(world, i.name, m) ==> m in have
  {
    hide Locate, StandsFor;
    forall i, m | ImportedBy(world, start, have, i) && StandsFor(world, i.name, m)
      ensures m in have
    {
      StandsLocates(world, i.name, m, i.optional);
      var e := ImportEntry(i);
      if i !in start {
        var k :| k in have && ReadsFile(world, k) && i in world[k].imports;
        assert i in ImportsOf(world, k);
      }
      assert AsksImport(world, start, have, e);
      assert Asks(world, start, have, e);
    }
  }

  lemma {:induction false} NothingStandsFor(world: World, start: set<Import>, have: set<Name>, e: Entry)
    requires RealProblem(world, start, have, CannotFind(e)) && e.ambiguous
    ensures forall m :: !StandsFor(world, e.name, m)
  {
    hide Locate, StandsFor, Asks;
    forall m | StandsFor(world, e.name, m)
      ensures false
    {
      StandsLocates(world, e.name, m, e.optional);
    }
  }

  /**
   The problem by what is on disk: a file that cannot be parsed, a required name behind which there
   is no file, or a path of a collection that does not lead below its module_utils.
  */
  predicate OnDisk(world: World, p: Problem) {
    match p
    case CannotParse(n) => ReadsFile(world, n) && !world[n].parses
    case CannotFind(e) =>
      && !e.optional && (e.name in world ==> |e.name| >= 3 && e.name[..3] == ["distronode", "module_utils", "six"])
      && (e.ambiguous ==> forall m :: m in world ==> !StandsFor(world, e.name, m))
    case BadCollectionPath(n) =>
      |n| >= 6 && n[0] == "distronode_collections" && !(n[3] == "plugins" && n[4] == "module_utils")
    case CannotParseModule => false
  }

  lemma {:induction false} RealIsOnDisk(world: World, start: set<Import>, have: set<Name>, p: Problem)
    requires RealProblem(world, start, have, p)
    ensures OnDisk(world, p)
  {
    hide Asks, AsksImport, StandsFor;
    match p
    case CannotFind(e) =>
      if e.ambiguous {
        NothingStandsFor(world, start, have, e);
      }
      OursExactly(e.name);
      if e.name[0] == "distronode" {
        CoreLocates(world, e);
        assert e.name[..2] == ["distronode", "module_utils"];
        if |e.name| >= 3 && e.name[2] == "six" {
          assert e.name[..3] == ["distronode", "module_utils", "six"];
        }
      } else {
        CollectionLocates(world, e);
      }
    case BadCollectionPath(n) => CollectionLocates(world, Entry(n, false, false));
    case _ =>
  }

  lemma {:induction false} CollectedParses(world: World, start: set<Import>, have: set<Name>)
    requires LeastClosed(world, start, have) && Faultless(world, start, have)
    ensures forall n :: n in have && ReadsFile(world, n) ==> world[n].parses
  {
  }

  lemma {:induction false} ProblemIsOnDisk(world: World, start: set<Import>, p: Problem)
    requires forall have :: Closed(world, start, have) ==> RealProblem(world, start, have, p)
    ensures OnDisk(world, p)
  {
    hide Closed, RealProblem, OnDisk;
    var have := LeastExists(world, start);
    LeastIsClosed(world, start, have);
    RealIsOnDisk(world, start, have, p);
  }

  // ---------------------------------------------------------------- the worklist loop

  /** The picks so far lead from the start to the cache and the worklist. */
  ghost predicate LeadsTo(world: World, start: set<Import>, picks: seq<Entry>, cache: set<Name>,
                          todo: multiset<Entry>) {
    forall later: seq<Entry> :: Search(world, start, picks + later) == Follow(world, cache, todo, later)
  }

  lemma {:induction false} LeadsOn(world: World, start: set<Import>, picks: seq<Entry>, cache: set<Name>,
                                   todo: multiset<Entry>, e: Entry)
    requires LeadsTo(world, start, picks, cache, todo) && e in todo
    ensures match Judge(world, cache, e)
            case Skip => LeadsTo(world, start, picks + [e], cache, todo - multiset{e})
            case Raise(problem) => Search(world, start, picks + [e]) == Some(Failure(problem))
            case Add(n) => LeadsTo(world, start, picks + [e], cache + {n}, AfterAdd(world, cache, todo, e, n))
  {
    hide Judge, AfterAdd, Search;
    forall later: seq<Entry>
      ensures Search(world, start, picks + [e] + later) == Follow(world, cache, todo, [e] + later)
    {
      assert picks + [e] + later == picks + ([e] + later);
    }
    assert forall later: seq<Entry> :: ([e] + later)[1..] == later;
    assert picks + [e] + [] == picks + [e];
  }

  /** The picks so far are sorted, and stay so if the later ones are. */
  ghost predicate SortedTo(world: World, start: set<Import>, picks: seq<Entry>, cache: set<Name>,
                           todo: multiset<Entry>) {
    forall later: seq<Entry> :: SortedSearch(world, start, picks + later) <==> SortedFollow(world, cache, todo, later)
  }

  lemma {:induction false} SortedOn(world: World, start: set<Import>, picks: seq<Entry>, cache: set<Name>,
                                    todo: multiset<Entry>, e: Entry)
    requires SortedTo(world, start, picks, cache, todo) && e in todo && forall f :: f in todo ==> EntryLeq(e, f)
    ensures match Judge(world, cache, e)
            case Skip => SortedTo(world, start, picks + [e], cache, todo - multiset{e})
            case Raise(_) => SortedSearch(world, start, picks + [e])
            case Add(n) => SortedTo(world, start, picks + [e], cache + {n}, AfterAdd(world, cache, todo, e, n))
  {
    hide Judge, AfterAdd, SortedSearch, EntryLeq;
    forall later: seq<Entry>
      ensures SortedSearch(world, start, picks + [e] + later) <==> SortedFollow(world, cache, todo, [e] + later)
    {
      assert picks + [e] + later == picks + ([e] + later);
    }
    assert forall later: seq<Entry> :: ([e] + later)[1..] == later;
    assert picks + [e] + [] == picks + [e];
  }

  /**
   Returns the names of all module_utils the module needs, or the problem; `picks` is the order
   in which the entries were taken, always the least one of the worklist.  Every file that some
   import means is there, and an import that means a file is never what cannot be found.
  */
  method RecursiveFinder(world: World, script: Source) returns (r: Result<set<Name>, Problem>, ghost picks: seq<Entry>)
    ensures !script.parses ==> r == Failure(CannotParseModule)
    ensures script.parses ==> Search(world, script.imports, picks) == Some(r)
    ensures script.parses ==> SortedSearch(world, script.imports, picks)
    ensures script.parses && r.Success? ==>
              && LeastClosed(world, script.imports, r.value) && Faultless(world, script.imports, r.value)
              && AncestorsThere(world, r.value) && ["distronode", "module_utils", "basic"] in r.value
    ensures script.parses && r.Success? ==>
              forall i, m :: ImportedBy(world, script.imports, r.value, i) && StandsFor(world, i.name, m) ==>
                               m in r.value
    ensures script.parses && r.Failure? ==>
              forall have :: Closed(world, script.imports, have) ==> RealProblem(world, script.imports, have, r.error)
    ensures script.parses && r.Success? ==> forall n :: n in r.value && ReadsFile(world, n) ==> world[n].parses
    ensures script.parses && r.Failure? ==> OnDisk(world, r.error)
  {
    hide Progress, LeastClosed, Faultless, RealProblem, Closed, AncestorsThere, Universe, Follow, LeadsTo, Search;
    hide EntryLeq, SortedTo, SortedSearch, ImportedBy, StandsFor, OnDisk, ReadsFile;
    picks := [];
    if !script.parses {
      return Failure(CannotParseModule), picks;
    }
    var start := script.imports;
    var cache := PRELOADED;
    var todo := FirstEntries(start);
    StartsWell(world, start);
    CoreInUniverse(world, start);
    assert LeadsTo(world, start, picks, cache, todo) && SortedTo(world, start, picks, cache, todo) by {
      AtTheStart(world, start);
    }
    while |todo| > 0
      invariant Progress(world, start, cache, todo) && LeadsTo(world, start, picks, cache, todo)
      invariant SortedTo(world, start, picks, cache, todo)
      invariant cache <= Universe(world, start)
      decreases |Universe(world, start) - cache|, |todo|
    {
      ghost var least := LeastEntry(todo);
      var e :| e in todo && forall f :: f in todo ==> EntryLeq(e, f);
      LeadsOn(world, start, picks, cache, todo, e);
      SortedOn(world, start, picks, cache, todo, e);
      picks := picks + [e];
      match Judge(world, cache, e)
      case Skip =>
        SkipKeeps(world, start, cache, todo, e);
        todo := todo - multiset{e};
      case Raise(problem) =>
        EveryRun(world, start, picks);
        ProblemIsOnDisk(world, start, problem);
        return Failure(problem), picks;
      case Add(n) =>
        AddKeeps(world, start, cache, todo, e);
        AddedInUniverse(world, start, cache, todo, e);
        Shrinks(Universe(world, start), cache, n);
        todo := AfterAdd(world, cache, todo, e, n);
        cache := cache + {n};
    }
    AtTheEnd(world, start, picks, cache);
    EveryRun(world, start, picks);
    ImportsAreThere(world, start, cache);
    CollectedParses(world, start, cache);
    assert BASIC == ["distronode", "module_utils", "basic"];
    return Success(cache), picks;
  }

  lemma {:induction false} AtTheStart(world: World, start: set<Import>)
    ensures LeadsTo(world, start, [], PRELOADED, FirstEntries(start))
    ensures SortedTo(world, start, [], PRELOADED, FirstEntries(start))
  {
    assert forall later: seq<Entry> :: [] + later == later;
  }

  lemma {:induction false} AtTheEnd(world: World, start: set<Import>, picks: seq<Entry>, cache: set<Name>)
    requires LeadsTo(world, start, picks, cache, multiset{}) && SortedTo(world, start, picks, cache, multiset{})
    ensures Search(world, start, picks) == Some(Success(cache)) && SortedSearch(world, start, picks)
  {
    assert picks + [] == picks;
    assert Follow(world, cache, multiset{}, []) == Some(Success(cache));
  }

  // ---------------------------------------------------------------- where the order decides

  /** Module b exists, its package a does not; one import asks for b below the top level, another at the top level. */
  const LOST: Name := CORE + ["a"]
  const FOUND: Name := CORE + ["a", "b"]
  const HALF_WORLD: World := map[FOUND := Source(false, true, {}), BASIC := Source(false, true, {})]

  function HalfImport(part: string, optional: bool): Import {
    Import(FOUND + [part], optional)
  }

  /** A script that asks for b by an optional and by a required import. */
  function HalfScript(o: string, r: string): set<Import> {
    {HalfImport(o, true), HalfImport(r, false)}
  }

  lemma {:induction false} HalfNames()
    ensures |FOUND| == 4 && FOUND[..1] == ["distronode"] && FOUND[..2] == CORE && FOUND[..3] == LOST
    ensures FOUND[2] == "a" && LOST[2] == "a" && BASIC[2] == "basic" && "a" != "basic" && "a" != "six"
            && "basic" != "six"
    ensures LOST !in HALF_WORLD && FOUND in HALF_WORLD && BASIC in HALF_WORLD && LOST != BASIC && FOUND != BASIC
    ensures |BASIC| == 3 && BASIC[..1] == ["distronode"] && BASIC[..2] == CORE
    ensures FOUND !in PRELOADED && BASIC !in PRELOADED && LOST !in PRELOADED
  {
    assert |"a"| == 1 && |"basic"| == 5 && |"six"| == 3;
  }

  lemma {:induction false} HalfJudged(cache: set<Name>, part: string, optional: bool)
    requires cache == PRELOADED || cache == PRELOADED + {FOUND}
    ensures Judge(HALF_WORLD, cache, ImportEntry(HalfImport(part, optional)))
         == if FOUND in cache then Skip else Add(FOUND)
  {
    HalfNames();
    var n := FOUND + [part];
    assert |n| == 5 && n[2] == "a" && n[..2] == CORE && n[..|n| - 1] == FOUND;
  }

  lemma {:induction false} HalfAdded(optional: bool)
    ensures NewImports(HALF_WORLD, FOUND, PRELOADED) == {}
    ensures NewAncestors(FOUND, PRELOADED + {FOUND}, optional) == {Entry(LOST, false, optional)}
    ensures Judge(HALF_WORLD, PRELOADED + {FOUND}, Entry(LOST, false, true)) == Skip
    ensures Judge(HALF_WORLD, PRELOADED + {FOUND}, Entry(LOST, false, false))
            == Raise(CannotFind(Entry(LOST, false, false)))
  {
    HalfNames();
    assert FOUND[..3] !in PRELOADED + {FOUND};
    assert LOST[..2] == CORE;
  }

  lemma {:induction false} HalfBasic()
    ensures Judge(HALF_WORLD, PRELOADED + {FOUND}, BASIC_ENTRY) == Add(BASIC)
    ensures NewImports(HALF_WORLD, BASIC, PRELOADED + {FOUND}) == {}
    ensures NewAncestors(BASIC, PRELOADED + {FOUND} + {BASIC}, false) == {}
  {
    HalfNames();
  }

  lemma {:induction false} HalfStart(o: string, r: string)
    ensures FirstEntries(HalfScript(o, r))
         == multiset{ImportEntry(HalfImport(o, true)), ImportEntry(HalfImport(r, false)), BASIC_ENTRY}
  {
    var entries := set i | i in HalfScript(o, r) :: ImportEntry(i);
    assert entries == {ImportEntry(HalfImport(o, true)), ImportEntry(HalfImport(r, false))};
  }

  /** Taken first, the optional import brings in b and lets its ancestor be missing. */
  lemma {:induction false} OptionalSucceeds(world: World, b: Name, o: Entry, r: Entry, ancestor: Entry)
    requires o != r && BASIC_ENTRY !in {o, r, ancestor} && ancestor != r
    requires Judge(world, PRELOADED, o) == Add(b)
    requires AfterAdd(world, PRELOADED, multiset{o, r, BASIC_ENTRY}, o, b) == multiset{ancestor, r, BASIC_ENTRY}
    requires Judge(world, PRELOADED + {b}, ancestor) == Skip && Judge(world, PRELOADED + {b}, r) == Skip
    requires Judge(world, PRELOADED + {b}, BASIC_ENTRY) == Add(BASIC)
    requires AfterAdd(world, PRELOADED + {b}, multiset{BASIC_ENTRY}, BASIC_ENTRY, BASIC) == multiset{}
    ensures Follow(world, PRELOADED, multiset{o, r, BASIC_ENTRY}, [o, ancestor, r, BASIC_ENTRY])
         == Some(Success(PRELOADED + {b} + {BASIC}))
    ensures LeqAll(o, [o, r, BASIC_ENTRY]) && LeqAll(ancestor, [ancestor, r, BASIC_ENTRY])
            && LeqAll(r, [r, BASIC_ENTRY]) ==>
              SortedFollow(world, PRELOADED, multiset{o, r, BASIC_ENTRY}, [o, ancestor, r, BASIC_ENTRY])
  {
    hide Judge, AfterAdd;
    var cache := PRELOADED + {b};
    assert [o, ancestor, r, BASIC_ENTRY][1..] == [ancestor, r, BASIC_ENTRY];
    assert [ancestor, r, BASIC_ENTRY][1..] == [r, BASIC_ENTRY];
    assert [r, BASIC_ENTRY][1..] == [BASIC_ENTRY];
    assert [BASIC_ENTRY][1..] == [];
    assert multiset{ancestor, r, BASIC_ENTRY} - multiset{ancestor} == multiset{r, BASIC_ENTRY};
    assert multiset{r, BASIC_ENTRY} - multiset{r} == multiset{BASIC_ENTRY};
    assert Follow(world, cache, multiset{BASIC_ENTRY}, [BASIC_ENTRY]) == Some(Success(cache + {BASIC}));
    assert Follow(world, cache, multiset{r, BASIC_ENTRY}, [r, BASIC_ENTRY]) == Some(Success(cache + {BASIC}));
    if LeqAll(r, [r, BASIC_ENTRY]) {
      EntryOrder(BASIC_ENTRY, BASIC_ENTRY);
      assert SortedFollow(world, cache, multiset{BASIC_ENTRY}, [BASIC_ENTRY]);
      assert SortedFollow(world, cache, multiset{r, BASIC_ENTRY}, [r, BASIC_ENTRY]);
    }
  }

  predicate LeqAll(e: Entry, fs: seq<Entry>) {
    forall f :: f in fs ==> EntryLeq(e, f)
  }

  /** Taken first, the required import makes the ancestor required, which fails. */
  lemma {:induction false} RequiredFails(world: World, b: Name, todo: multiset<Entry>, r: Entry, ancestor: Entry,
                                         p: Problem)
    requires r in todo && Judge(world, PRELOADED, r) == Add(b)
    requires ancestor in AfterAdd(world, PRELOADED, todo, r, b) && Judge(world, PRELOADED + {b}, ancestor) == Raise(p)
    ensures Follow(world, PRELOADED, todo, [r, ancestor]) == Some(Failure(p))
    ensures (forall f :: f in todo ==> EntryLeq(r, f))
            && (forall f :: f in AfterAdd(world, PRELOADED, todo, r, b) ==> EntryLeq(ancestor, f)) ==>
              SortedFollow(world, PRELOADED, todo, [r, ancestor])
  {
    hide Judge, AfterAdd;
    assert [r, ancestor][1..] == [ancestor];
  }

  /** The order that takes the optional import first. */
  function OptionalPicks(o: string, r: string): seq<Entry> {
    [ImportEntry(HalfImport(o, true)), Entry(LOST, false, true), ImportEntry(HalfImport(r, false)), BASIC_ENTRY]
  }

  /** The order that takes the required import first; it does not get far. */
  function RequiredPicks(r: string): seq<Entry> {
    [ImportEntry(HalfImport(r, false)), Entry(LOST, false, false)]
  }

  lemma {:induction false} Prefixed(p: Name, a: Name, b: Name)
    ensures NameLeq(p + a, p + b) <==> NameLeq(a, b)
    decreases |p|
  {
    if p == [] {
      assert p + a == a && p + b == b;
    } else {
      assert (p + a)[1..] == p[1..] + a && (p + b)[1..] == p[1..] + b;
      Prefixed(p[1..], a, b);
    }
  }

  /** Package a sorts before what is in it, and that before basic. */
  lemma {:induction false} SortedNames(part: string, other: string)
    ensures NameLeq(FOUND + [part], FOUND + [other]) <==> TextLeq(part, other)
    ensures NameLeq(FOUND + [part], BASIC) && NameLeq(LOST, FOUND + [part]) && NameLeq(LOST, BASIC)
  {
    var low: Name, found := ["a"], ["a", "b", part];
    assert LOST == CORE + low && BASIC == CORE + ["basic"] && FOUND + [part] == CORE + found;
    Prefixed(FOUND, [part], [other]);
    TextOrder(part, other);
    assert [part][1..] == [] && [other][1..] == [];
    Prefixed(CORE, found, ["basic"]);
    Prefixed(CORE, low, found);
    Prefixed(CORE, low, ["basic"]);
    assert "a" != "basic" && TextLeq("a", "basic") by { ABeforeBasic(); }
    assert low[1..] == [];
    assert low[0] == found[0];
  }

  lemma {:induction false} ABeforeBasic()
    ensures "a" != "basic" && TextLeq("a", "basic")
  {
    assert "a"[0] < "basic"[0];
  }

  /** How the entries of the two runs are sorted. */
  lemma {:induction false} SortedEntries(o: string, r: string)
    ensures var oe, re := ImportEntry(HalfImport(o, true)), ImportEntry(HalfImport(r, false));
            && (!TextLeq(r, o) ==> LeqAll(oe, [oe, re, BASIC_ENTRY]))
            && (TextLeq(r, o) ==> LeqAll(re, [oe, re, BASIC_ENTRY]))
            && LeqAll(re, [re, BASIC_ENTRY])
            && LeqAll(Entry(LOST, false, true), [Entry(LOST, false, true), re, BASIC_ENTRY])
            && LeqAll(Entry(LOST, false, false), [Entry(LOST, false, false), oe, BASIC_ENTRY])
  {
    hide NameLeq, TextLeq;
    TextOrder(o, r);
    SortedNames(o, r);
    SortedNames(r, o);
    NameOrder(LOST, LOST);
    NameOrder(BASIC, BASIC);
    assert LOST != BASIC by { HalfNames(); }
  }

  /**
   With gaps the order decides.  The run that takes the optional import first lets package a be
   missing, finds b cached for the required import and succeeds; the run of the same script that
   takes the required import first fails.
  */
  lemma {:induction false} OrderMatters(o: string, r: string)
    ensures Search(HALF_WORLD, HalfScript(o, r), OptionalPicks(o, r)) == Some(Success(PRELOADED + {FOUND} + {BASIC}))
    ensures Search(HALF_WORLD, HalfScript(o, r), RequiredPicks(r))
         == Some(Failure(CannotFind(Entry(LOST, false, false))))
  {
    hide Follow, SortedFollow;
    OptionalRun(o, r);
    RequiredRun(o, r);
  }

  lemma {:induction false} OptionalRun(o: string, r: string)
    ensures Search(HALF_WORLD, HalfScript(o, r), OptionalPicks(o, r)) == Some(Success(PRELOADED + {FOUND} + {BASIC}))
    ensures !TextLeq(r, o) ==> SortedSearch(HALF_WORLD, HalfScript(o, r), OptionalPicks(o, r))
  {
    hide Judge, NewImports, NewAncestors, FirstEntries, Follow, SortedFollow, TextLeq, NameLeq;
    var oe, re, ao := ImportEntry(HalfImport(o, true)), ImportEntry(HalfImport(r, false)), Entry(LOST, false, true);
    HalfStart(o, r);
    HalfNames();
    HalfJudged(PRELOADED, o, true);
    HalfJudged(PRELOADED + {FOUND}, r, false);
    HalfAdded(true);
    HalfBasic();
    OptionalSucceeds(HALF_WORLD, FOUND, oe, re, ao);
    SortedEntries(o, r);
  }

  lemma {:induction false} RequiredRun(o: string, r: string)
    ensures Search(HALF_WORLD, HalfScript(o, r), RequiredPicks(r))
         == Some(Failure(CannotFind(Entry(LOST, false, false))))
    ensures TextLeq(r, o) ==> SortedSearch(HALF_WORLD, HalfScript(o, r), RequiredPicks(r))
  {
    hide Judge, NewImports, NewAncestors, FirstEntries, Follow, SortedFollow, TextLeq, NameLeq;
    var oe, re, ar := ImportEntry(HalfImport(o, true)), ImportEntry(HalfImport(r, false)), Entry(LOST, false, false);
    HalfStart(o, r);
    HalfNames();
    HalfJudged(PRELOADED, r, false);
    HalfAdded(false);
    RequiredFails(HALF_WORLD, FOUND, multiset{oe, re, BASIC_ENTRY}, re, ar, CannotFind(ar));
    SortedEntries(o, r);
  }

  /**
   The sorted run of such a script, the one that is run, succeeds exactly when the name of the
   optional import sorts before that of the required one.
  */
  lemma {:induction false} NamesDecide(o: string, r: string, picks: seq<Entry>)
    requires var start := HalfScript(o, r);
             Search(HALF_WORLD, start, picks).Some? && SortedSearch(HALF_WORLD, start, picks)
    ensures Search(HALF_WORLD, HalfScript(o, r), picks).value.Success? <==> !TextLeq(r, o)
  {
    hide Search, SortedSearch, TextLeq;
    if TextLeq(r, o) {
      RequiredRun(o, r);
      OneSortedRun(HALF_WORLD, HalfScript(o, r), picks, RequiredPicks(r));
    } else {
      OptionalRun(o, r);
      OneSortedRun(HALF_WORLD, HalfScript(o, r), picks, OptionalPicks(o, r));
    }
  }

  /**
   Between the conditions for every order and for some order: the sorted run succeeds if no module
   with a gap can be added by a required import, and fails if one cannot be avoided.
  */
  lemma {:induction false} SortedBetween(world: World, start: set<Import>, have: set<Name>, picks: seq<Entry>)
    requires LeastClosed(world, start, have) && Search(world, start, picks).Some? && SortedSearch(world, start, picks)
    ensures Faultless(world, start, have) && !Exposed(world, start) ==> Search(world, start, picks).value.Success?
    ensures Search(world, start, picks).value.Success? ==>
              Faultless(world, start, have) && SafelyReached(world, start, have)
    ensures OrderMakesNoDifference(world, start) ==>
              (Search(world, start, picks).value.Success? <==>
                 Faultless(world, start, have) && SafelyReached(world, start, have))
  {
    hide LeastClosed, Faultless, Exposed, SafelyReached, Search;
    EveryOrderSucceeds(world, start, have);
    SomeOrderSucceeds(world, start, have);
    assert Succeeds(world, start, picks) || Fails(world, start, picks);
  }

  /** For these scripts both conditions are met, so they do not decide: the names do. */
  lemma {:induction false} NeitherDecides(o: string, r: string, have: set<Name>)
    requires LeastClosed(HALF_WORLD, HalfScript(o, r), have)
    ensures var start := HalfScript(o, r);
            Faultless(HALF_WORLD, start, have) && Exposed(HALF_WORLD, start) && SafelyReached(HALF_WORLD, start, have)
  {
    hide LeastClosed, Faultless, Exposed, SafelyReached, Search;
    OrderMatters(o, r);
    var start := HalfScript(o, r);
    EveryOrderSucceeds(HALF_WORLD, start, have);
    SomeOrderSucceeds(HALF_WORLD, start, have);
    assert Succeeds(HALF_WORLD, start, OptionalPicks(o, r)) && Fails(HALF_WORLD, start, RequiredPicks(r));
  }
}
