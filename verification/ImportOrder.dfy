/**
 When the order of the worklist decides.  The search fails in one order and succeeds in
 another only if the package above a module is missing and the module is asked for both by an
 optional and by a required import.  This module says exactly when every order succeeds, when
 some order does, and when the order makes no difference.
*/
module ImportOrder {
  import opened Basics
  import opened ImportClosure

  /** An ancestor of the module does not exist. */
  predicate Gap(world: World, n: Name) {
    exists k :: 0 < k < |n| && n[..k] !in PRELOADED && Locate(world, Entry(n[..k], false, false)).None?
  }

  /** A required entry for this name fails whenever it is taken. */
  predicate Missing(world: World, p: Name) {
    Ours(p) && !BadPath(p) && p !in PRELOADED && Locate(world, Entry(p, false, false)).None?
  }

  ghost predicate Succeeds(world: World, start: set<Import>, picks: seq<Entry>) {
    Search(world, start, picks).Some? && Search(world, start, picks).value.Success?
  }

  ghost predicate Fails(world: World, start: set<Import>, picks: seq<Entry>) {
    Search(world, start, picks).Some? && Search(world, start, picks).value.Failure?
  }

  // ---------------------------------------------------------------- missing ancestors

  lemma {:induction false} GapIsMissing(world: World, n: Name) returns (k: nat)
    requires Proper(world, n) && Gap(world, n)
    ensures 0 < k < |n| && Missing(world, n[..k])
  {
    k :| 0 < k < |n| && n[..k] !in PRELOADED && Locate(world, Entry(n[..k], false, false)).None?;
    AncestorIsOurs(world, n, k);
    AncestorNotSix(world, n, k);
  }

  /** What is missing is not cached, so a required entry for it is raised. */
  lemma {:induction false} MissingRaises(world: World, start: set<Import>, cache: set<Name>, todo: multiset<Entry>,
                                         p: Name)
    requires Progress(world, start, cache, todo) && Missing(world, p)
    ensures p !in cache && Judge(world, cache, Entry(p, false, false)) == Raise(CannotFind(Entry(p, false, false)))
  {
    assert p in cache ==> Cached(world, p);
  }

  /** A module with a gap that is added by a required entry leaves a required entry that fails. */
  lemma {:induction false} GapLeavesMissing(world: World, start: set<Import>, cache: set<Name>,
                                            todo: multiset<Entry>, e: Entry) returns (p: Name)
    requires e in todo && Progress(world, start, cache, todo) && Judge(world, cache, e).Add? && !e.optional
    requires Gap(world, Judge(world, cache, e).name)
    ensures Missing(world, p) && Entry(p, false, false) in AfterAdd(world, cache, todo, e, Judge(world, cache, e).name)
  {
    hide Gap, Missing, Locate, Progress;
    var n := Judge(world, cache, e).name;
    LocatedIsProper(world, e);
    var k := GapIsMissing(world, n);
    p := n[..k];
    AddKeeps(world, start, cache, todo, e);
    MissingRaises(world, start, cache + {n}, AfterAdd(world, cache, todo, e, n), p);
    assert Entry(p, false, false) in NewAncestors(n, cache + {n}, false);
  }

  /** While a required entry for something missing is on the worklist, no run succeeds. */
  lemma {:induction false} MissingNeverSucceeds(world: World, start: set<Import>, cache: set<Name>,
                                                todo: multiset<Entry>, p: Name, picks: seq<Entry>)
    requires Progress(world, start, cache, todo) && Entry(p, false, false) in todo && Missing(world, p)
    ensures match Follow(world, cache, todo, picks) case Some(Success(_)) => false case _ => true
    decreases |picks|
  {
    hide Progress, Missing, Judge, NewAncestors, NewImports;
    MissingRaises(world, start, cache, todo, p);
    if picks != [] && picks[0] in todo {
      var e := picks[0];
      match Judge(world, cache, e)
      case Skip =>
        SkipKeeps(world, start, cache, todo, e);
        MissingNeverSucceeds(world, start, cache, todo - multiset{e}, p, picks[1..]);
      case Raise(_) =>
      case Add(n) =>
        AddKeeps(world, start, cache, todo, e);
        MissingNeverSucceeds(world, start, cache + {n}, AfterAdd(world, cache, todo, e, n), p, picks[1..]);
    }
  }

  // ---------------------------------------------------------------- does some order succeed?

  /** Not a required import of a module with a gap. */
  predicate Harmless(world: World, e: Entry) {
    e.optional || !e.ambiguous || (Locate(world, e).Some? && !Gap(world, Locate(world, e).value))
  }

  /** Everything asked for by a harmless entry is there. */
  ghost predicate SafelyClosed(world: World, start: set<Import>, have: set<Name>) {
    && PRELOADED <= have
    && forall e :: Asks(world, start, have, e) && Harmless(world, e) && Locate(world, e).Some? ==>
                     Locate(world, e).value in have
  }

  /** Every module of the smallest closed set can be reached by harmless entries alone. */
  ghost predicate SafelyReached(world: World, start: set<Import>, have: set<Name>) {
    forall other :: SafelyClosed(world, start, other) ==> have <= other
  }

  /** A run that succeeds has only added what harmless entries ask for. */
  lemma {:induction false} SuccessIsSafe(world: World, start: set<Import>, cache: set<Name>, todo: multiset<Entry>,
                                         picks: seq<Entry>, other: set<Name>)
    requires Progress(world, start, cache, todo) && SafelyClosed(world, start, other) && cache <= other
    ensures match Follow(world, cache, todo, picks) case Some(Success(all)) => all <= other case _ => true
    decreases |picks|
  {
    hide Progress, SafelyClosed, Judge, AfterAdd;
    if picks != [] && picks[0] in todo {
      var e := picks[0];
      match Judge(world, cache, e)
      case Skip =>
        SkipKeeps(world, start, cache, todo, e);
        SuccessIsSafe(world, start, cache, todo - multiset{e}, picks[1..], other);
      case Raise(_) =>
      case Add(n) =>
        var later := AfterAdd(world, cache, todo, e, n);
        AddKeeps(world, start, cache, todo, e);
        Located(world, cache, e);
        if Harmless(world, e) {
          SafeStep(world, start, cache, todo, e, other);
          SuccessIsSafe(world, start, cache + {n}, later, picks[1..], other);
        } else {
          var p := GapLeavesMissing(world, start, cache, todo, e);
          MissingNeverSucceeds(world, start, cache + {n}, later, p, picks[1..]);
        }
    }
  }

  lemma {:induction false} Located(world: World, cache: set<Name>, e: Entry)
    ensures Judge(world, cache, e).Add? ==> Locate(world, e) == Some(Judge(world, cache, e).name)
    ensures Judge(world, cache, e).Add? ==> Judge(world, cache, e).name !in cache
  {
  }

  lemma {:induction false} SafeStep(world: World, start: set<Import>, cache: set<Name>, todo: multiset<Entry>,
                                    e: Entry, other: set<Name>)
    requires e in todo && Progress(world, start, cache, todo) && SafelyClosed(world, start, other) && cache <= other
    requires Harmless(world, e) && Locate(world, e).Some?
    ensures Locate(world, e).value in other
  {
    hide Locate, Harmless;
    AsksGrows(world, start, cache, other, e);
  }

  /** Every required entry for an ancestor is one that does no harm: it is there and has no gap. */
  ghost predicate NothingMissing(world: World, todo: multiset<Entry>) {
    forall f :: f in todo && !f.optional && !f.ambiguous ==>
      || f.name in PRELOADED
      || (Locate(world, f).Some? && !Gap(world, Locate(world, f).value))
  }

  /** A module without a gap has ancestors without gaps, which exist. */
  lemma {:induction false} NoGapAbove(world: World, n: Name, k: nat)
    requires Proper(world, n) && !Gap(world, n) && 0 < k < |n| && n[..k] !in PRELOADED
    ensures var f := Entry(n[..k], false, false); Locate(world, f) == Some(n[..k]) && !Gap(world, n[..k])
  {
    AncestorNotSix(world, n, k);
    assert Locate(world, Entry(n[..k], false, false)).Some?;
    forall j | 0 < j < k
      ensures n[..k][..j] == n[..j]
    {
    }
  }

  lemma {:induction false} AddMissesNothing(world: World, start: set<Import>, cache: set<Name>,
                                            todo: multiset<Entry>, e: Entry)
    requires e in todo && Progress(world, start, cache, todo) && Judge(world, cache, e).Add?
    requires NothingMissing(world, todo) && Harmless(world, e)
    ensures NothingMissing(world, AfterAdd(world, cache, todo, e, Judge(world, cache, e).name))
  {
    hide Locate, Gap, Progress;
    var n := Judge(world, cache, e).name;
    assert PRELOADED <= cache by { CacheHasPreloaded(world, start, cache, todo); }
    LocatedIsProper(world, e);
    forall f | f in AfterAdd(world, cache, todo, e, n) && !f.optional && !f.ambiguous && f.name !in PRELOADED
      ensures Locate(world, f).Some? && !Gap(world, Locate(world, f).value)
    {
      if f !in todo {
        var k :| 0 < k < |n| && f == Entry(n[..k], false, e.optional);
        NoGapAbove(world, n, k);
      }
    }
  }

  lemma {:induction false} CacheHasPreloaded(world: World, start: set<Import>, cache: set<Name>,
                                             todo: multiset<Entry>)
    requires Progress(world, start, cache, todo)
    ensures PRELOADED <= cache
  {
  }

  /** Without faults, an entry that is raised is a required one for a missing ancestor. */
  lemma {:induction false} OnlyMissingRaises(world: World, start: set<Import>, cache: set<Name>,
                                             todo: multiset<Entry>, e: Entry, have: set<Name>)
    requires e in todo && Progress(world, start, cache, todo) && Judge(world, cache, e).Raise?
    requires Closed(world, start, have) && Faultless(world, start, have)
    ensures !AsksImport(world, start, cache, e) && AsksAncestor(cache, e)
    ensures !e.ambiguous && !e.optional && e.name !in PRELOADED && Locate(world, e).None?
  {
    hide Locate, AsksAncestor, AsksImport;
    RaisedForCause(world, start, cache, todo, e, have);
    assert Asks(world, start, cache, e);
    if AsksImport(world, start, cache, e) {
      ImportGrows(world, start, cache, have, e);
    }
    assert !e.ambiguous by { AncestorsAreClear(cache, e); }
  }

  lemma {:induction false} AncestorsAreClear(cache: set<Name>, e: Entry)
    requires AsksAncestor(cache, e)
    ensures !e.ambiguous
  {
  }

  /** When only harmful entries are left, the cache holds all that harmless ones ask for. */
  lemma {:induction false} LeftIsSafelyClosed(world: World, start: set<Import>, cache: set<Name>,
                                              todo: multiset<Entry>)
    requires Progress(world, start, cache, todo) && forall e :: e in todo ==> !Harmless(world, e)
    ensures SafelyClosed(world, start, cache)
  {
    hide Harmless;
    forall e | Asks(world, start, cache, e) && Harmless(world, e) && Locate(world, e).Some?
      ensures Locate(world, e).value in cache
    {
      if AsksImport(world, start, cache, e) {
        assert Handled(world, cache, todo, e);
        SettledLocated(world, start, cache, todo, e);
      } else {
        var n, k :| n in cache && 0 < k < |n| && e.name == n[..k];
        assert AncestorHandled(world, cache, todo, e.name);
        ClearIsHarmless(world, e.name);
        assert Locate(world, e) == Locate(world, Entry(e.name, false, true));
        if e.name in cache {
          assert Cached(world, e.name);
          CachedLocates(world, e);
        }
      }
    }
  }

  lemma {:induction false} ClearIsHarmless(world: World, p: Name)
    ensures Harmless(world, Entry(p, false, true)) && Harmless(world, Entry(p, false, false))
  {
  }

  lemma {:induction false} SettledLocated(world: World, start: set<Import>, cache: set<Name>, todo: multiset<Entry>,
                                          e: Entry)
    requires Progress(world, start, cache, todo) && Locate(world, e).Some?
    ensures Settled(world, cache, e) ==> Locate(world, e).value in cache
  {
    if e.name in cache {
      assert Cached(world, e.name);
      CachedLocates(world, e);
    }
  }

  lemma {:induction false} FirstPick(world: World, cache: set<Name>, todo: multiset<Entry>, e: Entry,
                                     later: seq<Entry>)
    requires e in todo
    ensures Follow(world, cache, todo, [e] + later) ==
            match Judge(world, cache, e)
            case Skip => Follow(world, cache, todo - multiset{e}, later)
            case Raise(problem) => if later == [] then Some(Failure(problem)) else None
            case Add(n) => Follow(world, cache + {n}, AfterAdd(world, cache, todo, e, n), later)
  {
    hide Judge, AfterAdd;
    assert ([e] + later)[1..] == later;
  }

  /** Harmless entries are taken first; then nothing is raised, and no harmful entry adds anything. */
  lemma {:induction false} HarmlessFirst(world: World, start: set<Import>, have: set<Name>, cache: set<Name>,
                                         todo: multiset<Entry>, e: Entry)
    requires Progress(world, start, cache, todo) && NothingMissing(world, todo)
    requires Closed(world, start, have) && Faultless(world, start, have) && SafelyReached(world, start, have)
    requires e in todo && (Harmless(world, e) || forall f :: f in todo ==> !Harmless(world, f))
    ensures !Judge(world, cache, e).Raise?
    ensures Judge(world, cache, e).Add? ==> Harmless(world, e)
  {
    hide Faultless, SafelyClosed, Judge, Harmless, Locate, Gap, AsksImport, AsksAncestor;
    if Judge(world, cache, e).Raise? {
      OnlyMissingRaises(world, start, cache, todo, e, have);
    }
    if !Harmless(world, e) {
      LeftIsSafelyClosed(world, start, cache, todo);
      Located(world, cache, e);
      AsksGrows(world, start, cache, have, e);
    }
  }

  /** Taking harmless entries first leads to success. */
  lemma {:induction false} SucceedFrom(world: World, start: set<Import>, have: set<Name>, cache: set<Name>,
                                       todo: multiset<Entry>) returns (picks: seq<Entry>)
    requires Progress(world, start, cache, todo) && NothingMissing(world, todo) && cache <= Universe(world, start)
    requires Closed(world, start, have) && Faultless(world, start, have) && SafelyReached(world, start, have)
    ensures match Follow(world, cache, todo, picks) case Some(Success(_)) => true case _ => false
    decreases |Universe(world, start) - cache|, |todo|
  {
    hide Progress, Closed, Faultless, SafelyReached, Judge, AfterAdd, Universe, Harmless, NothingMissing;
    if todo == multiset{} {
      return [];
    }
    var e :| e in todo && (Harmless(world, e) || forall f :: f in todo ==> !Harmless(world, f));
    HarmlessFirst(world, start, have, cache, todo, e);
    var later;
    match Judge(world, cache, e) {
      case Skip =>
        SkipKeeps(world, start, cache, todo, e);
        assert NothingMissing(world, todo - multiset{e}) by { FewerMissing(world, todo, e); }
        later := SucceedFrom(world, start, have, cache, todo - multiset{e});
      case Add(n) =>
        AddKeeps(world, start, cache, todo, e);
        AddMissesNothing(world, start, cache, todo, e);
        AddedInUniverse(world, start, cache, todo, e);
        Shrinks(Universe(world, start), cache, n);
        later := SucceedFrom(world, start, have, cache + {n}, AfterAdd(world, cache, todo, e, n));
    }
    FirstPick(world, cache, todo, e, later);
    picks := [e] + later;
  }

  lemma {:induction false} FewerMissing(world: World, todo: multiset<Entry>, e: Entry)
    requires NothingMissing(world, todo)
    ensures NothingMissing(world, todo - multiset{e})
  {
    hide Locate, Gap;
  }

  lemma {:induction false} StartMissesNothing(world: World, start: set<Import>, have: set<Name>)
    requires Closed(world, start, have) && Faultless(world, start, have)
    ensures NothingMissing(world, FirstEntries(start)) && PRELOADED <= Universe(world, start)
  {
    hide Universe;
    CoreInUniverse(world, start);
    assert AsksImport(world, start, have, BASIC_ENTRY);
    assert Locate(world, BASIC_ENTRY).value == BASIC;
    assert BASIC[..2] == CORE && BASIC[..1] == ["distronode"];
  }

  /**
   Some order succeeds exactly when nothing is wrong with the smallest closed set, and every
   module in it can be reached without a required import of a module with a gap.
  */
  lemma {:induction false} SomeOrderSucceeds(world: World, start: set<Import>, have: set<Name>)
    requires LeastClosed(world, start, have)
    ensures (exists picks :: Succeeds(world, start, picks)) <==>
            Faultless(world, start, have) && SafelyReached(world, start, have)
  {
    hide LeastClosed, Closed, Faultless, SafelyClosed, Follow, Universe, NothingMissing, Progress, AncestorsThere;
    if picks :| Succeeds(world, start, picks) {
      EveryRun(world, start, picks);
      OnlyOneLeast(world, start, have, Search(world, start, picks).value.value);
      StartsWell(world, start);
      forall other | SafelyClosed(world, start, other)
        ensures have <= other
      {
        assert PRELOADED <= other by { SafeHasPreloaded(world, start, other); }
        SuccessIsSafe(world, start, PRELOADED, FirstEntries(start), picks, other);
      }
    }
    if Faultless(world, start, have) && SafelyReached(world, start, have) {
      assert Closed(world, start, have) by { LeastIsClosed(world, start, have); }
      StartsWell(world, start);
      StartMissesNothing(world, start, have);
      var picks := SucceedFrom(world, start, have, PRELOADED, FirstEntries(start));
      assert Succeeds(world, start, picks);
    }
  }

  lemma {:induction false} SafeHasPreloaded(world: World, start: set<Import>, other: set<Name>)
    requires SafelyClosed(world, start, other)
    ensures PRELOADED <= other
  {
  }

  // ---------------------------------------------------------------- does every order succeed?

  /** Everything asked for is there, except perhaps `n`. */
  ghost predicate ClosedBut(world: World, start: set<Import>, have: set<Name>, n: Name) {
    && PRELOADED <= have
    && forall e :: Asks(world, start, have, e) && Locate(world, e).Some? && Locate(world, e).value != n ==>
                     Locate(world, e).value in have
  }

  /** The modules of `have` require `n`. */
  ghost predicate Required(world: World, start: set<Import>, have: set<Name>, n: Name) {
    exists e :: AsksImport(world, start, have, e) && !e.optional && Locate(world, e) == Some(n)
  }

  /** The module is required by something that is collected whether or not the module itself is. */
  ghost predicate RequiredFirst(world: World, start: set<Import>, n: Name) {
    forall have :: ClosedBut(world, start, have, n) ==> Required(world, start, have, n)
  }

  /** Some module with a gap can be added by a required import. */
  ghost predicate Exposed(world: World, start: set<Import>) {
    exists n :: Gap(world, n) && RequiredFirst(world, start, n)
  }

  /** Taking everything but `n` first, a run gets to where `n` is required, or fails before. */
  lemma {:induction false} FailFrom(world: World, start: set<Import>, cache: set<Name>, todo: multiset<Entry>,
                                    n: Name) returns (picks: seq<Entry>)
    requires Progress(world, start, cache, todo) && cache <= Universe(world, start)
    requires n !in cache && Gap(world, n) && RequiredFirst(world, start, n)
    ensures match Follow(world, cache, todo, picks) case Some(Failure(_)) => true case _ => false
    decreases |Universe(world, start) - cache|, |todo|
  {
    hide Progress, Judge, AfterAdd, Universe, Gap, RequiredFirst;
    if e :| e in todo && Judge(world, cache, e).Raise? {
      FirstPick(world, cache, todo, e, []);
      return [e] + [];
    }
    var e: Entry;
    if f :| f in todo && Judge(world, cache, f) != Add(n) {
      e := f;
    } else {
      e := RequiredNext(world, start, cache, todo, n);
    }
    var later;
    if Judge(world, cache, e) == Add(n) {
      later := RaiseMissing(world, start, cache, todo, e);
    } else if Judge(world, cache, e).Skip? {
      SkipKeeps(world, start, cache, todo, e);
      later := FailFrom(world, start, cache, todo - multiset{e}, n);
    } else {
      var m := Judge(world, cache, e).name;
      AddKeeps(world, start, cache, todo, e);
      AddedInUniverse(world, start, cache, todo, e);
      Shrinks(Universe(world, start), cache, m);
      later := FailFrom(world, start, cache + {m}, AfterAdd(world, cache, todo, e, m), n);
    }
    FirstPick(world, cache, todo, e, later);
    picks := [e] + later;
  }

  /** When all that is left would add `n`, a required import of `n` is among it. */
  lemma {:induction false} RequiredNext(world: World, start: set<Import>, cache: set<Name>, todo: multiset<Entry>,
                                        n: Name) returns (e: Entry)
    requires Progress(world, start, cache, todo) && n !in cache && RequiredFirst(world, start, n)
    requires forall f :: f in todo ==> Judge(world, cache, f) == Add(n)
    ensures e in todo && Judge(world, cache, e) == Add(n) && !e.optional
  {
    hide Judge, Locate, AsksImport, Required;
    LeftIsClosedBut(world, start, cache, todo, n);
    assert Required(world, start, cache, n);
    e := RequiredEntry(world, start, cache, n);
    assert Handled(world, cache, todo, e);
    SettledLocated(world, start, cache, todo, e);
  }

  lemma {:induction false} RequiredEntry(world: World, start: set<Import>, have: set<Name>, n: Name)
    returns (e: Entry)
    requires Required(world, start, have, n)
    ensures AsksImport(world, start, have, e) && !e.optional && Locate(world, e) == Some(n)
  {
    e :| AsksImport(world, start, have, e) && !e.optional && Locate(world, e) == Some(n);
  }

  lemma {:induction false} LeftIsClosedBut(world: World, start: set<Import>, cache: set<Name>,
                                           todo: multiset<Entry>, n: Name)
    requires Progress(world, start, cache, todo)
    requires forall f :: f in todo ==> Judge(world, cache, f) == Add(n)
    ensures ClosedBut(world, start, cache, n)
  {
    hide Judge;
    forall e | Asks(world, start, cache, e) && Locate(world, e).Some? && Locate(world, e).value != n
      ensures Locate(world, e).value in cache
    {
      if AsksImport(world, start, cache, e) {
        assert Handled(world, cache, todo, e);
        Located(world, cache, e);
        SettledLocated(world, start, cache, todo, e);
      } else {
        assert AncestorHandled(world, cache, todo, e.name);
        var f, g := Entry(e.name, false, true), Entry(e.name, false, false);
        Located(world, cache, f);
        Located(world, cache, g);
        assert Locate(world, e) == Locate(world, f) == Locate(world, g);
        if e.name in cache {
          assert Cached(world, e.name);
          CachedLocates(world, e);
        }
      }
    }
  }

  lemma {:induction false} RaiseMissing(world: World, start: set<Import>, cache: set<Name>, todo: multiset<Entry>,
                                        e: Entry) returns (picks: seq<Entry>)
    requires e in todo && Progress(world, start, cache, todo) && Judge(world, cache, e).Add? && !e.optional
    requires Gap(world, Judge(world, cache, e).name)
    ensures var n := Judge(world, cache, e).name;
            match Follow(world, cache + {n}, AfterAdd(world, cache, todo, e, n), picks)
            case Some(Failure(_)) => true
            case _ => false
  {
    hide Progress, Judge, AfterAdd, Gap, Missing;
    var n := Judge(world, cache, e).name;
    var later := AfterAdd(world, cache, todo, e, n);
    var p := GapLeavesMissing(world, start, cache, todo, e);
    AddKeeps(world, start, cache, todo, e);
    MissingRaises(world, start, cache + {n}, later, p);
    FirstPick(world, cache + {n}, later, Entry(p, false, false), []);
    picks := [Entry(p, false, false)] + [];
  }

  /** The name is that of an ancestor of a module that is required first. */
  ghost predicate AboveRequired(world: World, start: set<Import>, p: Name) {
    exists n, k :: 0 < k < |n| && p == n[..k] && Proper(world, n) && RequiredFirst(world, start, n)
  }

  /** Required entries are imports, or ancestors of modules that are required first. */
  ghost predicate Accountable(world: World, start: set<Import>, cache: set<Name>, todo: multiset<Entry>) {
    && (forall f :: f in todo && !f.optional ==>
          AsksImport(world, start, cache, f) || AboveRequired(world, start, f.name))
    && (forall n, other :: n !in cache && ClosedBut(world, start, other, n) ==> cache <= other)
  }

  /** A required entry that adds a module shows that it is required first, or above such a one. */
  lemma {:induction false} AddedIsRequired(world: World, start: set<Import>, cache: set<Name>, todo: multiset<Entry>,
                                           e: Entry)
    requires e in todo && Progress(world, start, cache, todo) && Accountable(world, start, cache, todo)
    requires Judge(world, cache, e).Add? && !e.optional
    ensures var n := Judge(world, cache, e).name;
            RequiredFirst(world, start, n) || AboveRequired(world, start, n)
  {
    hide Judge, Locate, AsksImport, AboveRequired, ClosedBut, Progress;
    var n := Judge(world, cache, e).name;
    Located(world, cache, e);
    if AsksImport(world, start, cache, e) {
      forall other | ClosedBut(world, start, other, n)
        ensures Required(world, start, other, n)
      {
        ImportGrows(world, start, cache, other, e);
      }
    } else {
      assert !e.ambiguous by { OnWorklist(world, start, cache, todo, e); }
      AboveIsItself(world, start, e);
    }
  }

  lemma {:induction false} OnWorklist(world: World, start: set<Import>, cache: set<Name>, todo: multiset<Entry>,
                                      e: Entry)
    requires e in todo && Progress(world, start, cache, todo)
    ensures AsksImport(world, start, cache, e) || AsksAncestor(cache, e)
    ensures AsksAncestor(cache, e) ==> !e.ambiguous
  {
    assert Asks(world, start, cache, e);
  }

  lemma {:induction false} AboveIsItself(world: World, start: set<Import>, e: Entry)
    requires AboveRequired(world, start, e.name) && !e.ambiguous && Locate(world, e).Some?
    ensures Locate(world, e).value == e.name
  {
    hide RequiredFirst;
    var n, k :| 0 < k < |n| && e.name == n[..k] && Proper(world, n) && RequiredFirst(world, start, n);
    AncestorNotSix(world, n, k);
  }

  lemma {:induction false} AboveAgain(world: World, start: set<Import>, n: Name, k: nat)
    requires 0 < k < |n| && Proper(world, n)
    requires RequiredFirst(world, start, n) || AboveRequired(world, start, n)
    ensures AboveRequired(world, start, n[..k])
  {
    hide RequiredFirst, Proper;
    if !RequiredFirst(world, start, n) {
      var m, j :| 0 < j < |m| && n == m[..j] && Proper(world, m) && RequiredFirst(world, start, m);
      assert n[..k] == m[..k];
    }
  }

  lemma {:induction false} AddAccountable(world: World, start: set<Import>, cache: set<Name>, todo: multiset<Entry>,
                                          e: Entry)
    requires e in todo && Progress(world, start, cache, todo) && Accountable(world, start, cache, todo)
    requires Judge(world, cache, e).Add?
    ensures var n := Judge(world, cache, e).name;
            Accountable(world, start, cache + {n}, AfterAdd(world, cache, todo, e, n))
  {
    hide Judge, Locate, AsksImport, AsksAncestor, AboveRequired, Progress, RequiredFirst, Proper;
    var n := Judge(world, cache, e).name;
    Located(world, cache, e);
    LocatedIsProper(world, e);
    forall f | f in AfterAdd(world, cache, todo, e, n) && !f.optional
      ensures AsksImport(world, start, cache + {n}, f) || AboveRequired(world, start, f.name)
    {
      if f in todo {
        if AsksImport(world, start, cache, f) {
          ImportGrows(world, start, cache, cache + {n}, f);
        }
      } else if f in NewImports(world, n, cache) {
        NewImportAsked(world, start, cache, n, f);
      } else {
        var k :| 0 < k < |n| && f == Entry(n[..k], false, e.optional);
        AddedIsRequired(world, start, cache, todo, e);
        AboveAgain(world, start, n, k);
      }
    }
    forall m, other | m !in cache + {n} && ClosedBut(world, start, other, m)
      ensures cache + {n} <= other
    {
      assert Asks(world, start, cache, e) by { OnWorklist(world, start, cache, todo, e); }
      AsksGrows(world, start, cache, other, e);
    }
  }

  lemma {:induction false} NewImportAsked(world: World, start: set<Import>, cache: set<Name>, n: Name, f: Entry)
    requires f in NewImports(world, n, cache)
    ensures AsksImport(world, start, cache + {n}, f)
  {
    var i :| i in ImportsOf(world, n) && i.name !in cache && f == ImportEntry(i);
    assert n in cache + {n};
  }

  lemma {:induction false} SkipAccountable(world: World, start: set<Import>, cache: set<Name>, todo: multiset<Entry>,
                                           e: Entry)
    requires Accountable(world, start, cache, todo)
    ensures Accountable(world, start, cache, todo - multiset{e})
  {
    hide AsksImport, AboveRequired, ClosedBut;
  }

  lemma {:induction false} NothingRaised(world: World, start: set<Import>, cache: set<Name>, todo: multiset<Entry>,
                                         e: Entry, have: set<Name>)
    requires e in todo && Progress(world, start, cache, todo) && Accountable(world, start, cache, todo)
    requires Closed(world, start, have) && Faultless(world, start, have) && !Exposed(world, start)
    ensures !Judge(world, cache, e).Raise?
  {
    hide Judge, Locate, AsksImport, AsksAncestor, Progress, RequiredFirst, Proper, Closed, Faultless, ClosedBut;
    if Judge(world, cache, e).Raise? {
      OnlyMissingRaises(world, start, cache, todo, e, have);
      MissingExposes(world, start, e);
    }
  }

  lemma {:induction false} MissingExposes(world: World, start: set<Import>, e: Entry)
    requires AboveRequired(world, start, e.name)
    requires !e.ambiguous && !e.optional && e.name !in PRELOADED && Locate(world, e).None?
    ensures Exposed(world, start)
  {
    hide Locate, RequiredFirst, Proper;
    var n, k :| 0 < k < |n| && e.name == n[..k] && Proper(world, n) && RequiredFirst(world, start, n);
    assert e == Entry(n[..k], false, false);
    assert Gap(world, n);
  }

  lemma {:induction false} NoneFails(world: World, start: set<Import>, cache: set<Name>, todo: multiset<Entry>,
                                     picks: seq<Entry>, have: set<Name>)
    requires Progress(world, start, cache, todo) && Accountable(world, start, cache, todo)
    requires Closed(world, start, have) && Faultless(world, start, have) && !Exposed(world, start)
    ensures match Follow(world, cache, todo, picks) case Some(Failure(_)) => false case _ => true
    decreases |picks|
  {
    hide Progress, Accountable, Closed, Faultless, Exposed, Judge, AfterAdd;
    if picks != [] && picks[0] in todo {
      var e := picks[0];
      NothingRaised(world, start, cache, todo, e, have);
      match Judge(world, cache, e)
      case Skip =>
        SkipKeeps(world, start, cache, todo, e);
        SkipAccountable(world, start, cache, todo, e);
        NoneFails(world, start, cache, todo - multiset{e}, picks[1..], have);
      case Add(n) =>
        AddKeeps(world, start, cache, todo, e);
        AddAccountable(world, start, cache, todo, e);
        NoneFails(world, start, cache + {n}, AfterAdd(world, cache, todo, e, n), picks[1..], have);
    }
  }

  lemma {:induction false} StartAccountable(world: World, start: set<Import>)
    ensures Accountable(world, start, PRELOADED, FirstEntries(start))
  {
    hide AboveRequired;
  }

  lemma {:induction false} GapNotPreloaded(world: World, n: Name)
    requires Gap(world, n)
    ensures n !in PRELOADED
  {
    assert CORE[..1] == ["distronode"];
  }

  /** Some run comes to an end. */
  lemma {:induction false} EndFrom(world: World, start: set<Import>, cache: set<Name>, todo: multiset<Entry>)
    returns (picks: seq<Entry>)
    requires Progress(world, start, cache, todo) && cache <= Universe(world, start)
    ensures Follow(world, cache, todo, picks).Some?
    decreases |Universe(world, start) - cache|, |todo|
  {
    hide Progress, Judge, AfterAdd, Universe;
    if todo == multiset{} {
      return [];
    }
    var e :| e in todo;
    var later := [];
    match Judge(world, cache, e) {
      case Skip =>
        SkipKeeps(world, start, cache, todo, e);
        later := EndFrom(world, start, cache, todo - multiset{e});
      case Raise(_) =>
      case Add(n) =>
        AddKeeps(world, start, cache, todo, e);
        AddedInUniverse(world, start, cache, todo, e);
        Shrinks(Universe(world, start), cache, n);
        later := EndFrom(world, start, cache + {n}, AfterAdd(world, cache, todo, e, n));
    }
    FirstPick(world, cache, todo, e, later);
    picks := [e] + later;
  }

  /**
   Every order succeeds exactly when nothing is wrong with the smallest closed set, and no module
   with a gap is required by something that is collected whether or not that module is.
  */
  lemma {:induction false} EveryOrderSucceeds(world: World, start: set<Import>, have: set<Name>)
    requires LeastClosed(world, start, have)
    ensures (forall picks :: !Fails(world, start, picks)) <==> Faultless(world, start, have) && !Exposed(world, start)
  {
    hide LeastClosed, Closed, Faultless, RequiredFirst, Gap, Follow, Universe, Progress, AncestorsThere, Accountable;
    StartsWell(world, start);
    CoreInUniverse(world, start);
    if !Faultless(world, start, have) {
      var picks := EndFrom(world, start, PRELOADED, FirstEntries(start));
      EveryRun(world, start, picks);
      if Search(world, start, picks).value.Success? {
        OnlyOneLeast(world, start, have, Search(world, start, picks).value.value);
      }
      assert Fails(world, start, picks);
    } else if n :| Gap(world, n) && RequiredFirst(world, start, n) {
      GapNotPreloaded(world, n);
      var picks := FailFrom(world, start, PRELOADED, FirstEntries(start), n);
      assert Fails(world, start, picks);
    } else {
      assert Closed(world, start, have) by { LeastIsClosed(world, start, have); }
      StartAccountable(world, start);
      forall picks
        ensures !Fails(world, start, picks)
      {
        NoneFails(world, start, PRELOADED, FirstEntries(start), picks, have);
      }
    }
  }

  /** No two runs of the same script end differently. */
  ghost predicate OrderMakesNoDifference(world: World, start: set<Import>) {
    forall one, two :: !(Succeeds(world, start, one) && Fails(world, start, two))
  }

  /**
   The order makes no difference exactly when every order succeeds, or none: because of a fault,
   or because a required import of a module with a gap cannot be avoided.
  */
  lemma {:induction false} OrderMakesNoDifferenceExactly(world: World, start: set<Import>, have: set<Name>)
    requires LeastClosed(world, start, have)
    ensures OrderMakesNoDifference(world, start) <==>
            !Faultless(world, start, have) || !Exposed(world, start) || !SafelyReached(world, start, have)
  {
    hide LeastClosed, Faultless, Exposed, SafelyReached, Succeeds, Fails;
    SomeOrderSucceeds(world, start, have);
    EveryOrderSucceeds(world, start, have);
  }
}
