/**
 The list of versions of a collection, asked of a Galaxy server page by page, with and without
 the response cache.  The cache keeps the items of all pages in one entry, and is trusted only
 while the server reports the same modification date and the entry has not expired.
*/
module GalaxyCache {
  import opened Basics

  type CollectionName = string

  datatype Item = Item(version: string, href: string)

  /** What the server holds for one collection during a call. */
  datatype Server = Missing | Collection(modified: Option<string>, pages: seq<seq<Item>>)

  /** Servers of API v3 put the next link below `links`, servers of API v2 at the top. */
  datatype Style = V2 | V3

  datatype Response = Response(style: Style, results: seq<Item>, next: Option<nat>)

  datatype Url = FirstPage | LaterPage(index: nat)

  datatype Entry = Entry(expires: int, paginated: bool, results: seq<Item>)

  const ONE_DAY := 86400

  function Versions(items: seq<Item>): seq<string> {
    seq(|items|, i requires 0 <= i < |items| => items[i].version)
  }

  /** The answer of a client without cache: all pages of the collection, or nothing when it does not exist. */
  function Answer(server: Server): seq<string> {
    if server.Missing? then [] else Versions(Joined(server.pages))
  }

  /** The page `index` as the server sends it; a collection without pages sends one empty page. */
  function Page(style: Style, pages: seq<seq<Item>>, index: nat): Response {
    Response(style, if index < |pages| then pages[index] else [], if index + 1 < |pages| then Some(index + 1) else None)
  }

  function NextLink(style: Style, r: Response): Option<nat> {
    if r.style == style then r.next else None
  }

  lemma {:induction false} AnswerIs(server: Server)
    ensures server.Missing? ==> Answer(server) == []
    ensures server.Collection? ==>
              var all := Joined(server.pages);
              |Answer(server)| == |all| && forall i :: 0 <= i < |all| ==> Answer(server)[i] == all[i].version
  {
    hide Joined;
  }

  // ---------------------------------------------------------------- what a call does to the cache

  /** What the cache holds for one collection: the date it was filled for, and the entry. */
  datatype Slot = Slot(modified: Option<string>, entry: Option<Entry>)

  datatype Called = Called(slot: Slot, versions: seq<string>)

  predicate Hit(slot: Slot, modified: Option<string>, now: int) {
    slot.modified == modified && slot.entry.Some? && now < slot.entry.value.expires
  }

  /** One call with the cache at time `now`. */
  function Call(slot: Slot, server: Server, now: int): Called {
    if server.Missing? then Called(slot, [])
    else if Hit(slot, server.modified, now) then Called(slot, Versions(slot.entry.value.results))
    else
      var all := Joined(server.pages);
      Called(Slot(server.modified, Some(Entry(now + ONE_DAY, true, all))), Versions(all))
  }

  class GalaxyApi {
    const caching: bool
    const style: Style        // of the API versions the server offers
    const pathStyle: Style    // as read off the path under which responses are cached
    var modified: map<CollectionName, Option<string>>
    var entries: map<CollectionName, Entry>

    constructor (caching: bool, style: Style, pathStyle: Style)
      ensures this.caching == caching && this.style == style && this.pathStyle == pathStyle
      ensures forall c :: SlotOf(c) == Slot(None, None)
    {
      this.caching := caching;
      this.style := style;
      this.pathStyle := pathStyle;
      modified := map[];
      entries := map[];
    }

    function SlotOf(c: CollectionName): Slot
      reads this
    {
      Slot(if c in modified then modified[c] else None, if c in entries then Some(entries[c]) else None)
    }

    /** Entries are complete lists between calls. */
    predicate Valid()
      reads this
    {
      forall c :: c in entries ==> entries[c].paginated
    }

    /**
     One request.  The first page may be answered from the cache, with a response that has no
     next page; otherwise a fresh entry is started.  Later pages are always fetched and added.
    */
    method CallGalaxy(c: CollectionName, url: Url, pages: seq<seq<Item>>, now: int) returns (r: Response)
      requires caching && url.LaterPage? ==> c in entries
      requires caching && url.FirstPage? && c in entries ==> entries[c].paginated
      modifies `entries
      ensures var hit := caching && url.FirstPage? && c in old(entries) && now < old(entries)[c].expires;
              && (hit ==> entries == old(entries) && r == Response(pathStyle, old(entries)[c].results, None))
              && (!hit ==> r == Page(style, pages, if url.FirstPage? then 0 else url.index))
              && (!hit && caching ==>
                    var before := if url.FirstPage? then Entry(now + ONE_DAY, false, []) else old(entries)[c];
                    entries == old(entries)[c := before.(paginated := true, results := before.results + r.results)])
              && (!caching ==> entries == old(entries))
    {
      if caching {
        var valid := c in entries && now < entries[c].expires;
        if valid && url.FirstPage? {
          return Response(pathStyle, entries[c].results, None);
        } else if url.FirstPage? {
          entries := entries[c := Entry(now + ONE_DAY, false, [])];
        }
      }
      r := Page(style, pages, if url.FirstPage? then 0 else url.index);
      if caching {
        var entry := entries[c];
        entries := entries[c := entry.(paginated := true, results := entry.results + r.results)];
      }
    }

    /** Reads the first page and follows the links to the next one until there is none. */
    method ReadPages(c: CollectionName, pages: seq<seq<Item>>, now: int) returns (versions: seq<string>)
      requires Valid()
      modifies `entries
      ensures var hit := caching && c in old(entries) && now < old(entries)[c].expires;
              && (hit ==> entries == old(entries) && versions == Versions(old(entries)[c].results))
              && (!hit ==> versions == Versions(Joined(pages)))
              && (!hit && caching ==> entries == old(entries)[c := Entry(now + ONE_DAY, true, Joined(pages))])
              && (!caching ==> entries == old(entries))
    {
      hide Versions, Joined, Before;
      ghost var hit := caching && c in entries && now < entries[c].expires;
      var data := CallGalaxy(c, FirstPage, pages, now);
      versions := [];
      NoPageYet(pages, data.results);
      ghost var i := 0;
      while true
        invariant hit ==>
                    && entries == old(entries) && data == Response(pathStyle, old(entries)[c].results, None)
                    && versions == []
        invariant i == 0 || (!hit && i < |pages|)
        invariant !hit ==> data == Page(style, pages, i) && versions == Versions(Joined(Before(pages, i)))
        invariant !hit && caching ==>
                    entries == old(entries)[c := Entry(now + ONE_DAY, true, Joined(Before(pages, i)) + data.results)]
        invariant !caching ==> entries == old(entries)
        decreases |pages| - i
      {
        OneMorePage(pages, i);
        VersionsJoin(Joined(Before(pages, i)), data.results);
        NoPageYet(pages, data.results);
        versions := versions + Versions(data.results);
        var next := NextLink(style, data);
        if next.None? {
          break;
        }
        data := CallGalaxy(c, LaterPage(next.value), pages, now);
        i := next.value;
      }
    }

    /** The versions of a collection, with all its pages; a new date throws the entry of the old one away. */
    method GetCollectionVersions(c: CollectionName, server: Server, now: int) returns (versions: seq<string>)
      requires Valid()
      modifies `modified, `entries
      ensures Valid()
      ensures caching ==> Called(SlotOf(c), versions) == Call(old(SlotOf(c)), server, now)
      ensures !caching ==> versions == Answer(server)
      ensures !caching && server.Missing? ==> versions == []
      ensures !caching && server.Collection? ==>
                var all := Joined(server.pages);
                |versions| == |all| && forall i :: 0 <= i < |all| ==> versions[i] == all[i].version
      ensures forall other :: other != c || !caching ==> SlotOf(other) == old(SlotOf(other))
    {
      AnswerIs(server);
      hide Versions, Joined;
      if server.Missing? {
        return [];
      }
      if caching {
        var cachedDate := if c in modified then modified[c] else None;
        if cachedDate != server.modified {
          modified := modified[c := server.modified];
          entries := entries - {c};
        }
      }
      versions := ReadPages(c, server.pages, now);
    }
  }

  function Before<T>(pages: seq<T>, n: nat): seq<T> {
    if n <= |pages| then pages[..n] else pages
  }

  lemma {:induction false} OneMorePage(pages: seq<seq<Item>>, i: nat)
    requires i == 0 || i < |pages|
    ensures Joined(Before(pages, i + 1)) == Joined(Before(pages, i)) + (if i < |pages| then pages[i] else [])
    ensures i + 1 >= |pages| ==> Before(pages, i + 1) == pages
  {
    if i < |pages| {
      assert pages[..i + 1][..i] == pages[..i];
    }
  }

  lemma {:induction false} NoPageYet(pages: seq<seq<Item>>, first: seq<Item>)
    ensures Joined(Before(pages, 0)) == [] && Versions([]) == [] && [] + Versions(first) == Versions(first)
            && [] + first == first
  {
  }

  lemma {:induction false} VersionsJoin(a: seq<Item>, b: seq<Item>)
    ensures Versions(a + b) == Versions(a) + Versions(b)
  {
  }

  /**
   An entry lives for a day.  Until then a call that finds the same date gives the list of the call
   that filled the entry; from then on every call gives the list of the server.
  */
  lemma {:induction false} LivesForADay(slot: Slot, first: Server, filled: int, second: Server, now: int)
    requires first.Collection? && second.Collection? && !Hit(slot, first.modified, filled)
    ensures var after := Call(slot, first, filled).slot;
            && (now >= filled + 86400 ==> Call(after, second, now).versions == Answer(second))
            && (now < filled + 86400 && second.modified == first.modified ==>
                  Call(after, second, now).versions == Answer(first))
  {
  }

  // ---------------------------------------------------------------- histories of calls

  /** A call: what the server holds for the collection then, and the time. */
  datatype Moment = Moment(server: Server, now: int)

  /** The cache after a history of calls that started with an empty one. */
  function SlotAfter(h: seq<Moment>): Slot {
    if h == [] then Slot(None, None)
    else Call(SlotAfter(h[..|h| - 1]), h[|h| - 1].server, h[|h| - 1].now).slot
  }

  predicate AgreesAt(h: seq<Moment>, k: nat)
    requires k < |h|
  {
    Call(SlotAfter(h[..k]), h[k].server, h[k].now).versions == Answer(h[k].server)
  }

  /** Every call of the history gives what it would give without cache. */
  predicate Agrees(h: seq<Moment>) {
    forall k :: 0 <= k < |h| ==> AgreesAt(h, k)
  }

  /** The last call before `k` for which the collection existed. */
  function LastPresent(servers: seq<Server>, k: nat): Option<nat>
    requires k <= |servers|
    ensures LastPresent(servers, k).Some? ==> LastPresent(servers, k).value < k
    ensures LastPresent(servers, k).Some? ==> servers[LastPresent(servers, k).value].Collection?
  {
    if k == 0 then None
    else if servers[k - 1].Collection? then Some(k - 1)
    else LastPresent(servers, k - 1)
  }

  predicate SteadyAt(servers: seq<Server>, k: nat)
    requires k < |servers|
  {
    var last := LastPresent(servers, k);
    (servers[k].Collection? && last.Some? && servers[last.value].modified == servers[k].modified)
    ==> Answer(servers[last.value]) == Answer(servers[k])
  }

  /** From one call to the next the list of versions changes only together with the date. */
  predicate Steady(servers: seq<Server>) {
    forall k :: 0 <= k < |servers| ==> SteadyAt(servers, k)
  }

  function ServersOf(h: seq<Moment>): seq<Server> {
    seq(|h|, k requires 0 <= k < |h| => h[k].server)
  }

  /** As long as the calls agreed, the cache holds the date and the list of the last call that found the collection. */
  lemma {:induction false} SlotHolds(h: seq<Moment>, k: nat)
    requires k <= |h| && forall j :: 0 <= j < k ==> AgreesAt(h, j)
    ensures var slot, last := SlotAfter(h[..k]), LastPresent(ServersOf(h), k);
            && (last.None? ==> slot == Slot(None, None))
            && (last.Some? ==> slot.entry.Some? && slot.modified == h[last.value].server.modified
                               && Versions(slot.entry.value.results) == Answer(h[last.value].server)
                               && exists j :: 0 <= j < k && slot.entry.value.expires == h[j].now + ONE_DAY)
  {
    hide Versions, Joined;
    if k > 0 {
      SlotHolds(h, k - 1);
      assert AgreesAt(h, k - 1);
      assert h[..k][..k - 1] == h[..k - 1] && h[..k][k - 1] == h[k - 1];
      var before := SlotAfter(h[..k - 1]);
      if h[k - 1].server.Collection? {
        if Hit(before, h[k - 1].server.modified, h[k - 1].now) {
          var j :| 0 <= j < k - 1 && before.entry.value.expires == h[j].now + ONE_DAY;
        }
      }
    }
  }

  lemma {:induction false} SteadyAgrees(h: seq<Moment>, k: nat)
    requires k <= |h| && Steady(ServersOf(h))
    ensures forall j :: 0 <= j < k ==> AgreesAt(h, j)
    decreases k
  {
    hide Versions, Joined;
    if k > 0 {
      SteadyAgrees(h, k - 1);
      SlotHolds(h, k - 1);
      assert SteadyAt(ServersOf(h), k - 1);
    }
  }

  lemma {:induction false} UnsteadyDisagrees(h: seq<Moment>)
    requires !Steady(ServersOf(h)) && forall k :: 0 <= k < |h| ==> h[k].now == 0
    ensures !Agrees(h)
  {
    hide Versions, Joined;
    var k :| 0 <= k < |h| && !SteadyAt(ServersOf(h), k);
    if Agrees(h) {
      assert AgreesAt(h, k);
      SlotHolds(h, k);
    }
  }

  function AtTimes(servers: seq<Server>, times: seq<int>): seq<Moment>
    requires |times| == |servers|
  {
    seq(|servers|, k requires 0 <= k < |servers| => Moment(servers[k], times[k]))
  }

  /**
   Whatever the clock shows and however long entries live, the cache gives what the server
   gives exactly when, between successive calls, the list of versions never changes under the
   same date.
  */
  lemma {:induction false} AgreesExactly(servers: seq<Server>)
    ensures Steady(servers) <==> forall times: seq<int> :: |times| == |servers| ==> Agrees(AtTimes(servers, times))
  {
    forall times: seq<int> | |times| == |servers|
      ensures Steady(servers) ==> Agrees(AtTimes(servers, times))
    {
      var h := AtTimes(servers, times);
      assert ServersOf(h) == servers;
      if Steady(servers) {
        SteadyAgrees(h, |h|);
      }
    }
    if !Steady(servers) {
      var times := seq(|servers|, _ => 0);
      var h := AtTimes(servers, times);
      assert ServersOf(h) == servers;
      UnsteadyDisagrees(h);
      assert |times| == |servers| && !Agrees(AtTimes(servers, times));
    }
  }

  predicate SameDateSameList(a: Server, b: Server) {
    a.Collection? && b.Collection? && a.modified == b.modified ==> Answer(a) == Answer(b)
  }

  /** Dates that determine the list make every history steady. */
  lemma {:induction false} DatesDetermineList(servers: seq<Server>)
    requires forall i, j :: 0 <= i < |servers| && 0 <= j < |servers| ==> SameDateSameList(servers[i], servers[j])
    ensures forall times: seq<int> :: |times| == |servers| ==> Agrees(AtTimes(servers, times))
  {
    hide Answer;
    AgreesExactly(servers);
    assert Steady(servers);
  }

  /** A collection that always has one version more, with a date for each list that comes back in the end. */
  const FIRST := Collection(Some("monday"), [[Item("1.0.0", "")]])
  const SECOND := Collection(Some("tuesday"), [[Item("1.0.0", ""), Item("1.1.0", "")]])
  const THIRD := Collection(Some("monday"), [[Item("1.0.0", ""), Item("1.1.0", "")], [Item("1.2.0", "")]])

  ghost predicate AlwaysAgrees(servers: seq<Server>) {
    forall times: seq<int> :: |times| == |servers| ==> Agrees(AtTimes(servers, times))
  }

  /**
   A date that comes back with another list does no harm when a call sees the date between, since
   that call replaces the entry.  It does when no call is made meanwhile, or when the calls made
   meanwhile do not find the collection: they leave the entry as it is.
  */
  lemma {:induction false} ReturningDate()
    ensures AlwaysAgrees([FIRST, SECOND, THIRD])
    ensures !AlwaysAgrees([FIRST, THIRD]) && !AlwaysAgrees([FIRST, Missing, THIRD])
  {
    hide Answer;
    AnswersDiffer();
    AgreesExactly([FIRST, SECOND, THIRD]);
    AgreesExactly([FIRST, THIRD]);
    AgreesExactly([FIRST, Missing, THIRD]);
    assert "monday" != "tuesday" by { assert "monday"[0] == 'm'; }
    assert LastPresent([FIRST, SECOND, THIRD], 1) == Some(0) && LastPresent([FIRST, SECOND, THIRD], 2) == Some(1);
    assert Steady([FIRST, SECOND, THIRD]);
    assert LastPresent([FIRST, THIRD], 1) == Some(0);
    assert !SteadyAt([FIRST, THIRD], 1);
    assert LastPresent([FIRST, Missing, THIRD], 1) == Some(0) == LastPresent([FIRST, Missing, THIRD], 2);
    assert !SteadyAt([FIRST, Missing, THIRD], 2);
  }

  lemma {:induction false} AnswersDiffer()
    ensures Answer(FIRST) != Answer(THIRD)
  {
    assert Joined(FIRST.pages[..0]) == [];
    assert |Joined(FIRST.pages)| == 1;
    assert Joined(THIRD.pages[..1][..0]) == [];
    assert |Joined(THIRD.pages[..1])| == 2;
    assert |Joined(THIRD.pages)| == 3;
    assert |Answer(FIRST)| == 1 && |Answer(THIRD)| == 3;
  }
}
