/**
 Exporting an inventory as a tree of groups.  A group may have several parents and a host may
 be in several groups: sets of seen groups and hosts, shared by the whole traversal, see to it
 that each is written out once and only named elsewhere.
*/
module InventoryExport {
  import opened Basics

  type GroupName = string
  type HostName = string

  /** `hasVars`: the group has variables of its own to export. */
  datatype Group = Group(children: seq<GroupName>, hosts: seq<HostName>, hasVars: bool)

  /** A host of a written group, with its variables or with an empty map. */
  datatype HostEntry = HostEntry(host: HostName, attached: bool)

  datatype Shown = Shown(name: GroupName, children: seq<Shown>, hosts: seq<HostEntry>, hasVars: bool)

  const ALL: GroupName := "all"

  type Graph = map<GroupName, Group>

  /** Children are groups of the graph with a lower rank, so there are no cycles. */
  predicate Acyclic(graph: Graph, rank: map<GroupName, nat>) {
    && graph.Keys == rank.Keys
    && forall g, i :: g in graph && 0 <= i < |graph[g].children| ==>
         graph[g].children[i] in graph && rank[graph[g].children[i]] < rank[g]
  }

  /** A group lists no host and no child twice. */
  predicate Listed(graph: Graph) {
    forall g :: g in graph ==> Distinct(graph[g].children) && Distinct(graph[g].hosts)
  }

  /** The groups below the first `n` children of `g`, with those children; `all` is never followed. */
  ghost function BelowFirst(graph: Graph, rank: map<GroupName, nat>, g: GroupName, n: nat): set<GroupName>
    requires Acyclic(graph, rank) && g in graph && n <= |graph[g].children|
    decreases rank[g], n
  {
    if n == 0 then {}
    else
      var c := graph[g].children[n - 1];
      BelowFirst(graph, rank, g, n - 1) + if c == ALL then {} else {c} + Below(graph, rank, c)
  }

  /** All groups below `g`. */
  ghost function Below(graph: Graph, rank: map<GroupName, nat>, g: GroupName): set<GroupName>
    requires Acyclic(graph, rank) && g in graph
    decreases rank[g], |graph[g].children| + 1
  {
    BelowFirst(graph, rank, g, |graph[g].children|)
  }

  function AvailableHosts(hosts: seq<HostName>, available: set<HostName>): seq<HostName> {
    if hosts == [] then []
    else
      var last := hosts[|hosts| - 1];
      AvailableHosts(hosts[..|hosts| - 1], available) + if last in available then [last] else []
  }

  /** The hosts that a written group lists. */
  function HostsOf(graph: Graph, available: set<HostName>, g: GroupName): seq<HostName>
    requires g in graph
  {
    if g == ALL then [] else AvailableHosts(graph[g].hosts, available)
  }

  /** The hosts whose variables are attached in a written tree, one element for each place. */
  function Attached(t: Shown): seq<HostName>
    decreases t, 1
  {
    AttachedIn(t.children) + OwnAttached(t.hosts)
  }

  function AttachedIn(ts: seq<Shown>): seq<HostName>
    decreases ts, 0
  {
    if ts == [] then [] else AttachedIn(ts[..|ts| - 1]) + Attached(ts[|ts| - 1])
  }

  function OwnAttached(hosts: seq<HostEntry>): seq<HostName> {
    if hosts == [] then []
    else
      var last := hosts[|hosts| - 1];
      OwnAttached(hosts[..|hosts| - 1]) + if last.attached then [last.host] else []
  }

  /** Only the name of a group that is written elsewhere. */
  predicate IsStub(t: Shown) {
    t.children == [] && t.hosts == [] && !t.hasVars
  }

  /** A group without available hosts and without variables of its own. */
  predicate Blank(graph: Graph, available: set<HostName>, exported: bool, g: GroupName)
    requires g in graph
  {
    HostsOf(graph, available, g) == [] && !(exported && graph[g].hasVars)
  }

  function KidNames(kids: seq<Shown>): seq<GroupName> {
    seq(|kids|, i requires 0 <= i < |kids| => kids[i].name)
  }

  /** `a` is `b` with some elements left out. */
  predicate InOrder<T(==)>(a: seq<T>, b: seq<T>) {
    || a == []
    || (b != [] && ((a[|a| - 1] == b[|b| - 1] && InOrder(a[..|a| - 1], b[..|b| - 1])) || InOrder(a, b[..|b| - 1])))
  }

  /** `kids` are for the first `n` children of `g`, in order: each of them but `all` has a place unless it is blank. */
  predicate KidsFor(graph: Graph, available: set<HostName>, exported: bool, g: GroupName, n: nat, kids: seq<Shown>)
    requires g in graph && n <= |graph[g].children|
  {
    && InOrder(KidNames(kids), graph[g].children[..n])
    && (forall t :: t in kids ==> t.name != ALL && t.name in graph[g].children[..n])
    && forall c :: c in graph[g].children[..n] && c != ALL ==>
         (exists t :: t in kids && t.name == c) || (c in graph && Blank(graph, available, exported, c))
  }

  /** Every group that is written out has its available hosts in order, its variables if asked for, and its children. */
  predicate Written(graph: Graph, available: set<HostName>, exported: bool, t: Shown)
    decreases t, 1
  {
    || IsStub(t)
    || (&& t.name in graph
        && HostNames(t.hosts) == HostsOf(graph, available, t.name)
        && t.hasVars == (exported && graph[t.name].hasVars)
        && KidsFor(graph, available, exported, t.name, |graph[t.name].children|, t.children)
        && AllWritten(graph, available, exported, t.children))
  }

  predicate AllWritten(graph: Graph, available: set<HostName>, exported: bool, ts: seq<Shown>)
    decreases ts, 0
  {
    forall i :: 0 <= i < |ts| ==> Written(graph, available, exported, ts[i])
  }

  function HostNames(hosts: seq<HostEntry>): seq<HostName> {
    seq(|hosts|, i requires 0 <= i < |hosts| => hosts[i].host)
  }

  /** The groups that are written out, one element for each place; elsewhere there are only their names. */
  function FullNames(t: Shown): seq<GroupName>
    decreases t, 1
  {
    if IsStub(t) then [] else FullIn(t.children) + [t.name]
  }

  function FullIn(ts: seq<Shown>): seq<GroupName>
    decreases ts, 0
  {
    if ts == [] then [] else FullIn(ts[..|ts| - 1]) + FullNames(ts[|ts| - 1])
  }

  /** Of `groups`, every one that is not blank is written out, and none more than once; no other group is. */
  ghost predicate WrittenOnce(graph: Graph, available: set<HostName>, exported: bool, ts: seq<Shown>,
                              groups: set<GroupName>) {
    && Distinct(FullIn(ts)) && Elements(FullIn(ts)) <= groups
    && forall g :: g in groups && g in graph && !Blank(graph, available, exported, g) ==> g in Elements(FullIn(ts))
  }

  /** The available hosts of `groups`. */
  ghost function HostsIn(graph: Graph, available: set<HostName>, groups: set<GroupName>): set<HostName> {
    set g, h | g in groups && g in graph && h in HostsOf(graph, available, g) :: h
  }

  /** What was seen is closed: everything below a seen group was seen. */
  ghost predicate SeenBelow(graph: Graph, rank: map<GroupName, nat>, seen: set<GroupName>)
    requires Acyclic(graph, rank)
  {
    forall g :: g in seen ==> g in graph && Below(graph, rank, g) <= seen
  }

  class YamlInventory {
    const graph: Graph
    const available: set<HostName>
    const exported: bool
    ghost const rank: map<GroupName, nat>
    var seenGroups: set<GroupName>
    var seenHosts: set<HostName>
    ghost var formatted: seq<GroupName>   // the groups in the order in which they were formatted

    constructor (graph: Graph, available: set<HostName>, exported: bool, ghost rank: map<GroupName, nat>)
      ensures this.graph == graph && this.available == available && this.exported == exported && this.rank == rank
      ensures seenGroups == {} && seenHosts == {} && formatted == []
    {
      this.graph, this.available, this.exported, this.rank := graph, available, exported, rank;
      seenGroups, seenHosts, formatted := {}, {}, [];
    }

    ghost predicate Valid()
      reads this
    {
      Acyclic(graph, rank) && Listed(graph) && Distinct(formatted) && SeenBelow(graph, rank, seenGroups)
    }

    /** The hosts of one group; variables go with the first time a host is met. */
    method ListHosts(g: GroupName) returns (hosts: seq<HostEntry>)
      requires g in graph
      modifies `seenHosts
      ensures HostNames(hosts) == HostsOf(graph, available, g)
      ensures seenHosts == old(seenHosts) + Elements(HostsOf(graph, available, g))
      ensures Distinct(OwnAttached(hosts)) && Elements(OwnAttached(hosts)) == seenHosts - old(seenHosts)
    {
      hide HostNames, OwnAttached, AvailableHosts, Distinct, Elements;
      NothingYet();
      hosts := [];
      if g == ALL {
        return;
      }
      var all := graph[g].hosts;
      assert all[..0] == [];
      for i := 0 to |all|
        invariant HostNames(hosts) == AvailableHosts(all[..i], available)
        invariant seenHosts == old(seenHosts) + Elements(AvailableHosts(all[..i], available))
        invariant Distinct(OwnAttached(hosts)) && Elements(OwnAttached(hosts)) == seenHosts - old(seenHosts)
      {
        var h := all[i];
        OneMoreAvailable(all, i, available);
        if h in available {
          var attached := h !in seenHosts;
          One(h);
          OneMoreEntry(hosts, HostEntry(h, attached));
          JoinElements(AvailableHosts(all[..i], available), [h]);
          if attached {
            JoinDistinct(OwnAttached(hosts), [h]);
          }
          seenHosts := seenHosts + {h};
          hosts := hosts + [HostEntry(h, attached)];
        }
      }
      assert all[..|all|] == all;
    }

    /** Writes out a group and what is below it and was not seen before; an empty group gives nothing. */
    method FormatGroup(g: GroupName) returns (results: seq<Shown>)
      requires Valid() && g in graph && g !in seenGroups && Above(rank, formatted, seenGroups, g)
      modifies `seenGroups, `seenHosts, `formatted
      ensures Valid()
      ensures seenGroups == old(seenGroups) + Below(graph, rank, g)
      ensures Elements(formatted) == Elements(old(formatted)) + {g} + (Below(graph, rank, g) - old(seenGroups))
      ensures seenHosts == old(seenHosts) + HostsIn(graph, available, {g} + (Below(graph, rank, g) - old(seenGroups)))
      ensures |results| <= 1 && AllWritten(graph, available, exported, results)
      ensures if results == [] then Blank(graph, available, exported, g) else results[0].name == g
      ensures WrittenOnce(graph, available, exported, results, {g} + (Below(graph, rank, g) - old(seenGroups)))
      ensures Distinct(AttachedIn(results)) && Elements(AttachedIn(results)) == seenHosts - old(seenHosts)
      decreases rank[g]
    {
      hide HostNames, AttachedIn, OwnAttached, Distinct, Elements, HostsIn, Below, BelowFirst, Listed, HostsOf, Above,
           AllWritten, KidsFor, Blank, SeenBelow, WrittenOnce;
      AddFormatted(rank, formatted, seenGroups, g);
      formatted := formatted + [g];
      var kids: seq<Shown> := [];
      var children := graph[g].children;
      NoChildYet(graph, rank, available, exported, g);
      ghost var before := seenGroups;
      assert BelowFirst(graph, rank, g, 0) - before == {};
      for i := 0 to |children|
        invariant Valid()
        invariant seenGroups == before + BelowFirst(graph, rank, g, i)
        invariant Elements(formatted) == Elements(old(formatted)) + {g} + (BelowFirst(graph, rank, g, i) - before)
        invariant seenHosts == old(seenHosts) + HostsIn(graph, available, BelowFirst(graph, rank, g, i) - before)
        invariant AllWritten(graph, available, exported, kids) && KidsFor(graph, available, exported, g, i, kids)
        invariant WrittenOnce(graph, available, exported, kids, BelowFirst(graph, rank, g, i) - before)
        invariant Distinct(AttachedIn(kids)) && Elements(AttachedIn(kids)) == seenHosts - old(seenHosts)
      {
        var c := children[i];
        ghost var below := BelowFirst(graph, rank, g, i);
        OneMoreChild(graph, rank, g, i);
        if c == ALL {
          assert BelowFirst(graph, rank, g, i + 1) == below;
          KidsGrow(graph, available, exported, g, i, kids, []);
          assert kids + [] == kids;
        } else {
          if c in seenGroups {
            SeenHasBelow(graph, rank, seenGroups, c);
            AddStub(graph, available, exported, c, kids);
            KidsGrow(graph, available, exported, g, i, kids, [Shown(c, [], [], false)]);
            kids := kids + [Shown(c, [], [], false)];
            assert BelowFirst(graph, rank, g, i + 1) - before == below - before;
          } else {
            ChildAbove(graph, rank, old(formatted), before, formatted, seenGroups, g, i);
            ghost var hostsSeen := seenHosts;
            var sub := FormatGroup(c);
            AddSeen(graph, rank, seenGroups, c);
            seenGroups := seenGroups + {c};
            ChildDone(graph, rank, available, exported, g, i, before, old(seenHosts), hostsSeen, seenHosts, kids, sub);
            KidsGrow(graph, available, exported, g, i, kids, sub);
            kids := kids + sub;
          }
        }
      }
      AllChildren(graph, rank, g);
      HostsJoin(graph, available, {g}, Below(graph, rank, g) - before);
      OwnHosts(graph, available, g);
      var hosts := ListHosts(g);
      var group := Shown(g, kids, hosts, exported && graph[g].hasVars);
      WholeGroup(graph, available, exported, group);
      JoinDistinct(AttachedIn(kids), OwnAttached(hosts));
      BelowIsLower(graph, rank, g, |children|);
      WriteGroup(graph, available, exported, group, Below(graph, rank, g) - before);
      results := if IsStub(group) then [] else [group];
    }
  }

  /** What holds after a child was formatted, from what held before it and what it added. */
  lemma {:induction false} ChildDone(graph: Graph, rank: map<GroupName, nat>, available: set<HostName>, exported: bool,
                                     g: GroupName, i: nat, before: set<GroupName>, hosts0: set<HostName>,
                                     hosts1: set<HostName>, hosts2: set<HostName>, kids: seq<Shown>, sub: seq<Shown>)
    requires Acyclic(graph, rank) && g in graph && i < |graph[g].children| && graph[g].children[i] in graph
    requires graph[g].children[i] != ALL && graph[g].children[i] !in before
    requires var c, below := graph[g].children[i], BelowFirst(graph, rank, g, i);
             && hosts1 == hosts0 + HostsIn(graph, available, below - before)
             && hosts2 == hosts1 + HostsIn(graph, available, {c} + (Below(graph, rank, c) - (before + below)))
    requires |sub| <= 1 && AllWritten(graph, available, exported, kids) && AllWritten(graph, available, exported, sub)
    requires Distinct(AttachedIn(kids)) && Elements(AttachedIn(kids)) == hosts1 - hosts0
    requires Distinct(AttachedIn(sub)) && Elements(AttachedIn(sub)) == hosts2 - hosts1
    requires var c, below := graph[g].children[i], BelowFirst(graph, rank, g, i);
             && WrittenOnce(graph, available, exported, kids, below - before)
             && WrittenOnce(graph, available, exported, sub, {c} + (Below(graph, rank, c) - (before + below)))
             && c !in below
    ensures WrittenOnce(graph, available, exported, kids + sub, BelowFirst(graph, rank, g, i + 1) - before)
    ensures hosts2 == hosts0 + HostsIn(graph, available, BelowFirst(graph, rank, g, i + 1) - before)
    ensures AllWritten(graph, available, exported, kids + sub)
    ensures Distinct(AttachedIn(kids + sub)) && Elements(AttachedIn(kids + sub)) == hosts2 - hosts0
  {
    hide AttachedIn, Distinct, Elements, HostsIn, Below, BelowFirst, AllWritten, WrittenOnce;
    var c, below := graph[g].children[i], BelowFirst(graph, rank, g, i);
    OneMoreChild(graph, rank, g, i);
    HostsJoin(graph, available, below - before, {c} + (Below(graph, rank, c) - (before + below)));
    NewBelow(before, below, c, Below(graph, rank, c));
    AddKids(graph, available, exported, kids, sub);
    JoinDistinct(AttachedIn(kids), AttachedIn(sub));
    JoinWritten(graph, available, exported, kids, sub, below - before,
                {c} + (Below(graph, rank, c) - (before + below)));
  }

  lemma {:induction false} JoinWritten(graph: Graph, available: set<HostName>, exported: bool, kids: seq<Shown>,
                                       sub: seq<Shown>, a: set<GroupName>, b: set<GroupName>)
    requires WrittenOnce(graph, available, exported, kids, a) && WrittenOnce(graph, available, exported, sub, b)
    requires a !! b && |sub| <= 1
    ensures WrittenOnce(graph, available, exported, kids + sub, a + b)
  {
    hide Blank, FullNames, FullIn, Distinct;
    JoinFull(kids, sub);
    JoinDistinct(FullIn(kids), FullIn(sub));
  }

  lemma {:induction false} JoinFull(kids: seq<Shown>, sub: seq<Shown>)
    requires |sub| <= 1
    ensures FullIn(kids + sub) == FullIn(kids) + FullIn(sub)
  {
    hide FullIn;
    FullNone();
    if sub == [] {
      assert kids + sub == kids;
    } else {
      var t := sub[0];
      assert sub == [t] && [] + [t] == [t];
      FullMore(kids, t);
      FullMore([], t);
    }
  }

  lemma {:induction false} FullNone()
    ensures FullIn([]) == []
  {
  }

  lemma {:induction false} FullMore(kids: seq<Shown>, t: Shown)
    ensures FullIn(kids + [t]) == FullIn(kids) + FullNames(t)
  {
    hide FullNames;
    assert (kids + [t])[..|kids|] == kids;
  }

  /** A group is not below itself. */
  lemma {:induction false} BelowIsLower(graph: Graph, rank: map<GroupName, nat>, g: GroupName, n: nat)
    requires Acyclic(graph, rank) && g in graph && n <= |graph[g].children|
    ensures forall x :: x in BelowFirst(graph, rank, g, n) ==> x in graph && rank[x] < rank[g]
    decreases rank[g], n
  {
    if n > 0 {
      BelowIsLower(graph, rank, g, n - 1);
      var c := graph[g].children[n - 1];
      BelowIsLower(graph, rank, c, |graph[c].children|);
    }
  }

  /** The group itself is written after what is below it, unless it is left out because it is empty. */
  lemma {:induction false} WriteGroup(graph: Graph, available: set<HostName>, exported: bool, group: Shown,
                                      below: set<GroupName>)
    requires WrittenOnce(graph, available, exported, group.children, below) && group.name !in below
             && group.name in graph
    requires IsStub(group) ==> Blank(graph, available, exported, group.name)
    ensures WrittenOnce(graph, available, exported, if IsStub(group) then [] else [group], {group.name} + below)
  {
    hide Blank, Distinct, FullIn, Elements;
    FullOne(group);
    if !IsStub(group) {
      One(group.name);
      assert group.name !in Elements(FullIn(group.children));
      JoinDistinct(FullIn(group.children), [group.name]);
    } else {
      NothingYet();
    }
  }

  lemma {:induction false} FullOne(group: Shown)
    ensures FullIn([]) == []
    ensures !IsStub(group) ==> FullIn([group]) == FullIn(group.children) + [group.name]
    ensures IsStub(group) ==> FullIn(group.children) == []
  {
    assert [group][..0] == [];
    assert FullIn([group]) == FullIn([]) + FullNames(group);
  }

  lemma {:induction false} NewBelow(before: set<GroupName>, below: set<GroupName>, c: GroupName,
                                    further: set<GroupName>)
    requires c !in before
    ensures (below + ({c} + further)) - before == (below - before) + ({c} + (further - (before + below)))
  {
  }

  /** Groups that are being formatted lie above `g`; all others that were formatted are seen. */
  ghost predicate Above(rank: map<GroupName, nat>, formatted: seq<GroupName>, seen: set<GroupName>, g: GroupName)
    requires g in rank
  {
    forall x :: x in Elements(formatted) ==> x in seen || (x in rank && rank[x] > rank[g])
  }

  lemma {:induction false} SeenHasBelow(graph: Graph, rank: map<GroupName, nat>, seen: set<GroupName>, c: GroupName)
    requires Acyclic(graph, rank) && SeenBelow(graph, rank, seen) && c in seen
    ensures c in graph && Below(graph, rank, c) <= seen
  {
  }

  lemma {:induction false} AddSeen(graph: Graph, rank: map<GroupName, nat>, seen: set<GroupName>, c: GroupName)
    requires Acyclic(graph, rank) && SeenBelow(graph, rank, seen) && c in graph && Below(graph, rank, c) <= seen
    ensures SeenBelow(graph, rank, seen + {c})
  {
    hide Below;
  }

  lemma {:induction false} AddFormatted(rank: map<GroupName, nat>, formatted: seq<GroupName>, seen: set<GroupName>,
                                        g: GroupName)
    requires g in rank && g !in seen && Above(rank, formatted, seen, g) && Distinct(formatted)
    ensures Distinct(formatted + [g]) && Elements(formatted + [g]) == Elements(formatted) + {g}
  {
    assert Distinct([g]) && Elements([g]) == {g};
    JoinDistinct(formatted, [g]);
  }

  lemma {:induction false} OneMoreChild(graph: Graph, rank: map<GroupName, nat>, g: GroupName, i: nat)
    requires Acyclic(graph, rank) && g in graph && i < |graph[g].children|
    ensures var c := graph[g].children[i];
            && c in graph && rank[c] < rank[g]
            && BelowFirst(graph, rank, g, i + 1)
               == BelowFirst(graph, rank, g, i) + (if c == ALL then {} else {c} + Below(graph, rank, c))
  {
  }

  lemma {:induction false} AllChildren(graph: Graph, rank: map<GroupName, nat>, g: GroupName)
    requires Acyclic(graph, rank) && g in graph
    ensures Below(graph, rank, g) == BelowFirst(graph, rank, g, |graph[g].children|)
  {
  }

  lemma {:induction false} ChildAbove(graph: Graph, rank: map<GroupName, nat>, formatted: seq<GroupName>,
                                      seen: set<GroupName>,
                                      formattedNow: seq<GroupName>, seenNow: set<GroupName>, g: GroupName, i: nat)
    requires Acyclic(graph, rank) && g in graph && i < |graph[g].children| && Above(rank, formatted, seen, g)
    requires seenNow == seen + BelowFirst(graph, rank, g, i)
    requires Elements(formattedNow) == Elements(formatted) + {g} + (BelowFirst(graph, rank, g, i) - seen)
    ensures graph[g].children[i] in rank && Above(rank, formattedNow, seenNow, graph[g].children[i])
  {
    hide BelowFirst, Elements;
  }

  lemma {:induction false} HostsJoin(graph: Graph, available: set<HostName>, a: set<GroupName>, b: set<GroupName>)
    ensures HostsIn(graph, available, a + b) == HostsIn(graph, available, a) + HostsIn(graph, available, b)
  {
    hide HostsOf;
  }

  lemma {:induction false} OwnHosts(graph: Graph, available: set<HostName>, g: GroupName)
    requires g in graph
    ensures HostsIn(graph, available, {g}) == Elements(HostsOf(graph, available, g))
  {
    hide HostsOf;
  }

  lemma {:induction false} AddKids(graph: Graph, available: set<HostName>, exported: bool, kids: seq<Shown>,
                                   sub: seq<Shown>)
    requires |sub| <= 1 && AllWritten(graph, available, exported, kids) && AllWritten(graph, available, exported, sub)
    ensures AllWritten(graph, available, exported, kids + sub)
    ensures AttachedIn(kids + sub) == AttachedIn(kids) + AttachedIn(sub)
  {
    hide Written, AttachedIn;
    AttachedNone();
    if sub == [] {
      assert kids + sub == kids;
    } else {
      var t := sub[0];
      assert sub == [t] && [] + [t] == [t];
      AttachedMore(kids, t);
      AttachedMore([], t);
    }
  }

  lemma {:induction false} AttachedNone()
    ensures AttachedIn([]) == []
  {
  }

  lemma {:induction false} AttachedMore(kids: seq<Shown>, t: Shown)
    ensures AttachedIn(kids + [t]) == AttachedIn(kids) + Attached(t)
  {
    hide Attached;
    assert (kids + [t])[..|kids|] == kids;
  }

  lemma {:induction false} InOrderGrows(kids: seq<Shown>, sub: seq<Shown>, children: seq<GroupName>, c: GroupName)
    requires InOrder(KidNames(kids), children) && |sub| <= 1 && (sub != [] ==> sub[0].name == c)
    ensures InOrder(KidNames(kids + sub), children + [c])
  {
    assert (children + [c])[..|children|] == children;
    if sub == [] {
      assert kids + sub == kids;
    } else {
      assert KidNames(kids + sub) == KidNames(kids) + [c];
      assert (KidNames(kids) + [c])[..|kids|] == KidNames(kids);
    }
  }

  lemma {:induction false} KidsGrow(graph: Graph, available: set<HostName>, exported: bool, g: GroupName, i: nat,
                                    kids: seq<Shown>, sub: seq<Shown>)
    requires g in graph && i < |graph[g].children| && KidsFor(graph, available, exported, g, i, kids) && |sub| <= 1
    requires var c := graph[g].children[i];
             if sub == [] then c == ALL || (c in graph && Blank(graph, available, exported, c))
             else c != ALL && sub[0].name == c
    ensures KidsFor(graph, available, exported, g, i + 1, kids + sub)
  {
    hide Blank, InOrder, KidNames;
    var c := graph[g].children[i];
    assert graph[g].children[..i + 1] == graph[g].children[..i] + [c];
    InOrderGrows(kids, sub, graph[g].children[..i], c);
    if sub != [] {
      assert sub[0] in kids + sub;
    }
    forall d | d in graph[g].children[..i + 1] && d != ALL
      ensures (exists t :: t in kids + sub && t.name == d) || (d in graph && Blank(graph, available, exported, d))
    {
      if d in graph[g].children[..i] && exists t :: t in kids && t.name == d {
        var t :| t in kids && t.name == d;
        assert t in kids + sub;
      }
    }
  }

  /** What a group adds to its children: nothing is lost when an empty group is left out. */
  lemma {:induction false} WholeGroup(graph: Graph, available: set<HostName>, exported: bool, group: Shown)
    requires group.name in graph && AllWritten(graph, available, exported, group.children)
    requires HostNames(group.hosts) == HostsOf(graph, available, group.name)
    requires group.hasVars == (exported && graph[group.name].hasVars)
    requires KidsFor(graph, available, exported, group.name, |graph[group.name].children|, group.children)
    ensures IsStub(group) ==> Blank(graph, available, exported, group.name)
    ensures AttachedIn([group]) == AttachedIn(group.children) + OwnAttached(group.hosts)
    ensures IsStub(group) ==> AttachedIn([]) == AttachedIn([group])
    ensures AllWritten(graph, available, exported, [group]) && AllWritten(graph, available, exported, [])
  {
    assert [group][..0] == [];
    assert AttachedIn([group]) == AttachedIn([]) + Attached(group);
    assert Written(graph, available, exported, group);
  }

  lemma {:induction false} NothingYet()
    ensures HostNames([]) == [] && OwnAttached([]) == [] && Elements<HostName>([]) == {} && Distinct<HostName>([])
    ensures forall available :: AvailableHosts([], available) == []
  {
  }

  lemma {:induction false} One(h: HostName)
    ensures Distinct([h]) && Elements([h]) == {h}
  {
  }

  lemma {:induction false} JoinElements<T>(s: seq<T>, t: seq<T>)
    ensures Elements(s + t) == Elements(s) + Elements(t)
  {
  }

  lemma {:induction false} OneMoreAvailable(hosts: seq<HostName>, i: nat, available: set<HostName>)
    requires i < |hosts|
    ensures AvailableHosts(hosts[..i + 1], available)
         == if hosts[i] in available then AvailableHosts(hosts[..i], available) + [hosts[i]]
            else AvailableHosts(hosts[..i], available)
  {
    assert hosts[..i + 1][..i] == hosts[..i];
  }

  lemma {:induction false} OneMoreEntry(hosts: seq<HostEntry>, e: HostEntry)
    ensures HostNames(hosts + [e]) == HostNames(hosts) + [e.host]
    ensures OwnAttached(hosts + [e]) == if e.attached then OwnAttached(hosts) + [e.host] else OwnAttached(hosts)
  {
    assert (hosts + [e])[..|hosts|] == hosts;
  }

  lemma {:induction false} NoChildYet(graph: Graph, rank: map<GroupName, nat>, available: set<HostName>,
                                      exported: bool, g: GroupName)
    requires Acyclic(graph, rank) && g in graph
    ensures BelowFirst(graph, rank, g, 0) == {} && HostsIn(graph, available, {}) == {}
    ensures AttachedIn([]) == [] && Distinct<HostName>([]) && Elements<HostName>([]) == {}
            && AllWritten(graph, available, exported, [])
    ensures KidsFor(graph, available, exported, g, 0, []) && WrittenOnce(graph, available, exported, [], {})
  {
  }

  lemma {:induction false} AddStub(graph: Graph, available: set<HostName>, exported: bool, c: GroupName,
                                   kids: seq<Shown>)
    requires AllWritten(graph, available, exported, kids)
    ensures AllWritten(graph, available, exported, kids + [Shown(c, [], [], false)])
    ensures AttachedIn(kids + [Shown(c, [], [], false)]) == AttachedIn(kids)
    ensures FullIn(kids + [Shown(c, [], [], false)]) == FullIn(kids)
    ensures forall groups :: WrittenOnce(graph, available, exported, kids, groups) ==>
              WrittenOnce(graph, available, exported, kids + [Shown(c, [], [], false)], groups)
  {
    hide Blank;
    assert (kids + [Shown(c, [], [], false)])[..|kids|] == kids;
    assert FullNames(Shown(c, [], [], false)) == [];
    assert Attached(Shown(c, [], [], false)) == [];
    assert Written(graph, available, exported, Shown(c, [], [], false));
  }

  // ---------------------------------------------------------------- reachable groups

  /** A way down the group graph from one group to another, at least one step long, that never enters `all`. */
  predicate WayDown(graph: Graph, way: seq<GroupName>) {
    && |way| >= 2
    && forall i :: 0 <= i < |way| - 1 ==> StepDown(graph, way[i], way[i + 1])
  }

  predicate StepDown(graph: Graph, g: GroupName, c: GroupName) {
    g in graph && c in graph[g].children && c != ALL
  }

  lemma {:induction false} ChildBelow(graph: Graph, rank: map<GroupName, nat>, g: GroupName, n: nat, i: nat)
    requires Acyclic(graph, rank) && g in graph && i < n <= |graph[g].children| && graph[g].children[i] != ALL
    ensures var c := graph[g].children[i]; {c} + Below(graph, rank, c) <= BelowFirst(graph, rank, g, n)
    decreases n
  {
    if i < n - 1 {
      ChildBelow(graph, rank, g, n - 1, i);
    }
  }

  lemma {:induction false} WayIsBelow(graph: Graph, rank: map<GroupName, nat>, way: seq<GroupName>)
    requires Acyclic(graph, rank) && WayDown(graph, way)
    ensures way[0] in graph && way[|way| - 1] in Below(graph, rank, way[0])
    decreases |way|
  {
    assert StepDown(graph, way[0], way[1]);
    var i :| 0 <= i < |graph[way[0]].children| && graph[way[0]].children[i] == way[1];
    ChildBelow(graph, rank, way[0], |graph[way[0]].children|, i);
    if |way| > 2 {
      forall j | 0 <= j < |way[1..]| - 1
        ensures StepDown(graph, way[1..][j], way[1..][j + 1])
      {
        assert StepDown(graph, way[j + 1], way[j + 2]);
      }
      WayIsBelow(graph, rank, way[1..]);
    }
  }

  lemma {:induction false} BelowHasWay(graph: Graph, rank: map<GroupName, nat>, g: GroupName, n: nat, x: GroupName)
    returns (way: seq<GroupName>)
    requires Acyclic(graph, rank) && g in graph && n <= |graph[g].children| && x in BelowFirst(graph, rank, g, n)
    ensures WayDown(graph, way) && way[0] == g && way[|way| - 1] == x
    decreases rank[g], n
  {
    var c := graph[g].children[n - 1];
    if x in BelowFirst(graph, rank, g, n - 1) {
      way := BelowHasWay(graph, rank, g, n - 1, x);
    } else if x == c {
      way := [g, c];
      assert StepDown(graph, g, c);
    } else {
      var rest := BelowHasWay(graph, rank, c, |graph[c].children|, x);
      way := [g] + rest;
      assert StepDown(graph, g, c);
      forall j | 0 <= j < |way| - 1
        ensures StepDown(graph, way[j], way[j + 1])
      {
        assert j > 0 ==> StepDown(graph, rest[j - 1], rest[j]);
      }
    }
  }

  /** `Below` is what can be reached going down. */
  lemma {:induction false} BelowIsReachable(graph: Graph, rank: map<GroupName, nat>, g: GroupName, x: GroupName)
    requires Acyclic(graph, rank) && g in graph
    ensures x in Below(graph, rank, g) <==> exists way :: WayDown(graph, way) && way[0] == g && way[|way| - 1] == x
  {
    if x in Below(graph, rank, g) {
      var way := BelowHasWay(graph, rank, g, |graph[g].children|, x);
    }
    if way :| WayDown(graph, way) && way[0] == g && way[|way| - 1] == x {
      WayIsBelow(graph, rank, way);
    }
  }

  // ---------------------------------------------------------------- what a group lists

  lemma {:induction false} AvailableInOrder(hosts: seq<HostName>, available: set<HostName>)
    ensures InOrder(AvailableHosts(hosts, available), hosts)
    decreases |hosts|
  {
    if hosts != [] {
      var front, last := hosts[..|hosts| - 1], hosts[|hosts| - 1];
      AvailableInOrder(front, available);
      var a := AvailableHosts(front, available);
      var all := AvailableHosts(hosts, available);
      hide AvailableHosts;
      if last in available {
        assert all == a + [last];
        assert all[..|all| - 1] == a;
      } else {
        assert all == a + [] == a;
      }
    }
  }

  lemma {:induction false} AvailableExactly(hosts: seq<HostName>, available: set<HostName>)
    requires Distinct(hosts)
    ensures var a := AvailableHosts(hosts, available);
            Distinct(a) && forall h :: h in a <==> h in hosts && h in available
    decreases |hosts|
  {
    if hosts != [] {
      var front, last := hosts[..|hosts| - 1], hosts[|hosts| - 1];
      AvailableExactly(front, available);
      assert forall h :: h in hosts <==> h in front || h == last;
    }
  }

  /** A group lists exactly its available hosts, in its order and each once; the group `all` lists none. */
  lemma {:induction false} HostsOfExactly(graph: Graph, available: set<HostName>, g: GroupName)
    requires Listed(graph) && g in graph
    ensures var a := HostsOf(graph, available, g);
            && InOrder(a, graph[g].hosts) && Distinct(a)
            && forall h :: h in a <==> g != "all" && h in graph[g].hosts && h in available
    ensures forall exported ::
              Blank(graph, available, exported, g) <==>
                && !(exported && graph[g].hasVars)
                && (g == "all" || forall h :: h in graph[g].hosts ==> h !in available)
  {
    AvailableExactly(graph[g].hosts, available);
    AvailableInOrder(graph[g].hosts, available);
    var a := HostsOf(graph, available, g);
    assert a != [] ==> a[0] in a;
  }

  /** The hosts whose variables a group attaches are those of its entries that say so. */
  lemma {:induction false} AttachedExactly(hosts: seq<HostEntry>)
    ensures forall h :: h in OwnAttached(hosts) <==> HostEntry(h, true) in hosts
    decreases |hosts|
  {
    if hosts != [] {
      var front, last := hosts[..|hosts| - 1], hosts[|hosts| - 1];
      AttachedExactly(front);
      assert forall e :: e in hosts <==> e in front || e == last;
    }
  }

  // ---------------------------------------------------------------- the export

  lemma {:induction false} OnceEach(s: seq<HostName>, h: HostName)
    requires Distinct(s)
    ensures multiset(s)[h] == if h in Elements(s) then 1 else 0
    decreases |s|
  {
    if s != [] {
      var front, last := s[..|s| - 1], s[|s| - 1];
      assert s == front + [last];
      OnceEach(front, h);
      assert last !in front;
      assert Elements(s) == Elements(front) + {last};
    }
  }

  /**
   The whole export from `top`: every reachable group is formatted once, and every available
   host of a reachable group other than `all` has its variables attached in exactly one place.
  */
  method Export(graph: Graph, ghost rank: map<GroupName, nat>, available: set<HostName>, exported: bool, top: GroupName)
    returns (results: seq<Shown>, ghost formatted: seq<GroupName>)
    requires Acyclic(graph, rank) && Listed(graph) && top in graph
    ensures Distinct(formatted) && Elements(formatted) == {top} + Below(graph, rank, top)
    ensures AllWritten(graph, available, exported, results)
    ensures WrittenOnce(graph, available, exported, results, {top} + Below(graph, rank, top))
    ensures if results == [] then Blank(graph, available, exported, top) else results[0].name == top && |results| == 1
    ensures forall h :: multiset(AttachedIn(results))[h]
                     == if h in HostsIn(graph, available, {top} + Below(graph, rank, top)) then 1 else 0
  {
    hide Below, HostsIn, AttachedIn, AllWritten, Blank, Distinct, Listed, WrittenOnce;
    var inventory := new YamlInventory(graph, available, exported, rank);
    Fresh();
    results := inventory.FormatGroup(top);
    formatted := inventory.formatted;
    assert Below(graph, rank, top) - {} == Below(graph, rank, top);
    forall h
      ensures multiset(AttachedIn(results))[h]
              == if h in HostsIn(graph, available, {top} + Below(graph, rank, top)) then 1 else 0
    {
      OnceEach(AttachedIn(results), h);
    }
  }

  lemma {:induction false} Fresh()
    ensures Distinct<GroupName>([]) && Elements<GroupName>([]) == {}
  {
  }
}
