/**
 Whole runs of the clusters of one group. Nodes are placed, loaded, updated and removed; what is
 reported is queued, and the queue is worked off later, when the world may be ahead of it.
 */
module ClusterRuns {
  import opened Grid
  import opened Clusterings
  import opened Worlds
  import opened Buckets
  import opened ClusterNodes
  import opened ClusterRegistry
  import opened BranchScans
  import opened ClusterViews
  import opened ClusterMeaning
  import opened HandlerEffects
  import opened SimpleClusters

  /**
   A node of the group is placed where there was none, reported again, exchanged for another one of
   the group, or leaves the group.
   */
  datatype Event =
    | Placed(pos: Vec, node: Node)
    | Loaded(pos: Vec)
    | Updated(pos: Vec, node: Node)
    | Removed(pos: Vec, rest: Node, order: seq<Dir>)
  {
    predicate Possible(w: World) {
      match this
      case Placed(p, node) => w.InGroup(node) && p !in w.Painted()
      case Loaded(p) => p in w.Painted()
      case Updated(p, node) => w.InGroup(node) && p in w.Painted()
      case Removed(p, rest, _) => !w.InGroup(rest)
    }

    function After(w: World): World {
      match this
      case Placed(p, node) => w.(nodes := w.nodes[p := node])
      case Loaded(_) => w
      case Updated(p, node) => w.(nodes := w.nodes[p := node])
      case Removed(p, rest, _) => w.(nodes := w.nodes[p := rest])
    }

    /** The node that is reported, with its groups. */
    function Reported(w: World): Entry {
      var node := if Placed? || Updated? then this.node else w.GetNode(pos);
      Entry(pos, node, w.MemberGroups(node))
    }

    /** Where the search for branches starts from. */
    function ExploredFrom(): set<Vec> {
      if Removed? then Origins(pos, order, |order|) else {}
    }

    /**
     A node that is reported again has a compatible neighbour; one that is exchanged keeps its
     colour and the groups that it is listed under.
     */
    ghost predicate Calm(w: World) {
      match this
      case Placed(_, _) => true
      case Loaded(p) => Linked(w.Painted(), p)
      case Updated(p, node) =>
        w.NodeColor(node) == w.NodeColor(w.GetNode(p)) && w.MemberGroups(w.GetNode(p)).Keys <= w.MemberGroups(node).Keys
      case Removed(_, _, _) => false
    }
  }

  predicate AllPossible(w: World, events: seq<Event>) {
    events == [] ||
    (AllPossible(w, events[..|events| - 1]) && events[|events| - 1].Possible(AfterAll(w, events[..|events| - 1])))
  }

  function AfterAll(w: World, events: seq<Event>): World {
    if events == [] then w else events[|events| - 1].After(AfterAll(w, events[..|events| - 1]))
  }

  ghost predicate AllCalm(w: World, events: seq<Event>) {
    events == [] ||
    (AllCalm(w, events[..|events| - 1]) && events[|events| - 1].Calm(AfterAll(w, events[..|events| - 1])))
  }

  lemma OneMore(events: seq<Event>, n: nat)
    requires n < |events|
    ensures events[..n + 1] != [] && events[..n + 1][..n] == events[..n] && events[..n + 1][n] == events[n]
  {
  }

  /** A prefix of a run is a run. */
  lemma {:induction false} PrefixRuns(w: World, events: seq<Event>, n: nat)
    requires AllPossible(w, events) && n <= |events|
    ensures AllPossible(w, events[..n])
    ensures AllCalm(w, events) ==> AllCalm(w, events[..n])
  {
    if n < |events| {
      var init := events[..|events| - 1];
      PrefixRuns(w, init, n);
      assert init[..n] == events[..n];
    } else {
      assert events[..n] == events;
    }
  }

  /** Any further nodes of the group come about in some run, and a calm one. */
  lemma {:induction false} WorldIsReached(v: World, w: World) returns (events: seq<Event>)
    requires v == w.(nodes := v.nodes) && v.nodes.Keys <= w.nodes.Keys
    requires forall p :: p in w.nodes ==> if p in v.nodes then v.nodes[p] == w.nodes[p] else w.InGroup(w.nodes[p])
    ensures AllPossible(v, events) && AllCalm(v, events) && AfterAll(v, events) == w
    decreases w.nodes.Keys
  {
    if v.nodes.Keys == w.nodes.Keys {
      assert v.nodes == w.nodes;
      events := [];
    } else {
      var p :| p in w.nodes && p !in v.nodes;
      var u := w.(nodes := w.nodes - {p});
      var init := WorldIsReached(v, u);
      events := init + [Placed(p, w.nodes[p])];
      assert events[..|events| - 1] == init;
    }
  }

  /** The groups under which a node of the group is registered are among its own. */
  ghost predicate Grouped(w: World, m: Contents, group: string) {
    forall i, p :: HeldIn(m, group, p, i) && p in w.Painted() ==>
      m[i].nodes[p].groups.Keys <= w.MemberGroups(w.GetNode(p)).Keys
  }

  /** The indexes are coherent, and the clusters of the group are the components of its nodes in the world. */
  ghost predicate Follows(cls: Clusters, w: World, group: string)
    reads cls, cls.clusters.Values
  {
    w.Valid() && cls.Valid() && cls.Exact() && InStep(w, cls.Abs(), group)
  }

  ghost predicate InStep(w: World, m: Contents, group: string) {
    Tracks(w, m, group, w.Painted()) && Grouped(w, m, group) && Rated(m, group)
  }

  /** Whatever cluster an update picks, the registry is in step with the world afterwards. */
  ghost predicate UpdateIsSafe(w: World, m: Contents, group: string, e: Event)
    requires e.Updated? && e.pos in w.Painted()
  {
    var c := w.NodeColor(e.node);
    || (SurelyHit(m, group, e.pos) && SameParts(w.Painted(), w.Painted()[e.pos := c]))
    || (c == w.Painted()[e.pos] && KeepsGroups(w, m, group, e))
  }

  /** The groups that the node is registered under are among those that are reported. */
  ghost predicate KeepsGroups(w: World, m: Contents, group: string, e: Event) {
    forall i :: HeldIn(m, group, e.pos, i) ==> m[i].nodes[e.pos].groups.Keys <= e.Reported(w).groups.Keys
  }

  lemma PaintedAfter(w: World, e: Event)
    requires w.Valid() && e.Possible(w)
    ensures e.After(w).Valid()
    ensures e.After(w).Painted() == match e
      case Placed(p, node) => w.Painted()[p := w.NodeColor(node)]
      case Loaded(p) => w.Painted()
      case Updated(p, node) => w.Painted()[p := w.NodeColor(node)]
      case Removed(p, _, _) => w.Painted() - {p}
  {
    hide World.Painted;
    match e
    case Placed(p, node) => PaintedWith(w, p, node);
    case Loaded(p) =>
    case Updated(p, node) => PaintedWith(w, p, node);
    case Removed(p, rest, _) => PaintedWithout(w, p, rest);
  }

  lemma PaintedWith(w: World, p: Vec, node: Node)
    requires w.InGroup(node)
    ensures w.(nodes := w.nodes[p := node]).Painted() == w.Painted()[p := w.NodeColor(node)]
  {
    hide World.NodeColor;
    SameColor(w, w.nodes[p := node]);
  }

  lemma PaintedWithout(w: World, p: Vec, rest: Node)
    requires !w.InGroup(rest)
    ensures w.(nodes := w.nodes[p := rest]).Painted() == w.Painted() - {p}
  {
    hide World.NodeColor;
    SameColor(w, w.nodes[p := rest]);
  }

  lemma SameColor(w: World, nodes: map<Vec, Node>)
    ensures forall n ::
      w.(nodes := nodes).NodeColor(n) == w.NodeColor(n) && (w.(nodes := nodes).InGroup(n) <==> w.InGroup(n))
  {
  }

  lemma PaintedIsNode(w: World, p: Vec)
    requires p in w.Painted()
    ensures p in w.nodes && w.GetNode(p) == w.nodes[p] && w.Painted()[p] == w.NodeColor(w.nodes[p])
  {
  }

  /** What is tracked depends on the definitions of nodes only. */
  lemma SameColors(v: World, w: World, m: Contents, group: string, paint: Painting)
    requires v.defs == w.defs
    ensures Tracks(v, m, group, paint) <==> Tracks(w, m, group, paint)
  {
    hide Partitioned, ColorGraph, View;
    forall n ensures v.NodeColor(n) == w.NodeColor(n) {
    }
  }

  /** Reporting a node keeps the registered groups among those of the nodes, if it does so for its own. */
  lemma GroupedWith(w: World, m: Contents, n: Contents, group: string, e: Event)
    requires w.Valid() && e.Possible(w) && !e.Removed? && Grouped(w, m, group) &&
      InheritsWith(m, n, group, e.Reported(w))
    requires Sound(w, m, group, w.Painted())
    ensures Grouped(e.After(w), n, group) <==> KeepsGroups(w, n, group, e)
  {
    hide World.Painted;
    var v := e.After(w);
    PaintedAfter(w, e);
    ReportedIsThere(w, e);
    if KeepsGroups(w, n, group, e) {
      forall i, p | HeldIn(n, group, p, i) && p in v.Painted()
        ensures n[i].nodes[p].groups.Keys <= v.MemberGroups(v.GetNode(p)).Keys
      {
        if p != e.pos {
          var j :| HeldIn(m, group, p, j) && m[j].nodes[p] == n[i].nodes[p];
        }
      }
    }
  }

  lemma ReportedIsThere(w: World, e: Event)
    requires w.Valid() && e.Possible(w) && !e.Removed?
    ensures e.pos in e.After(w).Painted() && e.After(w).GetNode(e.pos) == e.Reported(w).node
    ensures e.Reported(w).groups == e.After(w).MemberGroups(e.After(w).GetNode(e.pos))
  {
    PaintedAfter(w, e);
  }

  /** Placing and loading do. */
  lemma AddingGroups(w: World, m: Contents, n: Contents, group: string, e: Event)
    requires e.Possible(w) && (e.Placed? || e.Loaded?)
    requires Grouped(w, m, group) && Sound(w, m, group, w.Painted()) && InheritsWith(m, n, group, e.Reported(w))
    ensures KeepsGroups(w, n, group, e)
  {
    forall i | HeldIn(n, group, e.pos, i) ensures n[i].nodes[e.pos].groups.Keys <= e.Reported(w).groups.Keys {
      if n[i].nodes[e.pos] != e.Reported(w) {
        var j :| HeldIn(m, group, e.pos, j) && m[j].nodes[e.pos] == n[i].nodes[e.pos];
      }
    }
  }

  /** An update that hits replaces the groups, and one that misses keeps them. */
  lemma UpdateGroups(w: World, m: Contents, group: string, e: Event, i: nat)
    requires e.Updated? && Tracks(w, m, group, w.Painted()) && MayPick(m, group, i)
    ensures KeepsGroups(w, UpdatedBy(m, i, e.Reported(w)), group, e) <==>
      Holds(m, e.pos, i) || KeepsGroups(w, m, group, e)
  {
    TracksApart(w, m, group, w.Painted(), e.pos);
    hide Tracks, World.Painted;
    var x := e.Reported(w);
    if Holds(m, e.pos, i) {
      hide Event.Reported;
      forall j | HeldIn(UpdatedBy(m, i, x), group, e.pos, j) ensures UpdatedBy(m, i, x)[j].nodes[e.pos] == x {
        assert HeldIn(m, group, e.pos, j) && HeldIn(m, group, e.pos, i);
      }
    }
  }

  /** One pick. */
  lemma PickInStep(w: World, m: Contents, group: string, e: Event, i: nat)
    requires w.Valid() && e.Updated? && e.Possible(w) && InStep(w, m, group) && MayPick(m, group, i)
    ensures var c := w.NodeColor(e.node);
      InStep(e.After(w), UpdatedBy(m, i, e.Reported(w)), group) <==>
        (Holds(m, e.pos, i) && SameParts(w.Painted(), w.Painted()[e.pos := c])) ||
        (c == w.Painted()[e.pos] && KeepsGroups(w, m, group, e))
  {
    hide World.Painted, Tracks, Grouped, Rated, KeepsGroups, SameParts, MayPick, UpdatedBy, InheritsWith, OthersKept,
         Sound;
    var x := e.Reported(w);
    var n := UpdatedBy(m, i, x);
    PaintedAfter(w, e);
    TracksSound(w, m, group, w.Painted());
    PickIsRight(w, m, group, w.Painted(), i, x);
    SameColors(w, e.After(w), n, group, e.After(w).Painted());
    assert MayBecome(m, group, x, n);
    UpdatedRest(m, group, x, n);
    GroupedWith(w, m, n, group, e);
    UpdateGroups(w, m, group, e, i);
    SameIsSame(w.Painted(), e.pos);
  }

  lemma SameIsSame(paint: Painting, pos: Vec)
    ensures pos in paint ==> SameParts(paint, paint[pos := paint[pos]])
  {
    assert pos in paint ==> paint[pos := paint[pos]] == paint;
  }

  /** The registry is in step after an update, whatever is picked, if and only if it is safe. */
  lemma UpdateDecidesRun(w: World, m: Contents, group: string, e: Event)
    requires w.Valid() && e.Updated? && e.Possible(w) && InStep(w, m, group)
    ensures (forall n :: MayBecome(m, group, e.Reported(w), n) ==> InStep(e.After(w), n, group)) <==>
      UpdateIsSafe(w, m, group, e)
  {
    var home := HomeMayBePicked(w, m, group, w.Painted(), e.pos);
    hide World.Painted, InStep, KeepsGroups, SameParts, MayPick, UpdatedBy, MayBecome;
    var x := e.Reported(w);
    if forall n :: MayBecome(m, group, x, n) ==> InStep(e.After(w), n, group) {
      forall i | MayPick(m, group, i) ensures Holds(m, e.pos, i) || UpdateIsSafe(w, m, group, e) {
        PickIsOutcome(m, group, x, i);
        PickInStep(w, m, group, e, i);
      }
      PickIsOutcome(m, group, x, home);
      PickInStep(w, m, group, e, home);
    }
    if UpdateIsSafe(w, m, group, e) {
      forall n | MayBecome(m, group, x, n) ensures InStep(e.After(w), n, group) {
        var i := OutcomeIsPick(m, group, x, n, home);
        PickInStep(w, m, group, e, i);
      }
    }
  }

  /** A calm update is safe. */
  lemma CalmIsSafe(w: World, m: Contents, group: string, e: Event)
    requires e.Updated? && e.Possible(w) && e.Calm(w) && Grouped(w, m, group)
    ensures UpdateIsSafe(w, m, group, e)
  {
    PaintedIsNode(w, e.pos);
  }

  /** A node that is loaded may replace its entry. */
  lemma LoadedMayReplace(w: World, m: Contents, group: string, e: Event)
    requires e.Loaded? && e.Possible(w) && Grouped(w, m, group)
    ensures MayReplace(m, group, e.Reported(w)) && w.NodeColor(e.Reported(w).node) == w.Painted()[e.pos]
  {
    PaintedIsNode(w, e.pos);
  }

  /** The same for a removal. */
  lemma GroupedFrom(v: World, m: Contents, n: Contents, group: string)
    requires Grouped(v, m, group) && InheritsFrom(v, m, n, group)
    ensures Grouped(v, n, group)
  {
    hide World.Painted, World.GetNode;
    forall i, p | HeldIn(n, group, p, i) && p in v.Painted()
      ensures n[i].nodes[p].groups.Keys <= v.MemberGroups(v.GetNode(p)).Keys
    {
      if n[i].nodes[p] != WorldEntry(v, p) {
        var j :| HeldIn(m, group, p, j) && m[j].nodes[p] == n[i].nodes[p];
      }
    }
  }

  /**
   An event other than a removal is handled by the registry alone. Placing keeps it in step with the
   world, loading does if and only if the node has a compatible neighbour, and an update does for
   every cluster that may be picked if and only if it is safe.
   */
  method Settle(s: SimpleCluster, cls: Clusters, v: World, e: Event) returns (after: World)
    requires Follows(cls, v, s.group) && e.Possible(v) && !e.Removed?
    modifies cls, cls.clusters.Values
    ensures after == e.After(v)
    ensures e.Placed? ==> Follows(cls, after, s.group)
    ensures e.Loaded? ==> (Follows(cls, after, s.group) <==> Linked(v.Painted(), e.pos))
    ensures e.Loaded? && !Linked(v.Painted(), e.pos) ==> !AtMostOne(cls.Abs(), s.group, e.pos)
    ensures e.Updated? ==>
      (UpdateIsSafe(v, old(cls.Abs()), s.group, e) <==>
      forall n :: MayBecome(old(cls.Abs()), s.group, e.Reported(v), n) ==> InStep(after, n, s.group))
    ensures e.Updated? ==> MayBecome(old(cls.Abs()), s.group, e.Reported(v), cls.Abs())
    ensures e.Updated? ==> (Follows(cls, after, s.group) <==> InStep(after, cls.Abs(), s.group))
    ensures e.Calm(v) ==> Follows(cls, after, s.group)
    ensures OthersKept(old(cls.Abs()), cls.Abs(), s.group)
    ensures fresh(cls.clusters.Values - old(cls.clusters.Values))
  {
    hide Tracks, World.Painted, World.GetNode, Clusters.Valid, Clusters.Exact, Clusters.Abs, OthersKept, MayReplace,
         InheritsWith, Grouped, Linked, SameParts, Sound, Rated, MayBecome, UpdateIsSafe, Rejoins, TouchesHome,
         KeepsGroups, AtMostOne, UpdateKeeps;
    after := e.After(v);
    PaintedAfter(v, e);
    ghost var m := cls.Abs();
    var x := e.Reported(v);
    var given := BucketOf(cls, s.group);
    TracksSound(v, m, s.group, v.Painted());
    match e {
      case Updated(p, _) =>
        UpdateDecidesRun(v, m, s.group, e);
        if e.Calm(v) {
          CalmIsSafe(v, m, s.group, e);
        }
        s.HandleUpdateNode(cls, v, p, x.node, x.groups, given, v.Painted());
      case Loaded(p) =>
        LoadedMayReplace(v, m, s.group, e);
        LinkedRejoins(v.Painted(), p);
        s.HandleAddNode(cls, v, p, x.node, x.groups, given, v.Painted());
        assert v.Painted()[p := v.NodeColor(x.node)] == v.Painted();
        AddedInStep(v, after, m, cls.Abs(), s.group, e);
      case Placed(p, _) =>
        s.HandleAddNode(cls, v, p, x.node, x.groups, given, v.Painted());
        AddedInStep(v, after, m, cls.Abs(), s.group, e);
    }
  }

  lemma AddedInStep(v: World, after: World, m: Contents, n: Contents, group: string, e: Event)
    requires v.Valid() && e.Possible(v) && (e.Placed? || e.Loaded?) && after == e.After(v)
    requires InStep(v, m, group) && InheritsWith(m, n, group, e.Reported(v)) && (Rated(m, group) ==> Rated(n, group))
    ensures InStep(after, n, group) <==> Tracks(v, n, group, after.Painted())
  {
    hide Tracks, World.Painted, World.GetNode, InheritsWith, Grouped, Rated, Sound, KeepsGroups;
    SameColors(v, after, n, group, after.Painted());
    TracksSound(v, m, group, v.Painted());
    AddingGroups(v, m, n, group, e);
    GroupedWith(v, m, n, group, e);
  }

  lemma TracksSound(w: World, m: Contents, group: string, paint: Painting)
    requires Tracks(w, m, group, paint)
    ensures Sound(w, m, group, paint)
  {
  }

  method BucketOf(cls: Clusters, group: string) returns (ids: set<nat>)
    ensures ids == Bucket(cls.groupClusters, group).Keys
  {
    ids := if group in cls.groupClusters then cls.groupClusters[group].Keys else {};
  }

  /* Removals. */

  predicate OnlyRemovals(events: seq<Event>) {
    forall k :: 0 <= k < |events| ==> events[k].Removed?
  }

  function Gone(events: seq<Event>): set<Vec> {
    if events == [] then {} else Gone(events[..|events| - 1]) + {events[|events| - 1].pos}
  }

  function Explored(events: seq<Event>): set<Vec> {
    if events == [] then {} else Explored(events[..|events| - 1]) + events[|events| - 1].ExploredFrom()
  }

  lemma {:induction false} GoneGrows(events: seq<Event>, n: nat)
    requires n <= |events|
    ensures Gone(events[..n]) <= Gone(events)
    ensures forall k :: 0 <= k < n ==> events[k].pos in Gone(events)
  {
    if n < |events| {
      var init := events[..|events| - 1];
      GoneGrows(init, n);
      assert init[..n] == events[..n];
    } else {
      assert events[..n] == events;
      if n > 0 {
        GoneGrows(events[..n - 1], n - 1);
        assert forall k :: 0 <= k < n - 1 ==> events[..n - 1][k] == events[k];
      }
    }
  }

  /** What removals do to the world. */
  lemma {:induction false} WithoutGone(v: World, events: seq<Event>)
    requires v.Valid() && AllPossible(v, events) && OnlyRemovals(events)
    ensures var w := AfterAll(v, events);
      && w.Valid() && w.defs == v.defs && w.group == v.group && w.Painted() == v.Painted() - Gone(events)
      && forall p :: p in w.Painted() ==> w.GetNode(p) == v.GetNode(p)
  {
    hide World.Painted, World.Valid;
    if events != [] {
      var init := events[..|events| - 1];
      var e := events[|events| - 1];
      WithoutGone(v, init);
      PaintedAfter(AfterAll(v, init), e);
    } else {
      assert v.Painted() - {} == v.Painted();
    }
  }

  /**
   Removals that were queued one after the other. They are handled in the world `w`; around the
   removed nodes it is as it was right after the removals.
   */
  method RemoveAll(s: SimpleCluster, cls: Clusters, w: World, v: World, events: seq<Event>) returns (after: World)
    requires Follows(cls, v, s.group) && AllPossible(v, events) && OnlyRemovals(events) && w.Valid()
    requires forall e :: e in events ==> Sees(w, AfterAll(v, events), e.ExploredFrom())
    modifies cls, cls.clusters.Values
    ensures after == AfterAll(v, events)
    ensures Follows(cls, after, s.group) <==> Harmless(v.Painted(), Gone(events), Explored(events))
    ensures cls.Valid() && cls.Exact()
    ensures Sweeping(after, cls.Abs(), s.group, v.Painted(), Gone(events), Gone(events), Explored(events))
    ensures OthersKept(old(cls.Abs()), cls.Abs(), s.group)
    ensures fresh(cls.clusters.Values - old(cls.clusters.Values))
  {
    hide Tracks, World.Painted, World.GetNode, World.Valid, Clusters.Valid, Clusters.Exact, Clusters.Abs, OthersKept,
         InheritsFrom, Grouped, Rated, Sees, Sweeping, Harmless, Origins, CoversSearch, Clusters.Live;
    after := AfterAll(v, events);
    ghost var paint, gone := v.Painted(), Gone(events);
    WithoutGone(v, events);
    SameColors(v, after, cls.Abs(), s.group, paint);
    SweepingStarts(after, cls.Abs(), s.group, paint, gone);
    GroupedStill(v, after, cls.Abs(), s.group);
    NothingChanged(cls.Abs(), s.group);
    for n := 0 to |events|
      invariant cls.Valid() && cls.Exact() && Grouped(after, cls.Abs(), s.group) && Rated(cls.Abs(), s.group)
      invariant Sweeping(after, cls.Abs(), s.group, paint, gone, Gone(events[..n]), Explored(events[..n]))
      invariant OthersKept(old(cls.Abs()), cls.Abs(), s.group)
      invariant fresh(cls.clusters.Values - old(cls.clusters.Values))
    {
      var e := events[n];
      ghost var between := cls.Abs();
      assert e in events && e.Removed?;
      GoneGrows(events, n);
      GoneGrows(events, n + 1);
      OneMore(events, n);
      ghost var ps := w.Painted().Keys + {e.pos};
      cls.ExactIsLive(ps);
      AllCoverSearch(w, Origins(e.pos, e.order, |e.order|), e.pos);
      s.HandleRemoveNode(cls, w, e.pos, e.order, after, paint, gone, Gone(events[..n]), Explored(events[..n]), ps);
      GroupedFrom(after, between, cls.Abs(), s.group);
      KeptTwice(old(cls.Abs()), between, cls.Abs(), s.group);
    }
    assert events[..|events|] == events;
    SweepingEnds(after, cls.Abs(), s.group, paint, gone, Explored(events));
  }

  lemma GroupedStill(v: World, w: World, m: Contents, group: string)
    requires Grouped(v, m, group) && w.defs == v.defs
    requires forall p :: p in w.Painted() ==> p in v.Painted() && w.GetNode(p) == v.GetNode(p)
    ensures Grouped(w, m, group)
  {
    hide World.Painted;
  }

  lemma NothingChanged(m: Contents, group: string)
    ensures OthersKept(m, m, group)
  {
  }

  lemma KeptTwice(m: Contents, n: Contents, o: Contents, group: string)
    requires OthersKept(m, n, group) && OthersKept(n, o, group)
    ensures OthersKept(m, o, group)
  {
  }

  /* Queues. */

  /** Some events other than removals, and then some removals. Any queue is a sequence of such stretches. */
  datatype Stretch = Stretch(early: seq<Event>, removals: seq<Event>) {
    predicate Possible(v: World) {
      && (forall k :: 0 <= k < |early| ==> !early[k].Removed?) && OnlyRemovals(removals)
      && AllPossible(v, early) && AllPossible(AfterAll(v, early), removals)
    }

    function After(v: World): World {
      AfterAll(AfterAll(v, early), removals)
    }

    /** Around the removed nodes the world `w` is as it was right after the stretch. */
    ghost predicate SeenFrom(w: World, v: World) {
      forall e :: e in removals ==> Sees(w, After(v), e.ExploredFrom())
    }

    /** The removals together are harmless. */
    ghost predicate Harmless(v: World) {
      ClusterViews.Harmless(AfterAll(v, early).Painted(), Gone(removals), Explored(removals))
    }
  }

  method SettleAll(s: SimpleCluster, cls: Clusters, start: World, events: seq<Event>) returns (v: World)
    requires Follows(cls, start, s.group) && AllPossible(start, events) && AllCalm(start, events)
    modifies cls, cls.clusters.Values
    ensures v == AfterAll(start, events) && Follows(cls, v, s.group)
    ensures OthersKept(old(cls.Abs()), cls.Abs(), s.group)
    ensures fresh(cls.clusters.Values - old(cls.clusters.Values))
  {
    hide Follows, OthersKept, Event.Calm;
    v := start;
    NothingChanged(cls.Abs(), s.group);
    for n := 0 to |events|
      invariant v == AfterAll(start, events[..n]) && Follows(cls, v, s.group)
      invariant OthersKept(old(cls.Abs()), cls.Abs(), s.group)
      invariant fresh(cls.clusters.Values - old(cls.clusters.Values))
    {
      ghost var between := cls.Abs();
      PrefixRuns(start, events, n + 1);
      OneMore(events, n);
      CalmStays(v, events[n]);
      v := Settle(s, cls, v, events[n]);
      KeptTwice(old(cls.Abs()), between, cls.Abs(), s.group);
    }
    assert events[..|events|] == events;
  }

  lemma CalmStays(w: World, e: Event)
    requires e.Calm(w)
    ensures !e.Removed?
  {
  }

  /**
   A stretch of a queue, handled in the world `w`: the clusters are the components afterwards
   exactly when the removals together are harmless.
   */
  method DrainStretch(s: SimpleCluster, cls: Clusters, w: World, v: World, x: Stretch) returns (after: World)
    requires Follows(cls, v, s.group) && w.Valid() && x.Possible(v) && AllCalm(v, x.early) && x.SeenFrom(w, v)
    modifies cls, cls.clusters.Values
    ensures after == x.After(v)
    ensures Follows(cls, after, s.group) <==> x.Harmless(v)
    ensures OthersKept(old(cls.Abs()), cls.Abs(), s.group)
    ensures fresh(cls.clusters.Values - old(cls.clusters.Values))
  {
    hide Follows, OthersKept, Sweeping, Sees, AfterAll, Explored, Gone, ClusterViews.Harmless;
    var between := SettleAll(s, cls, v, x.early);
    ghost var m := cls.Abs();
    after := RemoveAll(s, cls, w, between, x.removals);
    KeptTwice(old(cls.Abs()), m, cls.Abs(), s.group);
  }

  function AfterQueue(v: World, queue: seq<Stretch>): World {
    if queue == [] then v else queue[|queue| - 1].After(AfterQueue(v, queue[..|queue| - 1]))
  }

  /** Every stretch of the queue is possible, calm and harmless, and seen as it was from the world `w`. */
  ghost predicate Smooth(w: World, v: World, queue: seq<Stretch>) {
    queue == [] ||
    (Smooth(w, v, queue[..|queue| - 1]) && Clean(w, AfterQueue(v, queue[..|queue| - 1]), queue[|queue| - 1]))
  }

  ghost predicate Clean(w: World, v: World, x: Stretch) {
    x.Possible(v) && AllCalm(v, x.early) && x.SeenFrom(w, v) && x.Harmless(v)
  }

  lemma {:induction false} QueueBegins(w: World, v: World, queue: seq<Stretch>, n: nat)
    requires Smooth(w, v, queue) && n < |queue|
    ensures Clean(w, AfterQueue(v, queue[..n]), queue[n])
    ensures AfterQueue(v, queue[..n + 1]) == queue[n].After(AfterQueue(v, queue[..n]))
  {
    assert queue[..n + 1][..n] == queue[..n];
    if n < |queue| - 1 {
      QueueBegins(w, v, queue[..|queue| - 1], n);
      assert queue[..|queue| - 1][..n] == queue[..n];
    }
  }

  /** A queue is worked off in the world that its events have led to. */
  method Drain(s: SimpleCluster, cls: Clusters, w: World, start: World, queue: seq<Stretch>)
    requires Follows(cls, start, s.group) && w.Valid() && w == AfterQueue(start, queue) && Smooth(w, start, queue)
    modifies cls, cls.clusters.Values
    ensures Follows(cls, w, s.group)
    ensures OthersKept(old(cls.Abs()), cls.Abs(), s.group)
    ensures fresh(cls.clusters.Values - old(cls.clusters.Values))
  {
    hide Follows, OthersKept, Stretch.After, Stretch.Possible, Stretch.SeenFrom, Stretch.Harmless, AllCalm;
    var v := start;
    NothingChanged(cls.Abs(), s.group);
    for n := 0 to |queue|
      invariant v == AfterQueue(start, queue[..n]) && Follows(cls, v, s.group)
      invariant OthersKept(old(cls.Abs()), cls.Abs(), s.group)
      invariant fresh(cls.clusters.Values - old(cls.clusters.Values))
    {
      ghost var between := cls.Abs();
      QueueBegins(w, start, queue, n);
      v := DrainStretch(s, cls, w, v, queue[n]);
      KeptTwice(old(cls.Abs()), between, cls.Abs(), s.group);
    }
    assert queue[..|queue|] == queue;
  }

  function AfterRun(w: World, queues: seq<seq<Stretch>>): World
    decreases |queues|
  {
    if queues == [] then w else AfterRun(AfterQueue(w, queues[0]), queues[1..])
  }

  ghost predicate AllSmooth(w: World, queues: seq<seq<Stretch>>)
    decreases |queues|
  {
    queues == [] || (Smooth(AfterQueue(w, queues[0]), w, queues[0]) && AllSmooth(AfterQueue(w, queues[0]), queues[1..]))
  }

  lemma {:induction false} QueueKeepsValid(v: World, queue: seq<Stretch>, w: World)
    requires v.Valid() && Smooth(w, v, queue)
    ensures AfterQueue(v, queue).Valid()
  {
    hide World.Valid;
    if queue != [] {
      var x := queue[|queue| - 1];
      var u := AfterQueue(v, queue[..|queue| - 1]);
      QueueKeepsValid(v, queue[..|queue| - 1], w);
      RunKeepsValid(u, x.early);
      RunKeepsValid(AfterAll(u, x.early), x.removals);
    }
  }

  lemma {:induction false} RunKeepsValid(v: World, events: seq<Event>)
    requires v.Valid() && AllPossible(v, events)
    ensures AfterAll(v, events).Valid()
  {
    hide World.Valid, Event.Possible;
    if events != [] {
      RunKeepsValid(v, events[..|events| - 1]);
      PaintedAfter(AfterAll(v, events[..|events| - 1]), events[|events| - 1]);
    }
  }

  /** Two nodes of the world are in one cluster exactly when a route joins them. */
  lemma FollowsMeans(cls: Clusters, w: World, group: string, p: Vec, q: Vec)
    requires Follows(cls, w, group)
    ensures Together(cls.Abs(), group, p, q) <==> RouteJoins(w, p, q)
  {
    TogetherIsJoined(w, cls.Abs(), group, p, q);
  }

  /**
   Between any two ticks any events are queued. If every stretch is smooth, the clusters of the
   group are the components of its nodes after every tick, and all indexes of the registry are
   exact.
   */
  method RunAll(s: SimpleCluster, cls: Clusters, start: World, queues: seq<seq<Stretch>>) returns (w: World)
    requires Follows(cls, start, s.group) && AllSmooth(start, queues)
    modifies cls, cls.clusters.Values
    ensures w == AfterRun(start, queues) && Follows(cls, w, s.group)
    ensures forall p, q :: Together(cls.Abs(), s.group, p, q) <==> RouteJoins(w, p, q)
    ensures OthersKept(old(cls.Abs()), cls.Abs(), s.group)
  {
    hide InStep, World.Painted, World.Valid, Clusters.Valid, Clusters.Exact, OthersKept, AfterQueue, Smooth, Together,
         RouteJoins;
    w := start;
    assert queues[0..] == queues;
    NothingChanged(cls.Abs(), s.group);
    for i := 0 to |queues|
      invariant Follows(cls, w, s.group) && fresh(cls.clusters.Values - old(cls.clusters.Values))
      invariant AllSmooth(w, queues[i..]) && AfterRun(w, queues[i..]) == AfterRun(start, queues)
      invariant OthersKept(old(cls.Abs()), cls.Abs(), s.group)
    {
      assert queues[i..][1..] == queues[i + 1..];
      ghost var between := cls.Abs();
      var next := AfterQueue(w, queues[i]);
      QueueKeepsValid(w, queues[i], next);
      Drain(s, cls, next, w, queues[i]);
      w := next;
      KeptTwice(old(cls.Abs()), between, cls.Abs(), s.group);
    }
    forall p, q ensures Together(cls.Abs(), s.group, p, q) <==> RouteJoins(w, p, q) {
      FollowsMeans(cls, w, s.group, p, q);
    }
  }

  /**
   One event, handled at once: the clusters are the components afterwards exactly when a removal
   is harmless and a node that is loaded has a neighbour, and an exchange keeps them for every
   cluster that may be picked exactly when it is safe.
   */
  method Handle(s: SimpleCluster, cls: Clusters, w: World, e: Event) returns (after: World)
    requires Follows(cls, w, s.group) && e.Possible(w)
    modifies cls, cls.clusters.Values
    ensures after == e.After(w)
    ensures e.Removed? ==>
      (Follows(cls, after, s.group) <==> ClusterViews.Harmless(w.Painted(), {e.pos}, e.ExploredFrom()))
    ensures e.Removed? ==>
      cls.Valid() && cls.Exact() && Sweeping(after, cls.Abs(), s.group, w.Painted(), {e.pos}, {e.pos}, e.ExploredFrom())
    ensures e.Placed? ==> Follows(cls, after, s.group)
    ensures e.Loaded? ==> (Follows(cls, after, s.group) <==> Linked(w.Painted(), e.pos))
    ensures e.Loaded? && !Linked(w.Painted(), e.pos) ==> !AtMostOne(cls.Abs(), s.group, e.pos)
    ensures e.Updated? ==>
      (UpdateIsSafe(w, old(cls.Abs()), s.group, e) <==>
      forall n :: MayBecome(old(cls.Abs()), s.group, e.Reported(w), n) ==> InStep(after, n, s.group))
    ensures e.Updated? ==> MayBecome(old(cls.Abs()), s.group, e.Reported(w), cls.Abs())
    ensures e.Updated? ==> (Follows(cls, after, s.group) <==> InStep(after, cls.Abs(), s.group))
    ensures OthersKept(old(cls.Abs()), cls.Abs(), s.group)
    ensures fresh(cls.clusters.Values - old(cls.clusters.Values))
  {
    after := e.After(w);
    if e.Removed? {
      OneEvent(w, e);
      AfterIsValid(w, e);
      hide Follows, OthersKept, Sweeping, Sees, AfterAll, Explored, Gone, ClusterViews.Harmless, World.Valid,
        World.Painted;
      var _ := RemoveAll(s, cls, after, w, [e]);
    } else {
      hide Follows, OthersKept, Sweeping, ClusterViews.Harmless, World.Painted, Linked, InStep, MayBecome, UpdateIsSafe;
      after := Settle(s, cls, w, e);
    }
  }

  lemma OneEvent(w: World, e: Event)
    requires e.Possible(w)
    ensures AllPossible(w, [e]) && AfterAll(w, [e]) == e.After(w)
    ensures Gone([e]) == {e.pos} && Explored([e]) == e.ExploredFrom()
  {
    assert [e][..0] == [];
  }

  lemma AfterIsValid(w: World, e: Event)
    requires w.Valid() && e.Possible(w)
    ensures e.After(w).Valid()
  {
    PaintedAfter(w, e);
  }
}
