/**
 What the handlers of additions, updates and removals do to the contents of the registry: which
 clusters they pick, and when the clusters of the group are the components afterwards.
 */
module HandlerEffects {
  import opened Grid
  import opened Graphs
  import opened Clusterings
  import opened Sweeps
  import opened Worlds
  import opened Buckets
  import opened ClusterNodes
  import opened ClusterRegistry
  import opened ClusterViews

  ghost predicate MetBySome(k: Clustering, branches: Clustering, i: nat) {
    exists j :: j in branches && Meets(k, branches[j], i)
  }

  /** If a branch has nodes in clusters, one of these clusters is among the given ones. */
  ghost predicate HasItsOne(k: Clustering, branch: set<Vec>, ids: set<nat>) {
    (exists i :: Meets(k, branch, i)) ==> exists i :: i in ids && Meets(k, branch, i)
  }

  lemma OneMore(k: Clustering, branch: set<Vec>, ids: set<nat>, id: nat)
    requires HasItsOne(k, branch, ids)
    ensures HasItsOne(k, branch, ids + {id})
  {
  }

  lemma FoundOne(k: Clustering, branches: Clustering, j: nat, ids: set<nat>, id: nat)
    requires j in branches && Meets(k, branches[j], id)
    ensures HasItsOne(k, branches[j], ids + {id}) && MetBySome(k, branches, id) && id in k
  {
  }

  lemma FoundNone(k: Clustering, branch: set<Vec>, ids: set<nat>)
    requires forall i :: !Meets(k, branch, i)
    ensures HasItsOne(k, branch, ids)
  {
  }

  lemma FoundAll(k: Clustering, branches: Clustering, ids: set<nat>)
    requires forall i :: i in ids ==> MetBySome(k, branches, i)
    requires forall j :: j in branches ==> HasItsOne(k, branches[j], ids)
    ensures Affected(k, branches, ids)
  {
    forall j | j in branches ensures HasItsOne(k, branches[j], ids) {
    }
  }

  /** An entry may be overwritten: it keeps its name, or the new groups include the old ones. */
  ghost predicate MayReplace(m: Contents, group: string, e: Entry) {
    forall i :: HeldIn(m, group, e.pos, i) ==> MayAdd(m[i].nodes, e.pos, e.node, e.groups)
  }

  /** Every registered entry was so before, or is the given one. */
  ghost predicate InheritsWith(m: Contents, n: Contents, group: string, e: Entry) {
    forall i, p ::
      HeldIn(n, group, p, i) ==> EntryFrom(m, group, p, n[i].nodes[p]) || (p == e.pos && n[i].nodes[p] == e)
  }

  /** Every registered entry was so before, or shows a node as it is in the world. */
  ghost predicate InheritsFrom(w: World, m: Contents, n: Contents, group: string) {
    forall i, p :: HeldIn(n, group, p, i) ==> EntryFrom(m, group, p, n[i].nodes[p]) || n[i].nodes[p] == WorldEntry(w, p)
  }

  /** The cluster `id` takes the place of the clusters `ids`, with their nodes and the groups given. */
  datatype Joining = Joining(ids: set<nat>, id: nat, groups: Groups, nodes: Nodes) {
    ghost predicate Of(m: Contents, group: string) {
      && group in groups && (Rated(m, group) ==> groups[group] > 0) && (id in m ==> id in ids)
      && ids <= View(m, group).Keys && Gathered(m, ids, nodes)
      && (forall i :: ids == {i} ==> id == i && i in m && Data(groups, nodes) == m[i])
    }

    /** The contents after `add_node` of an entry to that cluster. */
    function Contents(m: Contents, e: Entry): Contents {
      (m - ids)[id := Data(groups, Added(nodes, e.pos, e.node, e.groups))]
    }
  }

  lemma FoundAreApart(w: World, m: Contents, group: string, paint: Painting, pos: Vec, node: Node, given: set<nat>,
                      found: map<Dir, nat>)
    requires Tracks(w, m, group, paint) && given == View(m, group).Keys && Neighbours(w, m, pos, node, given, found)
    ensures found.Values <= View(m, group).Keys
    ensures forall i, j :: i in found.Values && j in found.Values && i != j ==> View(m, group)[i] !! View(m, group)[j]
  {
    hide ColorGraph, Graphs.Component;
  }

  lemma AddedInherits(m: Contents, group: string, u: Joining, e: Entry)
    requires u.Of(m, group)
    ensures InheritsWith(m, u.Contents(m, e), group, e)
    ensures Rated(m, group) ==> Rated(u.Contents(m, e), group)
  {
    AddedRated(m, group, u, e);
    var n := u.Contents(m, e);
    forall i, p | HeldIn(n, group, p, i) && !(p == e.pos && n[i].nodes[p] == e)
      ensures EntryFrom(m, group, p, n[i].nodes[p])
    {
      if i == u.id {
        var j :| j in u.ids && Holds(m, p, j) && m[j].nodes[p] == u.nodes[p];
        assert HeldIn(m, group, p, j);
      } else {
        assert HeldIn(m, group, p, i);
      }
    }
  }

  lemma AddedRated(m: Contents, group: string, u: Joining, e: Entry)
    requires u.Of(m, group)
    ensures Rated(m, group) ==> Rated(u.Contents(m, e), group)
  {
    hide Added, Gathered;
    var n := u.Contents(m, e);
    if Rated(m, group) {
      forall i | HasClusterGroup(n, group, i) ensures MayPick(n, group, i) {
        assert i != u.id ==> HasClusterGroup(m, group, i);
      }
    }
  }

  lemma NewIsRight(w: World, m: Contents, group: string, paint: Painting, given: set<nat>, found: map<Dir, nat>,
                   u: Joining, e: Entry)
    requires Tracks(w, m, group, paint) && e.pos !in paint && given == View(m, group).Keys
    requires Neighbours(w, m, e.pos, e.node, given, found) && u.Of(m, group) && u.ids == found.Values
    ensures var n := u.Contents(m, e);
      Tracks(w, n, group, paint[e.pos := w.NodeColor(e.node)]) && OthersKept(m, n, group)
    ensures MayAdd(u.nodes, e.pos, e.node, e.groups)
  {
    hide Tracks, Neighbours, Gathered, OthersKept, Touches;
    NewIsNotGathered(w, m, group, paint, u.ids, u.nodes, e.pos);
    NeighboursAreGiven(w, m, group, paint, e.pos, e.node, given, found);
    JoiningTracks(w, m, group, paint, u.ids, u.id, u.groups, u.nodes, e);
  }

  /**
   A registered node, possibly with another colour: the clusters are the components afterwards if
   and only if it has a link into its old component and that one still hangs together.
   */
  lemma LoadedIsRight(w: World, m: Contents, group: string, paint: Painting, given: set<nat>, found: map<Dir, nat>,
                      u: Joining, e: Entry)
    requires Tracks(w, m, group, paint) && e.pos in paint && given == View(m, group).Keys
    requires Neighbours(w, m, e.pos, e.node, given, found) && u.Of(m, group) && u.ids == found.Values
    ensures var c, n := w.NodeColor(e.node), u.Contents(m, e);
      && (Tracks(w, n, group, paint[e.pos := c]) <==> Rejoins(paint, e.pos, c)) && OthersKept(m, n, group)
      && (!TouchesHome(paint, e.pos, c) ==> !AtMostOne(n, group, e.pos))
    ensures MayAdd(u.nodes, e.pos, e.node, e.groups) <==>
      (TouchesHome(paint, e.pos, w.NodeColor(e.node)) ==> MayReplace(m, group, e))
  {
    hide Shows, Partitioned, Neighbours, OthersKept, View, MayAdd, Added, MayReplace, AtMostOne, Joining.Of,
         TouchesHome, Rejoins, ColorGraph, Touches, Joined, Relinked;
    var c := w.NodeColor(e.node);
    var n := u.Contents(m, e);
    var home := RegisteredAt(w, m, group, paint, e.pos);
    NeighboursAreGiven(w, m, group, paint, e.pos, e.node, given, found);
    HomeDecides(w, m, group, paint, e.pos, c, home);
    AddedView(m, group, u, e);
    AddedOthers(m, group, u, e);
    PaintRelinks(paint, e.pos, c);
    RejoiningKeepsComponents(ColorGraph(paint), ColorGraph(paint[e.pos := c]), View(m, group), View(n, group),
                             u.ids, u.id, e.pos, home);
    HomeIsTaken(w, m, group, paint, u, e, home);
    TracksApart(w, m, group, paint, e.pos);
    if home in u.ids {
      AddedShows(w, m, group, paint, u, e, home);
    } else {
      SecondHome(m, group, u, e, home);
    }
  }

  lemma RegisteredAt(w: World, m: Contents, group: string, paint: Painting, pos: Vec) returns (home: nat)
    requires Tracks(w, m, group, paint) && pos in paint
    ensures HeldIn(m, group, pos, home) && home in View(m, group) && pos in View(m, group)[home]
  {
    hide ColorGraph, Partitioned;
    home :| HeldIn(m, group, pos, home);
  }

  lemma AddedView(m: Contents, group: string, u: Joining, e: Entry)
    requires u.Of(m, group)
    ensures Joined(View(m, group), View(u.Contents(m, e), group), u.ids, u.id, e.pos)
    ensures u.ids <= View(m, group).Keys
  {
    hide View, Gathered, UnionOf;
    GatheredIsUnion(m, group, u.ids, u.nodes);
    AddedKeys(u.nodes, e);
    ViewWithout(m, group, u.ids);
    ViewWith(m - u.ids, group, u.id, Data(u.groups, Added(u.nodes, e.pos, e.node, e.groups)));
    ViewKeys(m, group, u.id);
  }

  lemma AddedKeys(nodes: Nodes, e: Entry)
    ensures Added(nodes, e.pos, e.node, e.groups).Keys == nodes.Keys + {e.pos}
  {
    assert nodes[e.pos := e].Keys == nodes.Keys + {e.pos};
  }

  lemma AddedOthers(m: Contents, group: string, u: Joining, e: Entry)
    requires u.Of(m, group)
    ensures OthersKept(m, u.Contents(m, e), group)
  {
    hide Gathered, Added;
  }

  /** The entry of the node is among those gathered if and only if its cluster was found. */
  lemma HomeIsTaken(w: World, m: Contents, group: string, paint: Painting, u: Joining,
                    e: Entry, home: nat)
    requires Tracks(w, m, group, paint) && HeldIn(m, group, e.pos, home) && u.Of(m, group)
    ensures e.pos in u.nodes <==> home in u.ids
    ensures home in u.ids ==> u.nodes[e.pos] == m[home].nodes[e.pos]
    ensures MayAdd(u.nodes, e.pos, e.node, e.groups) <==> (home in u.ids ==> MayReplace(m, group, e))
  {
    TracksApart(w, m, group, paint, e.pos);
    hide Tracks;
    forall i | i in u.ids && Holds(m, e.pos, i) ensures i == home {
      assert HeldIn(m, group, e.pos, i);
    }
    assert home in u.ids ==> Holds(m, e.pos, home);
  }

  /** What is registered after joining has the colours of the painting. */
  lemma AddedShows(w: World, m: Contents, group: string, paint: Painting, u: Joining,
                   e: Entry, home: nat)
    requires Shows(w, m, group, paint) && AtMostOne(m, group, e.pos) && u.Of(m, group)
    requires home in u.ids && HeldIn(m, group, e.pos, home) && e.pos in u.nodes &&
      u.nodes[e.pos] == m[home].nodes[e.pos]
    ensures Shows(w, u.Contents(m, e), group, paint[e.pos := w.NodeColor(e.node)])
  {
    var n := u.Contents(m, e);
    var c := w.NodeColor(e.node);
    hide Shows, Joining.Of, Joining.Contents;
    forall i, p | HeldIn(n, group, p, i)
      ensures p in paint[e.pos := c] && w.NodeColor(n[i].nodes[p].node) == paint[e.pos := c][p]
    {
      AddedHolds(w, m, group, paint, u, e, home, p, i);
    }
    forall p | p in paint[e.pos := c] ensures Registered(n, group, p) {
      AddedRegisters(w, m, group, paint, u, e, p);
    }
    MeansShows(w, n, group, paint[e.pos := c]);
  }

  lemma AddedHolds(w: World, m: Contents, group: string, paint: Painting, u: Joining,
                   e: Entry, home: nat, p: Vec, i: nat)
    requires Shows(w, m, group, paint) && AtMostOne(m, group, e.pos) && u.Of(m, group)
    requires home in u.ids && HeldIn(m, group, e.pos, home) && e.pos in u.nodes &&
      u.nodes[e.pos] == m[home].nodes[e.pos]
    requires HeldIn(u.Contents(m, e), group, p, i)
    ensures p in paint && w.NodeColor(u.Contents(m, e)[i].nodes[p].node) ==
      paint[e.pos := w.NodeColor(e.node)][p]
  {
    if i != u.id {
      assert HeldIn(m, group, p, i);
    } else if p != e.pos {
      var j :| j in u.ids && Holds(m, p, j) && m[j].nodes[p] == u.nodes[p];
      assert HeldIn(m, group, p, j);
    }
  }

  lemma AddedRegisters(w: World, m: Contents, group: string, paint: Painting, u: Joining,
                       e: Entry, p: Vec)
    requires Shows(w, m, group, paint) && u.Of(m, group) && (p in paint || p == e.pos)
    ensures Registered(u.Contents(m, e), group, p)
  {
    var n := u.Contents(m, e);
    AddedKeys(u.nodes, e);
    HeldAfter(m, group, u.ids, u.id, u.groups, Added(u.nodes, e.pos, e.node, e.groups), p);
    hide Joining.Contents, HeldIn, Added;
    if p == e.pos {
      assert HeldIn(n, group, p, u.id);
    } else {
      var i :| HeldIn(m, group, p, i);
      hide Shows;
      if i in u.ids {
        GatheredHas(m, group, u.ids, u.nodes, p, i);
        assert HeldIn(n, group, p, u.id);
      } else {
        assert HeldIn(n, group, p, i);
      }
    }
  }

  lemma GatheredHas(m: Contents, group: string, ids: set<nat>, nodes: Nodes, p: Vec, i: nat)
    requires Gathered(m, ids, nodes) && i in ids && HeldIn(m, group, p, i)
    ensures p in nodes
  {
  }

  lemma HeldAfter(m: Contents, group: string, ids: set<nat>, id: nat, gs: Groups, nodes: Nodes, p: Vec)
    requires group in gs && (id in m ==> id in ids)
    ensures p in nodes ==> HeldIn((m - ids)[id := Data(gs, nodes)], group, p, id)
    ensures forall i :: HeldIn(m, group, p, i) && i !in ids ==> HeldIn((m - ids)[id := Data(gs, nodes)], group, p, i)
  {
  }

  /** A registered node that goes to another cluster is in two. */
  lemma SecondHome(m: Contents, group: string, u: Joining, e: Entry, home: nat)
    requires HeldIn(m, group, e.pos, home) && home !in u.ids && u.Of(m, group)
    ensures !AtMostOne(u.Contents(m, e), group, e.pos)
  {
    var n := u.Contents(m, e);
    AddedKeys(u.nodes, e);
    hide Added;
    assert HeldIn(n, group, e.pos, home) && HeldIn(n, group, e.pos, u.id);
  }

  lemma NothingToGather(m: Contents, ids: set<nat>)
    requires ids == {}
    ensures Gathered(m, ids, map[])
  {
  }

  lemma GivenAreThere(cls: Clusters, group: string)
    requires cls.Valid()
    ensures Bucket(cls.groupClusters, group).Keys <= cls.clusters.Keys
  {
    GivenAreOfGroup(cls, group);
  }

  /** The contents after an update that picked the cluster `i`. */
  function UpdatedBy(m: Contents, i: nat, e: Entry): Contents {
    if Holds(m, e.pos, i) then Rewritten(m, i, m[i].nodes[e.pos := e]) else m
  }

  /** What an update may leave; which of them depends on the order of a table. */
  ghost predicate MayBecome(m: Contents, group: string, e: Entry, n: Contents) {
    (exists i :: MayPick(m, group, i) && n == UpdatedBy(m, i, e)) || (n == m && forall i :: !MayPick(m, group, i))
  }

  /** Only clusters that hold the node can be picked. */
  ghost predicate SurelyHit(m: Contents, group: string, pos: Vec) {
    forall i :: MayPick(m, group, i) ==> Holds(m, pos, i)
  }

  /** When an update keeps the clusters the components, whatever is picked. */
  ghost predicate UpdateKeeps(m: Contents, group: string, paint: Painting, pos: Vec, c: Color)
    requires pos in paint
  {
    c == paint[pos] || (SurelyHit(m, group, pos) && SameParts(paint, paint[pos := c]))
  }

  lemma PickedIsOfGroup(m: Contents, group: string, i: nat)
    requires MayPick(m, group, i)
    ensures i in m && i in View(m, group)
  {
  }

  lemma NothingToPick(m: Contents, group: string, given: set<nat>)
    requires given == View(m, group).Keys && forall i :: i in given ==> !MayPick(m, group, i)
    ensures forall i :: !MayPick(m, group, i)
  {
    forall i ensures !MayPick(m, group, i) {
      assert MayPick(m, group, i) ==> i in View(m, group);
    }
  }

  lemma IsUpdatedBy(m: Contents, i: nat, e: Entry)
    requires i in m
    ensures UpdatedBy(m, i, e) ==
      if e.pos in m[i].nodes then m[i := Data(m[i].groups, m[i].nodes[e.pos := e])] else m
  {
  }

  /** One pick decides by the colour, whether it hits, and whether the new colour matters. */
  lemma PickIsRight(w: World, m: Contents, group: string, paint: Painting, i: nat, e: Entry)
    requires Tracks(w, m, group, paint) && e.pos in paint && MayPick(m, group, i)
    ensures Tracks(w, UpdatedBy(m, i, e), group, paint[e.pos := w.NodeColor(e.node)]) <==>
      w.NodeColor(e.node) == paint[e.pos] ||
      (Holds(m, e.pos, i) && SameParts(paint, paint[e.pos := w.NodeColor(e.node)]))
  {
    hide ColorGraph, Partitioned, View;
    var c := w.NodeColor(e.node);
    assert c == paint[e.pos] ==> paint[e.pos := c] == paint;
    if Holds(m, e.pos, i) {
      RewritingTracks(w, m, group, paint, e.pos, i, m[i].nodes[e.pos := e], c);
    } else if c != paint[e.pos] {
      var j :| HeldIn(m, group, e.pos, j);
    }
  }

  /** The clusters stay the components whatever is picked, if and only if `UpdateKeeps`. */
  lemma UpdateDecides(w: World, m: Contents, group: string, paint: Painting, e: Entry)
    requires Tracks(w, m, group, paint) && e.pos in paint && Rated(m, group)
    ensures (forall n :: MayBecome(m, group, e, n) ==> Tracks(w, n, group, paint[e.pos := w.NodeColor(e.node)])) <==>
      UpdateKeeps(m, group, paint, e.pos, w.NodeColor(e.node))
  {
    hide Tracks, SameParts, Rated, MayPick, HeldIn, UpdatedBy, MayBecome;
    var c := w.NodeColor(e.node);
    var home := HomeMayBePicked(w, m, group, paint, e.pos);
    if forall n :: MayBecome(m, group, e, n) ==> Tracks(w, n, group, paint[e.pos := c]) {
      forall i | MayPick(m, group, i)
        ensures c == paint[e.pos] || (Holds(m, e.pos, i) && SameParts(paint, paint[e.pos := c]))
      {
        PickIsOutcome(m, group, e, i);
        PickIsRight(w, m, group, paint, i, e);
      }
    }
    if UpdateKeeps(m, group, paint, e.pos, c) {
      forall n | MayBecome(m, group, e, n) ensures Tracks(w, n, group, paint[e.pos := c]) {
        var i := OutcomeIsPick(m, group, e, n, home);
        PickIsRight(w, m, group, paint, i, e);
      }
    }
  }

  lemma PickIsOutcome(m: Contents, group: string, e: Entry, i: nat)
    requires MayPick(m, group, i)
    ensures MayBecome(m, group, e, UpdatedBy(m, i, e))
  {
  }

  lemma OutcomeIsPick(m: Contents, group: string, e: Entry, n: Contents, some: nat) returns (i: nat)
    requires MayBecome(m, group, e, n) && MayPick(m, group, some)
    ensures MayPick(m, group, i) && n == UpdatedBy(m, i, e)
  {
    i :| MayPick(m, group, i) && n == UpdatedBy(m, i, e);
  }

  lemma HomeMayBePicked(w: World, m: Contents, group: string, paint: Painting, pos: Vec) returns (home: nat)
    requires Tracks(w, m, group, paint) && pos in paint && Rated(m, group)
    ensures MayPick(m, group, home) && Holds(m, pos, home)
  {
    hide ColorGraph, Partitioned;
    home :| HeldIn(m, group, pos, home);
    assert HasClusterGroup(m, group, home);
  }

  lemma UpdatedRest(m: Contents, group: string, e: Entry, n: Contents)
    requires MayBecome(m, group, e, n)
    ensures OthersKept(m, n, group) && InheritsWith(m, n, group, e) && (Rated(m, group) ==> Rated(n, group))
  {
    forall i, p | HeldIn(n, group, p, i) && !(p == e.pos && n[i].nodes[p] == e)
      ensures EntryFrom(m, group, p, n[i].nodes[p])
    {
      assert HeldIn(m, group, p, i);
    }
    forall i | HasClusterGroup(n, group, i) ensures HasClusterGroup(m, group, i) && n[i].groups == m[i].groups {
    }
  }

  /** What can be explored from some origins is the same in both worlds. */
  ghost predicate Sees(w: World, v: World, origins: set<Vec>) {
    && w.defs == v.defs && w.group == v.group
    && (forall d ::
      d * origins != {} ==> (Component(ColorGraph(w.Painted()), d) <==> Component(ColorGraph(v.Painted()), d)))
    && (forall d, q ::
      d * origins != {} && Component(ColorGraph(v.Painted()), d) && q in d ==> w.GetNode(q) == v.GetNode(q))
  }

  lemma SeenIsScanned(w: World, v: World, m: Contents, s: Split, origins: set<Vec>)
    requires Sees(w, v, origins) && Scanned(ColorGraph(w.Painted()), origins, s.b)
    ensures Scanned(ColorGraph(v.Painted()), origins, s.b) && s.Contents(w, m) == s.Contents(v, m)
  {
    hide ColorGraph, World.Painted, Component, Detached;
    ColorGraphUndirected(v.Painted());
    forall x | x in origins && x in ColorGraph(v.Painted()).nodes ensures Covered(s.b, x) {
      var d := ComponentOf(ColorGraph(v.Painted()), x);
      assert x in d * origins;
      ComponentHas(ColorGraph(w.Painted()), d, x);
    }
    SameBuilt(w, v, s);
  }

  lemma ComponentHas(g: Graph, d: set<Vec>, x: Vec)
    requires Component(g, d) && x in d
    ensures x in g.nodes
  {
  }

  lemma SameBuilt(w: World, v: World, s: Split)
    requires w.defs == v.defs && forall j, q :: j in s.b && q in s.b[j] ==> w.GetNode(q) == v.GetNode(q)
    ensures Built(w, s.groups, s.b, s.made) == Built(v, s.groups, s.b, s.made)
  {
    hide BranchNodes;
    forall j | j in s.b ensures BranchNodes(w, s.b[j]) == BranchNodes(v, s.b[j]) {
      SameNodesSeen(w, v, s.b[j]);
    }
  }

  lemma SameNodesSeen(w: World, v: World, x: set<Vec>)
    requires w.defs == v.defs && forall q :: q in x ==> w.GetNode(q) == v.GetNode(q)
    ensures BranchNodes(w, x) == BranchNodes(v, x)
  {
    forall q | q in x ensures WorldEntry(w, q) == WorldEntry(v, q) {
    }
  }

  lemma SeenIsGone(v: World, s: Split, paint: Painting, gone: set<Vec>, origins: set<Vec>)
    requires v.Painted() == paint - gone && Scanned(ColorGraph(v.Painted()), origins, s.b)
    ensures Scanned(ColorGraph(paint - gone), origins, s.b)
    ensures forall j, q :: j in s.b && q in s.b[j] ==> q in paint && v.NodeColor(v.GetNode(q)) == paint[q]
  {
    forall j, q | j in s.b && q in s.b[j] ensures q in v.Painted() && v.Painted()[q] == paint[q] {
      assert Component(ColorGraph(v.Painted()), s.b[j]);
    }
  }

  lemma SplitInherits(w: World, m: Contents, s: Split)
    requires s.Of(m)
    ensures InheritsFrom(w, m, s.Contents(w, m), s.group)
  {
    hide Split.Of, Split.Contents;
    var n := s.Contents(w, m);
    forall i, p | HeldIn(n, s.group, p, i)
      ensures EntryFrom(m, s.group, p, n[i].nodes[p]) || n[i].nodes[p] == WorldEntry(w, p)
    {
      SplitHolds(w, m, s, p, i);
    }
  }

  /* Listings. */

  lemma LiveMeets(cls: Clusters, group: string, nodes: set<Vec>, q: Vec, i: nat)
    requires cls.Valid() && cls.Live(nodes) && q in nodes && Listed(cls.nodeClusters, q, i)
    requires HasClusterGroup(cls.Abs(), group, i)
    ensures Meets(View(cls.Abs(), group), nodes, i)
  {
    hide Clusters.Valid;
    assert Holds(cls.Abs(), q, i);
    assert q in nodes * View(cls.Abs(), group)[i];
  }

  lemma UnlistedMeetsNone(cls: Clusters, group: string, nodes: set<Vec>)
    requires cls.Valid()
    requires forall q, i :: q in nodes && Listed(cls.nodeClusters, q, i) ==> !HasClusterGroup(cls.Abs(), group, i)
    ensures forall i :: !Meets(View(cls.Abs(), group), nodes, i)
  {
    hide Clusters.Objects;
    forall i, q | q in nodes ensures !HeldIn(cls.Abs(), group, q, i) {
      assert Holds(cls.Abs(), q, i) ==> Listed(cls.nodeClusters, q, i);
    }
    forall i, q | i in View(cls.Abs(), group) && q in nodes ensures q !in View(cls.Abs(), group)[i] {
      assert !HeldIn(cls.Abs(), group, q, i);
    }
  }

  lemma FewerAreLive(cls: Clusters, ps: set<Vec>, qs: set<Vec>)
    requires cls.Live(ps) && qs <= ps
    ensures cls.Live(qs)
  {
  }

  lemma AddedIsLive(cls: Clusters, id: nat, q: Vec, nodes: Nodes, ps: set<Vec>)
    requires cls.Valid() && cls.Live(ps) && id in cls.clusters && q in nodes &&
      cls.clusters[id].nodes.Keys <= nodes.Keys
    ensures LiveOn(cls.Abs()[id := Data(cls.clusters[id].groups, nodes)], Put(cls.nodeClusters, q, id, true),
      cls.lastId, ps)
  {
    hide Clusters.Mirrored;
    cls.IdsAreOld();
    LiveAdded(cls.Abs(), cls.nodeClusters, cls.lastId, ps, id, q, nodes);
  }

  /** The positions `ps` include all that a search from `origins` finds. */
  ghost predicate CoversSearch(w: World, origins: set<Vec>, ps: set<Vec>) {
    forall d :: Component(ColorGraph(w.Painted()), d) && d * origins != {} ==> d <= ps
  }

  lemma BranchesAreCovered(w: World, origins: set<Vec>, ps: set<Vec>, b: Clustering)
    requires CoversSearch(w, origins, ps) && Scanned(ColorGraph(w.Painted()), origins, b)
    ensures forall j :: j in b ==> b[j] <= ps
  {
  }

  /** All nodes of the group do. */
  lemma AllCoverSearch(w: World, origins: set<Vec>, pos: Vec)
    ensures CoversSearch(w, origins, w.Painted().Keys + {pos})
  {
  }
}
