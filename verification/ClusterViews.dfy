/**
 The registry seen as a clustering of one group, and what the handlers of node events do to it.
 */
module ClusterViews {
  import opened Grid
  import opened Clusterings
  import opened Sweeps
  import opened Worlds
  import opened Buckets
  import opened ClusterNodes
  import opened ClusterRegistry

  /** The node sets of the clusters of a group. */
  function View(m: Contents, group: string): Clustering {
    map i | i in m && group in m[i].groups :: m[i].nodes.Keys
  }

  /** A cluster of the group holds the node. */
  predicate HeldIn(m: Contents, group: string, q: Vec, i: nat) {
    HasClusterGroup(m, group, i) && Holds(m, q, i)
  }

  ghost predicate Registered(m: Contents, group: string, p: Vec) {
    exists i :: HeldIn(m, group, p, i)
  }

  /** The nodes registered in the clusters of the group are those of the painting, so coloured. */
  ghost predicate Shows(w: World, m: Contents, group: string, paint: Painting) {
    && (forall i, p :: HeldIn(m, group, p, i) ==> p in paint && w.NodeColor(m[i].nodes[p].node) == paint[p])
    && (forall p :: p in paint ==> Registered(m, group, p))
  }

  /** The clusters of the group are the components of its registered nodes. */
  ghost predicate Tracks(w: World, m: Contents, group: string, paint: Painting) {
    Shows(w, m, group, paint) && Partitioned(ColorGraph(paint), View(m, group))
  }

  /** A cluster of the group with a positive rating. */
  predicate MayPick(m: Contents, group: string, i: nat) {
    HasClusterGroup(m, group, i) && m[i].groups[group] > 0
  }

  ghost predicate Rated(m: Contents, group: string) {
    forall i :: HasClusterGroup(m, group, i) ==> MayPick(m, group, i)
  }

  /** The clusters of other groups are left alone. */
  ghost predicate OthersKept(m: Contents, n: Contents, group: string) {
    forall i :: i in m && group !in m[i].groups ==> i in n && n[i] == m[i]
  }

  /** Adding a coloured node to the graph. */
  lemma PaintGrows(paint: Painting, p: Vec, c: Color)
    requires p !in paint
    ensures Grown(ColorGraph(paint), ColorGraph(paint[p := c]), p)
  {
    ColorGraphUndirected(paint);
    ColorGraphUndirected(paint[p := c]);
  }

  /** A compatible neighbour of a position in a cluster of the group. */
  predicate CompatibleAt(w: World, m: Contents, node: Node, q: Vec, i: nat) {
    Holds(m, q, i) && Compatible(w.NodeColor(node), w.NodeColor(m[i].nodes[q].node))
  }

  /** What `find_compatible_neighbours` finds: for each direction one of the given clusters. */
  ghost predicate Neighbours(w: World, m: Contents, pos: Vec, node: Node, ids: set<nat>, found: map<Dir, nat>) {
    && (forall d :: d in found ==> found[d] in ids && CompatibleAt(w, m, node, Step(pos, d), found[d]))
    && (forall d, i :: d !in found && i in ids ==> !CompatibleAt(w, m, node, Step(pos, d), i))
  }

  /** The clusters found are exactly those that the node touches. */
  lemma FoundAreTouched(w: World, m: Contents, group: string, paint: Painting, pos: Vec, node: Node, ids: set<nat>,
                        found: map<Dir, nat>, i: nat)
    requires Tracks(w, m, group, paint) && ids == View(m, group).Keys
    requires Neighbours(w, m, pos, node, ids, found) && i in ids
    ensures i in found.Values <==> Touches(ColorGraph(paint[pos := w.NodeColor(node)]), pos, View(m, group)[i])
  {
    var h := ColorGraph(paint[pos := w.NodeColor(node)]);
    var k := View(m, group);
    if i in found.Values {
      var d :| d in found && found[d] == i;
      CompatibleIsLink(w, m, group, paint, pos, node, d, i);
      assert Step(pos, d) in k[i];
    }
    if Touches(h, pos, k[i]) {
      hide Graphs.Component, Partitioned;
      var q :| q in k[i] && (pos, q) in h.links;
      var d :| Step(pos, d) == q;
      CompatibleIsLink(w, m, group, paint, pos, node, d, i);
      assert d in found;
      OneHome(ColorGraph(paint), k, i, found[d], q);
    }
  }

  lemma CompatibleIsLink(w: World, m: Contents, group: string, paint: Painting, pos: Vec, node: Node, d: Dir, i: nat)
    requires Shows(w, m, group, paint) && HasClusterGroup(m, group, i) && Holds(m, Step(pos, d), i)
    ensures CompatibleAt(w, m, node, Step(pos, d), i) <==>
      (pos, Step(pos, d)) in ColorGraph(paint[pos := w.NodeColor(node)]).links
  {
    var q := Step(pos, d);
    assert q in paint && w.NodeColor(m[i].nodes[q].node) == paint[q];
    assert Adjacent(pos, q);
  }

  /** The position has a compatible neighbour. */
  ghost predicate Linked(paint: Painting, pos: Vec) {
    exists d :: (pos, Step(pos, d)) in ColorGraph(paint).links
  }

  /** With its new colour a node has a link into its old component. */
  ghost predicate TouchesHome(paint: Painting, pos: Vec, c: Color) {
    forall x :: Graphs.Component(ColorGraph(paint), x) && pos in x ==> Touches(ColorGraph(paint[pos := c]), pos, x)
  }

  /** And its old component still hangs together. */
  ghost predicate Rejoins(paint: Painting, pos: Vec, c: Color) {
    && TouchesHome(paint, pos, c)
    && forall x ::
      Graphs.Component(ColorGraph(paint), x) && pos in x ==> Graphs.Connected(ColorGraph(paint[pos := c]), x)
  }

  /** Without a new colour that only takes a compatible neighbour. */
  lemma LinkedRejoins(paint: Painting, pos: Vec)
    requires pos in paint
    ensures TouchesHome(paint, pos, paint[pos]) <==> Linked(paint, pos)
    ensures Rejoins(paint, pos, paint[pos]) <==> Linked(paint, pos)
  {
    var g := ColorGraph(paint);
    assert paint[pos := paint[pos]] == paint;
    ColorGraphUndirected(paint);
    var home := ComponentOf(g, pos);
    forall x | Graphs.Component(g, x) && pos in x ensures x == home {
      Graphs.ComponentUnique(g, x, home, pos);
    }
    LinksAreSteps(paint, pos);
    if Linked(paint, pos) {
      var d :| (pos, Step(pos, d)) in g.links;
      assert Step(pos, d) in home;
    }
  }

  lemma LinksAreSteps(paint: Painting, pos: Vec)
    ensures forall u :: (pos, u) in ColorGraph(paint).links ==> Linked(paint, pos)
  {
    forall u | (pos, u) in ColorGraph(paint).links ensures Linked(paint, pos) {
      var d :| Step(pos, d) == u;
    }
  }

  /** The cluster of a registered node decides. */
  lemma HomeDecides(w: World, m: Contents, group: string, paint: Painting, pos: Vec, c: Color, i: nat)
    requires Tracks(w, m, group, paint) && HeldIn(m, group, pos, i)
    ensures TouchesHome(paint, pos, c) <==> Touches(ColorGraph(paint[pos := c]), pos, View(m, group)[i])
    ensures Rejoins(paint, pos, c) <==>
      TouchesHome(paint, pos, c) && Graphs.Connected(ColorGraph(paint[pos := c]), View(m, group)[i])
  {
    hide ColorGraph, Graphs.Connected, Graphs.Closed, Touches;
    var home := View(m, group)[i];
    assert pos in home && Graphs.Component(ColorGraph(paint), home);
    forall x | Graphs.Component(ColorGraph(paint), x) && pos in x ensures x == home {
      Graphs.ComponentUnique(ColorGraph(paint), x, home, pos);
    }
  }

  lemma PaintRelinks(paint: Painting, pos: Vec, c: Color)
    requires pos in paint
    ensures Relinked(ColorGraph(paint), ColorGraph(paint[pos := c]), pos)
  {
    ColorGraphUndirected(paint);
    ColorGraphUndirected(paint[pos := c]);
  }

  /** The contents once the entry of a registered node was written over. */
  function Rewritten(m: Contents, i: nat, nodes: Nodes): Contents
    requires i in m
  {
    m[i := Data(m[i].groups, nodes)]
  }

  /** Writing over an entry changes no cluster; they stay the components if the graph keeps them. */
  lemma RewritingTracks(w: World, m: Contents, group: string, paint: Painting, pos: Vec, i: nat, nodes: Nodes, c: Color)
    requires Tracks(w, m, group, paint) && pos in paint && HeldIn(m, group, pos, i)
    requires nodes.Keys == m[i].nodes.Keys && nodes - {pos} == m[i].nodes - {pos} && w.NodeColor(nodes[pos].node) == c
    ensures Tracks(w, Rewritten(m, i, nodes), group, paint[pos := c]) <==> SameParts(paint, paint[pos := c])
    ensures OthersKept(m, Rewritten(m, i, nodes), group)
  {
    hide ColorGraph, Partitioned, Shows, View;
    RewrittenView(m, group, i, nodes);
    RewrittenShows(w, m, group, paint, pos, i, nodes, c);
    ColorGraphUndirected(paint);
    ColorGraphUndirected(paint[pos := c]);
    SameNodes(paint, pos, c);
    SameComponents(ColorGraph(paint), ColorGraph(paint[pos := c]), View(m, group));
  }

  /** Two paintings have the same components. */
  ghost predicate SameParts(a: Painting, b: Painting) {
    forall x :: Graphs.Component(ColorGraph(a), x) <==> Graphs.Component(ColorGraph(b), x)
  }

  lemma SameNodes(paint: Painting, pos: Vec, c: Color)
    requires pos in paint
    ensures ColorGraph(paint[pos := c]).nodes == ColorGraph(paint).nodes
  {
  }

  lemma RewrittenView(m: Contents, group: string, i: nat, nodes: Nodes)
    requires i in m && nodes.Keys == m[i].nodes.Keys
    ensures View(Rewritten(m, i, nodes), group) == View(m, group)
  {
  }

  lemma RewrittenShows(w: World, m: Contents, group: string, paint: Painting, pos: Vec, i: nat, nodes: Nodes, c: Color)
    requires Tracks(w, m, group, paint) && pos in paint && HeldIn(m, group, pos, i)
    requires nodes.Keys == m[i].nodes.Keys && nodes - {pos} == m[i].nodes - {pos} && w.NodeColor(nodes[pos].node) == c
    ensures Shows(w, Rewritten(m, i, nodes), group, paint[pos := c])
  {
    hide ColorGraph, Partitioned;
    var n := Rewritten(m, i, nodes);
    TracksApart(w, m, group, paint, pos);
    forall j, p | HeldIn(n, group, p, j) ensures p in paint && w.NodeColor(n[j].nodes[p].node) == paint[pos := c][p] {
      assert HeldIn(m, group, p, j);
      if j == i && p != pos {
        assert p in nodes - {pos} && (nodes - {pos})[p] == (m[i].nodes - {pos})[p];
      }
    }
    forall p | p in paint ensures Registered(n, group, p) {
      var j :| HeldIn(m, group, p, j);
      assert HeldIn(n, group, p, j);
    }
  }

  lemma TracksApart(w: World, m: Contents, group: string, paint: Painting, pos: Vec)
    requires Tracks(w, m, group, paint)
    ensures AtMostOne(m, group, pos)
  {
    hide ColorGraph, Graphs.Component;
    forall i, j | HeldIn(m, group, pos, i) && HeldIn(m, group, pos, j) ensures i == j {
      OneHome(ColorGraph(paint), View(m, group), i, j, pos);
    }
  }

  /** The contents after the new entry went to cluster `t` together with the clusters `ids`. */
  function JoinedContents(m: Contents, ids: set<nat>, t: nat, groups: Groups, nodes: Nodes, e: Entry): Contents {
    (m - ids)[t := Data(groups, nodes[e.pos := e])]
  }

  ghost predicate Gathered(m: Contents, ids: set<nat>, nodes: Nodes) {
    && (forall p :: p in nodes ==> exists i :: i in ids && Holds(m, p, i) && m[i].nodes[p] == nodes[p])
    && (forall p, i :: i in ids && Holds(m, p, i) ==> p in nodes)
  }

  /** Joining keeps the clusters of the group equal to the components. */
  lemma JoiningTracks(w: World, m: Contents, group: string, paint: Painting, ids: set<nat>, t: nat, groups: Groups,
                      nodes: Nodes, e: Entry)
    requires Tracks(w, m, group, paint) && e.pos !in paint && group in groups
    requires ids <= View(m, group).Keys && (t in m ==> t in ids) && Gathered(m, ids, nodes)
    requires forall i :: i in View(m, group) ==>
      (i in ids <==> Touches(ColorGraph(paint[e.pos := w.NodeColor(e.node)]), e.pos, View(m, group)[i]))
    ensures Tracks(w, JoinedContents(m, ids, t, groups, nodes, e), group, paint[e.pos := w.NodeColor(e.node)])
    ensures OthersKept(m, JoinedContents(m, ids, t, groups, nodes, e), group)
  {
    hide ColorGraph, Partitioned, Grown;
    var n := JoinedContents(m, ids, t, groups, nodes, e);
    var c := w.NodeColor(e.node);
    PaintGrows(paint, e.pos, c);
    JoinedView(m, group, ids, t, groups, nodes, e);
    AddingKeepsComponents(ColorGraph(paint), ColorGraph(paint[e.pos := c]), View(m, group), View(n, group), ids, t,
      e.pos);
    JoinedShows(w, m, group, paint, ids, t, groups, nodes, e);
  }

  lemma JoinedView(m: Contents, group: string, ids: set<nat>, t: nat, groups: Groups, nodes: Nodes, e: Entry)
    requires group in groups && ids <= View(m, group).Keys && (t in m ==> t in ids) && Gathered(m, ids, nodes)
    ensures Joined(View(m, group), View(JoinedContents(m, ids, t, groups, nodes, e), group), ids, t, e.pos)
  {
    hide View, Gathered, UnionOf;
    GatheredIsUnion(m, group, ids, nodes);
    assert nodes[e.pos := e].Keys == nodes.Keys + {e.pos};
    ViewWithout(m, group, ids);
    ViewWith(m - ids, group, t, Data(groups, nodes[e.pos := e]));
    ViewKeys(m, group, t);
  }

  lemma ViewWithout(m: Contents, group: string, ids: set<nat>)
    ensures View(m - ids, group) == View(m, group) - ids
  {
  }

  lemma ViewWith(m: Contents, group: string, t: nat, data: Data)
    requires group in data.groups
    ensures View(m[t := data], group) == View(m, group)[t := data.nodes.Keys]
  {
  }

  lemma ViewKeys(m: Contents, group: string, t: nat)
    ensures t in View(m, group) ==> t in m
  {
  }

  lemma GatheredIsUnion(m: Contents, group: string, ids: set<nat>, nodes: Nodes)
    requires ids <= View(m, group).Keys && Gathered(m, ids, nodes)
    ensures UnionOf(View(m, group), ids) == nodes.Keys
  {
    var k := View(m, group);
    forall p ensures p in UnionOf(k, ids) <==> p in nodes {
      if p in UnionOf(k, ids) {
        var i :| i in ids && i in k && p in k[i];
        assert Holds(m, p, i);
      }
      if p in nodes {
        var i :| i in ids && Holds(m, p, i) && m[i].nodes[p] == nodes[p];
        assert i in k && p in k[i];
      }
    }
  }

  lemma JoinedShows(w: World, m: Contents, group: string, paint: Painting, ids: set<nat>, t: nat, groups: Groups,
                    nodes: Nodes, e: Entry)
    requires Shows(w, m, group, paint) && group in groups
    requires ids <= View(m, group).Keys && (t in m ==> t in ids) && Gathered(m, ids, nodes) && e.pos !in paint
    ensures Shows(w, JoinedContents(m, ids, t, groups, nodes, e), group, paint[e.pos := w.NodeColor(e.node)])
  {
    hide Gathered, Shows;
    var n := JoinedContents(m, ids, t, groups, nodes, e);
    var c := w.NodeColor(e.node);
    forall i, p | HeldIn(n, group, p, i)
      ensures p in paint[e.pos := c] && w.NodeColor(n[i].nodes[p].node) == paint[e.pos := c][p]
    {
      JoinedHolds(w, m, group, paint, ids, t, groups, nodes, e, p, i);
    }
    forall p | p in paint[e.pos := c] ensures Registered(n, group, p) {
      JoinedRegisters(w, m, group, paint, ids, t, groups, nodes, e, p);
    }
    MeansShows(w, n, group, paint[e.pos := c]);
  }

  lemma MeansShows(w: World, m: Contents, group: string, paint: Painting)
    requires forall i, p :: HeldIn(m, group, p, i) ==> p in paint && w.NodeColor(m[i].nodes[p].node) == paint[p]
    requires forall p :: p in paint ==> Registered(m, group, p)
    ensures Shows(w, m, group, paint)
  {
  }

  lemma JoinedHolds(w: World, m: Contents, group: string, paint: Painting, ids: set<nat>, t: nat, groups: Groups,
                    nodes: Nodes, e: Entry, p: Vec, i: nat)
    requires Shows(w, m, group, paint) && ids <= View(m, group).Keys && Gathered(m, ids, nodes) && e.pos !in paint
    requires HeldIn(JoinedContents(m, ids, t, groups, nodes, e), group, p, i)
    ensures if p == e.pos then i == t else p in paint
    ensures w.NodeColor(JoinedContents(m, ids, t, groups, nodes, e)[i].nodes[p].node) ==
      paint[e.pos := w.NodeColor(e.node)][p]
  {
    if i != t {
      assert HeldIn(m, group, p, i);
    } else if p != e.pos {
      var j :| j in ids && Holds(m, p, j) && m[j].nodes[p] == nodes[p];
      assert HeldIn(m, group, p, j);
    }
  }

  lemma JoinedRegisters(w: World, m: Contents, group: string, paint: Painting, ids: set<nat>, t: nat, groups: Groups,
                        nodes: Nodes, e: Entry, p: Vec)
    requires Shows(w, m, group, paint) && group in groups && (t in m ==> t in ids) && Gathered(m, ids, nodes)
    requires p in paint || p == e.pos
    ensures Registered(JoinedContents(m, ids, t, groups, nodes, e), group, p)
  {
    var n := JoinedContents(m, ids, t, groups, nodes, e);
    if p == e.pos {
      assert HeldIn(n, group, p, t);
    } else {
      assert Registered(m, group, p);
      var i :| HeldIn(m, group, p, i);
      assert HeldIn(n, group, p, if i in ids then t else i);
    }
  }

  lemma OnlyCluster(m: Contents, list: seq<nat>)
    requires |list| == 1 && list[0] in m
    ensures SetOf(list) == {list[0]} && Gathered(m, {list[0]}, m[list[0]].nodes)
    ensures m == (m - {list[0]})[list[0] := m[list[0]]]
  {
    forall i | i in SetOf(list) ensures i == list[0] {
    }
    assert list[0] in SetOf(list);
    forall p | p in m[list[0]].nodes ensures Holds(m, p, list[0]) {
    }
  }

  lemma ListIsApart(m: Contents, group: string, list: seq<nat>)
    requires SetOf(list) <= View(m, group).Keys
    requires forall i, j :: 0 <= i < j < |list| ==> list[i] != list[j]
    requires forall i, j :: i in SetOf(list) && j in SetOf(list) && i != j ==> View(m, group)[i] !! View(m, group)[j]
    ensures Apart(m, list)
  {
    forall i, j, p | 0 <= i < j < |list| ensures !(Holds(m, p, list[i]) && Holds(m, p, list[j])) {
      assert list[i] in SetOf(list) && list[j] in SetOf(list);
      assert Holds(m, p, list[i]) ==> p in View(m, group)[list[i]];
    }
  }

  lemma GatherMerged(m: Contents, group: string, list: seq<nat>)
    requires SetOf(list) <= View(m, group).Keys && list != []
    ensures Gathered(m, SetOf(list), MergedNodes(m, list)) && group in MergedGroups(m, list)
    ensures Rated(m, group) ==> MergedGroups(m, list)[group] > 0
  {
    var nodes := MergedNodes(m, list);
    forall p | p in nodes ensures exists i :: i in SetOf(list) && Holds(m, p, i) && m[i].nodes[p] == nodes[p] {
      MergedNodeComesFrom(m, list, p);
      var k :| 0 <= k < |list| && Holds(m, p, list[k]) && nodes[p] == m[list[k]].nodes[p];
      assert list[k] in SetOf(list);
    }
    forall p, i | i in SetOf(list) && Holds(m, p, i) ensures p in nodes {
      var k :| 0 <= k < |list| && list[k] == i;
      assert Holds(m, p, list[k]);
      MergedNodeComesFrom(m, list, p);
    }
    assert list[|list| - 1] in SetOf(list);
    assert HasClusterGroup(m, group, list[|list| - 1]);
  }

  /** A node as it is in the world. */
  function WorldEntry(w: World, q: Vec): Entry {
    Entry(q, w.GetNode(q), w.MemberGroups(w.GetNode(q)))
  }

  /** The entries that the nodes of a branch get. */
  function BranchNodes(w: World, s: set<Vec>): Nodes {
    map q | q in s :: WorldEntry(w, q)
  }

  /** The contents of the clusters made from branches. */
  function Built(w: World, groups: Groups, b: Clustering, made: map<nat, nat>): Contents {
    map i | i in made && made[i] in b :: Data(groups, BranchNodes(w, b[made[i]]))
  }

  lemma NewIsNotGathered(w: World, m: Contents, group: string, paint: Painting, ids: set<nat>, nodes: Nodes, pos: Vec)
    requires Tracks(w, m, group, paint) && pos !in paint && ids <= View(m, group).Keys && Gathered(m, ids, nodes)
    ensures pos !in nodes
  {
    hide ColorGraph, Partitioned;
    assert forall i :: i in ids ==> HasClusterGroup(m, group, i);
    assert forall i :: i in ids && Holds(m, pos, i) ==> HeldIn(m, group, pos, i);
  }

  lemma GivenAreOfGroup(cls: Clusters, group: string)
    requires cls.Valid()
    ensures Bucket(cls.groupClusters, group).Keys == View(cls.Abs(), group).Keys
  {
    forall i ensures i in Bucket(cls.groupClusters, group).Keys <==> i in View(cls.Abs(), group).Keys {
      assert Listed(cls.groupClusters, group, i) <==> HasClusterGroup(cls.Abs(), group, i);
    }
  }

  lemma NeighboursAreGiven(w: World, m: Contents, group: string, paint: Painting, pos: Vec, node: Node, given: set<nat>,
                           found: map<Dir, nat>)
    requires Tracks(w, m, group, paint) && given == View(m, group).Keys
    requires Neighbours(w, m, pos, node, given, found)
    ensures found.Values <= View(m, group).Keys
    ensures forall i :: i in View(m, group) ==>
      (i in found.Values <==> Touches(ColorGraph(paint[pos := w.NodeColor(node)]), pos, View(m, group)[i]))
    ensures forall i, j :: i in found.Values && j in found.Values && i != j ==> View(m, group)[i] !! View(m, group)[j]
  {
    forall i | i in View(m, group)
      ensures i in found.Values <==> Touches(ColorGraph(paint[pos := w.NodeColor(node)]), pos, View(m, group)[i])
    {
      FoundAreTouched(w, m, group, paint, pos, node, given, found, i);
    }
  }

  /** `made` sends cluster ids to the non-empty branches among `js`, one to one. */
  ghost predicate OneToOne(b: Clustering, js: set<nat>, made: map<nat, nat>) {
    && (forall i :: i in made ==> made[i] in js && made[i] in b && b[made[i]] != {})
    && (forall i, j :: i in made && j in made && i != j ==> made[i] != made[j])
    && (forall j :: j in js && j in b && b[j] != {} ==> exists i :: i in made && made[i] == j)
  }

  lemma NoNodes(w: World)
    ensures BranchNodes(w, {}) == map[]
  {
  }

  lemma NextNode(w: World, s: set<Vec>, q: Vec)
    requires q !in s
    ensures BranchNodes(w, s + {q}) == BranchNodes(w, s)[q := WorldEntry(w, q)]
    ensures q !in BranchNodes(w, s)
  {
  }

  lemma BuiltKeys(w: World, groups: Groups, b: Clustering, js: set<nat>, made: map<nat, nat>)
    requires OneToOne(b, js, made)
    ensures Built(w, groups, b, made).Keys == made.Keys
  {
  }

  lemma BuiltNext(w: World, groups: Groups, b: Clustering, made: map<nat, nat>, id: nat, j: nat)
    requires j in b && id !in made
    ensures Built(w, groups, b, made[id := j]) == Built(w, groups, b, made)[id := Data(groups, BranchNodes(w, b[j]))]
  {
    hide BranchNodes;
  }

  lemma NothingBuilt(w: World, groups: Groups, b: Clustering, m: Contents)
    ensures m + Built(w, groups, b, map[]) == m && OneToOne(b, {}, map[])
  {
  }

  lemma OneToOneNext(b: Clustering, js: set<nat>, made: map<nat, nat>, id: nat, j: nat)
    requires OneToOne(b, js, made) && j in b && j !in js && (b[j] != {} ==> id !in made)
    ensures if b[j] == {} then OneToOne(b, js + {j}, made) else OneToOne(b, js + {j}, made[id := j])
  {
    if b[j] != {} {
      var next := made[id := j];
      forall k | k in js + {j} && k in b && b[k] != {} ensures exists i :: i in next && next[i] == k {
        if k == j {
          assert id in next && next[id] == k;
        } else {
          var i :| i in made && made[i] == k;
          assert i in next && next[i] == k;
        }
      }
    }
  }

  lemma ListedIsHeld(cls: Clusters, q: Vec, ps: set<Vec>)
    requires cls.Valid() && cls.Live(ps) && q in ps
    ensures forall i :: i in cls.Abs() ==> (Listed(cls.nodeClusters, q, i) <==> Holds(cls.Abs(), q, i))
    ensures forall i :: Holds(cls.Abs(), q, i) ==> Listed(cls.nodeClusters, q, i)
  {
  }

  /** The contents once a node is taken out of the clusters of the group. */
  function Detached(m: Contents, group: string, pos: Vec): Contents {
    map i | i in m :: if group in m[i].groups then Data(m[i].groups, m[i].nodes - {pos}) else m[i]
  }

  lemma DetachedView(m: Contents, group: string, pos: Vec)
    ensures View(Detached(m, group, pos), group) == Without(View(m, group), pos)
  {
  }

  lemma DetachedKeys(cls: Clusters, m: Contents, group: string, pos: Vec)
    requires cls.Valid() && cls.Abs() == Detached(m, group, pos)
    ensures View(cls.Abs(), group) == Without(View(m, group), pos) && View(cls.Abs(), group).Keys == View(m, group).Keys
    ensures forall i :: i in cls.Abs() ==> i <= cls.lastId
  {
    hide Clusters.Mirrored;
    DetachedView(m, group, pos);
  }

  /** Only the cluster that holds the node changes. */
  lemma DetachOne(m: Contents, group: string, pos: Vec, c: nat)
    requires AtMostOne(m, group, pos) && HeldIn(m, group, pos, c)
    ensures Detached(m, group, pos) == m[c := Data(m[c].groups, m[c].nodes - {pos})]
  {
    forall i | i in m && group in m[i].groups && i != c ensures m[i].nodes - {pos} == m[i].nodes {
      assert !HeldIn(m, group, pos, i);
    }
  }

  /** No two clusters of the group hold the node. */
  ghost predicate AtMostOne(m: Contents, group: string, pos: Vec) {
    forall i, j :: HeldIn(m, group, pos, i) && HeldIn(m, group, pos, j) ==> i == j
  }

  lemma DetachNone(m: Contents, group: string, pos: Vec)
    requires forall i :: !HeldIn(m, group, pos, i)
    ensures Detached(m, group, pos) == m
  {
    forall i | i in m && group in m[i].groups ensures m[i].nodes - {pos} == m[i].nodes {
      assert !HeldIn(m, group, pos, i);
    }
  }

  /** A removal: the ids of the destroyed clusters, the branches, and the new cluster of each. */
  datatype Split = Split(group: string, pos: Vec, ids: set<nat>, groups: Groups, b: Clustering, made: map<nat, nat>) {
    /** The contents afterwards. */
    function Contents(w: World, m: Contents): Contents {
      (Detached(m, group, pos) - ids) + Built(w, groups, b, made)
    }

    ghost predicate Of(m: Contents) {
      && group in groups && OneToOne(b, b.Keys, made)
      && ids <= View(m, group).Keys && made.Keys !! Detached(m, group, pos).Keys
      && Affected(Without(View(m, group), pos), b, ids)
    }

    function Branches(): Clustering {
      map i | i in made && made[i] in b :: b[made[i]]
    }

    /** What it does to the clusters of the group. */
    ghost function OnView(w: World, m: Contents, origins: set<Vec>): Removal {
      Removal(View(m, group), View(Contents(w, m), group), pos, origins, b, ids, made)
    }
  }

  lemma SplitView(w: World, m: Contents, s: Split)
    requires s.group in s.groups
    ensures View(s.Contents(w, m), s.group) == (Without(View(m, s.group), s.pos) - s.ids) + s.Branches()
  {
    hide Detached, Built, Split.Branches, Without, View;
    DetachedView(m, s.group, s.pos);
    ViewOfBuilt(w, s);
    ViewWithout(Detached(m, s.group, s.pos), s.group, s.ids);
    ViewOfSum(Detached(m, s.group, s.pos) - s.ids, Built(w, s.groups, s.b, s.made), s.group);
  }

  lemma ViewOfBuilt(w: World, s: Split)
    requires s.group in s.groups
    ensures View(Built(w, s.groups, s.b, s.made), s.group) == s.Branches()
    ensures forall i :: i in Built(w, s.groups, s.b, s.made) ==> s.group in Built(w, s.groups, s.b, s.made)[i].groups
  {
    forall x: set<Vec> ensures BranchNodes(w, x).Keys == x {
    }
  }

  lemma ViewOfSum(x: Contents, y: Contents, group: string)
    requires forall i :: i in y ==> group in y[i].groups
    ensures View(x + y, group) == View(x, group) + View(y, group)
  {
  }

  lemma SplitRebuilds(w: World, m: Contents, s: Split)
    requires s.Of(m)
    ensures Rebuilt(Without(View(m, s.group), s.pos), s.b, s.ids, s.made, View(s.Contents(w, m), s.group))
  {
    hide Affected, Split.Contents, OneToOne, Without;
    SplitView(w, m, s);
    DetachedView(m, s.group, s.pos);
    IsRebuilt(Without(View(m, s.group), s.pos), s);
  }

  lemma IsRebuilt(k: Clustering, s: Split)
    requires OneToOne(s.b, s.b.Keys, s.made) && s.made.Keys !! k.Keys
    ensures Rebuilt(k, s.b, s.ids, s.made, (k - s.ids) + s.Branches())
  {
  }

  /** A registered entry that the handler of a removal leaves alone. */
  ghost predicate EntryFrom(m: Contents, group: string, p: Vec, e: Entry) {
    exists i :: HeldIn(m, group, p, i) && m[i].nodes[p] == e
  }

  /** Whatever is registered afterwards was so before, or is a node of a branch as it is in the world. */
  lemma SplitHolds(w: World, m: Contents, s: Split, p: Vec, i: nat)
    requires s.Of(m) && HeldIn(s.Contents(w, m), s.group, p, i)
    ensures if i in s.made
      then s.made[i] in s.b && p in s.b[s.made[i]] && s.Contents(w, m)[i].nodes[p] == WorldEntry(w, p)
      else HeldIn(m, s.group, p, i) && p != s.pos && s.Contents(w, m)[i].nodes[p] == m[i].nodes[p]
  {
    hide Affected;
    BuiltKeys(w, s.groups, s.b, s.b.Keys, s.made);
  }

  lemma SplitOthers(w: World, m: Contents, s: Split)
    requires s.Of(m)
    ensures OthersKept(m, s.Contents(w, m), s.group)
  {
    hide Affected, OneToOne;
    assert forall i :: i in Built(w, s.groups, s.b, s.made) ==> i in s.made;
    forall i | i in m && s.group !in m[i].groups ensures i in s.Contents(w, m) && s.Contents(w, m)[i] == m[i] {
      assert i in Detached(m, s.group, s.pos) && i !in View(m, s.group);
    }
  }

  lemma SplitRated(w: World, m: Contents, s: Split)
    requires s.Of(m) && s.groups[s.group] > 0
    ensures Rated(m, s.group) ==> Rated(s.Contents(w, m), s.group)
  {
    hide Affected, OneToOne, BranchNodes;
    if Rated(m, s.group) {
      forall i | HasClusterGroup(s.Contents(w, m), s.group, i) ensures MayPick(s.Contents(w, m), s.group, i) {
        assert i !in Built(w, s.groups, s.b, s.made) ==> HasClusterGroup(m, s.group, i);
      }
    }
  }

  /** Every registered node is one of the painting, so coloured. */
  ghost predicate Sound(w: World, m: Contents, group: string, paint: Painting) {
    forall i, p :: HeldIn(m, group, p, i) ==> p in paint && w.NodeColor(m[i].nodes[p].node) == paint[p]
  }

  function SweepOf(paint: Painting, gone: set<Vec>): Sweep {
    Sweep(ColorGraph(paint), ColorGraph(paint - gone), gone)
  }

  lemma SweepIsValid(paint: Painting, gone: set<Vec>)
    ensures SweepOf(paint, gone).Valid()
  {
    ColorGraphUndirected(paint);
    ColorGraphUndirected(paint - gone);
  }

  /**
   Between the removals: of the nodes `paint` those of `gone` have left the world, the removals of
   `done` were handled, and they explored from `o`.
   */
  ghost predicate Sweeping(w: World, m: Contents, group: string, paint: Painting, gone: set<Vec>, done: set<Vec>,
                           o: set<Vec>) {
    Sound(w, m, group, paint) && SweepOf(paint, gone).Swept(View(m, group), done, o)
  }

  /**
   Removals are harmless when what is left of each component that lost a node stays connected, or
   every piece that it falls into contains a position that the search for branches starts from.
   */
  ghost predicate Harmless(paint: Painting, gone: set<Vec>, o: set<Vec>) {
    SweepOf(paint, gone).NothingLost(o)
  }

  lemma SweepingStarts(w: World, m: Contents, group: string, paint: Painting, gone: set<Vec>)
    requires Tracks(w, m, group, paint)
    ensures Sweeping(w, m, group, paint, gone, {}, {})
  {
    hide Partitioned, ColorGraph, View, Sweep.Swept;
    SweepOf(paint, gone).SweepStarts(View(m, group));
  }

  lemma SweepingIsApart(w: World, m: Contents, group: string, paint: Painting, gone: set<Vec>, done: set<Vec>,
                        o: set<Vec>, pos: Vec)
    requires Sweeping(w, m, group, paint, gone, done, o)
    ensures AtMostOne(m, group, pos)
  {
    hide ColorGraph;
    forall i, j | HeldIn(m, group, pos, i) && HeldIn(m, group, pos, j) ensures i == j {
      assert pos in View(m, group)[i] && pos in View(m, group)[j];
    }
  }

  /** A removal, whose scan saw the painting without all of `gone`. */
  lemma SweepingGoesOn(w: World, m: Contents, s: Split, paint: Painting, gone: set<Vec>, done: set<Vec>, o: set<Vec>,
                       origins: set<Vec>)
    requires Sweeping(w, m, s.group, paint, gone, done, o) && s.pos in gone && done <= gone
    requires s.Of(m) && Scanned(ColorGraph(paint - gone), origins, s.b)
    requires forall j, q :: j in s.b && q in s.b[j] ==> q in paint && w.NodeColor(w.GetNode(q)) == paint[q]
    ensures Sweeping(w, s.Contents(w, m), s.group, paint, gone, done + {s.pos}, o + origins)
  {
    hide Scanned, Affected, Split.Contents, Sweep.Swept, Sweep.Valid, Rebuilt, ColorGraph, View, OneToOne;
    SweepIsValid(paint, gone);
    SplitRebuilds(w, m, s);
    SweepOf(paint, gone).SweepGoesOn(s.OnView(w, m, origins), done, o);
    var n := s.Contents(w, m);
    forall i, p | HeldIn(n, s.group, p, i) ensures p in paint && w.NodeColor(n[i].nodes[p].node) == paint[p] {
      SplitHolds(w, m, s, p, i);
    }
  }

  /** After the last removal the clusters are the components if and only if the removals were harmless. */
  lemma SweepingEnds(w: World, m: Contents, group: string, paint: Painting, gone: set<Vec>, o: set<Vec>)
    requires Sweeping(w, m, group, paint, gone, gone, o)
    ensures Tracks(w, m, group, paint - gone) <==> Harmless(paint, gone, o)
  {
    hide ColorGraph, View, Sweep.Swept, Sweep.Valid, Sweep.NothingLost, Partitioned;
    SweepIsValid(paint, gone);
    SweepOf(paint, gone).SweepEnds(View(m, group), o);
    if Partitioned(ColorGraph(paint - gone), View(m, group)) {
      PartsShow(w, m, group, paint, gone);
    }
  }

  lemma PartsShow(w: World, m: Contents, group: string, paint: Painting, gone: set<Vec>)
    requires Sound(w, m, group, paint) && Partitioned(ColorGraph(paint - gone), View(m, group))
    ensures Shows(w, m, group, paint - gone)
  {
    hide ColorGraph, Partitioned, Registered, View;
    forall i, p | HeldIn(m, group, p, i) ensures p !in gone {
      HeldStays(m, group, paint - gone, p, i);
    }
    forall p | p in paint - gone ensures Registered(m, group, p) {
      PaintedIsHeld(m, group, paint - gone, p);
    }
    MeansShows(w, m, group, paint - gone);
  }

  lemma HeldStays(m: Contents, group: string, paint: Painting, p: Vec, i: nat)
    requires Partitioned(ColorGraph(paint), View(m, group)) && HeldIn(m, group, p, i)
    ensures p in paint
  {
    hide Graphs.Connected, Graphs.Closed;
    assert p in View(m, group)[i];
    assert Graphs.Component(ColorGraph(paint), View(m, group)[i]);
  }

  lemma PaintedIsHeld(m: Contents, group: string, paint: Painting, p: Vec)
    requires Partitioned(ColorGraph(paint), View(m, group)) && p in paint
    ensures Registered(m, group, p)
  {
    hide Graphs.Component;
    assert Covered(View(m, group), p);
    var i :| i in View(m, group) && p in View(m, group)[i];
    assert HeldIn(m, group, p, i);
  }
}
