/**
 What clusters that follow the world mean in terms of its nodes: two nodes are in one cluster exactly
 when one can be walked to from the other along neighbours whose colours fit.
 */
module ClusterMeaning {
  import opened Basics
  import opened Grid
  import opened Graphs
  import opened Clusterings
  import opened Worlds
  import opened ClusterRegistry
  import opened ClusterViews

  /** A node of the group stands at the position. */
  predicate IsMember(w: World, p: Vec) {
    && p in w.nodes && w.nodes[p].name in w.defs
    && w.group in w.defs[w.nodes[p].name].groups
  }

  /** The colour that its definition has; without one in the network table the default, without that table none. */
  predicate HasColor(w: World, p: Vec, c: Color)
    requires IsMember(w, p)
  {
    match w.defs[w.nodes[p].name].network
    case None => c == None
    case Some(None) => c == Some("default")
    case Some(Some(written)) => c == Some(written)
  }

  /** Neighbours whose colours fit. */
  ghost predicate Meet(w: World, p: Vec, q: Vec)
    requires IsMember(w, p) && IsMember(w, q)
  {
    SideBySide(p, q) && exists a, b :: HasColor(w, p, a) && HasColor(w, q, b) && ColorsFit(a, b)
  }

  ghost predicate Route(w: World, path: seq<Vec>) {
    && |path| > 0 && (forall k :: 0 <= k < |path| ==> IsMember(w, path[k]))
    && forall k :: 0 < k < |path| ==> Meet(w, path[k - 1], path[k])
  }

  ghost predicate RouteJoins(w: World, p: Vec, q: Vec) {
    exists path :: Route(w, path) && path[0] == p && path[|path| - 1] == q
  }

  /** Some cluster of the group holds both. */
  ghost predicate Together(m: Contents, group: string, p: Vec, q: Vec) {
    exists i :: i in m && group in m[i].groups && p in m[i].nodes && q in m[i].nodes
  }

  /** The nodes of the group with their colours, and which of them meet. */
  lemma PaintedMeans(w: World, p: Vec, q: Vec)
    ensures p in w.Painted() <==> IsMember(w, p)
    ensures p in w.Painted() ==> HasColor(w, p, w.Painted()[p]) && forall c :: HasColor(w, p, c) ==> c == w.Painted()[p]
    ensures p in w.Painted() && q in w.Painted() ==> ((p, q) in ColorGraph(w.Painted()).links <==> Meet(w, p, q))
  {
    StepsAreNeighbours(p, q);
    if p in w.Painted() && q in w.Painted() {
      CompatibleColors(w.Painted()[p], w.Painted()[q]);
    }
  }

  /**
   What is registered of a node: the node that stands there, under the groups that its definition
   has for clusters.
   */
  lemma EntryIsWritten(w: World, p: Vec)
    requires IsMember(w, p)
    ensures WorldEntry(w, p).pos == p && WorldEntry(w, p).node == w.nodes[p]
    ensures match w.defs[w.nodes[p].name].member
      case None => WorldEntry(w, p).groups == map[]
      case Some(groups) => WorldEntry(w, p).groups == groups
  {
  }

  lemma RouteIsWalk(w: World, path: seq<Vec>)
    ensures Route(w, path) <==> Walk(ColorGraph(w.Painted()), path)
  {
    hide World.Painted, Meet;
    forall k | 0 <= k < |path| ensures path[k] in ColorGraph(w.Painted()).nodes <==> IsMember(w, path[k]) {
      PaintedMeans(w, path[k], path[k]);
    }
    forall k | 0 < k < |path| && IsMember(w, path[k - 1]) && IsMember(w, path[k])
      ensures (path[k - 1], path[k]) in ColorGraph(w.Painted()).links <==> Meet(w, path[k - 1], path[k])
    {
      PaintedMeans(w, path[k - 1], path[k]);
      PaintedMeans(w, path[k], path[k]);
    }
  }

  /** Two positions have nodes in one cluster if and only if a route joins them. */
  lemma TogetherIsJoined(w: World, m: Contents, group: string, p: Vec, q: Vec)
    requires Tracks(w, m, group, w.Painted())
    ensures Together(m, group, p, q) <==> RouteJoins(w, p, q)
  {
    hide World.Painted, ColorGraph, Route, Walk, Component;
    var g := ColorGraph(w.Painted());
    ColorGraphUndirected(w.Painted());
    assert g.nodes == w.Painted().Keys by {
      GraphNodes(w.Painted());
    }
    forall path ensures Route(w, path) <==> Walk(g, path) {
      RouteIsWalk(w, path);
    }
    assert RouteJoins(w, p, q) <==> Reaches(g, p, q);
    if i :| i in m && group in m[i].groups && p in m[i].nodes && q in m[i].nodes {
      TogetherReaches(g, View(m, group), i, p, q);
    }
    if Reaches(g, p, q) {
      var i := ReachedTogether(g, View(m, group), p, q);
      assert i in m && group in m[i].groups && p in m[i].nodes && q in m[i].nodes;
    }
  }

  lemma GraphNodes(paint: Painting)
    ensures ColorGraph(paint).nodes == paint.Keys
  {
  }

  lemma TogetherReaches(g: Graph, k: Clustering, i: nat, p: Vec, q: Vec)
    requires Undirected(g) && Partitioned(g, k) && i in k && p in k[i] && q in k[i]
    ensures Reaches(g, p, q)
  {
    assert Component(g, k[i]);
    ComponentIsReachSet(g, k[i], p);
  }

  lemma ReachedTogether(g: Graph, k: Clustering, p: Vec, q: Vec) returns (i: nat)
    requires Undirected(g) && Partitioned(g, k) && Reaches(g, p, q)
    ensures i in k && p in k[i] && q in k[i]
  {
    var path :| Walk(g, path) && path[0] == p && path[|path| - 1] == q;
    assert p in g.nodes && Covered(k, p);
    i :| i in k && p in k[i];
    assert Component(g, k[i]);
    ComponentIsReachSet(g, k[i], p);
  }

  /** A node that is in a cluster is in one with every registered neighbour whose colour fits. */
  lemma NeighboursAreTogether(w: World, m: Contents, group: string, paint: Painting, p: Vec, q: Vec)
    requires Tracks(w, m, group, paint) && p in paint && q in paint && SideBySide(p, q) && ColorsFit(paint[p], paint[q])
    ensures Together(m, group, p, q)
  {
    StepsAreNeighbours(p, q);
    CompatibleColors(paint[p], paint[q]);
    assert (p, q) in ColorGraph(paint).links;
    hide ColorGraph, Connected;
    var i :| HeldIn(m, group, p, i);
    assert p in View(m, group)[i] && Component(ColorGraph(paint), View(m, group)[i]);
    assert q in View(m, group)[i];
  }

  lemma NewIsTogether(w: World, m: Contents, group: string, paint: Painting, pos: Vec, c: Color)
    requires pos !in paint && Tracks(w, m, group, paint[pos := c])
    ensures forall q :: q in paint && SideBySide(pos, q) && ColorsFit(c, paint[q]) ==> Together(m, group, pos, q)
  {
    forall q | q in paint && SideBySide(pos, q) && ColorsFit(c, paint[q]) ensures Together(m, group, pos, q) {
      NeighboursAreTogether(w, m, group, paint[pos := c], pos, q);
    }
  }
}
