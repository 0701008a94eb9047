/**
 A queue that is worked off when the world is ahead of it: a removal whose search sees a node that
 is still to be added.
 */
module LateQueues {
  import opened Grid
  import opened Graphs
  import opened Clusterings
  import opened Sweeps
  import opened Worlds
  import opened ClusterNodes
  import opened ClusterRegistry
  import opened BranchScans
  import opened ClusterViews
  import opened HandlerEffects
  import opened SimpleClusters
  import opened ClusterRuns
  import opened LostNodes

  /** `h` is `g` with another node that has no link. */
  ghost predicate WithLoner(g: Graph, h: Graph, n: Vec) {
    n !in g.nodes && h.nodes == g.nodes + {n} && h.links == g.links && Undirected(g) && Component(h, {n})
  }

  lemma PaintLoner(paint: Painting, n: Vec, c: Color)
    requires n !in paint && !Linked(paint[n := c], n)
    ensures WithLoner(ColorGraph(paint), ColorGraph(paint[n := c]), n)
  {
    var g, h := ColorGraph(paint), ColorGraph(paint[n := c]);
    ColorGraphUndirected(paint);
    ColorGraphUndirected(paint[n := c]);
    forall u | Adjacent(n, u) ensures (n, u) !in h.links {
      var d :| Step(n, d) == u;
    }
    forall u ensures (u, n) !in h.links {
      assert (u, n) in h.links ==> (n, u) in h.links;
    }
    forall l ensures l in h.links <==> l in g.links {
      assert l == (l.0, l.1);
    }
    AloneIsComponent(h, n);
  }

  /** The components of the larger graph are those of the smaller one, and the loner. */
  lemma LonerComponents(g: Graph, h: Graph, n: Vec, d: set<Vec>)
    requires WithLoner(g, h, n) && n !in d
    ensures Component(g, d) <==> Component(h, d)
  {
    forall s ensures Crosses(g, s, d) <==> Crosses(h, s, d) {
    }
  }

  /** A scan of the larger graph that started at the loner found it, and is otherwise one of the smaller graph. */
  lemma ScanWithout(g: Graph, h: Graph, n: Vec, o: set<Vec>, b: Clustering) returns (j: nat)
    requires WithLoner(g, h, n) && n in o && Scanned(h, o, b)
    ensures j in b && b[j] == {n} && (forall i :: i in b && i != j ==> n !in b[i])
    ensures Scanned(g, o, b[j := {}])
  {
    hide Component;
    assert Covered(b, n);
    j :| j in b && n in b[j];
    ComponentUnique(h, b[j], {n}, n);
    forall i | i in b && i != j && b[i] != {} ensures Component(g, b[i]) {
      LonerComponents(g, h, n, b[i]);
    }
    forall x | x in o && x in g.nodes ensures Covered(b[j := {}], x) {
      assert Covered(b, x);
      var i :| i in b && x in b[i];
      assert i in b[j := {}] && x in b[j := {}][i];
    }
  }

  /** The removal without the branch `j` and the cluster `t` made of it. */
  function Less(s: Split, j: nat, t: nat): Split {
    s.(b := s.b[j := {}], made := s.made - {t})
  }

  lemma LessIsSplit(m: Contents, s: Split, n: Vec, j: nat, t: nat)
    requires s.Of(m) && j in s.b && s.b[j] == {n} && t in s.made && s.made[t] == j
    requires forall i :: i in View(m, s.group) ==> n !in View(m, s.group)[i] - {s.pos}
    ensures Less(s, j, t).Of(m)
  {
    hide Detached, View, OneToOne, Affected, Meets;
    LessOneToOne(s, j, t);
    forall i ensures !Meets(Without(View(m, s.group), s.pos), s.b[j], i) {
      NotMet(View(m, s.group), s.pos, s.b[j], n, i);
    }
    LessAffected(Without(View(m, s.group), s.pos), s, j);
  }

  lemma NotMet(k: Clustering, p: Vec, x: set<Vec>, n: Vec, i: nat)
    requires x == {n} && forall i :: i in k ==> n !in k[i] - {p}
    ensures !Meets(Without(k, p), x, i)
  {
  }

  lemma LessOneToOne(s: Split, j: nat, t: nat)
    requires OneToOne(s.b, s.b.Keys, s.made) && j in s.b && t in s.made && s.made[t] == j
    ensures OneToOne(s.b[j := {}], s.b[j := {}].Keys, s.made - {t})
  {
    var b, made := s.b[j := {}], s.made - {t};
    forall x | x in b && b[x] != {} ensures exists i :: i in made && made[i] == x {
      var i :| i in s.made && s.made[i] == x;
      assert i in made && made[i] == x;
    }
  }

  lemma LessAffected(k: Clustering, s: Split, j: nat)
    requires Affected(k, s.b, s.ids) && j in s.b && forall i :: !Meets(k, s.b[j], i)
    ensures Affected(k, s.b[j := {}], s.ids)
  {
    var b := s.b[j := {}];
    forall i | i in s.ids ensures MetBySome(k, b, i) {
      var x :| x in s.b && Meets(k, s.b[x], i);
      hide Meets;
      assert x != j && b[x] == s.b[x];
    }
    forall x | x in b ensures HasItsOne(k, b[x], s.ids) {
      assert x == j || b[x] == s.b[x];
    }
    hide HasItsOne, MetBySome;
    FoundAll(k, b, s.ids);
  }

  /** The contents are those without the loner, and a cluster for it. */
  lemma LessContents(w: World, v: World, m: Contents, s: Split, n: Vec, j: nat, t: nat)
    requires s.Of(m) && j in s.b && s.b[j] == {n} && t in s.made && s.made[t] == j
    requires w.defs == v.defs && forall q :: q != n ==> w.GetNode(q) == v.GetNode(q)
    requires forall i :: i in s.b && i != j ==> n !in s.b[i]
    ensures s.Contents(w, m) == JoinedContents(Less(s, j, t).Contents(v, m), {}, t, s.groups, map[], WorldEntry(w, n))
    ensures t !in Less(s, j, t).Contents(v, m)
  {
    hide Affected, Detached, Built, BranchNodes, OneToOne, World.GetNode;
    LessBuilt(w, v, s, n, j, t);
    SumWith(Detached(m, s.group, s.pos) - s.ids, Built(v, s.groups, s.b[j := {}], s.made - {t}), t,
            Data(s.groups, map[n := WorldEntry(w, n)]));
  }

  lemma SumWith(d: Contents, y: Contents, t: nat, x: Data)
    ensures d + y[t := x] == ((d + y) - {})[t := x]
  {
  }

  lemma LessBuilt(w: World, v: World, s: Split, n: Vec, j: nat, t: nat)
    requires OneToOne(s.b, s.b.Keys, s.made) && j in s.b && s.b[j] == {n} && t in s.made && s.made[t] == j
    requires w.defs == v.defs && forall q :: q != n ==> w.GetNode(q) == v.GetNode(q)
    requires forall i :: i in s.b && i != j ==> n !in s.b[i]
    ensures var y := Built(v, s.groups, s.b[j := {}], s.made - {t});
      t !in y && Built(w, s.groups, s.b, s.made) == y[t := Data(s.groups, map[n := WorldEntry(w, n)])]
  {
    hide Built, BranchNodes, OneToOne, World.GetNode;
    LonerNodes(w, n);
    var x, y := Built(w, s.groups, s.b, s.made), Built(v, s.groups, s.b[j := {}], s.made - {t});
    BuiltKeys(w, s.groups, s.b, s.b.Keys, s.made);
    LessOneToOne(s, j, t);
    BuiltKeys(v, s.groups, s.b[j := {}], s.b[j := {}].Keys, s.made - {t});
    forall i | i in s.made && i != t ensures i in y && x[i] == y[i] {
      SameCluster(w, v, s, n, j, t, i);
    }
    BuiltAt(w, s, t);
  }

  lemma BuiltAt(w: World, s: Split, i: nat)
    requires i in s.made && s.made[i] in s.b
    ensures i in Built(w, s.groups, s.b, s.made)
    ensures Built(w, s.groups, s.b, s.made)[i] == Data(s.groups, BranchNodes(w, s.b[s.made[i]]))
  {
  }

  lemma SameCluster(w: World, v: World, s: Split, n: Vec, j: nat, t: nat, i: nat)
    requires OneToOne(s.b, s.b.Keys, s.made) && j in s.b && t in s.made && s.made[t] == j && i in s.made && i != t
    requires w.defs == v.defs && forall q :: q != n ==> w.GetNode(q) == v.GetNode(q)
    requires forall i :: i in s.b && i != j ==> n !in s.b[i]
    ensures i in Built(w, s.groups, s.b, s.made) && i in Built(v, s.groups, s.b[j := {}], s.made - {t})
    ensures Built(w, s.groups, s.b, s.made)[i] == Built(v, s.groups, s.b[j := {}], s.made - {t})[i]
  {
    assert s.made[i] in s.b && s.made[i] != j;
    hide BranchNodes, World.GetNode, Built, OneToOne;
    BuiltAt(w, s, i);
    BuiltAt(v, Less(s, j, t), i);
    SameNodesSeen(w, v, s.b[s.made[i]]);
  }

  lemma LonerNodes(w: World, n: Vec)
    ensures BranchNodes(w, {n}) == map[n := WorldEntry(w, n)]
  {
    assert forall q :: q in BranchNodes(w, {n}) <==> q == n;
  }

  /** The search of a removal registers a lone node where it starts, besides what it does without the node. */
  lemma FoundEarly(v: World, between: World, w: World, m: Contents, s: Split, n: Vec, origins: set<Vec>)
    requires Tracks(v, m, s.group, v.Painted()) && s.Of(m) && n in origins
    requires between.Painted() == v.Painted() - {s.pos} && n !in between.Painted()
    requires w.Painted() == between.Painted()[n := w.NodeColor(w.GetNode(n))] && !Linked(w.Painted(), n)
    requires w.defs == between.defs == v.defs && forall q :: q != n ==> w.GetNode(q) == between.GetNode(q)
    requires Scanned(ColorGraph(w.Painted()), origins, s.b)
    ensures Tracks(w, s.Contents(w, m), s.group, w.Painted()) <==> Harmless(v.Painted(), {s.pos}, origins)
  {
    hide World.Painted, World.GetNode, World.NodeColor, ColorGraph, Harmless, Tracks, Scanned, Split.Contents, Split.Of,
         OneToOne, Component, JoinedContents, Sweeping, WithLoner;
    var paint, p := v.Painted(), s.pos;
    PaintLoner(between.Painted(), n, w.NodeColor(w.GetNode(n)));
    var j := ScanWithout(ColorGraph(between.Painted()), ColorGraph(w.Painted()), n, origins, s.b);
    var t := MadeOf(m, s, j);
    NotThere(v, m, s.group, p, n);
    LessIsSplit(m, s, n, j, t);
    LessContents(w, between, m, s, n, j, t);
    SameColors(v, between, m, s.group, paint);
    SweepingStarts(between, m, s.group, paint, {p});
    SeenIsGone(between, Less(s, j, t), paint, {p}, origins);
    SweepingGoesOn(between, m, Less(s, j, t), paint, {p}, {}, {}, origins);
    assert {} + {p} == {p} && {} + origins == origins;
    SweepingEnds(between, Less(s, j, t).Contents(between, m), s.group, paint, {p}, origins);
    var l := Less(s, j, t).Contents(between, m);
    SameColors(between, w, l, s.group, between.Painted());
    if Tracks(w, s.Contents(w, m), s.group, w.Painted()) {
      LonerLeaves(w, l, s.group, between.Painted(), n, t, s.groups);
    }
    if Harmless(paint, {p}, origins) {
      LonerJoins(w, l, s.group, between.Painted(), n, t, s.groups);
    }
  }

  lemma MadeOf(m: Contents, s: Split, j: nat) returns (t: nat)
    requires s.Of(m) && j in s.b && s.b[j] != {}
    ensures t in s.made && s.made[t] == j && s.group in s.groups
  {
    t :| t in s.made && s.made[t] == j;
  }

  lemma NotThere(v: World, m: Contents, group: string, p: Vec, n: Vec)
    requires Tracks(v, m, group, v.Painted()) && n !in v.Painted() - {p}
    ensures forall i :: i in View(m, group) ==> n !in View(m, group)[i] - {p}
  {
    hide ColorGraph, Partitioned;
    forall i | i in View(m, group) ensures n !in View(m, group)[i] - {p} {
      assert n in View(m, group)[i] ==> HeldIn(m, group, n, i);
    }
  }

  /** A lone node with a cluster of its own. */
  lemma LonerJoins(w: World, m: Contents, group: string, paint: Painting, n: Vec, t: nat, groups: Groups)
    requires Tracks(w, m, group, paint) && n !in paint && t !in m && group in groups
    requires !Linked(paint[n := w.NodeColor(w.GetNode(n))], n)
    ensures Tracks(w, JoinedContents(m, {}, t, groups, map[], WorldEntry(w, n)), group,
      paint[n := w.NodeColor(w.GetNode(n))])
  {
    hide Tracks, ColorGraph, JoinedContents, View;
    var h := ColorGraph(paint[n := w.NodeColor(w.GetNode(n))]);
    forall i | i in View(m, group) ensures !Touches(h, n, View(m, group)[i]) {
      NotTouched(paint[n := w.NodeColor(w.GetNode(n))], n, View(m, group)[i]);
    }
    JoiningTracks(w, m, group, paint, {}, t, groups, map[], WorldEntry(w, n));
  }

  /** And without it. */
  lemma LonerLeaves(w: World, m: Contents, group: string, paint: Painting, n: Vec, t: nat, groups: Groups)
    requires n !in paint && t !in m && group in groups && !Linked(paint[n := w.NodeColor(w.GetNode(n))], n)
    requires Tracks(w, JoinedContents(m, {}, t, groups, map[], WorldEntry(w, n)), group,
      paint[n := w.NodeColor(w.GetNode(n))])
    ensures Tracks(w, m, group, paint)
  {
    hide ColorGraph, Shows, Partitioned, View, Component, WithLoner;
    var full := paint[n := w.NodeColor(w.GetNode(n))];
    var l := JoinedContents(m, {}, t, groups, map[], WorldEntry(w, n));
    PaintLoner(paint, n, w.NodeColor(w.GetNode(n)));
    LonerView(m, group, t, groups, w, n);
    PartsWithout(ColorGraph(paint), ColorGraph(full), View(m, group), t, n);
    ShownWithout(w, m, group, paint, n, t, groups);
    NothingGone(paint);
    PartsShow(w, m, group, paint, {});
  }

  lemma LonerView(m: Contents, group: string, t: nat, groups: Groups, w: World, n: Vec)
    requires t !in m && group in groups
    ensures View(JoinedContents(m, {}, t, groups, map[], WorldEntry(w, n)), group) == View(m, group)[t := {n}]
    ensures t !in View(m, group)
  {
    assert map[][n := WorldEntry(w, n)].Keys == {n};
  }

  lemma PartsWithout(g: Graph, h: Graph, k: Clustering, t: nat, n: Vec)
    requires WithLoner(g, h, n) && t !in k && Partitioned(h, k[t := {n}])
    ensures Partitioned(g, k)
  {
    hide Component;
    var l := k[t := {n}];
    forall i | i in k && k[i] != {} ensures Component(g, k[i]) {
      assert l[i] == k[i] && l[i] !! l[t];
      LonerComponents(g, h, n, k[i]);
    }
    forall i, j | i in k && j in k && i != j ensures k[i] !! k[j] {
      assert l[i] !! l[j];
    }
    forall u | u in g.nodes ensures Covered(k, u) {
      assert Covered(l, u);
      var i :| i in l && u in l[i];
      assert i in k && u in k[i];
    }
  }

  lemma ShownWithout(w: World, m: Contents, group: string, paint: Painting, n: Vec, t: nat, groups: Groups)
    requires n !in paint && t !in m && group in groups
    requires Tracks(w, JoinedContents(m, {}, t, groups, map[], WorldEntry(w, n)), group,
      paint[n := w.NodeColor(w.GetNode(n))])
    ensures Sound(w, m, group, paint)
  {
    hide ColorGraph, Partitioned;
    var full := paint[n := w.NodeColor(w.GetNode(n))];
    var l := JoinedContents(m, {}, t, groups, map[], WorldEntry(w, n));
    TracksApart(w, l, group, full, n);
    assert HeldIn(l, group, n, t);
    forall i, p | HeldIn(m, group, p, i) ensures p in paint && w.NodeColor(m[i].nodes[p].node) == paint[p] {
      assert i != t && l[i] == m[i] && HeldIn(l, group, p, i);
    }
  }

  lemma NotTouched(paint: Painting, n: Vec, c: set<Vec>)
    requires !Linked(paint, n)
    ensures !Touches(ColorGraph(paint), n, c)
  {
    forall u | Adjacent(n, u) ensures (n, u) !in ColorGraph(paint).links {
      var d :| Step(n, d) == u;
    }
  }

  /**
   The queue `[remove p, add n]`, worked off when both have happened: `n` stands alone where the
   search around `p` starts from, and may be at `p` itself. Even if the removal is harmless, it
   registers `n`, and the addition registers it again: it ends in two clusters.
   */
  method AddBehindRemoval(s: SimpleCluster, cls: Clusters, v: World, p: Vec, rest: Node, order: seq<Dir>, n: Vec,
                          node: Node)
    returns (w: World)
    requires Follows(cls, v, s.group) && Removed(p, rest, order).Possible(v)
    requires Placed(n, node).Possible(Removed(p, rest, order).After(v))
    requires n in Origins(p, order, |order|) && Harmless(v.Painted(), {p}, Origins(p, order, |order|))
    requires !Linked(Placed(n, node).After(Removed(p, rest, order).After(v)).Painted(), n)
    modifies cls, cls.clusters.Values
    ensures w == Placed(n, node).After(Removed(p, rest, order).After(v))
    ensures w.Valid() && !Follows(cls, w, s.group) && !AtMostOne(cls.Abs(), s.group, n)
  {
    hide World.Painted, World.Valid, Tracks, Clusters.Valid, Clusters.Exact, Clusters.Abs, Grouped, OthersKept, Scanned,
         ColorGraph, Split.Of, Split.Contents, Linked, MayReplace, InheritsWith, AtMostOne, Origins, Harmless, Rejoins,
         TouchesHome, Rated, CoversSearch, Clusters.Live;
    ghost var between := Removed(p, rest, order).After(v);
    w := Placed(n, node).After(Removed(p, rest, order).After(v));
    PaintedAfter(v, Removed(p, rest, order));
    PaintedAfter(between, Placed(n, node));
    ghost var m := cls.Abs();
    TracksApart(v, m, s.group, v.Painted(), p);
    cls.ExactIsLive(w.Painted().Keys + {p});
    AllCoverSearch(w, Origins(p, order, |order|), p);
    ghost var x := s.Resplit(cls, w, p, order, w.Painted().Keys + {p});
    FoundEarly(v, between, w, m, x, n, Origins(p, order, |order|));
    LinkedRejoins(w.Painted(), n);
    var given := BucketOf(cls, s.group);
    s.HandleAddNode(cls, w, n, node, w.MemberGroups(node), given, w.Painted());
    assert w.Painted()[n := w.NodeColor(node)] == w.Painted();
  }

  /* The added node has neighbours. */

  /** The nodes of the painting with their links, and `n` with the links that it has once `p` is gone. */
  function GraphWith(paint: Painting, p: Vec, n: Vec, c: Color): Graph {
    var late := ColorGraph((paint - {p})[n := c]);
    Graph(paint.Keys + {n}, ColorGraph(paint).links + set l | l in late.links && (l.0 == n || l.1 == n))
  }

  /** The removal of `p` when `n` is counted to the component that it will be linked to. */
  function LateSweep(paint: Painting, p: Vec, n: Vec, c: Color): Sweep {
    Sweep(GraphWith(paint, p, n, c), ColorGraph((paint - {p})[n := c]), {p})
  }

  lemma LateIsValid(paint: Painting, p: Vec, n: Vec, c: Color)
    requires n !in paint && n != p
    ensures LateSweep(paint, p, n, c).Valid() && Grown(ColorGraph(paint), GraphWith(paint, p, n, c), n)
  {
    ColorGraphUndirected(paint);
    ColorGraphUndirected((paint - {p})[n := c]);
  }

  /** The old nodes that `n` will be linked to are all in the old component `home`, and there is one. */
  ghost predicate JoinsOne(paint: Painting, p: Vec, n: Vec, c: Color, home: set<Vec>) {
    && Component(ColorGraph(paint), home) && Linked((paint - {p})[n := c], n)
    && forall u :: (n, u) in ColorGraph((paint - {p})[n := c]).links ==> u in home
  }

  lemma LinkOfNew(paint: Painting, p: Vec, n: Vec, c: Color, home: set<Vec>) returns (u: Vec)
    requires JoinsOne(paint, p, n, c, home) && n !in paint && n != p
    ensures u in home && u != p && u != n && (n, u) in ColorGraph((paint - {p})[n := c]).links
    ensures (n, u) in GraphWith(paint, p, n, c).links
  {
    var d :| (n, Step(n, d)) in ColorGraph((paint - {p})[n := c]).links;
    u := Step(n, d);
  }

  /** With `n` in that cluster the clusters are right for the graph with `n`. */
  lemma CountedIn(paint: Painting, p: Vec, n: Vec, c: Color, k: Clustering, x: nat)
    requires n !in paint && n != p && Partitioned(ColorGraph(paint), k) && x in k && JoinsOne(paint, p, n, c, k[x])
    ensures Partitioned(GraphWith(paint, p, n, c), k[x := k[x] + {n}])
  {
    hide ColorGraph, Component, Partitioned;
    var g := GraphWith(paint, p, n, c);
    LateIsValid(paint, p, n, c);
    var u := LinkOfNew(paint, p, n, c, k[x]);
    forall i | i in k ensures i in {x} <==> Touches(g, n, k[i]) {
      if Touches(g, n, k[i]) {
        OnlyHomeTouched(paint, p, n, c, k, x, i);
      }
      if i == x {
        assert u in k[i] && (n, u) in g.links;
      }
    }
    assert UnionOf(k, {x}) == k[x];
    assert (k - {x})[x := k[x] + {n}] == k[x := k[x] + {n}];
    AddingKeepsComponents(ColorGraph(paint), g, k, k[x := k[x] + {n}], {x}, x, n);
  }

  lemma OnlyHomeTouched(paint: Painting, p: Vec, n: Vec, c: Color, k: Clustering, x: nat, i: nat)
    requires n !in paint && n != p && Partitioned(ColorGraph(paint), k) && x in k && JoinsOne(paint, p, n, c, k[x])
    requires i in k && Touches(GraphWith(paint, p, n, c), n, k[i])
    ensures i == x
  {
    var u :| u in k[i] && (n, u) in GraphWith(paint, p, n, c).links;
    assert (n, u) in ColorGraph((paint - {p})[n := c]).links;
    hide Component;
    assert u in k[x];
    OneHome(ColorGraph(paint), k, i, x, u);
  }

  /** A branch meets the clusters with `n` as it meets those without. */
  lemma MeetsTheSame(paint: Painting, p: Vec, n: Vec, c: Color, k: Clustering, x: nat, y: set<Vec>, i: nat)
    requires n !in paint && n != p && x in k && JoinsOne(paint, p, n, c, k[x])
    requires y != {} ==> Component(ColorGraph((paint - {p})[n := c]), y)
    ensures Meets(Without(k[x := k[x] + {n}], p), y, i) <==> Meets(Without(k, p), y, i)
  {
    var u := LinkOfNew(paint, p, n, c, k[x]);
    hide ColorGraph, Connected;
    if i == x && n in y {
      assert u in y && u in Without(k, p)[x];
      assert u in y * Without(k, p)[x] && u in y * Without(k[x := k[x] + {n}], p)[x];
    } else if i == x {
      assert y * Without(k[x := k[x] + {n}], p)[x] == y * Without(k, p)[x];
    }
  }

  lemma AffectedTheSame(k: Clustering, k': Clustering, b: Clustering, ids: set<nat>)
    requires Affected(k, b, ids) && forall j, i :: j in b ==> (Meets(k', b[j], i) <==> Meets(k, b[j], i))
    ensures Affected(k', b, ids)
  {
    hide Meets;
    forall i | i in ids ensures MetBySome(k', b, i) {
      var j :| j in b && Meets(k, b[j], i);
      assert Meets(k', b[j], i);
    }
    forall j | j in b ensures HasItsOne(k', b[j], ids) {
      if i :| Meets(k', b[j], i) {
        assert Meets(k, b[j], i);
        var e :| e in ids && Meets(k, b[j], e);
        assert Meets(k', b[j], e);
      }
    }
    hide HasItsOne, MetBySome;
    FoundAll(k', b, ids);
  }

  /** The removal of `p`, found by its search in a world that has `n` already, is one of the clusters with `n`. */
  lemma LateRemoval(r: Removal, paint: Painting, n: Vec, c: Color, x: nat, d: set<Vec>)
    requires n !in paint && n != r.p && Partitioned(ColorGraph(paint), r.k) && x in r.k
    requires JoinsOne(paint, r.p, n, c, r.k[x]) && r.Valid(ColorGraph((paint - {r.p})[n := c]))
    requires Component(ColorGraph((paint - {r.p})[n := c]), d) && n in d && d * r.origins != {}
    ensures r.(k := r.k[x := r.k[x] + {n}]).Valid(ColorGraph((paint - {r.p})[n := c]))
  {
    hide ColorGraph, Component, Partitioned, Affected, JoinsOne, Meets, Rebuilt;
    var k' := r.k[x := r.k[x] + {n}];
    forall j, i | j in r.b ensures Meets(Without(k', r.p), r.b[j], i) <==> Meets(Without(r.k, r.p), r.b[j], i) {
      MeetsTheSame(paint, r.p, n, c, r.k, x, r.b[j], i);
    }
    AffectedTheSame(Without(r.k, r.p), Without(k', r.p), r.b, r.ids);
    HomeIsDestroyed(r, paint, n, c, x, d);
    RebuiltTheSame(r, n, x);
  }

  lemma RebuiltTheSame(r: Removal, n: Vec, x: nat)
    requires Rebuilt(Without(r.k, r.p), r.b, r.ids, r.made, r.l) && x in r.k && x in r.ids
    ensures Rebuilt(Without(r.k[x := r.k[x] + {n}], r.p), r.b, r.ids, r.made, r.l)
  {
    var w, w' := Without(r.k, r.p), Without(r.k[x := r.k[x] + {n}], r.p);
    assert w.Keys == w'.Keys;
    assert forall i :: i in w && i != x ==> w'[i] == w[i];
  }

  lemma HomeIsDestroyed(r: Removal, paint: Painting, n: Vec, c: Color, x: nat, d: set<Vec>)
    requires n !in paint && n != r.p && Partitioned(ColorGraph(paint), r.k) && x in r.k
    requires JoinsOne(paint, r.p, n, c, r.k[x]) && r.Valid(ColorGraph((paint - {r.p})[n := c]))
    requires Component(ColorGraph((paint - {r.p})[n := c]), d) && n in d && d * r.origins != {}
    ensures x in r.ids
  {
    hide ColorGraph, Component, Partitioned, JoinsOne, Rebuilt, Sweep.Valid;
    var h := ColorGraph((paint - {r.p})[n := c]);
    var u := LinkOfNew(paint, r.p, n, c, r.k[x]);
    var j := BranchOf(r, h, d);
    NextIsInside(h, d, n, u);
    assert u in r.b[j] * Without(r.k, r.p)[x];
    assert Meets(Without(r.k, r.p), r.b[j], x);
    var e :| e in r.ids && Meets(Without(r.k, r.p), r.b[j], e);
    var y :| y in r.b[j] * Without(r.k, r.p)[e];
    OnlyHomeMet(r, paint, n, c, x, d, u, e, y);
  }

  lemma OnlyHomeMet(r: Removal, paint: Painting, n: Vec, c: Color, x: nat, d: set<Vec>, u: Vec, e: nat, y: Vec)
    requires n !in paint && n != r.p && Partitioned(ColorGraph(paint), r.k) && x in r.k &&
      JoinsOne(paint, r.p, n, c, r.k[x])
    requires Component(ColorGraph((paint - {r.p})[n := c]), d) && u in d && u in r.k[x] && e in r.k && y in d &&
      y in r.k[e]
    ensures e == x
  {
    hide ColorGraph, Component, Partitioned, JoinsOne, Sweep.Valid, Sweep.Swept;
    var k' := r.k[x := r.k[x] + {n}];
    var s := LateSweep(paint, r.p, n, c);
    LateIsValid(paint, r.p, n, c);
    CountedIn(paint, r.p, n, c, r.k, x);
    s.SweepStarts(k');
    s.PieceFits(k', {}, {}, d, x, u);
    assert y in k'[e] && y in k'[x];
    OneHome(s.g, k', e, x, y);
  }

  lemma NextIsInside(h: Graph, d: set<Vec>, n: Vec, u: Vec)
    requires Component(h, d) && n in d && (n, u) in h.links
    ensures u in d
  {
  }

  lemma BranchOf(r: Removal, h: Graph, d: set<Vec>) returns (j: nat)
    requires r.Valid(h) && Component(h, d) && d * r.origins != {}
    ensures j in r.b && r.b[j] == d
  {
    j := Sweep(h, h, {}).ExploredIsBranch(r, d);
  }

  /**
   The clusters after that removal are the components of the world with `n` if and only if nothing
   is lost, with `n` counted to the component it joins.
   */
  lemma LateRemovalEnds(r: Removal, paint: Painting, n: Vec, c: Color, x: nat, d: set<Vec>)
    requires n !in paint && n != r.p && Partitioned(ColorGraph(paint), r.k) && x in r.k
    requires JoinsOne(paint, r.p, n, c, r.k[x]) && r.Valid(ColorGraph((paint - {r.p})[n := c]))
    requires Component(ColorGraph((paint - {r.p})[n := c]), d) && n in d && d * r.origins != {}
    ensures Partitioned(ColorGraph((paint - {r.p})[n := c]), r.l) <==>
      LateSweep(paint, r.p, n, c).NothingLost(r.origins)
  {
    hide ColorGraph, Component, Partitioned, JoinsOne, Removal.Valid, Sweep.Valid, Sweep.Swept, Sweep.NothingLost;
    var k' := r.k[x := r.k[x] + {n}];
    var s := LateSweep(paint, r.p, n, c);
    LateIsValid(paint, r.p, n, c);
    CountedIn(paint, r.p, n, c, r.k, x);
    LateRemoval(r, paint, n, c, x, d);
    s.SweepStarts(k');
    s.SweepGoesOn(r.(k := k'), {}, {});
    assert {} + {r.p} == {r.p} && {} + r.origins == r.origins;
    s.SweepEnds(r.l, r.origins);
  }

  /** The same on the contents of the registry. */
  lemma LateTracks(v: World, w: World, m: Contents, s: Split, n: Vec, x: nat, d: set<Vec>, origins: set<Vec>)
    requires Tracks(v, m, s.group, v.Painted()) && s.Of(m) && w.defs == v.defs
    requires n !in v.Painted() && n != s.pos && x in View(m, s.group)
    requires var c := w.NodeColor(w.GetNode(n));
      w.Painted() == (v.Painted() - {s.pos})[n := c] && JoinsOne(v.Painted(), s.pos, n, c, View(m, s.group)[x])
    requires Scanned(ColorGraph(w.Painted()), origins, s.b)
    requires Component(ColorGraph(w.Painted()), d) && n in d && d * origins != {}
    ensures Tracks(w, s.Contents(w, m), s.group, w.Painted()) <==>
      LateSweep(v.Painted(), s.pos, n, w.NodeColor(w.GetNode(n))).NothingLost(origins)
  {
    hide ColorGraph, Component, Partitioned, JoinsOne, Scanned, View, Split.Of, Split.Contents, World.Painted,
         World.GetNode, Sweep.NothingLost, Shows;
    var l := s.Contents(w, m);
    LateSplit(w, m, s, origins);
    LateRemovalEnds(s.OnView(w, m, origins), v.Painted(), n, w.NodeColor(w.GetNode(n)), x, d);
    LateSound(v, w, m, s, n, origins);
    NothingGone(w.Painted());
    if Partitioned(ColorGraph(w.Painted()), View(l, s.group)) {
      PartsShow(w, l, s.group, w.Painted(), {});
    }
  }

  lemma NothingGone(paint: Painting)
    ensures paint - {} == paint
  {
  }

  lemma LateSplit(w: World, m: Contents, s: Split, origins: set<Vec>)
    requires s.Of(m) && Scanned(ColorGraph(w.Painted()), origins, s.b)
    ensures s.OnView(w, m, origins).Valid(ColorGraph(w.Painted()))
  {
    hide Scanned, Split.Contents, World.Painted, ColorGraph, Rebuilt;
    SplitRebuilds(w, m, s);
  }

  lemma LateSound(v: World, w: World, m: Contents, s: Split, n: Vec, origins: set<Vec>)
    requires Tracks(v, m, s.group, v.Painted()) && s.Of(m) && w.defs == v.defs && n !in v.Painted()
    requires w.Painted() == (v.Painted() - {s.pos})[n := w.NodeColor(w.GetNode(n))]
    requires Scanned(ColorGraph(w.Painted()), origins, s.b)
    ensures Sound(w, s.Contents(w, m), s.group, w.Painted())
  {
    hide World.Painted, World.GetNode, ColorGraph, Scanned, Split.Of, Split.Contents, Partitioned;
    NothingGone(w.Painted());
    SeenIsGone(w, s, w.Painted(), {}, origins);
    SameColors(v, w, m, s.group, v.Painted());
    forall i, q | HeldIn(s.Contents(w, m), s.group, q, i)
      ensures q in w.Painted() && w.NodeColor(s.Contents(w, m)[i].nodes[q].node) == w.Painted()[q]
    {
      SplitHolds(w, m, s, q, i);
    }
  }

  /** All entries of the removal and the addition list groups of their nodes. */
  lemma LateGroups(v: World, w: World, m: Contents, l: Contents, l': Contents, group: string, n: Vec)
    requires Grouped(v, m, group) && Sound(v, m, group, v.Painted()) && n !in v.Painted()
    requires InheritsFrom(w, m, l, group) && InheritsWith(l, l', group, WorldEntry(w, n)) && w.defs == v.defs
    requires forall q :: q in w.Painted() && q != n ==> w.GetNode(q) == v.GetNode(q)
    ensures Grouped(w, l', group)
  {
    hide World.Painted, World.GetNode;
    forall i, q | HeldIn(l', group, q, i) && q in w.Painted()
      ensures l'[i].nodes[q].groups.Keys <= w.MemberGroups(w.GetNode(q)).Keys
    {
      if l'[i].nodes[q] != WorldEntry(w, q) {
        var j :| HeldIn(l, group, q, j) && l[j].nodes[q] == l'[i].nodes[q];
        var e :| HeldIn(m, group, q, e) && m[e].nodes[q] == l[j].nodes[q];
      }
    }
  }

  lemma LateMayReplace(w: World, m: Contents, l: Contents, group: string, paint: Painting, n: Vec)
    requires InheritsFrom(w, m, l, group) && Sound(w, m, group, paint) && n !in paint
    ensures MayReplace(l, group, WorldEntry(w, n))
  {
    forall i | HeldIn(l, group, n, i) ensures l[i].nodes[n] == WorldEntry(w, n) {
    }
  }

  /** What the two events do to the world. */
  lemma BothHappened(v: World, p: Vec, rest: Node, order: seq<Dir>, n: Vec, node: Node)
    requires v.Valid() && v.InGroup(node) && !v.InGroup(rest) && n != p
    ensures var w := Placed(n, node).After(Removed(p, rest, order).After(v));
      && w.Valid() && w.defs == v.defs && w.GetNode(n) == node && w.NodeColor(node) == v.NodeColor(node)
      && w.Painted() == (v.Painted() - {p})[n := w.NodeColor(node)]
      && forall q :: q in w.Painted() && q != n ==> w.GetNode(q) == v.GetNode(q)
  {
    hide World.Painted;
    var between := Removed(p, rest, order).After(v);
    PaintedAfter(v, Removed(p, rest, order));
    Unpainted(between, v.Painted(), p, n, node);
  }

  lemma Unpainted(between: World, paint: Painting, p: Vec, n: Vec, node: Node)
    requires between.Valid() && between.Painted() == paint - {p} && between.InGroup(node)
    ensures between.(nodes := between.nodes[n := node]).Valid()
    ensures between.(nodes := between.nodes[n := node]).Painted() == (paint - {p})[n := between.NodeColor(node)]
  {
    hide World.Painted;
    PaintedWith(between, n, node);
  }

  /**
   The queue `[remove p, add n]` again, when `n` has neighbours and the search around `p` finds it.
   If all old nodes that it is linked to are in one old component, and nothing is lost when `n` is
   counted to that one, the clusters are the components afterwards, whatever the order of any table.
   */
  method AddLinkedBehindRemoval(s: SimpleCluster, cls: Clusters, v: World, p: Vec, rest: Node, order: seq<Dir>, n: Vec,
                                node: Node, ghost home: set<Vec>, ghost d: set<Vec>)
    returns (w: World)
    requires Follows(cls, v, s.group) && v.InGroup(node) && !v.InGroup(rest) && n !in v.Painted() && n != p
    requires JoinsOne(v.Painted(), p, n, v.NodeColor(node), home)
    requires Component(ColorGraph((v.Painted() - {p})[n := v.NodeColor(node)]), d) && n in d
    requires d * Origins(p, order, |order|) != {}
    requires LateSweep(v.Painted(), p, n, v.NodeColor(node)).NothingLost(Origins(p, order, |order|))
    modifies cls, cls.clusters.Values
    ensures w == Placed(n, node).After(Removed(p, rest, order).After(v)) && Follows(cls, w, s.group)
    ensures OthersKept(old(cls.Abs()), cls.Abs(), s.group)
  {
    hide World.Painted, World.Valid, World.GetNode, Tracks, Clusters.Valid, Clusters.Exact, Clusters.Abs, Clusters.Live,
         Grouped, OthersKept, Scanned, ColorGraph, Component, Split.Of, Split.Contents, Linked, MayReplace, Rated, View,
         InheritsWith, InheritsFrom, AtMostOne, Origins, Rejoins, TouchesHome, JoinsOne, Sweep.NothingLost, Sound,
         CoversSearch;
    w := Placed(n, node).After(Removed(p, rest, order).After(v));
    BothHappened(v, p, rest, order, n, node);
    ghost var m, origins := cls.Abs(), Origins(p, order, |order|);
    TracksApart(v, m, s.group, v.Painted(), p);
    TracksSound(v, m, s.group, v.Painted());
    ghost var x := HomeCluster(v, m, s.group, v.Painted(), home, p, n, v.NodeColor(node));
    cls.ExactIsLive(w.Painted().Keys + {p});
    AllCoverSearch(w, origins, p);
    ghost var split := s.Resplit(cls, w, p, order, w.Painted().Keys + {p});
    LateTracks(v, w, m, split, n, x, d, origins);
    SplitInherits(w, m, split);
    ghost var l := cls.Abs();
    SameColors(v, w, m, s.group, v.Painted());
    TracksSound(w, m, s.group, v.Painted());
    LateMayReplace(w, m, l, s.group, v.Painted(), n);
    var given := BucketOf(cls, s.group);
    HasLink(v.Painted(), p, n, v.NodeColor(node), home);
    LinkedRejoins(w.Painted(), n);
    s.HandleAddNode(cls, w, n, node, w.MemberGroups(node), given, w.Painted());
    assert w.Painted()[n := w.NodeColor(node)] == w.Painted();
    LateGroups(v, w, m, l, cls.Abs(), s.group, n);
    KeptTwice(m, l, cls.Abs(), s.group);
  }

  lemma HasLink(paint: Painting, p: Vec, n: Vec, c: Color, home: set<Vec>)
    requires JoinsOne(paint, p, n, c, home)
    ensures Linked((paint - {p})[n := c], n)
  {
  }

  lemma HomeCluster(w: World, m: Contents, group: string, paint: Painting, home: set<Vec>, p: Vec, n: Vec, c: Color)
    returns (x: nat)
    requires Tracks(w, m, group, paint) && JoinsOne(paint, p, n, c, home)
    ensures x in View(m, group) && View(m, group)[x] == home
  {
    hide ColorGraph, Partitioned, Connected, Closed;
    ClustersAreComponents(ColorGraph(paint), View(m, group), home);
    x :| x in View(m, group) && View(m, group)[x] == home;
  }

  /** When the search does not find it, the world around the removed node looks as it did without it. */
  lemma UnexploredIsSeen(between: World, w: World, n: Vec, d: set<Vec>, origins: set<Vec>)
    requires n !in between.Painted() && w.Painted() == between.Painted()[n := w.NodeColor(w.GetNode(n))]
    requires w.defs == between.defs && w.group == between.group && forall q ::
      q != n ==> w.GetNode(q) == between.GetNode(q)
    requires Component(ColorGraph(w.Painted()), d) && n in d && d * origins == {}
    ensures Sees(w, between, origins)
  {
    hide World.Painted, World.GetNode, ColorGraph, Component;
    forall x | x * origins != {}
      ensures Component(ColorGraph(w.Painted()), x) <==> Component(ColorGraph(between.Painted()), x)
      ensures Component(ColorGraph(between.Painted()), x) ==> n !in x
    {
      FarFromNew(between.Painted(), n, w.NodeColor(w.GetNode(n)), d, x, origins);
    }
  }

  lemma FarFromNew(paint: Painting, n: Vec, c: Color, d: set<Vec>, x: set<Vec>, origins: set<Vec>)
    requires n !in paint && Component(ColorGraph(paint[n := c]), d) && n in d && d * origins == {} && x * origins != {}
    ensures Component(ColorGraph(paint[n := c]), x) <==> Component(ColorGraph(paint), x)
    ensures Component(ColorGraph(paint), x) ==> n !in x
  {
    var g, h := ColorGraph(paint), ColorGraph(paint[n := c]);
    PaintGrows(paint, n, c);
    hide ColorGraph;
    var o :| o in x * origins;
    if Component(h, x) {
      if n in x {
        ComponentUnique(h, x, d, n);
        assert false;
      }
      SameLinksConnected(h, g, x);
    }
    if Component(g, x) {
      SameLinksConnected(g, h, x);
      forall u, y | u in x && (u, y) in h.links ensures y in x {
        if y == n {
          OverlapIncludes(h, x, d, u);
          assert false;
        }
      }
    }
  }
}
