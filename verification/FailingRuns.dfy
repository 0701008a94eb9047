/** Runs from an empty registry that end with wrong clusters, one for each way in which the handlers go wrong. */
module FailingRuns {
  import opened Basics
  import opened Grid
  import opened Graphs
  import opened Clusterings
  import opened Sweeps
  import opened Worlds
  import opened Buckets
  import opened ClusterNodes
  import opened ClusterRegistry
  import opened BranchScans
  import opened ClusterViews
  import opened HandlerEffects
  import opened SimpleClusters
  import opened ClusterRuns
  import opened LostNodes
  import opened LateQueues

  /** An empty registry follows a world without nodes of the group. */
  method StartEmpty(w: World, group: string) returns (cls: Clusters)
    requires w.Valid() && w.Painted() == map[]
    ensures fresh(cls) && fresh(cls.clusters.Values) && Follows(cls, w, group)
  {
    cls := new Clusters();
    ColorGraphUndirected(map[]);
  }

  /**
   The run that loses a node, for every order of the directions: three nodes are placed, the one in
   the middle is removed, and one of the others is in no cluster of the group any more.
   */
  method LoseANode(s: SimpleCluster, start: World, p: Vec, node: Node, rest: Node, order: seq<Dir>)
    returns (cls: Clusters, w: World, lost: Vec)
    requires start.Valid() && start.Painted() == map[] && |order| == 6
    requires start.InGroup(node) && start.NodeColor(node) == DEFAULT_COLOR && !start.InGroup(rest)
    ensures cls.Valid() && cls.Exact() && w.Valid() && lost in w.Painted()
    ensures !Follows(cls, w, s.group) && !Registered(cls.Abs(), s.group, lost)
  {
    hide World.Painted, World.Valid, Follows, OthersKept, Sweeping, Harmless, Origins, TwoSides;
    cls := StartEmpty(start, s.group);
    ghost var missed := MissedNeighbour(p, order);
    AllDirs(missed);
    var d :| d in DIRS && d != order[0] && !SearchedFrom(p, order, d);
    lost := Step(p, d);
    SidesApart(p, order[0], d);
    w := Place(s, cls, start, p, node);
    w := Place(s, cls, w, Step(p, order[0]), node);
    w := Place(s, cls, w, lost, node);
    ghost var paint := w.Painted();
    assert paint == TwoSides(p, order[0], d)[p := DEFAULT_COLOR] by {
      ThreePlaced(p, order[0], d);
    }
    SideIsLost(p, order, d);
    w := Remove(s, cls, w, p, rest, order);
    NotRegistered(w, cls.Abs(), s.group, paint, p, Origins(p, order, 6), lost);
  }

  lemma ThreePlaced(p: Vec, a: Dir, b: Dir)
    requires a != b
    ensures map[p := DEFAULT_COLOR][Step(p, a) := DEFAULT_COLOR][Step(p, b) := DEFAULT_COLOR] ==
      TwoSides(p, a, b)[p := DEFAULT_COLOR]
  {
    SidesApart(p, a, b);
  }

  lemma NotRegistered(w: World, m: Contents, group: string, paint: Painting, p: Vec, o: set<Vec>, lost: Vec)
    requires Sweeping(w, m, group, paint, {p}, {p}, o)
    requires forall k :: SweepOf(paint, {p}).Swept(k, {p}, o) ==> !Covered(k, lost)
    ensures !Registered(m, group, lost)
  {
    hide Sweep.Swept, ColorGraph;
    RegisteredIsCovered(m, group, lost);
  }

  lemma RegisteredIsCovered(m: Contents, group: string, q: Vec)
    ensures Registered(m, group, q) ==> Covered(View(m, group), q)
  {
    if i :| HeldIn(m, group, q, i) {
      assert q in View(m, group)[i];
    }
  }

  method Remove(s: SimpleCluster, cls: Clusters, w: World, p: Vec, rest: Node, order: seq<Dir>) returns (after: World)
    requires Follows(cls, w, s.group) && !w.InGroup(rest)
    modifies cls, cls.clusters.Values
    ensures after == Removed(p, rest, order).After(w) && after.Valid() && after.Painted() == w.Painted() - {p}
    ensures cls.Valid() && cls.Exact()
    ensures Follows(cls, after, s.group) <==> Harmless(w.Painted(), {p}, Origins(p, order, |order|))
    ensures Sweeping(after, cls.Abs(), s.group, w.Painted(), {p}, {p}, Origins(p, order, |order|))
  {
    hide World.Painted, World.Valid, Tracks, Clusters.Valid, Clusters.Exact, Grouped, OthersKept, Sweeping, Harmless,
      Origins;
    PaintedAfter(w, Removed(p, rest, order));
    after := Handle(s, cls, w, Removed(p, rest, order));
  }

  method Place(s: SimpleCluster, cls: Clusters, w: World, p: Vec, node: Node) returns (after: World)
    requires Follows(cls, w, s.group) && p !in w.Painted() && w.InGroup(node)
    modifies cls, cls.clusters.Values
    ensures after == Placed(p, node).After(w) && Follows(cls, after, s.group)
    ensures after.defs == w.defs && after.group == w.group && after.Painted() == w.Painted()[p := w.NodeColor(node)]
    ensures fresh(cls.clusters.Values - old(cls.clusters.Values))
  {
    hide World.Painted, InStep, Clusters.Valid, Clusters.Exact, OthersKept, Sweeping, Harmless;
    PaintedAfter(w, Placed(p, node));
    after := Handle(s, cls, w, Placed(p, node));
  }

  /** A node that stands alone and is loaded once more is in two clusters. */
  method LoadALoner(s: SimpleCluster, start: World, p: Vec, node: Node) returns (cls: Clusters, w: World)
    requires start.Valid() && start.Painted() == map[] && start.InGroup(node)
    ensures w == Placed(p, node).After(start) && !Follows(cls, w, s.group) && !AtMostOne(cls.Abs(), s.group, p)
  {
    hide World.Painted, World.Valid, Follows, OthersKept, Sweeping, Harmless, AtMostOne;
    cls := StartEmpty(start, s.group);
    w := Place(s, cls, start, p, node);
    AloneIsNotLinked(w.Painted(), p);
    w := Handle(s, cls, w, Loaded(p));
  }

  lemma AloneIsNotLinked(paint: Painting, p: Vec)
    requires paint.Keys == {p}
    ensures !Linked(paint, p)
  {
    forall d ensures Step(p, d) != p {
    }
  }

  /**
   For every order: the only node is removed and another one is placed where the search starts,
   both before the next tick. The new node is in two clusters.
   */
  method PlaceBehindRemoval(s: SimpleCluster, start: World, p: Vec, node: Node, rest: Node, order: seq<Dir>)
    returns (cls: Clusters, w: World, n: Vec)
    requires start.Valid() && start.Painted() == map[] && start.InGroup(node) && !start.InGroup(rest) && |order| > 0
    ensures n == Step(p, order[0]) && w.Painted().Keys == {n}
    ensures !Follows(cls, w, s.group) && !AtMostOne(cls.Abs(), s.group, n)
  {
    hide World.Painted, World.Valid, Follows, AtMostOne, Origins;
    n := Step(p, order[0]);
    FirstOrigin(p, order);
    cls, w := ReplaceOnlyNode(s, start, p, node, rest, order, n);
  }

  /** An order that comes back after two steps: the only node is removed and placed again before the next tick. */
  method PlaceAgain(s: SimpleCluster, start: World, p: Vec, node: Node, rest: Node, order: seq<Dir>)
    returns (cls: Clusters, w: World)
    requires start.Valid() && start.Painted() == map[] && start.InGroup(node) && !start.InGroup(rest)
    requires |order| > 1 && order[1] == Invert(order[0])
    ensures w.Painted().Keys == {p} && !Follows(cls, w, s.group) && !AtMostOne(cls.Abs(), s.group, p)
  {
    hide World.Painted, World.Valid, Follows, AtMostOne, Origins;
    SecondOrigin(p, order);
    cls, w := ReplaceOnlyNode(s, start, p, node, rest, order, p);
  }

  lemma FirstOrigin(p: Vec, order: seq<Dir>)
    requires |order| > 0
    ensures Step(p, order[0]) in Origins(p, order, |order|)
  {
    assert OriginAt(p, order, 0) == p && OriginAt(p, order, 1) == Step(p, order[0]);
  }

  lemma SecondOrigin(p: Vec, order: seq<Dir>)
    requires |order| > 1 && order[1] == Invert(order[0])
    ensures p in Origins(p, order, |order|)
  {
    assert OriginAt(p, order, 0) == p && OriginAt(p, order, 1) == Step(p, order[0]);
    InvertReturns(p, order[0]);
    assert OriginAt(p, order, 2) == p;
  }

  method ReplaceOnlyNode(s: SimpleCluster, start: World, p: Vec, node: Node, rest: Node, order: seq<Dir>, n: Vec)
    returns (cls: Clusters, w: World)
    requires start.Valid() && start.Painted() == map[] && start.InGroup(node) && !start.InGroup(rest)
    requires n in Origins(p, order, |order|)
    ensures w.Painted().Keys == {n} && !Follows(cls, w, s.group) && !AtMostOne(cls.Abs(), s.group, n)
  {
    hide World.Painted, World.Valid, Follows, AtMostOne, Origins, Harmless, Linked;
    cls := StartEmpty(start, s.group);
    w := Place(s, cls, start, p, node);
    FollowsIsValid(cls, w, s.group);
    LastIsHarmless(w.Painted(), p, Origins(p, order, |order|));
    Replaced(w, p, rest, order, n, node);
    w := AddBehindRemoval(s, cls, w, p, rest, order, n, node);
  }

  lemma FollowsIsValid(cls: Clusters, w: World, group: string)
    requires Follows(cls, w, group)
    ensures w.Valid()
  {
  }

  lemma LastIsHarmless(paint: Painting, p: Vec, o: set<Vec>)
    requires paint.Keys == {p}
    ensures Harmless(paint, {p}, o)
  {
    hide Closed;
    forall c | Component(ColorGraph(paint), c) ensures Connected(ColorGraph(paint - {p}), c - {p}) {
      assert c - {p} == {};
    }
  }

  lemma Replaced(w: World, p: Vec, rest: Node, order: seq<Dir>, n: Vec, node: Node)
    requires w.Valid() && w.Painted().Keys == {p} && w.InGroup(node) && !w.InGroup(rest)
    ensures var between := Removed(p, rest, order).After(w);
      && Placed(n, node).Possible(between) && Placed(n, node).After(between).Painted().Keys == {n}
      && !Linked(Placed(n, node).After(between).Painted(), n)
  {
    hide World.Painted;
    PaintedAfter(w, Removed(p, rest, order));
    var between := Removed(p, rest, order).After(w);
    assert between.Painted().Keys == {};
    PaintedAfter(between, Placed(n, node));
    AloneIsNotLinked(Placed(n, node).After(between).Painted(), n);
  }

  /**
   Two nodes stand apart and one is exchanged for a node of another colour. The update may pick the
   cluster of the other one, and then the old colour stays registered.
   */
  method MissAnUpdate(s: SimpleCluster, start: World, p: Vec, q: Vec, node: Node, other: Node)
    returns (cls: Clusters, w: World, ghost missed: Contents)
    requires start.Valid() && start.Painted() == map[] && start.InGroup(node) && start.InGroup(other)
    requires p != q && !Adjacent(p, q) && start.NodeColor(node) != start.NodeColor(other)
    ensures Follows(cls, w, s.group) && Updated(p, other).Possible(w)
    ensures MayBecome(cls.Abs(), s.group, Updated(p, other).Reported(w), missed)
    ensures !InStep(Updated(p, other).After(w), missed, s.group)
  {
    hide World.Painted, World.Valid, Follows, InStep, MayBecome, Tracks, Rated, SurelyHit;
    cls := StartEmpty(start, s.group);
    w := Place(s, cls, start, p, node);
    w := Place(s, cls, w, q, node);
    ghost var e := Updated(p, other);
    FollowsIsStep(cls, w, s.group);
    NotSurelyHit(w, cls.Abs(), s.group, w.Painted(), p, q);
    UpdateDecidesRun(w, cls.Abs(), s.group, e);
    missed :| MayBecome(cls.Abs(), s.group, e.Reported(w), missed) && !InStep(e.After(w), missed, s.group);
  }

  lemma FollowsIsStep(cls: Clusters, w: World, group: string)
    requires Follows(cls, w, group)
    ensures w.Valid() && InStep(w, cls.Abs(), group)
    ensures Tracks(w, cls.Abs(), group, w.Painted()) && Rated(cls.Abs(), group)
  {
  }

  lemma NotSurelyHit(w: World, m: Contents, group: string, paint: Painting, p: Vec, q: Vec)
    requires Tracks(w, m, group, paint) && Rated(m, group) && paint.Keys == {p, q} && p != q && !Adjacent(p, q)
    ensures !SurelyHit(m, group, p)
  {
    var j := HomeMayBePicked(w, m, group, paint, q);
    AdjacentSymmetric(q, p);
    AloneIsComponent(ColorGraph(paint), q);
    hide ColorGraph, Connected, Closed;
    assert q in View(m, group)[j] && Component(ColorGraph(paint), View(m, group)[j]);
    ComponentUnique(ColorGraph(paint), {q}, View(m, group)[j], q);
    assert p !in View(m, group)[j];
  }

  /**
   Two nodes of a cluster are in different blocks and one block expires. A branch with the node that
   has left is then taken to be in the cluster of the other one, which the handler would destroy.
   */
  method FollowAStaleListing(s: SimpleCluster, p: Vec, q: Vec, node: Node)
    returns (cls: Clusters, id: Option<nat>)
    requires BlockOf(p) != BlockOf(q)
    ensures cls.Valid() && id.Some? && HasClusterGroup(cls.Abs(), s.group, id.value)
    ensures Holds(cls.Abs(), q, id.value) && !Holds(cls.Abs(), p, id.value) && !cls.Live({p})
  {
    var i;
    cls, i := ExpireOneOfTwo(s, p, q, node);
    StaleIsNotLive(cls, p, i);
    hide Clusters.Valid, Clusters.Abs, Clusters.Live, View, Meets, Holds;
    id := s.FindClusterOf(cls, {p});
  }

  method ExpireOneOfTwo(s: SimpleCluster, p: Vec, q: Vec, node: Node) returns (cls: Clusters, id: nat)
    requires BlockOf(p) != BlockOf(q)
    ensures cls.Valid() && Listed(cls.nodeClusters, p, id) && HasClusterGroup(cls.Abs(), s.group, id)
    ensures cls.Abs().Keys == {id} && Holds(cls.Abs(), q, id) && !Holds(cls.Abs(), p, id)
  {
    cls, id := TwoInACluster(s, p, q, node);
    hide Clusters.Valid, Clusters.Abs, Keep;
    Expired(cls.Abs(), p, q, id);
    ExpireAll(cls, BlockOf(p));
  }

  method ExpireAll(cls: Clusters, block: Vec)
    requires cls.Valid()
    modifies cls.clusters.Values
    ensures cls.Valid() && cls.Abs() == Keep(old(cls.Abs()), block)
  {
    cls.ExpireBlock(block);
  }

  method TwoInACluster(s: SimpleCluster, p: Vec, q: Vec, node: Node) returns (cls: Clusters, id: nat)
    requires p != q
    ensures fresh(cls) && fresh(cls.clusters.Values) && cls.Valid() && Listed(cls.nodeClusters, p, id)
    ensures cls.Abs() == map[id := Data(s.ClusterGroups(), map[p := Entry(p, node, map[]), q := Entry(q, node, map[])])]
  {
    hide Clusters.Valid, Clusters.Abs;
    cls := new Clusters();
    var c := cls.CreateCluster(s.ClusterGroups());
    id := c.id;
    cls.AbsAt(id);
    cls.AddNodeToCluster(id, p, node, map[]);
    cls.AbsAt(id);
    cls.AddNodeToCluster(id, q, node, map[]);
    PutLists(map[], p, id, true);
  }

  lemma Expired(m: Contents, p: Vec, q: Vec, id: nat)
    requires id in m && Holds(m, p, id) && Holds(m, q, id) && BlockOf(p) != BlockOf(q)
    ensures Keep(m, BlockOf(p)).Keys == m.Keys && Keep(m, BlockOf(p))[id].groups == m[id].groups
    ensures Holds(Keep(m, BlockOf(p)), q, id) && !Holds(Keep(m, BlockOf(p)), p, id)
  {
  }

  lemma StaleIsNotLive(cls: Clusters, p: Vec, i: nat)
    requires Listed(cls.nodeClusters, p, i) && i in cls.Abs() && !Holds(cls.Abs(), p, i)
    ensures !cls.Live({p})
  {
  }
}
