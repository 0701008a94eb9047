/**
 How far the explored origins of a removal get. The origin is moved on by each direction in turn,
 so that only every second one is beside the removed node.
 */
module LostNodes {
  import opened Grid
  import opened Graphs
  import opened Clusterings
  import opened Worlds
  import opened BranchScans
  import opened ClusterViews

  function Total(p: Vec): int {
    p.x + p.y + p.z
  }

  lemma {:induction false} OriginParity(p: Vec, order: seq<Dir>, n: nat)
    requires n <= |order|
    ensures (Total(OriginAt(p, order, n)) - Total(p) - n) % 2 == 0
  {
    if n > 0 {
      OriginParity(p, order, n - 1);
    }
  }

  predicate SearchedFrom(p: Vec, order: seq<Dir>, d: Dir)
    requires |order| == 6
  {
    Step(p, d) in Origins(p, order, 6)
  }

  /** Whatever the order of the six directions, at most three neighbours are explored. */
  lemma FewNeighboursExplored(p: Vec, order: seq<Dir>)
    requires |order| == 6
    ensures |set d | d in DIRS && SearchedFrom(p, order, d)| <= 3
  {
    hide OriginAt, DirTo, SearchedFrom;
    var s := set d | d in DIRS && SearchedFrom(p, order, d);
    var t := {DirTo(p, OriginAt(p, order, 1)), DirTo(p, OriginAt(p, order, 3)), DirTo(p, OriginAt(p, order, 5))};
    forall d | d in s ensures d in t {
      ExploredIsOdd(p, order, d);
    }
    SubsetCardinality(s, t);
    AtMostThree(DirTo(p, OriginAt(p, order, 1)), DirTo(p, OriginAt(p, order, 3)), DirTo(p, OriginAt(p, order, 5)));
  }

  /** A neighbour is only explored from after an odd number of directions. */
  lemma ExploredIsOdd(p: Vec, order: seq<Dir>, d: Dir)
    requires |order| == 6 && SearchedFrom(p, order, d)
    ensures d == DirTo(p, OriginAt(p, order, 1)) || d == DirTo(p, OriginAt(p, order, 3)) ||
      d == DirTo(p, OriginAt(p, order, 5))
  {
    var n :| 1 <= n <= 6 && OriginAt(p, order, n) == Step(p, d);
    hide OriginAt, Origins;
    OriginParity(p, order, n);
    StepParity(p, d);
    assert n == 1 || n == 3 || n == 5;
    DirToStep(p, d);
  }

  lemma StepParity(p: Vec, d: Dir)
    ensures Total(Step(p, d)) - Total(p) == 1 || Total(Step(p, d)) - Total(p) == -1
  {
  }

  lemma AtMostThree(a: Dir, b: Dir, c: Dir)
    ensures |{a, b, c}| <= 3
  {
  }

  lemma {:induction false} SubsetCardinality(s: set<Dir>, t: set<Dir>)
    requires s <= t
    ensures |s| <= |t|
    decreases s
  {
    if s != {} {
      var d :| d in s;
      SubsetCardinality(s - {d}, t - {d});
    }
  }

  lemma SixDirs()
    ensures |DIRS| == 6
  {
  }

  /** Some neighbour is always missed. */
  lemma MissedNeighbour(p: Vec, order: seq<Dir>) returns (d: Dir)
    requires |order| == 6
    ensures !SearchedFrom(p, order, d) && d != order[0]
  {
    var s := set d | d in DIRS && SearchedFrom(p, order, d);
    FewNeighboursExplored(p, order);
    SixDirs();
    if DIRS <= s {
      SubsetCardinality(DIRS, s);
      assert false;
    }
    d :| d in DIRS && d !in s;
    assert OriginAt(p, order, 0) == p;
    assert OriginAt(p, order, 1) == Step(p, order[0]);
  }

  /** Two nodes without colour restriction on two sides of a position. */
  function TwoSides(p: Vec, a: Dir, b: Dir): Painting {
    map[Step(p, a) := DEFAULT_COLOR, Step(p, b) := DEFAULT_COLOR]
  }

  lemma SidesApart(p: Vec, a: Dir, b: Dir)
    requires a != b
    ensures Step(p, a) != Step(p, b) && !Adjacent(Step(p, a), Step(p, b)) && Step(p, a) != p && Step(p, b) != p
  {
    DirToStep(p, a);
    DirToStep(p, b);
    forall d ensures Step(Step(p, a), d) != Step(p, b) {
      assert (Total(Step(Step(p, a), d)) - Total(p)) % 2 == 0;
    }
  }

  /** The three nodes are a component; without the middle one the two others are. */
  lemma SidesAreComponents(p: Vec, a: Dir, b: Dir)
    requires a != b
    ensures var x, y, rest := Step(p, a), Step(p, b), TwoSides(p, a, b);
      && Component(ColorGraph(rest[p := DEFAULT_COLOR]), {p, x, y})
      && Component(ColorGraph(rest), {x}) && Component(ColorGraph(rest), {y}) && !Connected(ColorGraph(rest), {x, y})
  {
    var x, y, rest := Step(p, a), Step(p, b), TwoSides(p, a, b);
    SidesApart(p, a, b);
    AdjacentSymmetric(x, y);
    AloneIsComponent(ColorGraph(rest), x);
    AloneIsComponent(ColorGraph(rest), y);
    ThreeAreConnected(p, x, y, rest[p := DEFAULT_COLOR]);
    assert Splits({x}, {x, y}) by {
      assert y in {x, y} && y !in {x};
    }
    assert !Crosses(ColorGraph(rest), {x}, {x, y});
  }

  lemma ThreeAreConnected(p: Vec, x: Vec, y: Vec, paint: Painting)
    requires Adjacent(p, x) && Adjacent(p, y) &&
      paint == map[x := DEFAULT_COLOR, y := DEFAULT_COLOR][p := DEFAULT_COLOR]
    ensures Component(ColorGraph(paint), {p, x, y})
  {
    var g := ColorGraph(paint);
    ColorGraphUndirected(paint);
    SingletonConnected(g, p);
    ExtendConnected(g, {p}, p, x);
    ExtendConnected(g, {p} + {x}, p, y);
    assert {p} + {x} + {y} == {p, x, y};
  }

  lemma AloneIsComponent(g: Graph, v: Vec)
    requires v in g.nodes && forall u :: (v, u) in g.links ==> u == v
    ensures Component(g, {v})
  {
    SingletonConnected(g, v);
  }

  /** A side that is not searched from is lost, if the other one is. */
  lemma SideIsLost(p: Vec, order: seq<Dir>, b: Dir)
    requires |order| == 6 && b != order[0] && !SearchedFrom(p, order, b)
    ensures var paint, o := TwoSides(p, order[0], b)[p := DEFAULT_COLOR], Origins(p, order, 6);
      && !Harmless(paint, {p}, o)
      && forall k :: SweepOf(paint, {p}).Swept(k, {p}, o) ==> !Covered(k, Step(p, b))
  {
    var a := order[0];
    var x, y, o := Step(p, a), Step(p, b), Origins(p, order, 6);
    var paint := TwoSides(p, a, b)[p := DEFAULT_COLOR];
    assert OriginAt(p, order, 0) == p && OriginAt(p, order, 1) == x;
    SidesApart(p, a, b);
    SidesAreComponents(p, a, b);
    assert paint - {p} == TwoSides(p, a, b);
    SweepIsValid(paint, {p});
    hide ColorGraph, Component, Connected, Origins, TwoSides;
    var s, c := SweepOf(paint, {p}), {p, x, y};
    assert c - {p} == {x, y} && p in c * {p};
    assert x in (c - {p}) * o && {y} * o == {};
    assert {y} <= c - {p};
    forall k | s.Swept(k, {p}, o) ensures !Covered(k, y) {
      s.KeptExactly(k, o, c, {y}, y);
    }
  }

  /**
   For every order of the directions there is a cluster of three nodes, the removed one and two
   beside it, whose removal is not harmless: one node is in no cluster afterwards.
   */
  lemma EveryOrderLosesANode(p: Vec, order: seq<Dir>) returns (lost: Vec, rest: Painting)
    requires |order| == 6
    ensures p !in rest && lost in rest && !Harmless(rest[p := DEFAULT_COLOR], {p}, Origins(p, order, 6))
    ensures forall k :: SweepOf(rest[p := DEFAULT_COLOR], {p}).Swept(k, {p}, Origins(p, order, 6)) ==> !Covered(k, lost)
  {
    var d := MissedNeighbour(p, order);
    lost, rest := Step(p, d), TwoSides(p, order[0], d);
    SidesApart(p, order[0], d);
    SideIsLost(p, order, d);
  }
}
