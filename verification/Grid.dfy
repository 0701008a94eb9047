/** Positions, the six directions and the graphs that the node networks are about. */

module Grid {
  datatype Vec = Vec(x: int, y: int, z: int)

  datatype Dir = North | East | South | West | Down | Up

  const DIRS: set<Dir> := {North, East, South, West, Down, Up}

  lemma AllDirs(d: Dir)
    ensures d in DIRS
  {
    match d
    case North => case South => case East => case West => case Up => case Down =>
  }

  /** The neighbour of a position, as `vector.add(pos, DIR6_TO_VEC3[dir])`. */
  function Step(p: Vec, d: Dir): Vec {
    match d
    case North => p.(z := p.z + 1)
    case South => p.(z := p.z - 1)
    case East => p.(x := p.x + 1)
    case West => p.(x := p.x - 1)
    case Up => p.(y := p.y + 1)
    case Down => p.(y := p.y - 1)
  }

  function Invert(d: Dir): Dir {
    match d
    case North => South
    case South => North
    case East => West
    case West => East
    case Up => Down
    case Down => Up
  }

  lemma InvertReturns(p: Vec, d: Dir)
    ensures Invert(Invert(d)) == d
    ensures Step(Step(p, d), Invert(d)) == p
  {
  }

  /** The direction of a neighbour. */
  function DirTo(p: Vec, q: Vec): Dir {
    if q == Step(p, North) then North else if q == Step(p, South) then South
    else if q == Step(p, East) then East else if q == Step(p, West) then West
    else if q == Step(p, Up) then Up else Down
  }

  lemma DirToStep(p: Vec, d: Dir)
    ensures DirTo(p, Step(p, d)) == d
  {
    match d
    case North => case South => case East => case West => case Up => case Down =>
  }

  predicate Adjacent(p: Vec, q: Vec) {
    exists d :: Step(p, d) == q
  }

  /** Two positions differ by one in one coordinate. */
  predicate SideBySide(p: Vec, q: Vec) {
    || (p.y == q.y && p.z == q.z && p.x - q.x in {1, -1})
    || (p.x == q.x && p.z == q.z && p.y - q.y in {1, -1})
    || (p.x == q.x && p.y == q.y && p.z - q.z in {1, -1})
  }

  /** One step leads to exactly the six neighbours, each in a direction of its own. */
  lemma StepsAreNeighbours(p: Vec, q: Vec)
    ensures Adjacent(p, q) <==> SideBySide(p, q)
    ensures forall d, e :: Step(p, d) == Step(p, e) ==> d == e
  {
    if SideBySide(p, q) {
      assert Step(p, if q.x > p.x then East else if q.x < p.x then West else if q.y > p.y then Up
        else if q.y < p.y then Down else if q.z > p.z then North else South) == q;
    }
    if d :| Step(p, d) == q {
      StepIsBeside(p, d);
    }
    forall d, e | Step(p, d) == Step(p, e) ensures d == e {
      DirToStep(p, d);
      DirToStep(p, e);
    }
  }

  lemma StepIsBeside(p: Vec, d: Dir)
    ensures SideBySide(p, Step(p, d))
  {
    match d
    case North => case South => case East => case West => case Up => case Down =>
  }

  lemma AdjacentSymmetric(p: Vec, q: Vec)
    ensures Adjacent(p, q) ==> Adjacent(q, p)
  {
    if Adjacent(p, q) {
      var d :| Step(p, d) == q;
      assert Step(q, Invert(d)) == p;
    }
  }
}

/**
 Finite undirected graphs over positions. A component is described by cuts: nothing links it to
 the outside and every proper part of it has a link to the rest. `ComponentIsReachSet` shows that
 this is the usual notion, the set of nodes that can be walked to.
 */
module Graphs {
  import opened Grid

  datatype Graph = Graph(nodes: set<Vec>, links: set<(Vec, Vec)>)

  ghost predicate Undirected(g: Graph) {
    forall u, v :: (u, v) in g.links ==> (v, u) in g.links && u in g.nodes && v in g.nodes
  }

  predicate Splits(s: set<Vec>, c: set<Vec>) {
    s != {} && s < c
  }

  ghost predicate Crosses(g: Graph, s: set<Vec>, c: set<Vec>) {
    exists u, v :: u in s && v in c && v !in s && (u, v) in g.links
  }

  ghost predicate Connected(g: Graph, c: set<Vec>) {
    forall s :: Splits(s, c) ==> Crosses(g, s, c)
  }

  ghost predicate Closed(g: Graph, c: set<Vec>) {
    forall u, v :: u in c && (u, v) in g.links ==> v in c
  }

  ghost predicate Component(g: Graph, c: set<Vec>) {
    c != {} && c <= g.nodes && Closed(g, c) && Connected(g, c)
  }

  /** A sequence of nodes in which each is linked to the next. */
  ghost predicate Walk(g: Graph, p: seq<Vec>) {
    |p| > 0 && (forall k :: 0 <= k < |p| ==> p[k] in g.nodes)
    && forall k :: 0 < k < |p| ==> (p[k - 1], p[k]) in g.links
  }

  ghost predicate Reaches(g: Graph, u: Vec, v: Vec) {
    exists p :: Walk(g, p) && p[0] == u && p[|p| - 1] == v
  }

  lemma WalkStaysInside(g: Graph, c: set<Vec>, p: seq<Vec>, k: nat)
    requires Closed(g, c) && Walk(g, p) && p[0] in c && k < |p|
    ensures p[k] in c
  {
    if k > 0 {
      WalkStaysInside(g, c, p, k - 1);
      assert (p[k - 1], p[k]) in g.links;
    }
  }

  lemma ReachesStep(g: Graph, u: Vec, v: Vec, w: Vec)
    requires Undirected(g) && Reaches(g, u, v) && (v, w) in g.links
    ensures Reaches(g, u, w)
  {
    var p :| Walk(g, p) && p[0] == u && p[|p| - 1] == v;
    var q := p + [w];
    assert Walk(g, q) && q[0] == u && q[|q| - 1] == w;
  }

  lemma ReachesSelf(g: Graph, u: Vec)
    requires u in g.nodes
    ensures Reaches(g, u, u)
  {
    assert Walk(g, [u]);
  }

  /** A walk that starts in a set and ends outside it crosses the border of the set. */
  lemma WalkCrosses(g: Graph, s: set<Vec>, c: set<Vec>, p: seq<Vec>, k: nat)
    requires Walk(g, p) && p[0] in s && k < |p| && p[k] !in s
    requires forall i :: 0 <= i < |p| ==> p[i] in c
    ensures Crosses(g, s, c)
  {
    if p[k - 1] in s {
      assert (p[k - 1], p[k]) in g.links;
    } else {
      WalkCrosses(g, s, c, p, k - 1);
    }
  }

  lemma ReachesReverse(g: Graph, u: Vec, v: Vec)
    requires Undirected(g) && Reaches(g, u, v)
    ensures Reaches(g, v, u)
  {
    var p :| Walk(g, p) && p[0] == u && p[|p| - 1] == v;
    var q := seq(|p|, i requires 0 <= i < |p| => p[|p| - 1 - i]);
    forall k | 0 < k < |q| ensures (q[k - 1], q[k]) in g.links {
      assert (p[|p| - 1 - k], p[|p| - k]) in g.links;
    }
    assert Walk(g, q) && q[0] == v && q[|q| - 1] == u;
  }

  /** A component is exactly the set of nodes that can be walked to from any one of its nodes. */
  lemma ComponentIsReachSet(g: Graph, c: set<Vec>, u: Vec)
    requires Undirected(g) && u in c && c <= g.nodes
    ensures Component(g, c) <==> (forall v :: v in c <==> Reaches(g, u, v))
  {
    if Component(g, c) {
      forall v ensures v in c <==> Reaches(g, u, v) {
        ComponentReach(g, c, u, v);
      }
    }
    if forall v :: v in c <==> Reaches(g, u, v) {
      ReachSetIsComponent(g, c, u);
    }
  }

  lemma ComponentReach(g: Graph, c: set<Vec>, u: Vec, v: Vec)
    requires Undirected(g) && u in c && Component(g, c)
    ensures v in c <==> Reaches(g, u, v)
  {
    if Reaches(g, u, v) {
      var p :| Walk(g, p) && p[0] == u && p[|p| - 1] == v;
      WalkStaysInside(g, c, p, |p| - 1);
    }
    ghost var s := set x | x in c && Reaches(g, u, x);
    ReachesSelf(g, u);
    assert u in s;
    if v in c && v !in s {
      assert Splits(s, c);
      var a, b :| a in s && b in c && b !in s && (a, b) in g.links;
      ReachesStep(g, u, a, b);
      assert false;
    }
  }

  lemma ReachSetIsComponent(g: Graph, c: set<Vec>, u: Vec)
    requires Undirected(g) && u in c && c <= g.nodes
    requires forall v :: v in c <==> Reaches(g, u, v)
    ensures Component(g, c)
  {
    forall a, b | a in c && (a, b) in g.links ensures b in c {
      ReachesStep(g, u, a, b);
    }
    forall s | Splits(s, c) ensures Crosses(g, s, c) {
      if u in s {
        var v :| v in c && v !in s;
        var p :| Walk(g, p) && p[0] == u && p[|p| - 1] == v;
        forall i | 0 <= i < |p| ensures p[i] in c { WalkStaysInside(g, c, p, i); }
        WalkCrosses(g, s, c, p, |p| - 1);
      } else {
        var v :| v in s;
        ReachesReverse(g, u, v);
        var p :| Walk(g, p) && p[0] == v && p[|p| - 1] == u;
        forall i | 0 <= i < |p| ensures p[i] in c { WalkStaysInside(g, c, p, i); }
        WalkCrosses(g, s, c, p, |p| - 1);
      }
    }
  }

  /** Two components with a common node are the same. */
  lemma ComponentUnique(g: Graph, c: set<Vec>, d: set<Vec>, u: Vec)
    requires Component(g, c) && Component(g, d) && u in c && u in d
    ensures c == d
  {
    OverlapIncludes(g, c, d, u);
    OverlapIncludes(g, d, c, u);
  }

  lemma OverlapIncludes(g: Graph, c: set<Vec>, d: set<Vec>, u: Vec)
    requires Connected(g, c) && Closed(g, d) && u in c && u in d
    ensures c <= d
  {
    var s := c * d;
    assert u in s;
    assert !Crosses(g, s, c);
    assert !Splits(s, c);
  }

  /** A link with one end in a connected set extends it. */
  lemma ExtendConnected(g: Graph, c: set<Vec>, u: Vec, v: Vec)
    requires Undirected(g) && Connected(g, c) && u in c && (u, v) in g.links
    ensures Connected(g, c + {v})
  {
    var e := c + {v};
    forall s | Splits(s, e) ensures Crosses(g, s, e) {
      var t := s * c;
      if t == {} {
        assert s == {v};
        assert (v, u) in g.links;
      } else if t == c {
        assert v !in s;
      } else {
        assert Splits(t, c);
        var a, b :| a in t && b in c && b !in t && (a, b) in g.links;
      }
    }
  }

  lemma SingletonConnected(g: Graph, v: Vec)
    ensures Connected(g, {v})
  {
    forall s ensures !Splits(s, {v}) {
      if s != {} && s <= {v} {
        assert v in s;
      }
    }
  }
}
