/** When a cluster of reactor nodes is accepted as the shell of a reactor. */
module Reactors {
  import opened Basics
  import opened Grid
  import opened Boxes
  import opened ReactorExploring

  const SIZE_LIMIT := 16

  /** A reactor: the six faces of a box no side of which is too long, and the controller looks out of it. */
  ghost predicate IsReactor(cluster: set<Vec>, controller: Vec, face: Dir -> Dir, box: Box) {
    && cluster == box.Surface() && controller in cluster
    && !box.Contains(Step(controller, face(South)))
    && forall d :: box.Size(d) <= 16
  }

  /** The box that spans some positions in all directions. */
  function Extents(w: Lateral, h: Lateral, d: Linear): Box {
    Box(Vec(Min(d.pos.x, Min(h.right.pos.x, Min(h.left.pos.x, Min(w.left.pos.x, w.right.pos.x)))),
            Min(d.pos.y, Min(h.right.pos.y, Min(h.left.pos.y, Min(w.left.pos.y, w.right.pos.y)))),
            Min(d.pos.z, Min(h.right.pos.z, Min(h.left.pos.z, Min(w.left.pos.z, w.right.pos.z))))),
        Vec(Max(d.pos.x, Max(h.right.pos.x, Max(h.left.pos.x, Max(w.left.pos.x, w.right.pos.x)))),
            Max(d.pos.y, Max(h.right.pos.y, Max(h.left.pos.y, Max(w.left.pos.y, w.right.pos.y)))),
            Max(d.pos.z, Max(h.right.pos.z, Max(h.left.pos.z, Max(w.left.pos.z, w.right.pos.z))))))
  }

  lemma ExtentsReach(w: Lateral, h: Lateral, d: Linear, e: Dir)
    ensures Extents(w, h, d).Max(e) ==
      Max(Coord(d.pos, e),
        Max(Coord(h.right.pos, e), Max(Coord(h.left.pos, e), Max(Coord(w.left.pos, e), Coord(w.right.pos, e)))))
  {
  }

  lemma ExtentsProper(w: Lateral, h: Lateral, d: Linear)
    ensures Extents(w, h, d).Proper()
  {
  }

  /** What was measured: how far the cluster goes from the controller to its sides, and behind it. */
  datatype Spans = Spans(a: nat, b: nat, e: nat, f: nat, g: nat) {
    ghost predicate Measured(cluster: set<Vec>, o: Vec, face: Dir -> Dir) {
      && Run(cluster, o, face(East), a) && Run(cluster, o, face(West), b)
      && Run(cluster, o, face(Up), e) && Run(cluster, o, face(Down), f)
      && Run(cluster, Advance(o, face(East), a), face(North), g)
    }

    function Along(d: Dir): nat {
      match d
      case East => a
      case West => b
      case Up => e
      case Down => f
      case North => g
      case South => 0
    }

    predicate Small() {
      a + b < SIZE_LIMIT && e + f < SIZE_LIMIT && g < SIZE_LIMIT
    }

    /** The box of the measured size around the controller, which is on its front. */
    ghost predicate Gives(o: Vec, face: Dir -> Dir, box: Box) {
      forall d :: box.Max(face(d)) == Coord(o, face(d)) + Along(d)
    }
  }

  lemma ExtentsAreGiven(s: Spans, o: Vec, face: Dir -> Dir, w: Lateral, h: Lateral, d: Linear)
    requires Rotation(face)
    requires w.left.pos == Advance(o, face(East), s.a) && w.right.pos == Advance(o, face(West), s.b)
    requires h.left.pos == Advance(o, face(Up), s.e) && h.right.pos == Advance(o, face(Down), s.f)
    requires d.pos == Advance(w.left.pos, face(North), s.g)
    ensures s.Gives(o, face, Extents(w, h, d))
  {
    hide Advance, Coord, Extents, Box.Max;
    forall r ensures Extents(w, h, d).Max(face(r)) == Coord(o, face(r)) + s.Along(r) {
      ExtentAlong(s, o, face, w, h, d, r);
    }
  }

  lemma ExtentAlong(s: Spans, o: Vec, face: Dir -> Dir, w: Lateral, h: Lateral, d: Linear, r: Dir)
    requires Rotation(face)
    requires w.left.pos == Advance(o, face(East), s.a) && w.right.pos == Advance(o, face(West), s.b)
    requires h.left.pos == Advance(o, face(Up), s.e) && h.right.pos == Advance(o, face(Down), s.f)
    requires d.pos == Advance(w.left.pos, face(North), s.g)
    ensures Extents(w, h, d).Max(face(r)) == Coord(o, face(r)) + s.Along(r)
  {
    hide Advance, Coord, Extents, Box.Max;
    AdvanceAlong(o, face, East, s.a, r);
    AdvanceAlong(o, face, West, s.b, r);
    AdvanceAlong(o, face, Up, s.e, r);
    AdvanceAlong(o, face, Down, s.f, r);
    AdvanceAlong(w.left.pos, face, North, s.g, r);
    ExtentsReach(w, h, d, face(r));
  }

  /** Steps in one direction of a node, seen along another one. */
  lemma AdvanceAlong(p: Vec, face: Dir -> Dir, d: Dir, k: nat, r: Dir)
    requires Rotation(face)
    ensures Coord(Advance(p, face(d), k), face(r)) == Coord(p, face(r)) + if r == d then k
      else if r == Invert(d) then 0 - k else 0
  {
    AdvanceCoord(p, face(d), k, face(r));
    RotationCovers(face, face(d));
    RotationKeeps(face, d, r);
  }

  lemma RotationKeeps(face: Dir -> Dir, d: Dir, r: Dir)
    requires Rotation(face)
    ensures face(r) == face(d) <==> r == d
    ensures face(r) == Invert(face(d)) <==> r == Invert(d)
  {
    assert face(Invert(d)) == Invert(face(d));
    hide Rotation;
    RotationIsOneToOne(face, d, r);
    RotationIsOneToOne(face, Invert(d), r);
  }

  lemma RotationIsOneToOne(face: Dir -> Dir, d: Dir, r: Dir)
    requires Rotation(face)
    ensures face(r) == face(d) ==> r == d
  {
    RotationCovers(face, d);
    AxesApart(face(North), face(East), face(Up));
    hide Rotation, Invert;
    match d
    case North =>
    case South =>
    case East =>
    case West =>
    case Up =>
    case Down =>
  }

  /** The six ends of three different axes are different. */
  lemma AxesApart(a: Dir, b: Dir, c: Dir)
    requires a != b && a != Invert(b) && a != c && a != Invert(c) && b != c && b != Invert(c)
    ensures a != Invert(a) && b != Invert(b) && c != Invert(c)
    ensures Invert(a) !in {b, c, Invert(b), Invert(c)} && Invert(b) !in {a, c, Invert(c)} && Invert(c) !in {a, b}
  {
  }

  /** A box of the measured size is not too long on any side, and the controller looks out of it. */
  lemma GivenIsReactor(s: Spans, cluster: set<Vec>, o: Vec, face: Dir -> Dir, box: Box)
    requires Rotation(face) && s.Gives(o, face, box) && s.Small() && cluster == box.Surface() && o in cluster
    ensures IsReactor(cluster, o, face, box)
  {
    RotationCovers(face, North);
    forall d ensures box.Size(d) <= SIZE_LIMIT {
      RotationCovers(face, d);
      AdvanceCoord(o, face(East), 0, face(East));
      AdvanceCoord(o, face(Up), 0, face(Up));
      AdvanceCoord(o, face(North), 0, face(North));
    }
    var front := Step(o, face(South));
    AdvanceSteps(o, face(South), 0);
    AdvanceCoord(o, face(South), 1, face(South));
    ContainsByDirection(box, front);
    assert Coord(front, face(South)) > box.Max(face(South));
  }

  /** From a position on a face, the surface goes on along that face up to its edge. */
  lemma RunsToEdge(box: Box, p: Vec, side: Dir, d: Dir)
    requires box.Contains(p) && Coord(p, side) == box.Max(side) && d != side && d != Invert(side)
    ensures Run(box.Surface(), p, d, box.Max(d) - Coord(p, d)) && box.Max(d) >= Coord(p, d)
  {
    ContainsByDirection(box, p);
    var k := box.Max(d) - Coord(p, d);
    assert k >= 0;
    forall i | 0 <= i <= k + 1 ensures Advance(p, d, i) in box.Surface() <==> i <= k {
      var q := Advance(p, d, i);
      InSurface(box, q);
      ContainsByDirection(box, q);
      AdvanceCoord(p, d, i, side);
      AdvanceCoord(p, d, i, d);
      assert Coord(q, side) == box.Max(side);
      assert i > k ==> Coord(q, d) > box.Max(d);
      AdvanceInside(box, p, d, i);
    }
  }

  lemma AdvanceInside(box: Box, p: Vec, d: Dir, i: int)
    requires box.Contains(p) && 0 <= i
    ensures box.Contains(Advance(p, d, i)) <==> Coord(p, d) + i <= box.Max(d)
  {
  }

  /** A controller that looks out of its box is on the front of it. */
  lemma OnFront(box: Box, o: Vec, d: Dir)
    requires box.Contains(o) && !box.Contains(Step(o, d))
    ensures Coord(o, d) == box.Max(d)
  {
    AdvanceInside(box, o, d, 1);
    AdvanceInside(box, o, d, 0);
    AdvanceSteps(o, d, 0);
  }

  /** Of a reactor the size of its box is what is measured, and it is small enough. */
  lemma ReactorIsGiven(s: Spans, cluster: set<Vec>, o: Vec, face: Dir -> Dir, box: Box)
    requires Rotation(face) && s.Measured(cluster, o, face) && IsReactor(cluster, o, face, box)
    ensures s.Gives(o, face, box) && s.Small()
  {
    hide Coord, Box.Max, Advance, Box.Surface, Run, Box.Contains;
    RotationCovers(face, North);
    hide Rotation;
    InSurface(box, o);
    OnFront(box, o, face(South));
    SidesAre(s, box, o, face);
    DepthIs(s, box, o, face);
    SizesAreSmall(s, o, face, box);
  }

  lemma SidesAre(s: Spans, box: Box, o: Vec, face: Dir -> Dir)
    requires Rotation(face) && s.Measured(box.Surface(), o, face)
    requires box.Contains(o) && Coord(o, face(South)) == box.Max(face(South))
    ensures forall d :: d in {East, West, Up, Down} ==> box.Max(face(d)) == Coord(o, face(d)) + s.Along(d)
  {
    hide Coord, Box.Max, Advance, Box.Surface, Run, Box.Contains;
    RotationCovers(face, North);
    SpanIs(box, o, face(South), face(East), s.a);
    SpanIs(box, o, face(South), face(West), s.b);
    SpanIs(box, o, face(South), face(Up), s.e);
    SpanIs(box, o, face(South), face(Down), s.f);
  }

  lemma DepthIs(s: Spans, box: Box, o: Vec, face: Dir -> Dir)
    requires Rotation(face) && box.Contains(o) && s.a == box.Max(face(East)) - Coord(o, face(East))
    requires Run(box.Surface(), Advance(o, face(East), s.a), face(North), s.g)
    ensures s.g == box.Max(face(North)) - Coord(o, face(North))
  {
    hide Coord, Box.Max, Advance, Box.Surface, Run, Box.Contains;
    RotationCovers(face, North);
    var edge := Advance(o, face(East), s.a);
    AdvanceInside(box, o, face(East), s.a);
    AdvanceAlong(o, face, East, s.a, East);
    AdvanceAlong(o, face, East, s.a, North);
    SpanIs(box, edge, face(East), face(North), s.g);
  }

  lemma SizesAreSmall(s: Spans, o: Vec, face: Dir -> Dir, box: Box)
    requires Rotation(face) && s.Gives(o, face, box) && forall d :: box.Size(d) <= SIZE_LIMIT
    ensures s.Small()
  {
    hide Box.Max;
    RotationCovers(face, North);
    AdvanceCoord(o, face(East), 0, face(East));
    AdvanceCoord(o, face(Up), 0, face(Up));
    AdvanceCoord(o, face(North), 0, face(North));
    assert box.Size(face(East)) <= SIZE_LIMIT && box.Size(face(Up)) <= SIZE_LIMIT &&
      box.Size(face(North)) <= SIZE_LIMIT;
  }

  lemma SpanIs(box: Box, p: Vec, side: Dir, d: Dir, k: nat)
    requires box.Contains(p) && Coord(p, side) == box.Max(side) && d != side && d != Invert(side)
    requires Run(box.Surface(), p, d, k)
    ensures k == box.Max(d) - Coord(p, d)
  {
    RunsToEdge(box, p, side, d);
    RunIsUnique(box.Surface(), p, d, box.Max(d) - Coord(p, d), k);
  }

  /** Some position of the faces is not in the cluster. */
  ghost predicate Missing(cluster: set<Vec>, box: Box) {
    exists p :: p in box.Surface() && p !in cluster
  }

  /** The faces in front and at the back. */
  method CheckFrontAndBack(cluster: set<Vec>, box: Box, seen0: set<Vec>) returns (valid: bool, seen: set<Vec>)
    requires box.Proper()
    ensures valid ==> forall p :: box.OnZ(p) ==> p in cluster
    ensures valid ==> forall p :: p in seen <==> p in seen0 || box.OnZ(p)
    ensures !valid ==> Missing(cluster, box)
  {
    valid, seen := true, seen0;
    for y := box.lo.y to box.hi.y + 1
      invariant valid ==> forall p :: box.OnZ(p) && p.y < y ==> p in cluster
      invariant valid ==> forall p :: p in seen <==> p in seen0 || (box.OnZ(p) && p.y < y)
      invariant !valid ==> Missing(cluster, box)
    {
      for x := box.lo.x to box.hi.x + 1
        invariant valid ==> forall p :: box.OnZ(p) && (p.y < y || (p.y == y && p.x < x)) ==> p in cluster
        invariant valid ==> forall p :: p in seen <==> p in seen0 || (box.OnZ(p) && (p.y < y || (p.y == y && p.x < x)))
        invariant !valid ==> Missing(cluster, box)
      {
        var first, second := Vec(x, y, box.lo.z), Vec(x, y, box.hi.z);
        InSurface(box, first);
        InSurface(box, second);
        if first in cluster {
          seen := seen + {first};
        } else {
          valid := false;
          break;
        }
        if second in cluster {
          seen := seen + {second};
        } else {
          valid := false;
          break;
        }
      }
    }
  }

  /** The faces at the sides. */
  method CheckSides(cluster: set<Vec>, box: Box, seen0: set<Vec>) returns (valid: bool, seen: set<Vec>)
    requires box.Proper()
    ensures valid ==> forall p :: box.OnX(p) ==> p in cluster
    ensures valid ==> forall p :: p in seen <==> p in seen0 || box.OnX(p)
    ensures !valid ==> Missing(cluster, box)
  {
    valid, seen := true, seen0;
    for y := box.lo.y to box.hi.y + 1
      invariant valid ==> forall p :: box.OnX(p) && p.y < y ==> p in cluster
      invariant valid ==> forall p :: p in seen <==> p in seen0 || (box.OnX(p) && p.y < y)
      invariant !valid ==> Missing(cluster, box)
    {
      for z := box.lo.z to box.hi.z + 1
        invariant valid ==> forall p :: box.OnX(p) && (p.y < y || (p.y == y && p.z < z)) ==> p in cluster
        invariant valid ==> forall p :: p in seen <==> p in seen0 || (box.OnX(p) && (p.y < y || (p.y == y && p.z < z)))
        invariant !valid ==> Missing(cluster, box)
      {
        var first, second := Vec(box.lo.x, y, z), Vec(box.hi.x, y, z);
        InSurface(box, first);
        InSurface(box, second);
        if first in cluster {
          seen := seen + {first};
        } else {
          valid := false;
          break;
        }
        if second in cluster {
          seen := seen + {second};
        } else {
          valid := false;
          break;
        }
      }
    }
  }

  /** The faces on the top and at the bottom. */
  method CheckTopAndBottom(cluster: set<Vec>, box: Box, seen0: set<Vec>) returns (valid: bool, seen: set<Vec>)
    requires box.Proper()
    ensures valid ==> forall p :: box.OnY(p) ==> p in cluster
    ensures valid ==> forall p :: p in seen <==> p in seen0 || box.OnY(p)
    ensures !valid ==> Missing(cluster, box)
  {
    valid, seen := true, seen0;
    for x := box.lo.x to box.hi.x + 1
      invariant valid ==> forall p :: box.OnY(p) && p.x < x ==> p in cluster
      invariant valid ==> forall p :: p in seen <==> p in seen0 || (box.OnY(p) && p.x < x)
      invariant !valid ==> Missing(cluster, box)
    {
      for z := box.lo.z to box.hi.z + 1
        invariant valid ==> forall p :: box.OnY(p) && (p.x < x || (p.x == x && p.z < z)) ==> p in cluster
        invariant valid ==> forall p :: p in seen <==> p in seen0 || (box.OnY(p) && (p.x < x || (p.x == x && p.z < z)))
        invariant !valid ==> Missing(cluster, box)
      {
        var first, second := Vec(x, box.lo.y, z), Vec(x, box.hi.y, z);
        InSurface(box, first);
        InSurface(box, second);
        if first in cluster {
          seen := seen + {first};
        } else {
          valid := false;
          break;
        }
        if second in cluster {
          seen := seen + {second};
        } else {
          valid := false;
          break;
        }
      }
    }
  }

  lemma SameSize<T>(a: set<T>, b: set<T>)
    requires a <= b
    ensures a == b <==> |a| == |b|
  {
    assert b == a + (b - a);
    assert |b| == |a| + |b - a|;
  }

  /** The three face checks together: all faces are there and nothing else is. */
  method CheckShell(cluster: set<Vec>, box: Box) returns (ok: bool)
    requires box.Proper()
    ensures ok <==> cluster == box.Surface()
  {
    hide Box.Surface;
    var valid, seen := CheckFrontAndBack(cluster, box, {});
    if valid {
      valid, seen := CheckSides(cluster, box, seen);
    }
    if valid {
      valid, seen := CheckTopAndBottom(cluster, box, seen);
    }
    if !valid {
      return false;
    }
    forall p ensures p in seen <==> p in box.Surface() {
      InSurface(box, p);
    }
    SameSize(seen, cluster);
    return |seen| == |cluster|;
  }

  lemma IsLast(cluster: set<Vec>, p: Vec, d: Dir, k: nat)
    requires Run(cluster, p, d, k)
    ensures Advance(p, d, k) in cluster
  {
  }

  /** Seen from the controller of a reactor, its width or height is small. */
  lemma WidthOf(cluster: set<Vec>, o: Vec, face: Dir -> Dir, d: Dir, box: Box) returns (i: nat, j: nat)
    requires Rotation(face) && d in {East, Up} && IsReactor(cluster, o, face, box)
    ensures Run(cluster, o, face(d), i) && Run(cluster, o, face(Invert(d)), j) && i + j < SIZE_LIMIT
  {
    hide Run, Coord, Box.Surface, Box.Max, Box.Contains;
    RotationCovers(face, North);
    InSurface(box, o);
    OnFront(box, o, face(South));
    RunsToEdge(box, o, face(South), face(d));
    RunsToEdge(box, o, face(South), face(Invert(d)));
    i, j := box.Max(face(d)) - Coord(o, face(d)), box.Max(face(Invert(d))) - Coord(o, face(Invert(d)));
    AdvanceCoord(o, face(d), 0, face(d));
    assert box.Size(face(d)) <= SIZE_LIMIT;
  }

  lemma DepthOf(cluster: set<Vec>, o: Vec, face: Dir -> Dir, box: Box, a: nat) returns (i: nat)
    requires Rotation(face) && IsReactor(cluster, o, face, box) && Run(cluster, o, face(East), a)
    ensures Run(cluster, Advance(o, face(East), a), face(North), i) && i < SIZE_LIMIT
  {
    hide Run, Advance, Coord, Box.Surface, Box.Max, Box.Contains;
    RotationCovers(face, North);
    InSurface(box, o);
    OnFront(box, o, face(South));
    SpanIs(box, o, face(South), face(East), a);
    var edge := Advance(o, face(East), a);
    AdvanceInside(box, o, face(East), a);
    AdvanceAlong(o, face, East, a, East);
    AdvanceAlong(o, face, East, a, North);
    RunsToEdge(box, edge, face(East), face(North));
    i := box.Max(face(North)) - Coord(edge, face(North));
    AdvanceCoord(o, face(North), 0, face(North));
    assert box.Size(face(North)) <= SIZE_LIMIT;
  }

  /** A search that found too much shows that this is no reactor. */
  lemma TooWide(cluster: set<Vec>, o: Vec, face: Dir -> Dir, d: Dir, a: nat, b: nat, r: Lateral)
    requires Rotation(face) && d in {East, Up}
    requires r.valid ==> Run(cluster, o, face(d), a) && Run(cluster, o, face(Invert(d)), b) && a + b >= SIZE_LIMIT
    requires !r.valid ==>
      Reaches(cluster, o, face(d), SIZE_LIMIT + 1) || Reaches(cluster, o, face(Invert(d)), SIZE_LIMIT + 1)
    ensures forall box :: !IsReactor(cluster, o, face, box)
  {
    hide Run, Reaches, IsReactor;
    forall box ensures !IsReactor(cluster, o, face, box) {
      if IsReactor(cluster, o, face, box) {
        var i, j := WidthOf(cluster, o, face, d, box);
        RunIsUnique(cluster, o, face(d), i, if r.valid then a else SIZE_LIMIT + 1);
        RunIsUnique(cluster, o, face(Invert(d)), j, if r.valid then b else SIZE_LIMIT + 1);
      }
    }
  }

  lemma TooDeep(cluster: set<Vec>, o: Vec, face: Dir -> Dir, a: nat, r: Linear, g: nat)
    requires Rotation(face) && Run(cluster, o, face(East), a)
    requires r.valid ==> Run(cluster, Advance(o, face(East), a), face(North), g) && g >= SIZE_LIMIT
    requires !r.valid ==> Reaches(cluster, Advance(o, face(East), a), face(North), SIZE_LIMIT + 1)
    ensures forall box :: !IsReactor(cluster, o, face, box)
  {
    hide Run, Reaches, IsReactor;
    forall box ensures !IsReactor(cluster, o, face, box) {
      if IsReactor(cluster, o, face, box) {
        var i := DepthOf(cluster, o, face, box, a);
        RunIsUnique(cluster, Advance(o, face(East), a), face(North), i, if r.valid then g else SIZE_LIMIT + 1);
      }
    }
  }

  /** If there is a reactor, its box is the one that was measured. */
  lemma OnlyGiven(s: Spans, cluster: set<Vec>, o: Vec, face: Dir -> Dir, box: Box, other: Box)
    requires Rotation(face) && s.Measured(cluster, o, face) && s.Gives(o, face, box) && cluster != box.Surface()
    ensures !IsReactor(cluster, o, face, other)
  {
    hide Run, Coord, Box.Surface, Box.Max, Box.Size;
    if IsReactor(cluster, o, face, other) {
      ReactorIsGiven(s, cluster, o, face, other);
      GivenIsSame(s, o, face, box, other);
    }
  }

  lemma GivenIsSame(s: Spans, o: Vec, face: Dir -> Dir, box: Box, other: Box)
    requires Rotation(face) && s.Gives(o, face, box) && s.Gives(o, face, other)
    ensures box == other
  {
    hide Coord, Box.Max;
    forall d ensures box.Max(d) == other.Max(d) {
      RotationCovers(face, d);
      assert forall r :: box.Max(face(r)) == other.Max(face(r));
    }
    SameReach(box, other);
  }

  lemma ShellDecides(s: Spans, cluster: set<Vec>, o: Vec, face: Dir -> Dir, box: Box)
    requires Rotation(face) && s.Measured(cluster, o, face) && s.Gives(o, face, box) && s.Small() && o in cluster
    ensures cluster == box.Surface() <==> exists other :: IsReactor(cluster, o, face, other)
  {
    hide IsReactor;
    if cluster == box.Surface() {
      GivenIsReactor(s, cluster, o, face, box);
    } else {
      forall other ensures !IsReactor(cluster, o, face, other) {
        OnlyGiven(s, cluster, o, face, box, other);
      }
    }
  }

  /**
   A structure is accepted exactly when it is the shell of a reactor: the cluster is the six faces
   of a box, nothing less and nothing more, at most sixteen long, wide and high, and the controller
   looks out of it.
   */
  method VerifyReactorStructure(cluster: set<Vec>, controller: Vec, face: Dir -> Dir) returns (ok: bool)
    requires Rotation(face) && controller in cluster
    ensures ok <==> exists box :: IsReactor(cluster, controller, face, box)
  {
    hide Run, Reaches, Advance, Coord, Box.Surface, Box.Max, Box.Proper, Extents, IsReactor, Spans.Gives;
    RotationCovers(face, North);
    var w, a, b := LateralExplore(SIZE_LIMIT, controller, cluster, face(East), face(West));
    if !w.valid || w.distance > SIZE_LIMIT {
      TooWide(cluster, controller, face, East, a, b, w);
      return false;
    }
    var h, e, f := LateralExplore(SIZE_LIMIT, controller, cluster, face(Up), face(Down));
    if !h.valid || h.distance > SIZE_LIMIT {
      TooWide(cluster, controller, face, Up, e, f, h);
      return false;
    }
    IsLast(cluster, controller, face(East), a);
    var d, g := LinearExplore(SIZE_LIMIT, w.left, cluster, face(North));
    if !d.valid || d.distance > SIZE_LIMIT {
      TooDeep(cluster, controller, face, a, d, g);
      return false;
    }
    ghost var s := Spans(a, b, e, f, g);
    var box := Extents(w, h, d);
    ExtentsProper(w, h, d);
    ExtentsAreGiven(s, controller, face, w, h, d);
    ok := CheckShell(cluster, box);
    ShellDecides(s, cluster, controller, face, box);
  }

  datatype ReactorState = Off | On | Error | Conflict

  /** A reactor goes on exactly when it has one controller and that controller's shell is one. */
  method HandleStartReactor(cluster: set<Vec>, controllers: seq<Vec>, face: Dir -> Dir) returns (state: ReactorState)
    requires Rotation(face) && forall c :: c in controllers ==> c in cluster
    ensures state == On <==> |controllers| == 1 && exists box :: IsReactor(cluster, controllers[0], face, box)
    ensures state == Off <==> controllers == []
    ensures state == Conflict <==> |controllers| > 1
  {
    hide IsReactor;
    if |controllers| == 0 {
      return Off;
    } else if |controllers| == 1 {
      var valid := VerifyReactorStructure(cluster, controllers[0], face);
      return if valid then On else Error;
    } else {
      return Conflict;
    }
  }
}
