/** Boxes of positions, seen along the six directions. */
module Boxes {
  import opened Grid

  /** How far a position lies in a direction. */
  function Coord(p: Vec, d: Dir): int {
    match d
    case North => p.z
    case South => -p.z
    case East => p.x
    case West => -p.x
    case Up => p.y
    case Down => -p.y
  }

  /** `k` steps in a direction. */
  function Advance(p: Vec, d: Dir, k: int): Vec {
    match d
    case North => p.(z := p.z + k)
    case South => p.(z := p.z - k)
    case East => p.(x := p.x + k)
    case West => p.(x := p.x - k)
    case Up => p.(y := p.y + k)
    case Down => p.(y := p.y - k)
  }

  lemma AdvanceSteps(p: Vec, d: Dir, k: int)
    ensures Advance(p, d, 0) == p && Step(Advance(p, d, k), d) == Advance(p, d, k + 1)
    ensures Step(Advance(p, d, k), Invert(d)) == Advance(p, d, k - 1) && Advance(p, Invert(d), -k) == Advance(p, d, k)
  {
  }

  lemma AdvanceCoord(p: Vec, d: Dir, k: int, e: Dir)
    ensures Coord(Advance(p, d, k), e) == Coord(p, e) + if e == d then k else if e == Invert(d) then -k else 0
    ensures Coord(p, Invert(e)) == -Coord(p, e)
  {
  }

  /** All positions with every coordinate between those of two corners. */
  datatype Box = Box(lo: Vec, hi: Vec) {
    function Max(d: Dir): int {
      match d
      case North => hi.z
      case South => -lo.z
      case East => hi.x
      case West => -lo.x
      case Up => hi.y
      case Down => -lo.y
    }

    /** The number of positions from one face to the opposite one. */
    function Size(d: Dir): int {
      Max(d) + Max(Invert(d)) + 1
    }

    predicate Contains(p: Vec) {
      lo.x <= p.x <= hi.x && lo.y <= p.y <= hi.y && lo.z <= p.z <= hi.z
    }

    predicate Proper() {
      lo.x <= hi.x && lo.y <= hi.y && lo.z <= hi.z
    }

    predicate OnX(p: Vec) {
      Contains(p) && (p.x == lo.x || p.x == hi.x)
    }

    predicate OnY(p: Vec) {
      Contains(p) && (p.y == lo.y || p.y == hi.y)
    }

    predicate OnZ(p: Vec) {
      Contains(p) && (p.z == lo.z || p.z == hi.z)
    }

    predicate OnSurface(p: Vec) {
      OnX(p) || OnY(p) || OnZ(p)
    }

    /** The six faces. */
    function Surface(): set<Vec> {
      set x, y, z | lo.x <= x <= hi.x && lo.y <= y <= hi.y && lo.z <= z <= hi.z && OnSurface(Vec(x, y, z)) ::
        Vec(x, y, z)
    }
  }

  lemma InSurface(b: Box, p: Vec)
    ensures p in b.Surface() <==> b.OnSurface(p)
  {
    assert p == Vec(p.x, p.y, p.z);
  }

  lemma ContainsByDirection(b: Box, p: Vec)
    ensures b.Contains(p) <==> forall d :: Coord(p, d) <= b.Max(d)
    ensures b.OnSurface(p) <==> b.Contains(p) && exists d :: Coord(p, d) == b.Max(d)
  {
    if forall d :: Coord(p, d) <= b.Max(d) {
      assert Coord(p, East) <= b.Max(East) && Coord(p, West) <= b.Max(West);
      assert Coord(p, Up) <= b.Max(Up) && Coord(p, Down) <= b.Max(Down);
      assert Coord(p, North) <= b.Max(North) && Coord(p, South) <= b.Max(South);
    }
    if b.OnSurface(p) {
      assert Coord(p, East) == b.Max(East) || Coord(p, West) == b.Max(West) || Coord(p, Up) == b.Max(Up)
          || Coord(p, Down) == b.Max(Down) || Coord(p, North) == b.Max(North) || Coord(p, South) == b.Max(South);
    }
  }

  /** A box is known by how far it reaches in every direction. */
  lemma SameReach(b: Box, c: Box)
    requires forall d :: b.Max(d) == c.Max(d)
    ensures b == c
  {
    assert b.Max(East) == c.Max(East) && b.Max(West) == c.Max(West);
    assert b.Max(Up) == c.Max(Up) && b.Max(Down) == c.Max(Down);
    assert b.Max(North) == c.Max(North) && b.Max(South) == c.Max(South);
  }

  /** A node's facing: how it turns the six directions. */
  ghost predicate Rotation(face: Dir -> Dir) {
    && (forall d :: face(Invert(d)) == Invert(face(d)))
    && face(North) != face(East) && face(North) != face(West) && face(North) != face(Up) && face(North) != face(Down)
    && face(East) != face(Up) && face(East) != face(Down)
  }

  lemma RotationCovers(face: Dir -> Dir, d: Dir)
    requires Rotation(face)
    ensures face(South) == Invert(face(North)) && face(West) == Invert(face(East)) && face(Down) == Invert(face(Up))
    ensures d in {face(North), face(South), face(East), face(West), face(Up), face(Down)}
  {
    assert face(Invert(North)) == Invert(face(North)) && face(Invert(East)) == Invert(face(East)) &&
      face(Invert(Up)) == Invert(face(Up));
  }
}
