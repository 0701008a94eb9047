/** How a reactor measures its own width, height and depth. */
module ReactorExploring {
  import opened Grid
  import opened Boxes

  /** The cluster reaches exactly `k` positions further in a direction. */
  ghost predicate Run(cluster: set<Vec>, p: Vec, d: Dir, k: nat) {
    Reaches(cluster, p, d, k) && Advance(p, d, k + 1) !in cluster
  }

  ghost predicate Reaches(cluster: set<Vec>, p: Vec, d: Dir, k: int) {
    forall i :: 0 <= i <= k ==> Advance(p, d, i) in cluster
  }

  lemma RunIsUnique(cluster: set<Vec>, p: Vec, d: Dir, i: nat, j: nat)
    requires Run(cluster, p, d, i)
    ensures Reaches(cluster, p, d, j) ==> j <= i
    ensures Run(cluster, p, d, j) ==> i == j
  {
    assert Reaches(cluster, p, d, j) && i < j ==> Advance(p, d, i + 1) in cluster;
    assert j < i ==> Advance(p, d, j + 1) in cluster;
  }

  /** A position with what the search notes on it; the notes of the origin are zero. */
  datatype Mark = Mark(pos: Vec, l: int, w: int)

  datatype Lateral = Lateral(distance: nat, left: Mark, right: Mark, valid: bool)

  datatype Linear = Linear(distance: nat, pos: Vec, valid: bool)

  /**
   What a search along a line has done: it passed the positions from `b` to the right up to `a` to
   the left of the origin, and it has seen those from `sr` to `sl`.
   */
  datatype Line = Line(cluster: set<Vec>, origin: Vec, dir: Dir, a: int, b: int, sl: int, sr: int) {
    function At(k: int): Vec {
      Advance(origin, dir, k)
    }

    function LeftMark(n: int): Mark {
      Mark(At(n), n, -1)
    }

    function RightMark(n: int): Mark {
      Mark(At(-n), n, 1)
    }

    /** The search may go on to the left, having come `n` steps far. */
    predicate LeftOpen(n: int) {
      a == n && sl == n
    }

    predicate RightOpen(n: int) {
      b == n && sr == n
    }

    ghost predicate Passed(seen: set<Vec>, distance: nat, left: Mark, right: Mark) {
      && 0 <= a && 0 <= b
      && (forall k :: -b <= k <= a ==> At(k) in cluster)
      && a <= sl <= a + 1 && (sl == a + 1 ==> At(a + 1) !in cluster)
      && b <= sr <= b + 1 && (sr == b + 1 ==> At(-b - 1) !in cluster)
      && (forall k :: At(k) in seen <==> -sr <= k <= sl)
      && (forall p :: p in seen ==> exists k :: p == At(k))
      && distance == a + b + 1 && left.pos == At(a) && right.pos == At(-b)
      && left.w == (if a == 0 then 0 else -1)
    }

    /** The entry of a list of positions that are `n` steps away. */
    predicate Listed(v: Mark, seen: set<Vec>, n: int) {
      v.pos in seen || (v == LeftMark(n) && LeftOpen(n - 1)) || (v == RightMark(n) && RightOpen(n - 1))
    }

    ghost predicate Lists(list: seq<Mark>, seen: set<Vec>, n: int) {
      && (forall v :: v in list ==> Listed(v, seen, n))
      && (LeftOpen(n - 1) ==> LeftMark(n) in list)
      && (RightOpen(n - 1) ==> RightMark(n) in list)
    }
  }

  /** What a search noted before it has gone `n` steps. */
  datatype Notes = Notes(seen: set<Vec>, distance: nat, left: Mark, right: Mark)

  ghost predicate Level(line: Line, n: nat, notes: Notes, list: seq<Mark>) {
    if n == 0 then
      notes == Notes({}, 0, Mark(line.origin, 0, 0), Mark(line.origin, 0, 0)) && list == [Mark(line.origin, 0, 0)] &&
        line.origin in line.cluster
    else
      && line.Passed(notes.seen, notes.distance, notes.left, notes.right) && line.Lists(list, notes.seen, n)
      && line.a < n && line.b < n && (line.a < line.sl || line.a == n - 1) && (line.b < line.sr || line.b == n - 1)
  }

  /** In the middle of a level: what is left of its list, and the next list so far. */
  ghost predicate Midway(line: Line, n: int, notes: Notes, rest: seq<Mark>, next: seq<Mark>) {
    && line.Passed(notes.seen, notes.distance, notes.left, notes.right)
    && (forall v :: v in rest ==> line.Listed(v, notes.seen, n))
    && (line.LeftOpen(n - 1) ==> line.LeftMark(n) in rest)
    && (line.RightOpen(n - 1) ==> line.RightMark(n) in rest)
    && line.Lists(next, notes.seen, n + 1)
    && line.a <= n && line.b <= n
    && (line.a < line.sl || line.a == n || line.LeftOpen(n - 1)) &&
      (line.b < line.sr || line.b == n || line.RightOpen(n - 1))
  }

  /** What a position of the cluster that was not seen before adds. */
  function Noted(notes: Notes, v: Mark): Notes {
    Notes(notes.seen + {v.pos}, notes.distance + 1, if v.w < 0 then v else notes.left, if v.w > 0 then v
      else notes.right)
  }

  function Sides(v: Mark, leftDir: Dir, rightDir: Dir): seq<Mark> {
    [Mark(Step(v.pos, leftDir), v.l + 1, -1), Mark(Step(v.pos, rightDir), v.l + 1, 1)]
  }

  lemma LineDistinct(line: Line, j: int, k: int)
    ensures line.At(j) == line.At(k) <==> j == k
    ensures Step(line.At(k), line.dir) == line.At(k + 1) && Step(line.At(k), Invert(line.dir)) == line.At(k - 1)
    ensures line.At(0) == line.origin
  {
  }

  lemma OriginPassed(line: Line, notes: Notes) returns (after: Line)
    requires Level(line, 0, notes, [Mark(line.origin, 0, 0)])
    ensures after == line.(a := 0, b := 0, sl := 0, sr := 0)
    ensures Midway(after, 0, Noted(notes, Mark(line.origin, 0, 0)), [],
      Sides(Mark(line.origin, 0, 0), line.dir, Invert(line.dir)))
  {
    hide Advance, Step;
    after := line.(a := 0, b := 0, sl := 0, sr := 0);
    LineDistinct(line, 0, 0);
    forall k: int ensures after.At(k) == line.At(k) && (after.At(k) == line.origin <==> k == 0) {
      LineDistinct(line, k, 0);
    }
    var notes', next := Noted(notes, Mark(line.origin, 0, 0)),
      Sides(Mark(line.origin, 0, 0), line.dir, Invert(line.dir));
    assert notes'.seen == {line.origin};
    assert after.Passed(notes'.seen, notes'.distance, notes'.left, notes'.right);
    assert next == [after.LeftMark(1), after.RightMark(1)];
    assert next[0] in next && next[1] in next;
  }

  lemma MarkOpens(line: Line, n: int, notes: Notes, v: Mark, rest: seq<Mark>, next: seq<Mark>)
    requires n > 0 && Midway(line, n, notes, [v] + rest, next) && v.pos !in notes.seen
    ensures (v == line.LeftMark(n) && line.LeftOpen(n - 1)) || (v == line.RightMark(n) && line.RightOpen(n - 1))
    ensures forall u :: u in rest ==> line.Listed(u, notes.seen, n)
  {
    assert v in [v] + rest;
    assert forall u :: u in rest ==> u in [v] + rest;
  }

  /** The next position to the left belongs to the cluster. */
  lemma LeftPassed(line: Line, n: int, notes: Notes, rest: seq<Mark>, next: seq<Mark>)
    requires n > 0 && Midway(line, n, notes, [line.LeftMark(n)] + rest, next) && line.LeftOpen(n - 1) &&
      line.At(n) in line.cluster
    ensures Midway(line.(a := n, sl := n), n, Noted(notes, line.LeftMark(n)), rest,
      next + Sides(line.LeftMark(n), line.dir, Invert(line.dir)))
  {
    hide Advance, Step;
    var v, after := line.LeftMark(n), line.(a := n, sl := n);
    var notes', sides := Noted(notes, v), Sides(v, line.dir, Invert(line.dir));
    forall k: int ensures after.At(k) == line.At(k) && (line.At(k) == v.pos <==> k == n) {
      LineDistinct(line, k, n);
    }
    LineDistinct(line, n, n);
    assert after.Passed(notes'.seen, notes'.distance, notes'.left, notes'.right);
    forall u | u in rest ensures after.Listed(u, notes'.seen, n) {
      assert u in [v] + rest;
    }
    assert sides[0] == after.LeftMark(n + 1) && after.At(n - 1) in notes'.seen;
    forall u | u in next + sides ensures after.Listed(u, notes'.seen, n + 1) {
      assert u in next ==> line.Listed(u, notes.seen, n + 1);
    }
    assert sides[0] in next + sides;
  }

  lemma RightPassed(line: Line, n: int, notes: Notes, rest: seq<Mark>, next: seq<Mark>)
    requires n > 0 && Midway(line, n, notes, [line.RightMark(n)] + rest, next) && line.RightOpen(n - 1) &&
      line.At(-n) in line.cluster
    ensures Midway(line.(b := n, sr := n), n, Noted(notes, line.RightMark(n)), rest,
      next + Sides(line.RightMark(n), line.dir, Invert(line.dir)))
  {
    hide Advance, Step;
    var v, after := line.RightMark(n), line.(b := n, sr := n);
    var notes', sides := Noted(notes, v), Sides(v, line.dir, Invert(line.dir));
    forall k: int ensures after.At(k) == line.At(k) && (line.At(k) == v.pos <==> k == -n) {
      LineDistinct(line, k, -n);
    }
    LineDistinct(line, -n, -n);
    assert after.Passed(notes'.seen, notes'.distance, notes'.left, notes'.right);
    forall u | u in rest ensures after.Listed(u, notes'.seen, n) {
      assert u in [v] + rest;
    }
    assert sides[1] == after.RightMark(n + 1) && after.At(1 - n) in notes'.seen;
    forall u | u in next + sides ensures after.Listed(u, notes'.seen, n + 1) {
      assert u in next ==> line.Listed(u, notes.seen, n + 1);
    }
    assert sides[1] in next + sides;
  }

  /** The next position to a side does not belong to the cluster. */
  lemma SideMissed(line: Line, n: int, notes: Notes, v: Mark, rest: seq<Mark>, next: seq<Mark>) returns (after: Line)
    requires n > 0 && Midway(line, n, notes, [v] + rest, next) && v.pos !in line.cluster && v.pos !in notes.seen
    ensures after == if v == line.LeftMark(n) && line.LeftOpen(n - 1) then line.(sl := n) else line.(sr := n)
    ensures Midway(after, n, notes.(seen := notes.seen + {v.pos}), rest, next)
  {
    hide Advance, Step;
    MarkOpens(line, n, notes, v, rest, next);
    var left := v == line.LeftMark(n) && line.LeftOpen(n - 1);
    after := if left then line.(sl := n) else line.(sr := n);
    var seen := notes.seen + {v.pos};
    forall k: int ensures after.At(k) == line.At(k) && (line.At(k) == v.pos <==> k == if left then n else -n) {
      LineDistinct(line, k, if left then n else -n);
    }
    assert after.Passed(seen, notes.distance, notes.left, notes.right);
    forall u | u in rest ensures after.Listed(u, seen, n) {
    }
    forall u | u in next ensures after.Listed(u, seen, n + 1) {
      assert line.Listed(u, notes.seen, n + 1);
    }
  }

  lemma AlreadySeen(line: Line, n: int, notes: Notes, v: Mark, rest: seq<Mark>, next: seq<Mark>)
    requires Midway(line, n, notes, [v] + rest, next) && v.pos in notes.seen
    ensures Midway(line, n, notes, rest, next)
  {
    assert forall u :: u in rest ==> u in [v] + rest;
    forall k: int ensures line.At(k) == v.pos ==> line.At(k) in notes.seen {
    }
  }

  /** All positions of one distance are visited. */
  method VisitLevel(sizeLimit: nat, rightDir: Dir, ghost line0: Line, leftDir: Dir, cluster: set<Vec>, ghost n: nat,
                    list: seq<Mark>, notes0: Notes)
    returns (notes: Notes, toVisit: seq<Mark>, valid: bool, ghost line: Line)
    requires Level(line0, n, notes0, list) && line0.dir == leftDir && rightDir == Invert(leftDir) &&
      line0.cluster == cluster
    requires n > 0 ==> line0.a <= sizeLimit && line0.b <= sizeLimit
    ensures line.cluster == cluster && line.origin == line0.origin && line.dir == leftDir
    ensures valid ==> Level(line, n + 1, notes, toVisit) && line.a <= sizeLimit && line.b <= sizeLimit
    ensures valid && toVisit != [] ==> n <= sizeLimit
    ensures !valid ==>
      Reaches(cluster, line.origin, leftDir, sizeLimit + 1) || Reaches(cluster, line.origin, rightDir, sizeLimit + 1)
    ensures notes0.left.w in {0, -1} ==> notes.left.w in {0, -1}
  {
    hide Midway, Level, Reaches;
    notes, toVisit, valid, line := notes0, [], true, line0;
    LevelBegins(line, n, notes, list);
    assert list[0..] == list;
    for i := 0 to |list|
      invariant line.cluster == cluster && line.origin == line0.origin && line.dir == leftDir
      invariant valid &&
        (n > 0 || i > 0 ==> Midway(line, n, notes, list[i..], toVisit) && line.a <= sizeLimit && line.b <= sizeLimit)
      invariant n == 0 && i == 0 ==> notes == notes0 && toVisit == [] && line == line0
      invariant toVisit != [] ==> n <= sizeLimit
      invariant notes0.left.w in {0, -1} ==> notes.left.w in {0, -1}
    {
      var v := list[i];
      assert list[i..] == [v] + list[i + 1..];
      MarkLength(line, n, notes, v, list[i + 1..], toVisit, i > 0, list);
      if v.pos !in notes.seen {
        if v.pos in cluster {
          if v.l > sizeLimit {
            TooLong(line, n, notes, v, list[i + 1..], toVisit, sizeLimit);
            return notes.(seen := notes.seen + {v.pos}), toVisit, false, line;
          }
          ghost var before, next := notes, toVisit;
          notes := Noted(notes, v);
          toVisit := toVisit + Sides(v, leftDir, rightDir);
          if n == 0 {
            assert list[i + 1..] == [] && toVisit == Sides(v, leftDir, rightDir);
            line := OriginPassed(line, before);
          } else {
            MarkOpens(line, n, before, v, list[i + 1..], next);
            if v == line.LeftMark(n) && line.LeftOpen(n - 1) {
              LeftPassed(line, n, before, list[i + 1..], next);
              line := line.(a := n, sl := n);
            } else {
              RightPassed(line, n, before, list[i + 1..], next);
              line := line.(b := n, sr := n);
            }
          }
        } else {
          ghost var before := notes;
          notes := notes.(seen := notes.seen + {v.pos});
          line := SideMissed(line, n, before, v, list[i + 1..], toVisit);
        }
      } else {
        AlreadySeen(line, n, notes, v, list[i + 1..], toVisit);
      }
    }
    assert list[|list|..] == [];
    LevelEnds(line, n, notes, toVisit);
  }

  lemma LevelBegins(line: Line, n: nat, notes: Notes, list: seq<Mark>)
    requires Level(line, n, notes, list)
    ensures if n == 0 then list == [Mark(line.origin, 0, 0)] && notes.seen == {} && line.origin in line.cluster
            else Midway(line, n, notes, list, [])
  {
  }

  lemma LevelEnds(line: Line, n: nat, notes: Notes, next: seq<Mark>)
    requires Midway(line, n, notes, [], next)
    ensures Level(line, n + 1, notes, next)
  {
  }

  /** The notes of an unseen entry say how far away it is. */
  lemma MarkLength(line: Line, n: nat, notes: Notes, v: Mark, rest: seq<Mark>, next: seq<Mark>, later: bool,
                   list: seq<Mark>)
    requires n > 0 ==> Midway(line, n, notes, [v] + rest, next)
    requires n == 0 ==> list == [Mark(line.origin, 0, 0)] && v in list
    ensures v.pos !in notes.seen ==> v.l == n && v.w in {-1, 0, 1}
    ensures n == 0 ==> v == Mark(line.origin, 0, 0)
  {
    if n > 0 && v.pos !in notes.seen {
      MarkOpens(line, n, notes, v, rest, next);
    }
  }

  lemma TooLong(line: Line, n: nat, notes: Notes, v: Mark, rest: seq<Mark>, next: seq<Mark>, limit: nat)
    requires n > limit && Midway(line, n, notes, [v] + rest, next) && v.pos !in notes.seen && v.pos in line.cluster
    requires line.a <= limit && line.b <= limit
    ensures Reaches(line.cluster, line.origin, line.dir, limit + 1) ||
      Reaches(line.cluster, line.origin, Invert(line.dir), limit + 1)
  {
    MarkOpens(line, n, notes, v, rest, next);
    if v == line.LeftMark(n) && line.LeftOpen(n - 1) {
      forall i | 0 <= i <= limit + 1 ensures Advance(line.origin, line.dir, i) in line.cluster {
        assert line.At(i) == Advance(line.origin, line.dir, i);
      }
    } else {
      forall i | 0 <= i <= limit + 1 ensures Advance(line.origin, Invert(line.dir), i) in line.cluster {
        AdvanceSteps(line.origin, line.dir, -i);
        assert line.At(-i) in line.cluster;
      }
    }
  }

  /**
   The positions of the cluster to both sides of the origin. A valid search has found all of them
   up to the first gaps; one that is not valid went too far to one side.
   */
  method LateralExplore(sizeLimit: nat, origin: Vec, cluster: set<Vec>, leftDir: Dir, rightDir: Dir)
    returns (r: Lateral, ghost a: nat, ghost b: nat)
    requires rightDir == Invert(leftDir) && origin in cluster
    ensures r.valid ==> Run(cluster, origin, leftDir, a) && Run(cluster, origin, rightDir, b) && r.distance == a + b + 1
    ensures r.valid ==> r.left.pos == Advance(origin, leftDir, a) && r.right.pos == Advance(origin, rightDir, b)
    ensures r.left.w in {0, -1}
    ensures !r.valid ==>
      Reaches(cluster, origin, leftDir, sizeLimit + 1) || Reaches(cluster, origin, rightDir, sizeLimit + 1)
  {
    hide Level, Run, Reaches;
    var notes, valid := Notes({}, 0, Mark(origin, 0, 0), Mark(origin, 0, 0)), true;
    var toVisit := [Mark(origin, 0, 0)];
    ghost var n, line := 0, Line(cluster, origin, leftDir, 0, 0, 0, 0);
    Begins(line, notes, toVisit);
    while |toVisit| > 0
      invariant line.cluster == cluster && line.origin == origin && line.dir == leftDir
      invariant valid ==> Level(line, n, notes, toVisit) && (n > 0 ==> line.a <= sizeLimit && line.b <= sizeLimit)
      invariant valid && toVisit != [] ==> n <= sizeLimit + 1
      invariant n == 0 ==> toVisit != []
      invariant notes.left.w in {0, -1}
      invariant !valid ==>
        Reaches(cluster, origin, leftDir, sizeLimit + 1) || Reaches(cluster, origin, rightDir, sizeLimit + 1)
      decreases valid, sizeLimit + 2 - n
    {
      if !valid {
        break;
      }
      notes, toVisit, valid, line := VisitLevel(sizeLimit, rightDir, line, leftDir, cluster, n, toVisit, notes);
      n := n + 1;
    }
    r, a, b := Lateral(notes.distance, notes.left, notes.right, valid), 0, 0;
    if valid {
      a, b := Ends(line, n, notes);
    }
  }

  lemma Begins(line: Line, notes: Notes, list: seq<Mark>)
    requires notes == Notes({}, 0, Mark(line.origin, 0, 0), Mark(line.origin, 0, 0)) &&
      list == [Mark(line.origin, 0, 0)] && line.origin in line.cluster
    ensures Level(line, 0, notes, list)
  {
  }

  lemma Ends(line: Line, n: nat, notes: Notes) returns (a: nat, b: nat)
    requires n > 0 && Level(line, n, notes, [])
    ensures a == line.a && b == line.b && notes.distance == a + b + 1
    ensures Run(line.cluster, line.origin, line.dir, a) && notes.left.pos == Advance(line.origin, line.dir, a)
    ensures Run(line.cluster, line.origin, Invert(line.dir), b) &&
      notes.right.pos == Advance(line.origin, Invert(line.dir), b)
  {
    a, b := line.a, line.b;
    forall i: int
      ensures Advance(line.origin, line.dir, i) == line.At(i) &&
        Advance(line.origin, Invert(line.dir), i) == line.At(-i)
    {
      AdvanceSteps(line.origin, line.dir, -i);
    }
    assert line.At(a + 1) !in line.cluster && line.At(0 - b - 1) !in line.cluster;
    assert Advance(line.origin, Invert(line.dir), b + 1) == line.At(0 - b - 1);
    forall i | 0 <= i <= b ensures Advance(line.origin, Invert(line.dir), i) in line.cluster {
      assert line.At(-i) in line.cluster;
    }
  }

  /** The positions of the cluster from a start in one direction, up to the first gap. */
  method LinearExplore(sizeLimit: nat, origin: Mark, cluster: set<Vec>, dir: Dir) returns (r: Linear, ghost k: nat)
    requires origin.pos in cluster && origin.w in {0, -1}
    ensures r.valid ==> Run(cluster, origin.pos, dir, k) && r.distance == k + 1 && r.pos == Advance(origin.pos, dir, k)
    ensures !r.valid ==> Reaches(cluster, origin.pos, dir, sizeLimit + 1)
  {
    var distance, last, valid, toVisit := 0, origin.pos, true, [origin];
    k := 0;
    AdvanceSteps(origin.pos, dir, 0);
    while |toVisit| > 0
      invariant |toVisit| <= 1 && (valid ==> 0 <= distance <= sizeLimit + 2)
      invariant toVisit != [] ==>
        toVisit[0].pos == Advance(origin.pos, dir, distance) && toVisit[0].w == origin.w + distance
      invariant Reaches(cluster, origin.pos, dir, distance - 1)
      invariant distance > 0 ==> last == Advance(origin.pos, dir, distance - 1)
      invariant valid && toVisit == [] ==> distance > 0 && Run(cluster, origin.pos, dir, distance - 1)
      invariant !valid ==> Reaches(cluster, origin.pos, dir, sizeLimit + 1)
      decreases valid, toVisit != [], sizeLimit + 2 - distance
    {
      if !valid {
        break;
      }
      var pos := toVisit[0];
      toVisit := [];
      if pos.pos in cluster {
        last := pos.pos;
        distance := distance + 1;
        if pos.w > sizeLimit {
          valid := false;
        } else {
          AdvanceSteps(origin.pos, dir, distance - 1);
          toVisit := [Mark(Step(pos.pos, dir), 0, pos.w + 1)];
        }
      }
    }
    k := if distance > 0 then distance - 1 else 0;
    r := Linear(distance, last, valid);
  }
}
