/**
 What the handler of removals does to a clustering. Several nodes may have left the graph before
 the first of their removals is handled, so the branches are searched for in the graph that lacks
 them all.
 */
module Sweeps {
  import opened Grid
  import opened Graphs
  import opened Clusterings

  /** The clustering once `p` has been taken out of its cluster. */
  function Without(k: Clustering, p: Vec): Clustering {
    map i | i in k :: k[i] - {p}
  }

  /** What a scan finds: the components that hold an origin, and empty sets. */
  ghost predicate Scanned(h: Graph, origins: set<Vec>, b: Clustering) {
    && (forall i :: i in b && b[i] != {} ==> Component(h, b[i]) && b[i] * origins != {})
    && (forall i, j :: i in b && j in b && i != j ==> b[i] !! b[j])
    && (forall o :: o in origins && o in h.nodes ==> Covered(b, o))
  }

  ghost predicate Meets(k: Clustering, s: set<Vec>, i: nat) {
    i in k && s * k[i] != {}
  }

  /** The clusters that the handler destroys: one that meets the branch, for every branch. */
  ghost predicate Affected(k: Clustering, b: Clustering, ids: set<nat>) {
    && (forall i :: i in ids ==> exists j :: j in b && Meets(k, b[j], i))
    && (forall j :: j in b && (exists i :: Meets(k, b[j], i)) ==> exists i :: i in ids && Meets(k, b[j], i))
  }

  /** `made` sends the new cluster ids to the non-empty branches, one to one. */
  ghost predicate Rebuilt(k: Clustering, b: Clustering, ids: set<nat>, made: map<nat, nat>, l: Clustering) {
    && made.Keys !! k.Keys
    && (forall i :: i in made ==> made[i] in b && b[made[i]] != {})
    && (forall i, j :: i in made && j in made && i != j ==> made[i] != made[j])
    && (forall j :: j in b && b[j] != {} ==> exists i :: i in made && made[i] == j)
    && l.Keys == (k.Keys - ids) + made.Keys
    && (forall i :: i in k && i !in ids ==> l[i] == k[i])
    && (forall i :: i in made ==> l[i] == b[made[i]])
  }

  /**
   One run of the handler: the clustering before (`k`) and after (`l`), the removed node, the
   explored origins, the branches `b`, the ids of the destroyed clusters, and the new ids with the
   branch each was made of.
   */
  datatype Removal = Removal(k: Clustering, l: Clustering, p: Vec, origins: set<Vec>,
                             b: Clustering, ids: set<nat>, made: map<nat, nat>)
  {
    /** The branches were searched for in `h`. */
    ghost predicate Valid(h: Graph) {
      && Scanned(h, origins, b) && Affected(Without(k, p), b, ids)
      && Rebuilt(Without(k, p), b, ids, made, l)
    }
  }

  /** Every piece of `r` holds an explored origin. */
  ghost predicate AllPiecesExplored(h: Graph, o: set<Vec>, r: set<Vec>) {
    forall d :: Component(h, d) && d <= r ==> d * o != {}
  }

  /** The graphs before (`g`) and after (`h`) all nodes of `gone` have left. */
  datatype Sweep = Sweep(g: Graph, h: Graph, gone: set<Vec>) {
    ghost predicate Valid() {
      && Undirected(g) && Undirected(h) && h.nodes == g.nodes - gone
      && (forall u, v :: u !in gone && v !in gone ==> ((u, v) in g.links <==> (u, v) in h.links))
    }

    /** A component of the old graph of which nothing was explored. */
    ghost predicate Unexplored(c: set<Vec>, o: set<Vec>) {
      Component(g, c) && (c - gone) * o == {}
    }

    ghost predicate Whole(x: set<Vec>, done: set<Vec>, o: set<Vec>) {
      exists c :: Unexplored(c, o) && x == c - done
    }

    /** A component of the new graph that was explored. */
    ghost predicate Piece(x: set<Vec>, o: set<Vec>) {
      Component(h, x) && x * o != {}
    }

    /**
     Once the removals of `done` were handled, which explored from `o`: every cluster is an old
     component of which nothing was explored, or an explored new one, and all of these are there.
     */
    ghost predicate Swept(k: Clustering, done: set<Vec>, o: set<Vec>) {
      && (forall i :: i in k && k[i] != {} ==> Whole(k[i], done, o) || Piece(k[i], o))
      && (forall i, j :: i in k && j in k && i != j ==> k[i] !! k[j])
      && (forall c, u :: Unexplored(c, o) && u in c - done ==> Covered(k, u))
      && (forall d, u :: Piece(d, o) && u in d ==> Covered(k, u))
    }

    /** What is left of a component hangs together, or every piece of it holds an explored origin. */
    ghost predicate NothingLost(o: set<Vec>) {
      forall c :: Component(g, c) && c * gone != {} ==>
        Connected(h, c - gone) || AllPiecesExplored(h, o, c - gone)
    }

    /** A new component lies inside an old one. */
    lemma PieceInside(c: set<Vec>, d: set<Vec>, u: Vec)
      requires Valid() && Component(g, c) && Component(h, d) && u in c && u in d
      ensures d <= c - gone
    {
      assert Closed(h, c);
      OverlapIncludes(h, d, c, u);
    }

    /** A cluster that a new component meets includes it; no other cluster does. */
    lemma PieceFits(k: Clustering, done: set<Vec>, o: set<Vec>, d: set<Vec>, i: nat, u: Vec)
      requires Valid() && Swept(k, done, o) && done <= gone && Component(h, d) && i in k && u in d && u in k[i]
      ensures d <= k[i] && d !! gone
      ensures Piece(k[i], o) ==> d == k[i]
    {
      if Piece(k[i], o) {
        ComponentUnique(h, d, k[i], u);
      } else {
        var c :| Unexplored(c, o) && k[i] == c - done;
        PieceInside(c, d, u);
      }
    }

    /** A cluster that a branch meets is destroyed. */
    lemma MetIsDestroyed(r: Removal, done: set<Vec>, o: set<Vec>, j: nat, i: nat, u: Vec)
      requires Valid() && Swept(r.k, done, o) && done <= gone && r.p in gone && r.Valid(h)
      requires j in r.b && u in r.b[j] && i in r.k && u in r.k[i]
      ensures i in r.ids
    {
      hide Component, Rebuilt;
      PieceFits(r.k, done, o, r.b[j], i, u);
      assert Meets(Without(r.k, r.p), r.b[j], i) by {
        assert u in r.b[j] * Without(r.k, r.p)[i];
      }
      var e :| e in r.ids && Meets(Without(r.k, r.p), r.b[j], e);
      var x :| x in r.b[j] * Without(r.k, r.p)[e];
      PieceFits(r.k, done, o, r.b[j], e, x);
    }

    lemma DestroyedIsMet(r: Removal, i: nat) returns (j: nat, u: Vec)
      requires r.Valid(h) && i in r.ids
      ensures j in r.b && i in r.k && u in r.b[j] && u in r.k[i]
    {
      j :| j in r.b && Meets(Without(r.k, r.p), r.b[j], i);
      u :| u in r.b[j] * Without(r.k, r.p)[i];
    }

    lemma BranchIsKept(r: Removal, j: nat, u: Vec)
      requires r.Valid(h) && j in r.b && u in r.b[j]
      ensures Covered(r.l, u)
    {
      var i :| i in r.made && r.made[i] == j;
      assert r.l[i] == r.b[j];
    }

    /** An explored piece is a branch. */
    lemma ExploredIsBranch(r: Removal, d: set<Vec>) returns (j: nat)
      requires r.Valid(h) && Component(h, d) && d * r.origins != {}
      ensures j in r.b && r.b[j] == d
    {
      var x :| x in d * r.origins;
      assert Covered(r.b, x);
      j :| j in r.b && x in r.b[j];
      ComponentUnique(h, d, r.b[j], x);
    }

    lemma SweepStarts(k: Clustering)
      requires Partitioned(g, k)
      ensures Swept(k, {}, {})
    {
      hide Component;
      forall i | i in k && k[i] != {} ensures Whole(k[i], {}, {}) {
        assert Unexplored(k[i], {}) && k[i] == k[i] - {};
      }
      forall c, u | Unexplored(c, {}) && u in c - {} ensures Covered(k, u) {
        InNodes(g, c, u);
      }
    }

    /** One more removal. */
    lemma SweepGoesOn(r: Removal, done: set<Vec>, o: set<Vec>)
      requires Valid() && Swept(r.k, done, o) && done <= gone && r.p in gone && r.Valid(h)
      ensures Swept(r.l, done + {r.p}, o + r.origins)
    {
      hide Component, Sweep.Valid, Removal.Valid, Whole, Piece, Unexplored, Covered;
      forall i | i in r.l && r.l[i] != {}
        ensures Whole(r.l[i], done + {r.p}, o + r.origins) || Piece(r.l[i], o + r.origins)
      {
        StepKinds(r, done, o, i);
      }
      forall i, j | i in r.l && j in r.l && i != j ensures r.l[i] !! r.l[j] {
        StepDisjoint(r, done, o, i, j);
      }
      forall c, u | Unexplored(c, o + r.origins) && u in c - (done + {r.p}) ensures Covered(r.l, u) {
        StepKeepsWhole(r, done, o, c, u);
      }
      forall d, u | Piece(d, o + r.origins) && u in d ensures Covered(r.l, u) {
        StepCovers(r, done, o, d, u);
      }
    }

    lemma StepKinds(r: Removal, done: set<Vec>, o: set<Vec>, i: nat)
      requires Valid() && Swept(r.k, done, o) && done <= gone && r.p in gone && r.Valid(h)
      requires i in r.l && r.l[i] != {}
      ensures Whole(r.l[i], done + {r.p}, o + r.origins) || Piece(r.l[i], o + r.origins)
    {
      if i in r.made {
        assert Component(h, r.b[r.made[i]]) && r.l[i] == r.b[r.made[i]];
        assert r.l[i] * (o + r.origins) != {};
      } else {
        assert r.l[i] == r.k[i] - {r.p};
        if Piece(r.k[i], o) {
          assert r.l[i] == r.k[i];
          assert r.l[i] * (o + r.origins) != {};
        } else {
          var c :| Unexplored(c, o) && r.k[i] == c - done;
          forall x | x in c - gone ensures x !in r.origins {
            NotExplored(r, done, o, i, c, x);
          }
          assert Unexplored(c, o + r.origins);
          assert r.l[i] == c - (done + {r.p});
        }
      }
    }

    /** No node of a cluster that is left alone was searched from. */
    lemma NotExplored(r: Removal, done: set<Vec>, o: set<Vec>, i: nat, c: set<Vec>, x: Vec)
      requires Valid() && Swept(r.k, done, o) && done <= gone && r.p in gone && r.Valid(h)
      requires i in r.k && i !in r.ids && Unexplored(c, o) && r.k[i] == c - done && x in c - gone
      ensures x !in r.origins
    {
      hide Swept, Affected, Rebuilt;
      if x in r.origins {
        assert x in h.nodes && Covered(r.b, x);
        var j :| j in r.b && x in r.b[j];
        MetIsDestroyed(r, done, o, j, i, x);
        assert false;
      }
    }

    lemma StepDisjoint(r: Removal, done: set<Vec>, o: set<Vec>, i: nat, j: nat)
      requires Valid() && Swept(r.k, done, o) && done <= gone && r.p in gone && r.Valid(h)
      requires i in r.l && j in r.l && i != j
      ensures r.l[i] !! r.l[j]
    {
      hide Whole, Piece, Unexplored, Component, Affected;
      if i !in r.made && j !in r.made {
        assert r.k[i] !! r.k[j];
      } else if i !in r.made {
        BranchApart(r, done, o, r.made[j], i);
      } else if j !in r.made {
        BranchApart(r, done, o, r.made[i], j);
      }
    }

    lemma BranchApart(r: Removal, done: set<Vec>, o: set<Vec>, j: nat, i: nat)
      requires Valid() && Swept(r.k, done, o) && done <= gone && r.p in gone && r.Valid(h)
      requires j in r.b && i in r.k && i !in r.ids
      ensures r.b[j] !! Without(r.k, r.p)[i]
    {
      hide Swept, Removal.Valid;
      forall u | u in r.b[j] ensures u !in Without(r.k, r.p)[i] {
        if u in r.k[i] {
          MetIsDestroyed(r, done, o, j, i, u);
        }
      }
    }

    lemma StepKeepsWhole(r: Removal, done: set<Vec>, o: set<Vec>, c: set<Vec>, u: Vec)
      requires Valid() && Swept(r.k, done, o) && done <= gone && r.p in gone && r.Valid(h)
      requires Unexplored(c, o + r.origins) && u in c - (done + {r.p})
      ensures Covered(r.l, u)
    {
      assert Unexplored(c, o);
      assert Covered(r.k, u);
      var i :| i in r.k && u in r.k[i];
      if i in r.ids {
        var j, x := DestroyedIsMet(r, i);
        InsideWhole(r.k, done, o, c, i, u);
        PieceInside(c, r.b[j], x);
        assert false;
      }
      assert u in r.l[i];
    }

    /** A cluster with a node of an unexplored component holds nothing else. */
    lemma InsideWhole(k: Clustering, done: set<Vec>, o: set<Vec>, c: set<Vec>, i: nat, u: Vec)
      requires Valid() && Swept(k, done, o) && i in k && u in k[i] && u in c && Unexplored(c, o)
      ensures k[i] == c - done
    {
      if Piece(k[i], o) {
        PieceInside(c, k[i], u);
        assert false;
      }
      var e :| Unexplored(e, o) && k[i] == e - done;
      ComponentUnique(g, c, e, u);
    }

    lemma StepCovers(r: Removal, done: set<Vec>, o: set<Vec>, d: set<Vec>, u: Vec)
      requires Valid() && Swept(r.k, done, o) && done <= gone && r.p in gone && r.Valid(h)
      requires Piece(d, o + r.origins) && u in d
      ensures Covered(r.l, u)
    {
      if d * r.origins != {} {
        var j := ExploredIsBranch(r, d);
        BranchIsKept(r, j, u);
      } else {
        assert Piece(d, o);
        assert Covered(r.k, u);
        var i :| i in r.k && u in r.k[i];
        PieceIsCluster(r.k, done, o, d, i, u);
        if i in r.ids {
          var j, x := DestroyedIsMet(r, i);
          ComponentUnique(h, d, r.b[j], x);
        }
        assert u in r.l[i];
      }
    }

    /** An explored component is a cluster by itself. */
    lemma PieceIsCluster(k: Clustering, done: set<Vec>, o: set<Vec>, d: set<Vec>, i: nat, u: Vec)
      requires Valid() && Swept(k, done, o) && Piece(d, o) && i in k && u in k[i] && u in d
      ensures k[i] == d
    {
      if Piece(k[i], o) {
        ComponentUnique(h, d, k[i], u);
      } else {
        var c :| Unexplored(c, o) && k[i] == c - done;
        PieceInside(c, d, u);
        assert false;
      }
    }

    /**
     Which of the nodes that are left are in a cluster at the end: those in a piece that was
     explored, and those of a component in which nothing was.
     */
    lemma KeptExactly(k: Clustering, o: set<Vec>, c: set<Vec>, d: set<Vec>, u: Vec)
      requires Valid() && Swept(k, gone, o) && Component(g, c) && Component(h, d) && u in c && u in d
      ensures Covered(k, u) <==> d * o != {} || (c - gone) * o == {}
    {
      if Covered(k, u) {
        var i :| i in k && u in k[i];
        if Piece(k[i], o) {
          ComponentUnique(h, d, k[i], u);
        } else {
          var e :| Unexplored(e, o) && k[i] == e - gone;
          ComponentUnique(g, c, e, u);
        }
      }
    }

    /**
     Once all removals were handled the clusters are the components if and only if, of every
     component that lost a node, the rest hangs together or each of its pieces holds an explored
     origin.
     */
    lemma SweepEnds(k: Clustering, o: set<Vec>)
      requires Valid() && Swept(k, gone, o)
      ensures Partitioned(h, k) <==> NothingLost(o)
    {
      hide Swept, Connected, Sweep.Valid;
      if Partitioned(h, k) {
        forall c | Component(g, c) && c * gone != {} && !Connected(h, c - gone)
          ensures AllPiecesExplored(h, o, c - gone)
        {
          forall d | Component(h, d) && d <= c - gone ensures d * o != {} {
            LonePieceExplored(k, o, c, d);
          }
        }
      }
      if NothingLost(o) {
        EndIsRight(k, o);
      }
    }

    lemma LonePieceExplored(k: Clustering, o: set<Vec>, c: set<Vec>, d: set<Vec>)
      requires Valid() && Swept(k, gone, o) && Partitioned(h, k)
      requires Component(g, c) && !Connected(h, c - gone) && Component(h, d) && d <= c - gone
      ensures d * o != {}
    {
      hide Connected;
      var u :| u in d;
      assert Covered(k, u);
      var i :| i in k && u in k[i];
      ComponentUnique(h, d, k[i], u);
      if !Piece(k[i], o) {
        var e :| Unexplored(e, o) && k[i] == e - gone;
        ComponentUnique(g, c, e, u);
      }
    }

    lemma EndIsRight(k: Clustering, o: set<Vec>)
      requires Valid() && Swept(k, gone, o) && NothingLost(o)
      ensures Partitioned(h, k)
    {
      hide Sweep.Valid, Connected, Closed, NothingLost;
      forall i | i in k && k[i] != {} ensures Component(h, k[i]) {
        if c :| Unexplored(c, o) && k[i] == c - gone {
          WholeIsComponent(o, c);
        }
      }
      forall u | u in h.nodes ensures Covered(k, u) {
        EndCovers(k, o, u);
      }
    }

    /** What is left of an unexplored component is connected, if nothing is lost. */
    lemma WholeIsComponent(o: set<Vec>, c: set<Vec>)
      requires Valid() && NothingLost(o) && Unexplored(c, o) && c - gone != {}
      ensures Component(h, c - gone)
    {
      StaysClosed(c);
      if !Connected(h, c - gone) {
        var u :| u in c - gone;
        var d := ComponentOf(h, u);
        PieceInside(c, d, u);
        assert false;
      }
    }

    lemma StaysClosed(c: set<Vec>)
      requires Valid() && Component(g, c)
      ensures Closed(h, c - gone) && c - gone <= h.nodes
      ensures c * gone == {} ==> Connected(h, c - gone)
    {
      if c * gone == {} {
        assert forall x :: x in c ==> x !in c * gone;
        assert c - gone == c;
        SameLinksConnected(g, h, c);
      }
    }

    /** A node of a component in which something was explored is in an explored piece. */
    lemma EndCovers(k: Clustering, o: set<Vec>, u: Vec)
      requires Valid() && Swept(k, gone, o) && NothingLost(o) && u in h.nodes
      ensures Covered(k, u)
    {
      hide Swept, Covered;
      var c := ComponentOf(g, u);
      var d := ComponentOf(h, u);
      PieceInside(c, d, u);
      KeptExactly(k, o, c, d, u);
      StaysClosed(c);
      hide Sweep.Valid;
      if d * o == {} {
        assert !AllPiecesExplored(h, o, c - gone);
        ConnectedIsPiece(c, d, u);
      }
    }

    lemma ConnectedIsPiece(c: set<Vec>, d: set<Vec>, u: Vec)
      requires Connected(h, c - gone) && Closed(h, c - gone) && c - gone <= h.nodes
      requires Component(h, d) && u in d && d <= c - gone
      ensures d == c - gone
    {
      ComponentUnique(h, d, c - gone, u);
    }
  }

  lemma InNodes(g: Graph, c: set<Vec>, u: Vec)
    requires Component(g, c) && u in c
    ensures u in g.nodes
  {
  }
}
