/**
 What the cluster handlers do to the grouping of nodes, on values: a clustering maps a cluster id
 to its set of nodes, and it is right for a graph when its non-empty clusters are the components.
 */
module Clusterings {
  import opened Grid
  import opened Graphs

  type Clustering = map<nat, set<Vec>>

  ghost predicate Partitioned(g: Graph, k: Clustering) {
    && (forall i :: i in k && k[i] != {} ==> Component(g, k[i]))
    && (forall i, j :: i in k && j in k && i != j ==> k[i] !! k[j])
    && (forall u :: u in g.nodes ==> Covered(k, u))
  }

  ghost predicate Covered(k: Clustering, u: Vec) {
    exists i :: i in k && u in k[i]
  }

  /** The non-empty clusters of a right clustering are the components, no more and no fewer. */
  lemma ClustersAreComponents(g: Graph, k: Clustering, c: set<Vec>)
    requires Partitioned(g, k) && c != {}
    ensures Component(g, c) <==> c in k.Values
  {
    if Component(g, c) {
      var u :| u in c;
      assert Covered(k, u);
      var i :| i in k && u in k[i];
      ComponentUnique(g, c, k[i], u);
    }
  }

  lemma OneHome(g: Graph, k: Clustering, i: nat, j: nat, u: Vec)
    requires Partitioned(g, k) && i in k && j in k && u in k[i] && u in k[j]
    ensures i == j
  {
  }

  lemma ComponentOf(g: Graph, u: Vec) returns (c: set<Vec>)
    requires Undirected(g) && u in g.nodes
    ensures Component(g, c) && u in c
  {
    c := set x | x in g.nodes && Reaches(g, u, x);
    ReachesSelf(g, u);
    forall v ensures v in c <==> Reaches(g, u, v) {
    }
    ReachSetIsComponent(g, c, u);
  }

  /* Adding a node. */

  /** `h` is `g` with the new node `p` and some links of `p`. */
  ghost predicate Grown(g: Graph, h: Graph, p: Vec) {
    && Undirected(g) && Undirected(h)
    && p !in g.nodes && h.nodes == g.nodes + {p}
    && (forall u, v :: u != p && v != p ==> ((u, v) in g.links <==> (u, v) in h.links))
  }

  ghost predicate Touches(h: Graph, p: Vec, c: set<Vec>) {
    exists u :: u in c && (p, u) in h.links
  }

  function UnionOf(k: Clustering, ids: set<nat>): set<Vec> {
    set i, v | i in ids && i in k && v in k[i] :: v
  }

  /** `l` is `k` with `p` put in `t` together with all the clusters of `ids`. */
  ghost predicate Joined(k: Clustering, l: Clustering, ids: set<nat>, t: nat, p: Vec) {
    && ids <= k.Keys && (t in k ==> t in ids)
    && l == (k - ids)[t := UnionOf(k, ids) + {p}]
  }

  /** A cut through a component of the old graph is crossed in any graph that keeps its links. */
  lemma CutInside(g: Graph, h: Graph, s: set<Vec>, d: set<Vec>, u: Vec, x: Vec)
    requires Connected(g, d) && u in d && x in d && (u in s <==> x !in s)
    requires forall a, b :: a in d && b in d && (a, b) in g.links ==> (a, b) in h.links
    ensures exists a, b :: a in s && b in d && b !in s && (a, b) in h.links
  {
    var t := s * d;
    assert (if u in s then u else x) in t;
    assert Splits(t, d);
    var a, b :| a in t && b in d && b !in t && (a, b) in g.links;
    assert a in s && b in d && b !in s && (a, b) in h.links;
  }

  lemma JoinedIsConnected(g: Graph, h: Graph, k: Clustering, ids: set<nat>, p: Vec)
    requires Grown(g, h, p) && Partitioned(g, k) && ids <= k.Keys
    requires forall i :: i in ids ==> Touches(h, p, k[i])
    ensures Connected(h, UnionOf(k, ids) + {p})
  {
    hide Grown, Component, Crosses, Touches;
    var c := UnionOf(k, ids) + {p};
    forall s | Splits(s, c) ensures Crosses(h, s, c) {
      // some cluster has a node on the other side of the cut than p
      var x :| x in c && (x in s <==> p !in s);
      var i :| i in ids && x in k[i];
      assert Component(g, k[i]);
      CutCrosses(g, h, s, c, k[i], x, p);
    }
  }

  lemma CutCrosses(g: Graph, h: Graph, s: set<Vec>, c: set<Vec>, d: set<Vec>, x: Vec, p: Vec)
    requires Grown(g, h, p) && Component(g, d) && d <= c && p in c && Touches(h, p, d)
    requires x in d && (x in s <==> p !in s)
    ensures Crosses(h, s, c)
  {
    var u :| u in d && (p, u) in h.links;
    assert u != p && (u, p) in h.links;
    if u in s <==> p in s {
      CutInside(g, h, s, d, u, x);
    }
  }

  /** Joining a new node to every cluster it has a link to leaves exactly the new components. */
  lemma {:induction false} AddingKeepsComponents(g: Graph, h: Graph, k: Clustering, l: Clustering, ids: set<nat>,
                                                 t: nat, p: Vec)
    requires Grown(g, h, p) && Partitioned(g, k) && Joined(k, l, ids, t, p)
    requires forall i :: i in k ==> (i in ids <==> Touches(h, p, k[i]))
    ensures Partitioned(h, l)
  {
    JoinedIsConnected(g, h, k, ids, p);
    var c := l[t];
    forall u, v | u in c && (u, v) in h.links ensures v in c {
      if u == p && v != p {
        assert Covered(k, v);
        var i :| i in k && v in k[i];
        assert Touches(h, p, k[i]);
      } else if v != p {
        var i :| i in ids && u in k[i];
        assert Component(g, k[i]);
      }
    }
    assert Component(h, c);
    forall i | i in l && i != t && l[i] != {} ensures Component(h, l[i]) {
      var d := k[i];
      assert Component(g, d) && p !in d;
      forall u, v | u in d && (u, v) in h.links ensures v in d {
        assert (p, u) in h.links ==> Touches(h, p, d);
      }
      SameLinksConnected(g, h, d);
    }
    forall u | u in h.nodes ensures Covered(l, u) {
      if u != p {
        JoinedCovers(k, l, ids, t, p, u);
      } else {
        assert u in l[t];
      }
    }
    forall i, j | i in l && j in l && i != j ensures l[i] !! l[j] {
      if i == t { TouchedApart(g, k, ids, j, p); } else if j == t { TouchedApart(g, k, ids, i, p); }
    }
  }

  lemma JoinedCovers(k: Clustering, l: Clustering, ids: set<nat>, t: nat, p: Vec, u: Vec)
    requires Joined(k, l, ids, t, p) && Covered(k, u)
    ensures Covered(l, u)
  {
    var i :| i in k && u in k[i];
    if i !in ids { assert i in l && u in l[i]; } else { assert u in l[t]; }
  }

  lemma TouchedApart(g: Graph, k: Clustering, ids: set<nat>, j: nat, p: Vec)
    requires Partitioned(g, k) && p !in g.nodes && j in k && j !in ids && ids <= k.Keys
    ensures (UnionOf(k, ids) + {p}) !! k[j]
  {
    forall x | x in UnionOf(k, ids) ensures x !in k[j] {
      var i :| i in ids && i in k && x in k[i];
      assert k[i] !! k[j];
    }
    assert k[j] != {} ==> Component(g, k[j]);
  }

  lemma SameLinksConnected(g: Graph, h: Graph, c: set<Vec>)
    requires Connected(g, c)
    requires forall u, v :: u in c && v in c && (u, v) in g.links ==> (u, v) in h.links
    ensures Connected(h, c)
  {
    forall s | Splits(s, c) ensures Crosses(h, s, c) {
      var a, b :| a in s && b in c && b !in s && (a, b) in g.links;
      assert (a, b) in h.links;
    }
  }

  /**
   The same sets are the components of two graphs exactly when a clustering that is right for one
   is right for both.
   */
  lemma SameComponents(g: Graph, h: Graph, k: Clustering)
    requires Undirected(g) && Undirected(h) && g.nodes == h.nodes && Partitioned(g, k)
    ensures Partitioned(h, k) <==> forall c :: Component(g, c) <==> Component(h, c)
  {
    hide Component;
    if Partitioned(h, k) {
      forall c ensures Component(g, c) <==> Component(h, c) {
        NotEmpty(g, c);
        NotEmpty(h, c);
        if c != {} {
          ClustersAreComponents(g, k, c);
          ClustersAreComponents(h, k, c);
        }
      }
    }
  }

  lemma NotEmpty(g: Graph, c: set<Vec>)
    ensures Component(g, c) ==> c != {}
  {
  }

  /* Joining a node that is in a cluster already. */

  /** The node `p` may have other links in `h` than in `g`. */
  ghost predicate Relinked(g: Graph, h: Graph, p: Vec) {
    && Undirected(g) && Undirected(h) && p in g.nodes && h.nodes == g.nodes
    && (forall u, v :: u != p && v != p ==> ((u, v) in g.links <==> (u, v) in h.links))
  }

  /**
   Joining `p` to every cluster that it has a link to now leaves exactly the components if and only
   if its old cluster `k[x]` is one of them and still hangs together.
   */
  lemma RejoiningKeepsComponents(g: Graph, h: Graph, k: Clustering, l: Clustering, ids: set<nat>, t: nat, p: Vec,
                                 x: nat)
    requires Relinked(g, h, p) && Partitioned(g, k) && Joined(k, l, ids, t, p) && x in k && p in k[x]
    requires forall i :: i in k ==> (i in ids <==> Touches(h, p, k[i]))
    ensures Partitioned(h, l) <==> x in ids && Connected(h, k[x])
  {
    hide Connected, Touches, Relinked;
    if Partitioned(h, l) {
      OldPartTaken(h, k, l, ids, t, p, x);
      OldPartConnected(g, h, k, ids, p, x, l[t]);
    }
    if x in ids && Connected(h, k[x]) {
      RejoinedIsComponent(g, h, k, ids, p, x);
      RejoinedPartition(g, h, k, l, ids, t, p, x);
    }
  }

  lemma OldPartTaken(h: Graph, k: Clustering, l: Clustering, ids: set<nat>, t: nat, p: Vec, x: nat)
    requires Joined(k, l, ids, t, p) && x in k && p in k[x] && Partitioned(h, l)
    ensures x in ids && Component(h, l[t]) && l[t] == UnionOf(k, ids) + {p}
  {
    hide Component;
    assert p in l[t];
    if x !in ids {
      OneHome(h, l, x, t, p);
    }
  }

  lemma OldPartConnected(g: Graph, h: Graph, k: Clustering, ids: set<nat>, p: Vec, x: nat, u: set<Vec>)
    requires Relinked(g, h, p) && Partitioned(g, k) && x in k && x in ids && p in k[x]
    requires u == UnionOf(k, ids) + {p} && Connected(h, u)
    ensures Connected(h, k[x])
  {
    assert k[x] != {};
    assert Component(g, k[x]);
    hide Partitioned, Connected;
    assert k[x] <= u;
    forall s | Splits(s, k[x]) ensures Crosses(h, s, k[x]) {
      CutOfPart(g, h, k[x], p, u, s);
    }
    MeansConnected(h, k[x]);
  }

  lemma MeansConnected(g: Graph, c: set<Vec>)
    requires forall s :: Splits(s, c) ==> Crosses(g, s, c)
    ensures Connected(g, c)
  {
  }

  /** A cut of the old part, extended by the rest on the side of `p`. */
  lemma CutOfPart(g: Graph, h: Graph, c: set<Vec>, p: Vec, u: set<Vec>, s: set<Vec>)
    requires Relinked(g, h, p) && Closed(g, c) && p in c && c <= u && Connected(h, u) && Splits(s, c)
    ensures Crosses(h, s, c)
  {
    var t := if p in s then s + (u - c) else s;
    var y :| y in c && y !in s;
    assert y in u && y !in t && t <= u;
    assert Splits(t, u);
    var a, b :| a in t && b in u && b !in t && (a, b) in h.links;
    assert (b, a) in h.links;
    assert a in s && b in c;
  }

  lemma RejoinedIsComponent(g: Graph, h: Graph, k: Clustering, ids: set<nat>, p: Vec, x: nat)
    requires Relinked(g, h, p) && Partitioned(g, k) && x in k && x in ids && p in k[x] && Connected(h, k[x]) &&
      ids <= k.Keys
    requires forall i :: i in k ==> (i in ids <==> Touches(h, p, k[i]))
    ensures Component(h, UnionOf(k, ids) + {p})
  {
    RejoinedIsConnected(g, h, k, ids, p, x);
    RejoinedIsClosed(g, h, k, ids, p);
  }

  lemma RejoinedIsConnected(g: Graph, h: Graph, k: Clustering, ids: set<nat>, p: Vec, x: nat)
    requires Relinked(g, h, p) && Partitioned(g, k) && x in k && x in ids && p in k[x] && Connected(h, k[x]) &&
      ids <= k.Keys
    requires forall i :: i in ids ==> Touches(h, p, k[i])
    ensures Connected(h, UnionOf(k, ids) + {p})
  {
    hide Component, Crosses, Touches, Connected, Relinked;
    var c := UnionOf(k, ids) + {p};
    forall s | Splits(s, c) ensures Crosses(h, s, c) {
      var y :| y in c && (y in s <==> p !in s);
      var i :| i in ids && y in k[i];
      assert Component(g, k[i]);
      assert i != x ==> k[i] !! k[x];
      RejoinedCrosses(g, h, s, c, k[i], y, p);
    }
    MeansConnected(h, c);
  }

  lemma RejoinedIsClosed(g: Graph, h: Graph, k: Clustering, ids: set<nat>, p: Vec)
    requires Relinked(g, h, p) && Partitioned(g, k) && ids <= k.Keys
    requires forall i :: i in k ==> (i in ids <==> Touches(h, p, k[i]))
    ensures Closed(h, UnionOf(k, ids) + {p}) && UnionOf(k, ids) + {p} <= g.nodes
  {
    hide Connected;
    var c := UnionOf(k, ids) + {p};
    forall u, v | u in c && (u, v) in h.links ensures v in c {
      if u == p && v != p {
        assert Covered(k, v);
        var i :| i in k && v in k[i];
        assert Touches(h, p, k[i]);
      } else if v != p {
        var i :| i in ids && u in k[i];
        assert Component(g, k[i]);
      }
    }
    forall u | u in c ensures u in g.nodes {
      if u != p {
        var i :| i in ids && u in k[i];
        assert Component(g, k[i]);
      }
    }
  }

  lemma RejoinedCrosses(g: Graph, h: Graph, s: set<Vec>, c: set<Vec>, d: set<Vec>, y: Vec, p: Vec)
    requires Relinked(g, h, p) && Component(g, d) && d <= c && p in c && Touches(h, p, d)
    requires p in d ==> Connected(h, d)
    requires y in d && (y in s <==> p !in s)
    ensures Crosses(h, s, c)
  {
    if p in d {
      var t := s * d;
      assert (if p in s then p else y) in t && (if p in s then y else p) !in t;
      assert Splits(t, d);
      var a, b :| a in t && b in d && b !in t && (a, b) in h.links;
      assert a in s && b in c && b !in s;
    } else {
      var u :| u in d && (p, u) in h.links;
      assert (u, p) in h.links;
      if u in s <==> p in s {
        CutInside(g, h, s, d, u, y);
      }
    }
  }

  lemma RejoinedPartition(g: Graph, h: Graph, k: Clustering, l: Clustering, ids: set<nat>, t: nat, p: Vec, x: nat)
    requires Relinked(g, h, p) && Partitioned(g, k) && Joined(k, l, ids, t, p) && x in k && x in ids && p in k[x]
    requires forall i :: i in k ==> (i in ids <==> Touches(h, p, k[i]))
    requires Component(h, UnionOf(k, ids) + {p})
    ensures Partitioned(h, l)
  {
    forall i | i in l && i != t && l[i] != {} ensures Component(h, l[i]) {
      OtherStays(g, h, k, ids, p, x, i);
    }
    hide Component, Touches;
    forall u | u in h.nodes ensures Covered(l, u) {
      JoinedCovers(k, l, ids, t, p, u);
    }
    forall i, j | i in l && j in l && i != j ensures l[i] !! l[j] {
      if i == t { RestApart(g, k, ids, j, p, x); } else if j == t { RestApart(g, k, ids, i, p, x); }
    }
  }

  /** A cluster without the node and without a link to it stays as it is. */
  lemma OtherStays(g: Graph, h: Graph, k: Clustering, ids: set<nat>, p: Vec, x: nat, i: nat)
    requires Relinked(g, h, p) && Partitioned(g, k) && x in k && x in ids && p in k[x]
    requires i in k && i !in ids && k[i] != {} && !Touches(h, p, k[i])
    ensures Component(h, k[i])
  {
    var d := k[i];
    assert k[i] !! k[x];
    assert Component(g, d) && p !in d;
    forall u, v | u in d && (u, v) in h.links ensures v in d {
      assert (p, u) in h.links ==> Touches(h, p, d);
    }
    SameLinksConnected(g, h, d);
  }

  lemma RestApart(g: Graph, k: Clustering, ids: set<nat>, j: nat, p: Vec, x: nat)
    requires Partitioned(g, k) && x in k && x in ids && p in k[x] && j in k && j !in ids && ids <= k.Keys
    ensures (UnionOf(k, ids) + {p}) !! k[j]
  {
    hide Component;
    forall y | y in UnionOf(k, ids) + {p} ensures y !in k[j] {
      if y != p {
        var i :| i in ids && i in k && y in k[i];
        assert k[i] !! k[j];
      } else {
        assert k[x] !! k[j];
      }
    }
  }
}
