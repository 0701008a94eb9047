/**
 What data networks that follow the world mean in terms of its parts: two parts are in one network
 exactly when one can be walked to from the other along neighbours that connect.
 */
module DataMeaning {
  import opened Grid
  import opened Graphs
  import opened Clusterings
  import opened DataNetworkLemmas
  import opened DataWorlds

  predicate IsPart(w: DataWorld, p: Vec) {
    p in w.nodes && w.nodes[p].name in w.parts
  }

  /** The parts of neighbours connect, by their kinds and colours, and let through if they are mounted. */
  ghost predicate Meet(w: DataWorld, p: Vec, q: Vec)
    requires IsPart(w, p) && IsPart(w, q)
  {
    var from, to := w.parts[w.nodes[p].name], w.parts[w.nodes[q].name];
    && (exists d, e :: Step(p, d) == q && Step(q, e) == p && Lets(w, w.nodes[p], from, d) && Lets(w, w.nodes[q], to, e))
    && match (from.kind, to.kind)
       case (Device, _) => to.kind in {Bus, MountedBus}
       case (_, Device) => from.kind in {Bus, MountedBus}
       case (_, _) => SameOrMulti(from.color, to.color)
  }

  ghost predicate Route(w: DataWorld, path: seq<Vec>) {
    && |path| > 0 && (forall k :: 0 <= k < |path| ==> IsPart(w, path[k]))
    && forall k :: 0 < k < |path| ==> Meet(w, path[k - 1], path[k])
  }

  ghost predicate RouteJoins(w: DataWorld, p: Vec, q: Vec) {
    exists path :: Route(w, path) && path[0] == p && path[|path| - 1] == q
  }

  /** The records of both name the same network. */
  predicate SameNetwork(ms: Members, p: Vec, q: Vec) {
    p in ms && q in ms && ms[p].networkId.Some? && ms[p].networkId == ms[q].networkId
  }

  lemma LinkMeans(w: DataWorld, p: Vec, q: Vec)
    requires w.Valid()
    ensures p in PartGraph(w).nodes <==> IsPart(w, p)
    ensures IsPart(w, p) && IsPart(w, q) ==> ((p, q) in PartGraph(w).links <==> Meet(w, p, q))
  {
    if IsPart(w, p) && IsPart(w, q) {
      if (p, q) in PartGraph(w).links {
        var d :| Step(p, d) == q && Connects(w, p, d);
        InvertReturns(p, d);
        ConnectsByKind(w, w.nodes[p], w.PartAt(p), d, w.nodes[q], w.PartAt(q));
        assert Meet(w, p, q);
      }
      if Meet(w, p, q) {
        var d, e :| Step(p, d) == q && Step(q, e) == p && Lets(w, w.nodes[p], w.PartAt(p), d) &&
          Lets(w, w.nodes[q], w.PartAt(q), e);
        BackIsInverse(p, q, d, e);
        ConnectsByKind(w, w.nodes[p], w.PartAt(p), d, w.nodes[q], w.PartAt(q));
        assert Connects(w, p, d);
        LinkIsConnection(w, p, d);
      }
    }
  }

  lemma BackIsInverse(p: Vec, q: Vec, d: Dir, e: Dir)
    requires Step(p, d) == q && Step(q, e) == p
    ensures e == Invert(d)
  {
    InvertReturns(p, d);
    DirToStep(q, e);
    DirToStep(q, Invert(d));
  }

  lemma RouteIsWalk(w: DataWorld, path: seq<Vec>)
    requires w.Valid()
    ensures Route(w, path) <==> Walk(PartGraph(w), path)
  {
    hide PartGraph, Meet, DataWorld.Valid;
    forall k | 0 <= k < |path| ensures path[k] in PartGraph(w).nodes <==> IsPart(w, path[k]) {
      LinkMeans(w, path[k], path[k]);
    }
    forall k | 0 < k < |path| && IsPart(w, path[k - 1]) && IsPart(w, path[k])
      ensures (path[k - 1], path[k]) in PartGraph(w).links <==> Meet(w, path[k - 1], path[k])
    {
      LinkMeans(w, path[k - 1], path[k]);
    }
  }

  lemma JoinedIsReached(w: DataWorld, p: Vec, q: Vec)
    requires w.Valid()
    ensures RouteJoins(w, p, q) <==> Reaches(PartGraph(w), p, q)
  {
    hide PartGraph, Route, Walk, DataWorld.Valid;
    forall path ensures Route(w, path) <==> Walk(PartGraph(w), path) {
      RouteIsWalk(w, path);
    }
  }

  /** A position whose network is right shares it exactly with all that it is joined to. */
  lemma NetworkIsJoined(w: DataWorld, ms: Members, nets: Networks, r: nat, p: Vec, q: Vec)
    requires w.Valid() && Agree(ms, nets) && InPlace(PartGraph(w), ms, nets, r, p)
    ensures SameNetwork(ms, p, q) <==> RouteJoins(w, p, q)
  {
    hide PartGraph, Component, DataWorld.Valid, Reaches, RouteJoins;
    PartGraphUndirected(w);
    JoinedIsReached(w, p, q);
    var i := ms[p].networkId.value;
    assert InNetwork(nets, i, q) <==> NamesNetwork(ms, i, q);
    ComponentInside(PartGraph(w), nets[i]);
    ComponentIsReachSet(PartGraph(w), nets[i], p);
  }

  lemma ComponentInside(g: Graph, c: set<Vec>)
    requires Component(g, c)
    ensures c <= g.nodes
  {
  }

  /** When all networks are right, any two positions share one exactly when they are joined. */
  lemma NetworksAreJoined(w: DataWorld, ms: Members, nets: Networks, p: Vec, q: Vec)
    requires w.Valid() && Agree(ms, nets) && Partitioned(PartGraph(w), nets)
    ensures SameNetwork(ms, p, q) <==> RouteJoins(w, p, q)
  {
    hide PartGraph, Component, DataWorld.Valid, RouteJoins;
    PartGraphUndirected(w);
    JoinedIsReached(w, p, q);
    if SameNetwork(ms, p, q) {
      var i := ms[p].networkId.value;
      assert InNetwork(nets, i, p) && (InNetwork(nets, i, q) <==> NamesNetwork(ms, i, q));
      ComponentInside(PartGraph(w), nets[i]);
      ComponentIsReachSet(PartGraph(w), nets[i], p);
    }
    if Reaches(PartGraph(w), p, q) {
      var path :| Walk(PartGraph(w), path) && path[0] == p && path[|path| - 1] == q;
      assert Covered(nets, p);
      var i :| i in nets && p in nets[i];
      ComponentInside(PartGraph(w), nets[i]);
      ComponentIsReachSet(PartGraph(w), nets[i], p);
      assert InNetwork(nets, i, p) && InNetwork(nets, i, q);
    }
  }

  lemma MeetingJoins(w: DataWorld, p: Vec, q: Vec)
    requires IsPart(w, p) && IsPart(w, q) && Meet(w, p, q)
    ensures RouteJoins(w, p, q)
  {
    hide Meet;
    assert Route(w, [p, q]);
  }

  /**
   A `multi` cable or bus is joined to every cable and bus beside it, whatever its colour, as long as
   mounted ones have the faces open that look at each other.
   */
  lemma MultiJoins(w: DataWorld, p: Vec, d: Dir)
    requires IsPart(w, p) && IsPart(w, Step(p, d))
    requires var from, to := w.parts[w.nodes[p].name], w.parts[w.nodes[Step(p, d)].name];
      && from.kind != Device && to.kind != Device && from.color == "multi"
      && Lets(w, w.nodes[p], from, d) && Lets(w, w.nodes[Step(p, d)], to, Invert(d))
    ensures Meet(w, p, Step(p, d)) && RouteJoins(w, p, Step(p, d))
  {
    hide Lets, RouteJoins;
    InvertReturns(p, d);
    MeetingJoins(w, p, Step(p, d));
  }
}
