/** Whole runs of the data network: the world changes, the network is told of it, and it updates. */
module DataRuns {
  import opened Grid
  import opened Graphs
  import opened Clusterings
  import opened Worlds
  import opened ClusterNodes
  import opened DataWorlds
  import opened DataMeaning
  import opened DataNetworkLemmas
  import opened DataNetworks

  datatype Event =
    | Placed(pos: Vec, node: Node)     // a part is placed or loaded where there was none
    | Destroyed(pos: Vec, rest: Node)  // whatever was there makes way for a node that is no part
    | Unloaded(block: Vec)
    | Tick
  {
    predicate Possible(w: DataWorld) {
      match this
      case Placed(p, node) => node.name in w.parts && !w.HasPart(p)
      case Destroyed(_, rest) => rest.name !in w.parts
      case Unloaded(_) => true
      case Tick => true
    }

    function After(w: DataWorld): DataWorld {
      match this
      case Placed(p, node) => w.(nodes := w.nodes[p := node])
      case Destroyed(p, rest) => w.(nodes := w.nodes[p := rest])
      case Unloaded(b) => w.(nodes := map p | p in w.nodes && BlockOf(p) != b :: w.nodes[p])
      case Tick => w
    }
  }

  predicate Possible(w: DataWorld, events: seq<Event>)
    decreases |events|
  {
    events == [] || (events[0].Possible(w) && Possible(events[0].After(w), events[1..]))
  }

  function AfterAll(w: DataWorld, events: seq<Event>): DataWorld
    decreases |events|
  {
    if events == [] then w else AfterAll(events[0].After(w), events[1..])
  }

  /** Any loaded nodes, parts or not, come about in some run. */
  lemma {:induction false} WorldIsReached(v: DataWorld, w: DataWorld) returns (events: seq<Event>)
    requires w.Valid() && v == w.(nodes := v.nodes) && v.nodes.Keys <= w.nodes.Keys
    requires forall p :: p in v.nodes ==> v.nodes[p] == w.nodes[p]
    ensures Possible(v, events) && AfterAll(v, events) == w
    decreases w.nodes.Keys - v.nodes.Keys
  {
    if v.nodes.Keys == w.nodes.Keys {
      assert v.nodes == w.nodes;
      events := [];
    } else {
      var p :| p in w.nodes && p !in v.nodes;
      var e := if w.nodes[p].name in w.parts then Placed(p, w.nodes[p]) else Destroyed(p, w.nodes[p]);
      assert e.After(v).nodes.Keys == v.nodes.Keys + {p};
      assert w.nodes.Keys - e.After(v).nodes.Keys == w.nodes.Keys - v.nodes.Keys - {p};
      var more := WorldIsReached(e.After(v), w);
      events := [e] + more;
      assert events[1..] == more;
    }
  }

  /** The members are the parts of the world, and the networks are accounted for. */
  ghost predicate Knows(net: DataNetwork, w: DataWorld)
    reads net
  {
    && net.Valid() && w.Valid() && net.members.Keys == PartPositions(w)
    && Accounted(PartGraph(w), net.networks, Pending(net.queued))
  }

  lemma PartOf(w: DataWorld, p: Vec)
    requires w.Valid()
    ensures p in PartPositions(w) <==> w.HasPart(p)
  {
  }

  lemma PlacedIsAccounted(w: DataWorld, e: Event, ms: Members, nets: Networks, waiting: set<Vec>)
    requires e.Placed? && e.Possible(w) && w.Valid() && Agree(ms, nets) && ms.Keys == PartPositions(w) &&
      Accounted(PartGraph(w), nets, waiting)
    ensures e.After(w).Valid() && PartPositions(e.After(w)) == PartPositions(w) + {e.pos} && e.pos !in ms
    ensures Accounted(PartGraph(e.After(w)), nets, waiting + Beside(e.pos, DIRS))
  {
    hide PartGraph, Accounted, Beside;
    var v := e.After(w);
    TakeOutNothing(nets, ms);
    PartOf(w, e.pos);
    forall i ensures !InNetwork(nets, i, e.pos) {
      assert InNetwork(nets, i, e.pos) <==> NamesNetwork(ms, i, e.pos);
    }
    ChangeIsAccounted(w, v, {e.pos}, nets, {}, waiting, waiting + Beside(e.pos, DIRS));
  }

  lemma DestroyedIsAccounted(w: DataWorld, e: Event, nets: Networks, waiting: set<Vec>)
    requires e.Destroyed? && e.Possible(w) && w.Valid() && Accounted(PartGraph(w), nets, waiting)
    ensures e.After(w).Valid() && PartPositions(e.After(w)) == PartPositions(w) - {e.pos}
    ensures Accounted(PartGraph(e.After(w)), TakeOut(nets, {e.pos}), waiting + Beside(e.pos, DIRS))
  {
    hide PartGraph, Accounted, Beside, TakeOut;
    forall i ensures !InNetwork(TakeOut(nets, {e.pos}), i, e.pos) {
      TakenOut(nets, {e.pos}, i, e.pos);
    }
    ChangeIsAccounted(w, e.After(w), {e.pos}, nets, {e.pos}, waiting, waiting + Beside(e.pos, DIRS));
  }

  lemma UnloadedIsAccounted(w: DataWorld, e: Event, nets: Networks, waiting: set<Vec>, out: set<Vec>)
    requires e.Unloaded? && w.Valid() && Accounted(PartGraph(w), nets, waiting)
    requires out == set p | p in PartPositions(w) && BlockOf(p) == e.block
    ensures e.After(w).Valid() && PartPositions(e.After(w)) == PartPositions(w) - out
    ensures Accounted(PartGraph(e.After(w)), TakeOut(nets, out), waiting + AllBeside(out))
  {
    hide PartGraph, Accounted, Beside, TakeOut;
    var v := e.After(w);
    forall p | p !in out ensures SamePart(w, v, p) {
      PartOf(w, p);
    }
    forall i, p | p in out ensures !InNetwork(TakeOut(nets, out), i, p) {
      TakenOut(nets, out, i, p);
    }
    ChangeIsAccounted(w, v, out, nets, out, waiting, waiting + AllBeside(out));
  }

  lemma ExactIsAccounted(g: Graph, nets: Networks, ms: Members)
    requires Partitioned(g, nets) && Agree(ms, nets)
    ensures Accounted(g, nets, {})
  {
    forall d | Component(g, d) ensures d in nets.Values {
      var p :| p in d;
      assert Covered(nets, p);
      var i :| i in nets && p in nets[i];
      ComponentUnique(g, d, nets[i], p);
    }
  }

  /** One event, of which the network is told. */
  method Handle(net: DataNetwork, w: DataWorld, e: Event) returns (after: DataWorld)
    requires Knows(net, w) && e.Possible(w)
    modifies net
    ensures after == e.After(w) && Knows(net, after)
    ensures e.Tick? ==> Partitioned(PartGraph(after), net.networks)
  {
    hide PartGraph, Accounted, Agree, BlocksMirror, Pending, Beside, AllBeside, TakeOut, Partitioned;
    after := e.After(w);
    match e
    case Placed(p, node) => {
      PlacedIsAccounted(w, e, net.members, net.networks, Pending(net.queued));
      PendingGrows(net.queued, p);
      var ok := net.AddNode(after, p, node);
    }
    case Destroyed(p, _) => {
      DestroyedIsAccounted(w, e, net.networks, Pending(net.queued));
      PendingGrows(net.queued, p);
      net.RemoveNode(p);
    }
    case Unloaded(b) => {
      UnloadedIsAccounted(w, e, net.networks, Pending(net.queued), set p | p in net.members && BlockOf(p) == b);
      net.UnloadBlock(b);
    }
    case Tick => {
      net.Update(w);
      NothingPending();
      ExactIsAccounted(PartGraph(w), net.networks, net.members);
    }
  }

  lemma KnowsAgrees(net: DataNetwork, w: DataWorld)
    requires Knows(net, w)
    ensures w.Valid() && Agree(net.members, net.networks)
  {
  }

  /**
   Whatever happens to the world, in any order and with updates at any time: after an update the
   networks are exactly the components of the parts that are connected now.
   */
  method RunAll(net: DataNetwork, start: DataWorld, events: seq<Event>) returns (w: DataWorld)
    requires Knows(net, start) && Possible(start, events)
    modifies net
    ensures w == AfterAll(start, events) && Knows(net, w)
    ensures events != [] && events[|events| - 1].Tick? ==> Partitioned(PartGraph(w), net.networks)
    ensures events != [] && events[|events| - 1].Tick? ==> forall p, q :: SameNetwork(net.members, p, q) <==>
      RouteJoins(w, p, q)
  {
    hide Knows, PartGraph, Partitioned, RouteJoins, SameNetwork;
    w := start;
    assert events[0..] == events;
    for i := 0 to |events|
      invariant Knows(net, w) && Possible(w, events[i..]) && AfterAll(w, events[i..]) == AfterAll(start, events)
      invariant i > 0 && events[i - 1].Tick? ==> Partitioned(PartGraph(w), net.networks)
    {
      assert events[i..][1..] == events[i + 1..];
      w := Handle(net, w, events[i]);
    }
    if events != [] && events[|events| - 1].Tick? {
      forall p, q ensures SameNetwork(net.members, p, q) <==> RouteJoins(w, p, q) {
        KnowsAgrees(net, w);
        NetworksAreJoined(w, net.members, net.networks, p, q);
      }
    }
  }
}
