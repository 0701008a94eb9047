/** One data network: how its sub-networks are built once its members are known. */
module NetworkRecords {
  import opened Basics
  import opened Grid
  import opened Graphs
  import opened DataNetworkLemmas
  import opened DataWorlds
  import opened Floods
  import opened SubNetworks

  /** The colours that the sides of devices got are those of the buses they look at. */
  predicate TrueColors(w: DataWorld, colors: map<Side, string>) {
    forall s: Side :: s in colors ==> IsBusAt(w, Step(s.0, s.1)) && colors[s] == w.PartAt(Step(s.0, s.1)).color
  }

  class Network {
    const world: DataWorld               // as it was when the members were copied from it
    const outward: (int, Dir) -> Dir     // `facedir_to_face`
    const members: set<Vec>

    var subNetworks: Subs
    var subNetworkOf: map<Vec, nat>      // `sub_network_id` of cables and buses
    var colors: map<Side, string>        // `attached_colors_by_dir` of devices
    var subNetworkAt: map<Side, nat>     // `sub_network_ids` of devices

    /** The members were found in the world, where they are parts. */
    predicate Proper() {
      world.Valid() && forall p :: p in members ==> world.HasPart(p)
    }

    ghost predicate Branches()
      reads this
    {
      AreBranches(world, members, subNetworks, subNetworkOf)
    }

    ghost predicate Attached()
      reads this
    {
      TrueColors(world, colors) && AreAttached(world, outward, members, State())
    }

    constructor (world: DataWorld, outward: (int, Dir) -> Dir, members: set<Vec>)
      ensures this.world == world && this.outward == outward && this.members == members
      ensures subNetworks == map[] && subNetworkOf == map[] && colors == map[] && subNetworkAt == map[]
    {
      this.world, this.outward, this.members := world, outward, members;
      subNetworks, subNetworkOf, colors, subNetworkAt := map[], map[], map[], map[];
    }

    /** The connected members next to a cable or bus, in any order of the directions. */
    method ExploreNeighbours(pos: Vec, explore: seq<Vec>) returns (next: seq<Vec>, ghost more: set<Vec>)
      requires Proper() && pos in CableGraph(world, members).nodes
      ensures ListSet(next) == ListSet(explore) + more && Lists(CableGraph(world, members), pos, more)
      ensures more <= members
    {
      hide CableGraph, CanConnect, ListSet;
      IsMember(pos);
      next, more := explore, {};
      var todo := DIRS;
      while todo != {}
        invariant todo <= DIRS && more <= members
        invariant ListSet(next) == ListSet(explore) + more
        invariant forall d ::
          d in DIRS - todo ==> (Step(pos, d) in members && Connects(world, pos, d) ==> Step(pos, d) in more)
        invariant forall u :: u in more ==> exists d :: Step(pos, d) == u && Connects(world, pos, d)
        decreases todo
      {
        var d :| d in todo;
        var other := Step(pos, d);
        if other in members {
          if CanConnect(world, world.GetNode(pos), world.PartAt(pos), d, world.GetNode(other), world.PartAt(other)) {
            ListAppends(next, other);
            assert ListSet(explore) + more + {other} == ListSet(explore) + (more + {other});
            next := next + [other];
            more := more + {other};
          }
        }
        todo := todo - {d};
      }
      CableNeighbours(world, members, pos, more);
    }

    lemma IsMember(pos: Vec)
      requires pos in CableGraph(world, members).nodes
      ensures pos in members && world.HasPart(pos)
    {
    }

    method ExploreList(ghost origin: Vec, list: seq<Vec>, nodes0: set<Vec>, seen0: set<Vec>)
      returns (nodes: set<Vec>, explore: seq<Vec>, seen: set<Vec>)
      requires Proper() && Flood(CableGraph(world, members), origin, nodes0, seen0).Invariant(ListSet(list))
      ensures Flood(CableGraph(world, members), origin, nodes, seen).Invariant(ListSet(explore))
      ensures seen0 <= seen <= seen0 + ListSet(list) && (seen == seen0 ==> explore == [])
      ensures ListSet(explore) <= members
    {
      hide CableGraph, Flood.Invariant, Lists;
      ghost var g := CableGraph(world, members);
      nodes, explore, seen := nodes0, [], seen0;
      assert list[0..] == list && ListSet(list) + ListSet([]) == ListSet(list);
      for i := 0 to |list|
        invariant Flood(g, origin, nodes, seen).Invariant(ListSet(list[i..]) + ListSet(explore))
        invariant seen0 <= seen <= seen0 + ListSet(list) && (seen == seen0 ==> explore == [])
        invariant ListSet(explore) <= members
      {
        var pos := list[i];
        ListSplits(list, i);
        ghost var pending := ListSet(list[i..]) + ListSet(explore);
        ghost var f := Flood(g, origin, nodes, seen);
        if pos !in seen {
          seen := seen + {pos};
          ghost var more: set<Vec> := {};
          CableMember(pos);
          if pos in members && world.PartAt(pos).kind != Device {
            nodes := nodes + {pos};
            explore, more := ExploreNeighbours(pos, explore);
          }
          FloodVisits(f, pending, pos, more);
          FloodIgnores(f.Visit(pos), pending - {pos} + more, pos, ListSet(list[i + 1..]) + ListSet(explore));
        } else {
          FloodIgnores(f, pending, pos, ListSet(list[i + 1..]) + ListSet(explore));
        }
      }
      ListOfNone();
      assert list[|list|..] == [] && ListSet([]) + ListSet(explore) == ListSet(explore);
    }

    lemma CableMember(pos: Vec)
      requires Proper()
      ensures pos in CableGraph(world, members).nodes <==> pos in members && world.PartAt(pos).kind != Device
    {
    }

    /** The cables and buses connected to a position without passing a device. */
    method ExploreNodesFromPosition(origin: Vec) returns (nodes: set<Vec>)
      requires Proper() && origin in members
      ensures Flood(CableGraph(world, members), origin, nodes, {}).Done()
    {
      hide CableGraph, Flood.Invariant, Flood.Done, Lists, ListSet;
      ghost var g := CableGraph(world, members);
      CableGraphUndirected(world, members);
      FloodBegins(g, origin);
      nodes := {};
      var seen: set<Vec> := {};
      var explore := [origin];
      ListOfOne(origin);
      while explore != []
        invariant Flood(g, origin, nodes, seen).Invariant(ListSet(explore))
        invariant seen <= members && ListSet(explore) <= members
        decreases members - seen, explore != []
      {
        nodes, explore, seen := ExploreList(origin, explore, nodes, seen);
      }
      ListOfNone();
      FloodEnds(Flood(g, origin, nodes, seen));
      SeenIsIrrelevant(g, origin, nodes, seen);
    }

    function State(): Attachments
      reads this`subNetworks, this`colors, this`subNetworkAt
    {
      Attachments(subNetworks, colors.Keys, subNetworkAt)
    }

    /** The device in a direction of a bus, if there is one, joins the bus's sub-network. */
    method AttachDevice(id: nat, bus: Vec, d: Dir)
      requires Proper() && id in subNetworks && IsBusAt(world, bus) && TrueColors(world, colors)
      modifies this`subNetworks, this`colors, this`subNetworkAt
      ensures TrueColors(world, colors) && old(State()).Became(id, Seen(world, members, bus, {d}), State())
    {
      hide Seen, Attachments.Became;
      OneSeen(world, members, bus, d);
      var other := Step(bus, d);
      if other in members && world.PartAt(other).kind == Device {
        var sub := subNetworks[id];
        subNetworks := subNetworks[id := sub.(devices := sub.devices + {other})];
        var side := (other, Invert(d));
        InvertReturns(bus, d);
        colors := colors[side := world.PartAt(bus).color];
        subNetworkAt := subNetworkAt[side := id];
        OneAttached(old(State()), id, side, State());
      } else {
        NothingAttached(State(), id);
      }
    }

    method AttachAllSides(id: nat, bus: Vec)
      requires Proper() && id in subNetworks && IsBusAt(world, bus) && TrueColors(world, colors)
      modifies this`subNetworks, this`colors, this`subNetworkAt
      ensures TrueColors(world, colors) && old(State()).Became(id, Seen(world, members, bus, DIRS), State())
    {
      hide TrueColors, Seen, Attachments.Became;
      SeenNothing(world, members, bus);
      NothingAttached(State(), id);
      var todo := DIRS;
      ghost var done: set<Dir> := {};
      while todo != {}
        invariant todo + done == DIRS && TrueColors(world, colors)
        invariant id in subNetworks && old(State()).Became(id, Seen(world, members, bus, done), State())
        decreases todo
      {
        var d :| d in todo;
        ghost var before := State();
        SeenMore(world, members, bus, done, d);
        AttachDevice(id, bus, d);
        MoreAttached(old(State()), id, Seen(world, members, bus, done), before, Seen(world, members, bus, {d}),
          State());
        KeepsId(before, id, Seen(world, members, bus, {d}), State());
        todo, done := todo - {d}, done + {d};
      }
      assert done == DIRS;
    }

    /** A mounted bus looks through the faces that its definition lists as accessible. */
    method AttachFaces(id: nat, bus: Vec)
      requires Proper() && id in subNetworks && IsBusAt(world, bus) && TrueColors(world, colors)
      modifies this`subNetworks, this`colors, this`subNetworkAt
      ensures TrueColors(world, colors)
      ensures old(State()).Became(id,
        Seen(world, members, bus, Outward(world, outward, bus, world.PartAt(bus).accessible.Keys)), State())
    {
      hide TrueColors, Seen, Attachments.Became, Outward;
      SeenNothing(world, members, bus);
      NothingAttached(State(), id);
      var todo := world.PartAt(bus).accessible.Keys;
      ghost var done: set<Dir>, way: set<Dir> := {}, {};
      OutwardMore(world, outward, bus, {}, North);
      while todo != {}
        invariant todo + done == world.PartAt(bus).accessible.Keys && TrueColors(world, colors)
        invariant way == Outward(world, outward, bus, done)
        invariant id in subNetworks && old(State()).Became(id, Seen(world, members, bus, way), State())
        decreases todo
      {
        var face :| face in todo;
        var d := outward(world.GetNode(bus).param2, face);
        ghost var before := State();
        OutwardMore(world, outward, bus, done, face);
        SeenMore(world, members, bus, way, d);
        AttachDevice(id, bus, d);
        MoreAttached(old(State()), id, Seen(world, members, bus, way), before, Seen(world, members, bus, {d}), State());
        KeepsId(before, id, Seen(world, members, bus, {d}), State());
        todo, done, way := todo - {face}, done + {face}, way + {d};
      }
      assert done == world.PartAt(bus).accessible.Keys;
    }

    /** A bus takes the devices it looks at into its sub-network; a cable takes none. */
    method AttachDevices(id: nat, cable: Vec)
      requires Proper() && id in subNetworks && cable in members && TrueColors(world, colors)
      modifies this`subNetworks, this`colors, this`subNetworkAt
      ensures TrueColors(world, colors)
      ensures old(State()).Became(id, Seen(world, members, cable, Looks(world, outward, cable)), State())
    {
      hide TrueColors, Seen, Attachments.Became;
      SeenNothing(world, members, cable);
      NothingAttached(State(), id);
      if world.PartAt(cable).kind == Bus {
        AttachAllSides(id, cable);
      } else if world.PartAt(cable).kind == MountedBus {
        AttachFaces(id, cable);
      }
    }

    /** The cables of a sub-network get its id, and its buses bring in their devices. */
    method PopulateSubNetwork(id: nat)
      requires Proper() && id in subNetworks && subNetworks[id].cables <= members && TrueColors(world, colors)
      modifies this`subNetworks, this`subNetworkOf, this`colors, this`subNetworkAt
      ensures TrueColors(world, colors)
      ensures old(State()).Became(id, SidesOn(world, outward, members, old(subNetworks)[id].cables), State())
      ensures subNetworkOf == old(subNetworkOf) + Named(old(subNetworks)[id].cables, id)
    {
      hide TrueColors, Seen, Attachments.Became, SidesOn, Looks, Named;
      NamedMore(subNetworkOf, {}, Vec(0, 0, 0), id);
      NoSides(world, outward, members);
      NothingAttached(State(), id);
      var todo := subNetworks[id].cables;
      ghost var done: set<Vec> := {};
      while todo != {}
        invariant todo + done == old(subNetworks)[id].cables && TrueColors(world, colors)
        invariant subNetworkOf == old(subNetworkOf) + Named(done, id)
        invariant id in subNetworks && old(State()).Became(id, SidesOn(world, outward, members, done), State())
        decreases todo
      {
        var cable :| cable in todo;
        ghost var before, seen := State(), Seen(world, members, cable, Looks(world, outward, cable));
        NamedMore(old(subNetworkOf), done, cable, id);
        subNetworkOf := subNetworkOf[cable := id];
        SidesMore(world, outward, members, done, cable);
        AttachDevices(id, cable);
        MoreAttached(old(State()), id, SidesOn(world, outward, members, done), before, seen, State());
        KeepsId(before, id, seen, State());
        todo, done := todo - {cable}, done + {cable};
      }
      assert done == old(subNetworks)[id].cables;
    }

    lemma KeepsId(a: Attachments, id: nat, sides: set<Side>, b: Attachments)
      requires a.Became(id, sides, b)
      ensures id in b.subs
    {
    }

    lemma BranchOf(origin: Vec, nodes: set<Vec>)
      requires Proper() && origin in members && IsBusAt(world, origin)
      requires Flood(CableGraph(world, members), origin, nodes, {}).Done()
      ensures Component(CableGraph(world, members), nodes) && origin in nodes && nodes <= members
    {
      IsCableNode(world, members, origin);
    }

    /** The sub-network that a bus is in, when it is in none yet. */
    method BuildSubNetwork(origin: Vec)
      requires Proper() && Branches() && Attached() && origin in members && IsBusAt(world, origin) &&
        origin !in subNetworkOf
      modifies this`subNetworks, this`subNetworkOf, this`colors, this`subNetworkAt
      ensures Branches() && Attached() && subNetworkOf.Keys >= old(subNetworkOf).Keys + {origin}
    {
      hide CableGraph, Component, AreBranches, AreAttached, TrueColors, SidesOn, Attachments.Became, CablesOf;
      var nodes := ExploreNodesFromPosition(origin);
      BranchOf(origin, nodes);
      FreshId(subNetworks);
      var id: nat :| id !in subNetworks;
      BranchAdds(world, members, subNetworks, subNetworkOf, id, SubNetwork(nodes, {}), origin);
      NotListed(world, members, subNetworks, subNetworkOf, nodes);
      ghost var before := State();
      subNetworks := subNetworks[id := SubNetwork(nodes, {})];
      PopulateSubNetwork(id);
      NewBranchAttaches(world, outward, members, before, id, nodes, State());
      DevicesIrrelevant(world, members, before.(subs := before.subs[id := SubNetwork(nodes, {})]), id,
        SidesOn(world, outward, members, nodes), State(), subNetworkOf);
    }

    /** Every bus that is in no sub-network yet gets one, in any order of the members. */
    method BuildSubNetworks()
      requires Proper() && Branches() && Attached() && subNetworkOf == map[]
      modifies this`subNetworks, this`subNetworkOf, this`colors, this`subNetworkAt
      ensures Branches() && Attached() && EveryBus(world, members, subNetworkOf)
    {
      hide AreBranches, AreAttached, TrueColors;
      var todo := members;
      while todo != {}
        invariant todo <= members && Branches() && Attached() && EveryBus(world, members - todo, subNetworkOf)
        decreases todo
      {
        var p :| p in todo;
        if IsBus(world.PartAt(p).kind) {
          if p !in subNetworkOf {
            BuildSubNetwork(p);
          }
        }
        todo := todo - {p};
      }
    }

    predicate BusBeside(p: Vec, d: Dir) {
      Step(p, d) in members && IsBusAt(world, Step(p, d))
    }

    /** A device gets the colour of one bus beside it on that side, in any order of the directions. */
    method ColorDevice(p: Vec)
      requires Proper() && p in members && TrueColors(world, colors)
      modifies this`colors
      ensures TrueColors(world, colors)
      ensures (exists d :: BusBeside(p, d)) ==>
        exists d :: BusBeside(p, d) && colors == old(colors)[(p, d) := world.PartAt(Step(p, d)).color]
      ensures (forall d :: !BusBeside(p, d)) ==> colors == old(colors)
    {
      var todo := DIRS;
      while todo != {}
        invariant todo <= DIRS && colors == old(colors) && forall d :: d in DIRS - todo ==> !BusBeside(p, d)
        decreases todo
      {
        var d :| d in todo;
        var other := Step(p, d);
        if other in members && IsBus(world.PartAt(other).kind) {
          assert BusBeside(p, d);
          colors := colors[(p, d) := world.PartAt(other).color];
          return;
        }
        todo := todo - {d};
      }
      forall d ensures !BusBeside(p, d) {
        AllDirs(d);
      }
    }

    /**
     What a refresh makes of its new members: the sub-networks are the connected cables and buses,
     one for every bus, and the devices are attached to exactly the buses they look at.
     */
    method Build()
      requires Proper() && subNetworks == map[] && subNetworkOf == map[] && colors == map[] && subNetworkAt == map[]
      modifies this`subNetworks, this`subNetworkOf, this`colors, this`subNetworkAt
      ensures Branches() && Attached() && EveryBus(world, members, subNetworkOf)
    {
      NothingBuilt(world, outward, members);
      var todo := members;
      while todo != {}
        invariant todo <= members && TrueColors(world, colors)
        decreases todo
        modifies this`colors
      {
        var p :| p in todo;
        if world.PartAt(p).kind == Device {
          ColorDevice(p);
        }
        todo := todo - {p};
      }
      BuildSubNetworks();
    }
  }
}
