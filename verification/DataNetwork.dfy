/**
 The data network: members, and networks that are rebuilt from the world around positions queued
 for a refresh.
 */
module DataNetworks {
  import opened Basics
  import opened Grid
  import opened Worlds
  import opened Buckets
  import opened ClusterNodes
  import opened DataNetworkLemmas
  import opened DataWorlds
  import opened DataMeaning
  import opened Floods
  import opened Clusterings

  class DataNetwork {
    var queued: map<Vec, bool>  // a position and whether its refresh was cancelled
    var networks: Networks
    var members: Members
    var blockMembers: Index<Vec, Vec, bool>
    var resolutionId: nat

    /** The connected neighbours of a part, in any order of the directions. */
    method CheckNeighbours(w: DataWorld, pos: Vec, toCheck: seq<Vec>) returns (next: seq<Vec>, ghost more: set<Vec>)
      requires w.Valid() && w.HasPart(pos)
      ensures ListSet(next) == ListSet(toCheck) + more && Lists(PartGraph(w), pos, more)
      ensures more <= PartGraph(w).nodes
    {
      hide PartGraph, CanConnect, ListSet;
      next, more := toCheck, {};
      var todo := DIRS;
      while todo != {}
        invariant todo <= DIRS
        invariant ListSet(next) == ListSet(toCheck) + more
        invariant forall d :: d in DIRS - todo ==> (Connects(w, pos, d) ==> Step(pos, d) in more)
        invariant forall u :: u in more ==> exists d :: Step(pos, d) == u && Connects(w, pos, d)
        decreases todo
      {
        var d :| d in todo;
        var other := Step(pos, d);
        if w.HasPart(other) {
          if CanConnect(w, w.GetNode(pos), w.PartAt(pos), d, w.GetNode(other), w.PartAt(other)) {
            ListAppends(next, other);
            assert ListSet(toCheck) + more + {other} == ListSet(toCheck) + (more + {other});
            next := next + [other];
            more := more + {other};
          }
        }
        todo := todo - {d};
      }
      NeighboursAreLinks(w, pos, more);
    }

    /** The parts that are connected to a position, by breadth-first search of the world. */
    method Explore(w: DataWorld, basePos: Vec) returns (found: set<Vec>)
      requires w.Valid()
      ensures Flood(PartGraph(w), basePos, found, {}).Done()
    {
      hide PartGraph, Flood.Invariant, Flood.Done, Lists, ListSet;
      ghost var g := PartGraph(w);
      PartGraphUndirected(w);
      FloodBegins(g, basePos);
      found := {};
      var seen: set<Vec> := {};
      var toCheck := [basePos];
      ListOfOne(basePos);
      while toCheck != []
        invariant Flood(g, basePos, found, seen).Invariant(ListSet(toCheck))
        invariant seen <= g.nodes + {basePos} && ListSet(toCheck) <= g.nodes + {basePos}
        decreases g.nodes + {basePos} - seen, toCheck != []
      {
        found, toCheck, seen := ExploreList(w, basePos, toCheck, found, seen);
      }
      ListOfNone();
      FloodEnds(Flood(g, basePos, found, seen));
      SeenIsIrrelevant(g, basePos, found, seen);
    }

    method ExploreList(w: DataWorld, ghost basePos: Vec, list: seq<Vec>, found0: set<Vec>, seen0: set<Vec>)
      returns (found: set<Vec>, toCheck: seq<Vec>, seen: set<Vec>)
      requires w.Valid() && Flood(PartGraph(w), basePos, found0, seen0).Invariant(ListSet(list))
      requires ListSet(list) <= PartGraph(w).nodes + {basePos}
      ensures Flood(PartGraph(w), basePos, found, seen).Invariant(ListSet(toCheck))
      ensures seen0 <= seen <= seen0 + ListSet(list) && (seen == seen0 ==> toCheck == [])
      ensures ListSet(toCheck) <= PartGraph(w).nodes
    {
      hide PartGraph, Flood.Invariant, Lists;
      ghost var g := PartGraph(w);
      found, toCheck, seen := found0, [], seen0;
      assert list[0..] == list && ListSet(list) + ListSet([]) == ListSet(list);
      for i := 0 to |list|
        invariant Flood(g, basePos, found, seen).Invariant(ListSet(list[i..]) + ListSet(toCheck))
        invariant seen0 <= seen <= seen0 + ListSet(list) && (seen == seen0 ==> toCheck == [])
        invariant ListSet(toCheck) <= g.nodes
      {
        var pos := list[i];
        ListSplits(list, i);
        ghost var pending := ListSet(list[i..]) + ListSet(toCheck);
        ghost var f := Flood(g, basePos, found, seen);
        if pos !in seen {
          seen := seen + {pos};
          ghost var more: set<Vec> := {};
          if w.HasPart(pos) {
            found := found + {pos};
            toCheck, more := CheckNeighbours(w, pos, toCheck);
          }
          PartIsNode(w, pos);
          FloodVisits(f, pending, pos, more);
          FloodIgnores(f.Visit(pos), pending - {pos} + more, pos, ListSet(list[i + 1..]) + ListSet(toCheck));
        } else {
          FloodIgnores(f, pending, pos, ListSet(list[i + 1..]) + ListSet(toCheck));
        }
      }
      ListOfNone();
      assert list[|list|..] == [] && ListSet([]) + ListSet(toCheck) == ListSet(toCheck);
    }

    /* The registry of members and networks. */

    ghost predicate Valid()
      reads this
    {
      && Agree(members, networks) && BlocksMirror(members.Keys, blockMembers)
      && (forall p :: p in members && members[p].resolutionId.Some? ==> members[p].resolutionId.value <= resolutionId)
    }

    constructor ()
      ensures Valid() && members == map[] && networks == map[] && queued == map[]
    {
      queued, networks, members, blockMembers, resolutionId := map[], map[], map[], map[], 0;
    }

    /** The position and its six neighbours are to be refreshed. */
    method QueueRefresh(basePos: Vec)
      modifies this`queued
      ensures queued == old(queued) + Around(basePos)
    {
      hide Waits, Beside;
      BesideNone(old(queued), basePos);
      queued := queued[basePos := false];
      var todo := DIRS;
      ghost var done: set<Dir> := {};
      while todo != {}
        invariant todo + done == DIRS
        invariant queued == old(queued) + Waits(Beside(basePos, done))
        decreases todo
      {
        var d :| d in todo;
        AroundMore(old(queued), basePos, done, d);
        queued := queued[Step(basePos, d) := false];
        todo, done := todo - {d}, done + {d};
      }
    }

    /** A network that loses its last member is unregistered. */
    method UnregisterFromNetworks(id: nat, pos: Vec)
      modifies this`networks
      ensures networks == Withdraw(old(networks), id, pos)
    {
      if id in networks {
        if pos in networks[id] {
          networks := networks[id := networks[id] - {pos}];
          if networks[id] == {} {
            networks := networks - {id};
          }
        }
      }
    }

    method InternalRemoveNode(pos: Vec)
      modifies this`members, this`networks, this`blockMembers
      ensures members == old(members) - {pos}
      ensures networks == if pos in old(members) && old(members)[pos].networkId.Some?
                          then Withdraw(old(networks), old(members)[pos].networkId.value, pos) else old(networks)
      ensures blockMembers == if pos in old(members) then Drop(old(blockMembers), BlockOf(pos), pos)
        else old(blockMembers)
    {
      if pos in members {
        var entry := members[pos];
        blockMembers := Drop(blockMembers, BlockOf(pos), pos);
        if entry.networkId.Some? {
          UnregisterFromNetworks(entry.networkId.value, pos);
        }
        members := members - {pos};
      } else {
        assert members - {pos} == members;
      }
    }

    method AddNode(w: DataWorld, pos: Vec, node: Node) returns (ok: bool)
      requires Valid()
      modifies this`members, this`blockMembers, this`queued
      ensures Valid() && (ok <==> pos !in old(members) && node.name in w.parts)
      ensures members == if ok then old(members)[pos := Member(pos, node, None, None, None)] else old(members)
      ensures queued == if ok then old(queued) + Around(pos) else old(queued)
    {
      if pos in members || node.name !in w.parts {
        return false;
      }
      PutLists(blockMembers, BlockOf(pos), pos, true);
      blockMembers := Put(blockMembers, BlockOf(pos), pos, true);
      members := members[pos := Member(pos, node, None, None, None)];
      QueueRefresh(pos);
      NewMemberAgrees(old(members), networks, pos, node);
      return true;
    }

    method RemoveNode(pos: Vec)
      requires Agree(members, networks)
      modifies this`members, this`networks, this`blockMembers, this`queued
      ensures Agree(members, networks) && (old(Valid()) ==> Valid())
      ensures members == old(members) - {pos} && networks == TakeOut(old(networks), {pos})
      ensures blockMembers == if pos in old(members) then Drop(old(blockMembers), BlockOf(pos), pos)
        else old(blockMembers)
      ensures queued == old(queued) + Around(pos)
    {
      hide Agree, BlocksMirror;
      TakeOutNothing(networks, members);
      TakeOutNext(members, networks, {}, pos);
      InternalRemoveNode(pos);
      QueueRefresh(pos);
      if BlocksMirror(old(members).Keys, old(blockMembers)) {
        DroppedMirror(old(members).Keys, old(blockMembers), pos, blockMembers);
      }
      TakeOutAgrees(old(members), old(networks), {pos});
      assert {} + {pos} == {pos};
    }

    /** The members of a block leave, and they and their neighbours are to be refreshed. */
    method UnloadBlock(block: Vec)
      requires Valid()
      modifies this`members, this`networks, this`blockMembers, this`queued
      ensures Valid()
      ensures var out := set p | p in old(members) && BlockOf(p) == block;
        && members == old(members) - out && networks == TakeOut(old(networks), out)
        && Pending(queued) == Pending(old(queued)) + AllBeside(out)
    {
      hide Agree, BlocksMirror, Pending, AllBeside, TakeOut;
      ghost var out := set p | p in members && BlockOf(p) == block;
      BlockIsBucket(members.Keys, blockMembers, block, out);
      if block in blockMembers {
        var ids := blockMembers[block].Keys;
        blockMembers := blockMembers - {block};
        BlockGone(members.Keys, old(blockMembers), block);
        RemoveAll(ids, block);
        assert members.Keys == (set p | p in old(members).Keys && BlockOf(p) != block);
      } else {
        assert Bucket(blockMembers, block).Keys == {};
        assert out == {};
        TakeOutNothing(networks, members);
        NothingBeside();
        assert members - {} == members;
      }
    }

    /** Every listed member is removed; the bucket of their block is gone already. */
    method RemoveAll(ids: set<Vec>, ghost block: Vec)
      requires Agree(members, networks) && block !in blockMembers
      requires forall p :: p in ids ==> p in members && BlockOf(p) == block
      modifies this`members, this`networks, this`blockMembers, this`queued
      ensures Agree(members, networks) && blockMembers == old(blockMembers)
      ensures members == old(members) - ids && networks == TakeOut(old(networks), ids)
      ensures Pending(queued) == Pending(old(queued)) + AllBeside(ids)
    {
      hide Agree, BlocksMirror, Pending, AllBeside, TakeOut;
      var todo := ids;
      ghost var done: set<Vec> := {};
      TakeOutNothing(networks, members);
      NothingBeside();
      assert members - {} == members;
      while todo != {}
        invariant todo + done == ids && todo * done == {} && blockMembers == old(blockMembers) &&
          Agree(members, networks)
        invariant members == old(members) - done && networks == TakeOut(old(networks), done)
        invariant Pending(queued) == Pending(old(queued)) + AllBeside(done)
        decreases todo
      {
        var p :| p in todo;
        TakeOutMore(old(networks), done, p);
        AgreePosition(members, networks, p);
        PendingGrows(queued, p);
        BesideMore(done, p);
        RemoveNode(members[p].pos);
        todo, done := todo - {p}, done + {p};
      }
    }

    /**
     The network of a position is built anew from the world: all it is connected to leave their
     networks and become the members of one new network. A position that was reached since the
     last update started is left alone.
     */
    method RefreshFromPos(w: DataWorld, basePos: Vec)
      requires Valid() && w.Valid()
      modifies this`members, this`networks, this`blockMembers
      ensures Valid()
      ensures if Resolved(old(members), resolutionId, basePos)
              then members == old(members) && networks == old(networks)
              else exists found, id ::
                Flood(PartGraph(w), basePos, found, {}).Done() &&
                  Rebuilds(w, old(members), old(networks), found, id, resolutionId, members, networks)
    {
      hide Agree, Flood.Done, PartGraph, Made, TakeOut, BlocksMirror;
      if basePos in members && members[basePos].resolutionId == Some(resolutionId) {
        return;
      }
      var found := Explore(w, basePos);
      FreshId(networks);
      var id: nat :| id !in networks;
      FoundAreParts(w, basePos, found);
      var network := TakeOver(w, found, id);
      RebuildAgrees(w, old(members), old(networks), found, id, resolutionId);
      if network != {} {
        networks := networks[id := network];
      }
      MadeAreResolved(w, old(members), found, id, resolutionId);
      assert Rebuilds(w, old(members), old(networks), found, id, resolutionId, members, networks);
    }

    /** The found positions leave their networks and get the records of members of the new one. */
    method TakeOver(w: DataWorld, found: set<Vec>, id: nat) returns (network: set<Vec>)
      requires Agree(members, networks) && BlocksMirror(members.Keys, blockMembers)
      requires forall p :: p in found ==> w.HasPart(p)
      modifies this`members, this`networks, this`blockMembers
      ensures network == found && networks == TakeOut(old(networks), found)
      ensures members == (old(members) - found) + Made(w, found, id, resolutionId)
      ensures BlocksMirror(members.Keys, blockMembers)
    {
      hide Agree, Made, TakeOut, BlocksMirror, Withdraw;
      network := {};
      TakeOutNothing(networks, members);
      NothingMade(w, members, id, resolutionId);
      var todo := found;
      assert found - todo == {};
      while todo != {}
        invariant todo <= found && network == found - todo
        invariant networks == TakeOut(old(networks), network)
        invariant members == (old(members) - network) + Made(w, network, id, resolutionId)
        invariant BlocksMirror(members.Keys, blockMembers)
        decreases todo
      {
        var p :| p in todo;
        TakeOutNext(old(members), old(networks), network, p);
        MadeNext(w, old(members), network, p, id, resolutionId);
        MoveTo(w, p, id);
        network := network + {p};
        todo := todo - {p};
      }
    }

    method MoveTo(w: DataWorld, p: Vec, id: nat)
      requires BlocksMirror(members.Keys, blockMembers) && w.HasPart(p)
      modifies this`members, this`networks, this`blockMembers
      ensures members ==
        (old(members) - {p})[p := Member(p, w.GetNode(p), Some(w.PartAt(p)), Some(id), Some(resolutionId))]
      ensures networks == if p in old(members) && old(members)[p].networkId.Some?
                          then Withdraw(old(networks), old(members)[p].networkId.value, p) else old(networks)
      ensures BlocksMirror(members.Keys, blockMembers)
    {
      hide BlocksMirror;
      DroppedThenPut(members.Keys, blockMembers, p);
      InternalRemoveNode(p);
      members := members[p := Member(p, w.GetNode(p), Some(w.PartAt(p)), Some(id), Some(resolutionId))];
      blockMembers := Put(blockMembers, BlockOf(p), p, true);
      assert members.Keys == old(members.Keys) + {p};
    }

    /**
     All queued positions are refreshed, in any order. Each of them that has a part is then in a
     network of exactly what it is connected to; and when the networks were accounted for before,
     they are now exactly the components of the connected parts.
     */
    method Update(w: DataWorld)
      requires Valid() && w.Valid()
      modifies this`members, this`networks, this`blockMembers, this`queued, this`resolutionId
      ensures Valid() && queued == map[]
      ensures forall p ::
        p in Pending(old(queued)) && w.HasPart(p) ==> InPlace(PartGraph(w), members, networks, resolutionId, p)
      ensures forall p, q ::
        p in Pending(old(queued)) && IsPart(w, p) ==> (SameNetwork(members, p, q) <==> RouteJoins(w, p, q))
      ensures forall p, q ::
        p in Pending(old(queued)) && IsPart(w, p) && IsPart(w, q) && Meet(w, p, q) ==> SameNetwork(members, p, q)
      ensures old(Accounted(PartGraph(w), networks, Pending(queued))) ==> Partitioned(PartGraph(w), networks)
      ensures old(members.Keys) <= members.Keys <= old(members.Keys) + PartPositions(w)
    {
      hide PartGraph, Agree, BlocksMirror, Accounted, Settled, InPlace, Pending, RouteJoins, SameNetwork, Meet;
      ghost var g := PartGraph(w);
      PartGraphUndirected(w);
      if queued != map[] {
        resolutionId := resolutionId + 1;
        var events := queued;
        queued := map[];
        NothingSettled(g, members, networks, resolutionId);
        var todo := events.Keys;
        ghost var waiting := Pending(events);
        PendingAreQueued(events);
        while todo != {}
          invariant Valid() && todo <= events.Keys && queued == map[]
          invariant Settled(g, members, networks, resolutionId)
          invariant old(members.Keys) <= members.Keys <= old(members.Keys) + PartPositions(w)
          invariant waiting <= Pending(events) && forall p :: p in waiting ==> p in todo
          invariant forall p ::
            p in Pending(events) && p !in todo && w.HasPart(p) ==> Resolved(members, resolutionId, p)
          invariant old(Accounted(g, networks, Pending(queued))) ==> Accounted(g, networks, waiting)
          decreases todo
        {
          var p :| p in todo;
          IsPending(events, p);
          if !events[p] {
            RefreshEvent(w, p, waiting);
            waiting := waiting - {p};
          }
          todo := todo - {p};
        }
        assert waiting == {};
        forall p | p in Pending(events) && w.HasPart(p) ensures InPlace(g, members, networks, resolutionId, p) {
          SettledInPlace(g, members, networks, resolutionId, p);
        }
        forall p, q | p in Pending(events) && IsPart(w, p) ensures SameNetwork(members, p, q) <==> RouteJoins(w, p, q) {
          NetworkIsJoined(w, members, networks, resolutionId, p, q);
        }
        forall p, q | p in Pending(events) && IsPart(w, p) && IsPart(w, q) && Meet(w, p, q)
          ensures RouteJoins(w, p, q)
        {
          MeetingJoins(w, p, q);
        }
      } else {
        NothingPending();
      }
      if old(Accounted(g, networks, Pending(queued))) {
        AccountedIsExact(g, members, networks);
      }
    }

    /** One queued refresh. */
    method RefreshEvent(w: DataWorld, p: Vec, ghost waiting: set<Vec>)
      requires Valid() && w.Valid() && Settled(PartGraph(w), members, networks, resolutionId)
      modifies this`members, this`networks, this`blockMembers
      ensures Valid() && Settled(PartGraph(w), members, networks, resolutionId)
      ensures w.HasPart(p) ==> Resolved(members, resolutionId, p)
      ensures forall q :: Resolved(old(members), resolutionId, q) ==> Resolved(members, resolutionId, q)
      ensures old(Accounted(PartGraph(w), networks, waiting)) ==> Accounted(PartGraph(w), networks, waiting - {p})
      ensures old(members.Keys) <= members.Keys <= old(members.Keys) + PartPositions(w)
    {
      hide PartGraph, Agree, BlocksMirror, Accounted, Settled, Rebuilds, Flood.Done;
      ghost var ms, nets := members, networks;
      RefreshFromPos(w, p);
      if Resolved(ms, resolutionId, p) {
        if Accounted(PartGraph(w), nets, waiting) {
          SkipAccounts(PartGraph(w), ms, nets, resolutionId, p, waiting);
        }
      } else {
        ghost var found, id :|
          Flood(PartGraph(w), p, found, {}).Done() && Rebuilds(w, ms, nets, found, id, resolutionId, members, networks);
        ghost var x := Refresh(w, p, found, id, resolutionId, ms, nets, members, networks);
        RefreshSettles(x);
        RefreshedMembers(x);
        if Accounted(PartGraph(w), nets, waiting) {
          RefreshAccounts(x, waiting);
        }
      }
    }
  }
}
