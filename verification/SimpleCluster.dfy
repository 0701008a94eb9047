/**
 The event handlers that keep the clusters of one group equal to the connected components of its
 nodes.
 */
module SimpleClusters {
  import opened Basics
  import opened Grid
  import opened Clusterings
  import opened Sweeps
  import opened Worlds
  import opened Buckets
  import opened ClusterNodes
  import opened ClusterRegistry
  import opened BranchScans
  import opened ClusterViews
  import opened ClusterMeaning
  import opened HandlerEffects

  /** Symbols are numbered from 1. */
  type Symbol = i: int | i > 0 witness 1

  method KeysOf(ids: set<nat>) returns (list: seq<nat>)
    ensures SetOf(list) == ids && |list| == |ids|
    ensures forall i, j :: 0 <= i < j < |list| ==> list[i] != list[j]
  {
    list := [];
    var todo := ids;
    while todo != {}
      invariant todo <= ids && SetOf(list) == ids - todo && |list| + |todo| == |ids|
      invariant forall i, j :: 0 <= i < j < |list| ==> list[i] != list[j]
      decreases todo
    {
      var i :| i in todo;
      assert i !in SetOf(list) && forall k :: 0 <= k < |list| ==> list[k] in SetOf(list);
      list := list + [i];
      assert SetOf(list) == SetOf(list[..|list| - 1]) + {i};
      assert list[..|list| - 1] + [i] == list;
      todo := todo - {i};
    }
  }

  class SimpleCluster {
    const group: string
    const symbolId: Symbol

    constructor (group: string, symbolId: Symbol)
      ensures this.group == group
    {
      this.group, this.symbolId := group, symbolId;
    }

    function ClusterGroups(): Groups
      ensures group in ClusterGroups() && ClusterGroups()[group] > 0
      ensures group != "cluster_symbol_id" ==> ClusterGroups()[group] == 1
    {
      map[group := 1]["cluster_symbol_id" := symbolId]
    }

    /** A given cluster that has a compatible node at a position. */
    method FindAt(cls: Clusters, w: World, node: Node, npos: Vec, ids: set<nat>) returns (id: Option<nat>)
      requires cls.Valid()
      ensures id.Some? ==> id.value in ids && CompatibleAt(w, cls.Abs(), node, npos, id.value)
      ensures id.None? ==> forall i :: i in ids ==> !CompatibleAt(w, cls.Abs(), node, npos, i)
    {
      hide Clusters.Objects, Clusters.Mirrored;
      var todo := ids;
      id := None;
      while todo != {}
        invariant todo <= ids && forall i :: i in ids - todo ==> !CompatibleAt(w, cls.Abs(), node, npos, i)
        decreases todo
      {
        var i :| i in todo;
        if i in cls.clusters && npos in cls.clusters[i].nodes {
          if Compatible(w.NodeColor(node), w.NodeColor(cls.clusters[i].nodes[npos].node)) {
            return Some(i);
          }
        }
        todo := todo - {i};
      }
    }

    method FindCompatibleNeighbours(cls: Clusters, w: World, origin: Vec, node: Node, ids: set<nat>)
      returns (found: map<Dir, nat>)
      requires cls.Valid()
      ensures Neighbours(w, cls.Abs(), origin, node, ids, found)
    {
      hide Clusters.Valid, Clusters.Abs, CompatibleAt;
      found := map[];
      if ids != {} {
        var todo := DIRS;
        while todo != {}
          invariant todo <= DIRS && found.Keys !! todo
          invariant forall d ::
            d in found ==> found[d] in ids && CompatibleAt(w, cls.Abs(), node, Step(origin, d), found[d])
          invariant forall d, i ::
            d in DIRS - todo && d !in found && i in ids ==> !CompatibleAt(w, cls.Abs(), node, Step(origin, d), i)
          decreases todo
        {
          var d :| d in todo;
          var id := FindAt(cls, w, node, Step(origin, d), ids);
          if id.Some? {
            found := found[d := id.value];
          }
          todo := todo - {d};
        }
        forall d, i | d !in found && i in ids ensures !CompatibleAt(w, cls.Abs(), node, Step(origin, d), i) {
          AllDirs(d);
        }
      }
    }

    /** The clusters found are merged into one. */
    method MergeFound(cls: Clusters, list: seq<nat>) returns (c: Cluster, ghost nodes: Nodes, ghost groups: Groups)
      requires cls.Valid() && list != [] && SetOf(list) <= View(cls.Abs(), group).Keys
      requires forall i, j :: 0 <= i < j < |list| ==> list[i] != list[j]
      requires forall i, j ::
        i in SetOf(list) && j in SetOf(list) && i != j ==> View(cls.Abs(), group)[i] !! View(cls.Abs(), group)[j]
      modifies cls
      ensures cls.Valid() && c.id in cls.clusters && cls.clusters[c.id] == c && c.id !in old(cls.Abs())
      ensures group in groups && Gathered(old(cls.Abs()), SetOf(list), nodes)
      ensures Rated(old(cls.Abs()), group) ==> groups[group] > 0
      ensures cls.Abs() == (old(cls.Abs()) - SetOf(list))[c.id := Data(groups, nodes)]
      ensures fresh(cls.clusters.Values - old(cls.clusters.Values))
      ensures old(cls.Exact()) ==> cls.Exact()
    {
      hide Clusters.Mirrored, NothingStale, Cluster.Coherent, Gathered;
      ghost var m := cls.Abs();
      cls.IdsAreOld();
      forall i | i in list ensures i <= cls.lastId {
        assert i in SetOf(list) && i in cls.clusters;
      }
      ListIsApart(m, group, list);
      GatherMerged(m, group, list);
      groups, nodes := MergedGroups(m, list), MergedNodes(m, list);
      c := cls.MergeClusters(list);
    }

    /** A cluster for the new node: a new one, the one it touches, or all it touches merged. */
    method ChooseCluster(cls: Clusters, ids: set<nat>) returns (c: Cluster, ghost nodes: Nodes, ghost groups: Groups)
      requires cls.Valid() && ids <= View(cls.Abs(), group).Keys
      requires forall i, j :: i in ids && j in ids && i != j ==> View(cls.Abs(), group)[i] !! View(cls.Abs(), group)[j]
      modifies cls
      ensures cls.Valid() && c.id in cls.clusters && cls.clusters[c.id] == c && group in groups
      ensures c.groups == groups && c.nodes == nodes && (c.id in old(cls.Abs()) ==> c.id in ids)
      ensures Gathered(old(cls.Abs()), ids, nodes)
      ensures forall i :: ids == {i} ==> c.id == i && Data(groups, nodes) == old(cls.Abs())[i]
      ensures Rated(old(cls.Abs()), group) ==> groups[group] > 0
      ensures cls.Abs() == (old(cls.Abs()) - ids)[c.id := Data(groups, nodes)]
      ensures fresh(cls.clusters.Values - old(cls.clusters.Values))
      ensures old(cls.Exact()) ==> cls.Exact()
    {
      hide Clusters.Mirrored, NothingStale, Clusters.Objects, Gathered;
      ghost var m := cls.Abs();
      if ids == {} {
        groups, nodes := ClusterGroups(), map[];
        cls.IdsAreOld();
        NothingToGather(m, ids);
        c := cls.CreateCluster(ClusterGroups());
        assert m - ids == m;
      } else {
        var list := KeysOf(ids);
        if |list| == 1 {
          assert list[0] in SetOf(list);
          c := cls.clusters[list[0]];
          cls.IdsAreOld();
          groups, nodes := c.groups, c.nodes;
          OnlyCluster(m, list);
          assert HasClusterGroup(m, group, list[0]);
        } else {
          c, nodes, groups := MergeFound(cls, list);
        }
      }
      cls.AbsAt(c.id);
    }

    /**
     A node is added or loaded: it founds a cluster, joins one, or joins several that are merged.
     The clusters of the group stay the components when the node is new. When it was registered
     already, possibly with another colour, they do if and only if it has a link into its old
     component and that one still hangs together; without such a link it is in two clusters.
     */
    method HandleAddNode(cls: Clusters, w: World, pos: Vec, node: Node, groups: Groups, given: set<nat>,
                         ghost paint: Painting)
      requires cls.Valid() && Tracks(w, cls.Abs(), group, paint) && given == Bucket(cls.groupClusters, group).Keys
      modifies cls, cls.clusters.Values
      ensures Tracks(w, cls.Abs(), group, paint[pos := w.NodeColor(node)]) <==>
        (pos in paint ==> Rejoins(paint, pos, w.NodeColor(node)))
      ensures pos !in paint ==> forall q ::
        q in paint && SideBySide(pos, q) && ColorsFit(w.NodeColor(node), paint[q]) ==>
          Together(cls.Abs(), group, pos, q)
      ensures pos in paint && !TouchesHome(paint, pos, w.NodeColor(node)) ==> !AtMostOne(cls.Abs(), group, pos)
      ensures cls.Valid() <==> (pos in paint && TouchesHome(paint, pos, w.NodeColor(node)) ==>
        MayReplace(old(cls.Abs()), group, Entry(pos, node, groups)))
      ensures InheritsWith(old(cls.Abs()), cls.Abs(), group, Entry(pos, node, groups))
      ensures Rated(old(cls.Abs()), group) ==> Rated(cls.Abs(), group)
      ensures OthersKept(old(cls.Abs()), cls.Abs(), group)
      ensures old(cls.Exact()) ==> cls.Exact()
      ensures fresh(cls.clusters.Values - old(cls.clusters.Values))
    {
      hide Clusters.Valid, Clusters.Exact, Tracks, Neighbours, Gathered, Clusters.Abs, ColorGraph, OthersKept, MayAdd,
           MayReplace, View, TouchesHome, Rejoins, InheritsWith, AtMostOne, Rated;
      ghost var m := cls.Abs();
      ghost var e := Entry(pos, node, groups);
      GivenAreOfGroup(cls, group);
      var found := FindCompatibleNeighbours(cls, w, pos, node, given);
      FoundAreApart(w, m, group, paint, pos, node, given, found);
      ghost var u := JoinFound(cls, pos, node, groups, found.Values);
      AddedInherits(m, group, u, e);
      if pos !in paint {
        NewIsRight(w, m, group, paint, given, found, u, e);
        NewIsTogether(w, cls.Abs(), group, paint, pos, w.NodeColor(node));
      } else {
        LoadedIsRight(w, m, group, paint, given, found, u, e);
      }
    }

    method JoinFound(cls: Clusters, pos: Vec, node: Node, groups: Groups, ids: set<nat>) returns (ghost u: Joining)
      requires cls.Valid() && ids <= View(cls.Abs(), group).Keys
      requires forall i, j :: i in ids && j in ids && i != j ==> View(cls.Abs(), group)[i] !! View(cls.Abs(), group)[j]
      modifies cls, cls.clusters.Values
      ensures u.ids == ids && u.Of(old(cls.Abs()), group)
      ensures cls.Abs() == u.Contents(old(cls.Abs()), Entry(pos, node, groups))
      ensures cls.Valid() <==> MayAdd(u.nodes, pos, node, groups)
      ensures old(cls.Exact()) ==> cls.Exact()
      ensures fresh(cls.clusters.Values - old(cls.clusters.Values))
    {
      hide Clusters.Valid, Clusters.Exact, Gathered, Clusters.Abs, MayAdd, Rated;
      ghost var m := cls.Abs();
      ghost var nodes, gs;
      var c;
      c, nodes, gs := ChooseCluster(cls, ids);
      u := Joining(ids, c.id, gs, nodes);
      PutNode(cls, c, pos, node, groups, m - ids, gs, nodes);
    }

    method PutNode(cls: Clusters, c: Cluster, pos: Vec, node: Node, groups: Groups, ghost m: Contents, ghost gs: Groups,
                   ghost nodes: Nodes)
      requires cls.Valid() && c.id in cls.clusters && cls.clusters[c.id] == c
      requires cls.Abs() == m[c.id := Data(gs, nodes)] && c.groups == gs && c.nodes == nodes
      modifies cls`nodeClusters, c
      ensures cls.Abs() == m[c.id := Data(gs, Added(nodes, pos, node, groups))]
      ensures cls.Valid() <==> MayAdd(nodes, pos, node, groups)
      ensures old(cls.Exact()) ==> cls.Exact()
    {
      hide Clusters.Valid, Clusters.Exact, Added, MayAdd;
      cls.AddNodeToCluster(c.id, pos, node, groups);
    }

    /** The cluster that `_handle_update_node` takes: any of the given ones with a positive rating. */
    method PickCluster(cls: Clusters, given: set<nat>) returns (picked: Option<nat>)
      requires cls.Valid() && given <= cls.clusters.Keys
      ensures picked.Some? ==> MayPick(cls.Abs(), group, picked.value)
      ensures picked.None? ==> forall i :: i in given ==> !MayPick(cls.Abs(), group, i)
    {
      hide Clusters.Objects, Clusters.Mirrored;
      picked := None;
      var todo := given;
      while todo != {}
        invariant todo <= given
        invariant forall i :: i in given - todo ==> !MayPick(cls.Abs(), group, i)
        decreases todo
      {
        var i :| i in todo;
        if group in cls.clusters[i].groups && cls.clusters[i].groups[group] > 0 {
          return Some(i);
        }
        todo := todo - {i};
      }
    }

    /**
     One cluster of the group is picked, and the entry of the node is replaced if it is there;
     otherwise nothing changes. Whatever is picked, the clusters stay the components if and only if
     the node keeps its colour, or only its own cluster can be picked and the new colour leaves all
     components as they are.
     */
    method HandleUpdateNode(cls: Clusters, w: World, pos: Vec, node: Node, groups: Groups, given: set<nat>,
                            ghost paint: Painting)
      requires cls.Valid() && Tracks(w, cls.Abs(), group, paint) && given == Bucket(cls.groupClusters, group).Keys
      modifies cls.clusters.Values
      ensures MayBecome(old(cls.Abs()), group, Entry(pos, node, groups), cls.Abs())
      ensures pos in paint && Rated(old(cls.Abs()), group) ==>
        ((forall n :: MayBecome(old(cls.Abs()), group, Entry(pos, node, groups), n) ==>
          Tracks(w, n, group, paint[pos := w.NodeColor(node)])) <==>
        UpdateKeeps(old(cls.Abs()), group, paint, pos, w.NodeColor(node)))
      ensures InheritsWith(old(cls.Abs()), cls.Abs(), group, Entry(pos, node, groups))
      ensures Rated(old(cls.Abs()), group) ==> Rated(cls.Abs(), group)
      ensures cls.Valid() && OthersKept(old(cls.Abs()), cls.Abs(), group)
      ensures old(cls.Exact()) ==> cls.Exact()
    {
      hide Clusters.Valid, Clusters.Exact, Tracks, Clusters.Abs, OthersKept, View, InheritsWith, Rated,
           UpdateKeeps, MayPick, UpdatedBy;
      ghost var m := cls.Abs();
      ghost var e := Entry(pos, node, groups);
      GivenAreOfGroup(cls, group);
      GivenAreThere(cls, group);
      var picked := PickCluster(cls, given);
      if picked.Some? {
        PickedIsOfGroup(m, group, picked.value);
        cls.AbsAt(picked.value);
        var _ := cls.UpdateNodeInCluster(picked.value, pos, node, groups);
        IsUpdatedBy(m, picked.value, e);
      } else {
        NothingToPick(m, group, given);
      }
      if pos in paint && Rated(m, group) {
        UpdateDecides(w, m, group, paint, e);
      }
      UpdatedRest(m, group, e, cls.Abs());
    }

    /**
     The first cluster of the group found among the nodes of a branch. If none of its nodes has a stale
     listing it has one of them.
     */
    method FindClusterOf(cls: Clusters, nodes: set<Vec>) returns (id: Option<nat>)
      requires cls.Valid()
      ensures id.Some? ==>
        HasClusterGroup(cls.Abs(), group, id.value) && exists q :: q in nodes && Listed(cls.nodeClusters, q, id.value)
      ensures id.None? ==> forall q, i ::
        q in nodes && Listed(cls.nodeClusters, q, i) ==> !HasClusterGroup(cls.Abs(), group, i)
      ensures id.Some? && cls.Live(nodes) ==> Meets(View(cls.Abs(), group), nodes, id.value)
      ensures id.None? ==> forall i :: !Meets(View(cls.Abs(), group), nodes, i)
    {
      hide Clusters.Objects, Clusters.Mirrored, Clusters.Live, Clusters.Abs;
      id := None;
      var todo := nodes;
      while todo != {}
        invariant todo <= nodes
        invariant forall q, i ::
          q in nodes - todo && Listed(cls.nodeClusters, q, i) ==> !HasClusterGroup(cls.Abs(), group, i)
        decreases todo
      {
        var q :| q in todo;
        var c := cls.FindNodeCluster(q, group);
        if c != null {
          if cls.Live(nodes) {
            LiveMeets(cls, group, nodes, q, c.id);
          }
          return Some(c.id);
        }
        todo := todo - {q};
      }
      UnlistedMeetsNone(cls, group, nodes);
    }

    /** For every branch, one cluster that it has a node in. */
    method FindAffected(cls: Clusters, branches: Clustering, ghost ps: set<Vec>) returns (ids: set<nat>)
      requires cls.Valid() && cls.Live(ps) && forall j :: j in branches ==> branches[j] <= ps
      ensures Affected(View(cls.Abs(), group), branches, ids) && ids <= View(cls.Abs(), group).Keys
    {
      hide Clusters.Valid, Clusters.Live, Clusters.Abs, MetBySome, HasItsOne, Affected, Meets, View;
      ghost var k := View(cls.Abs(), group);
      ids := {};
      var todo := branches.Keys;
      while todo != {}
        invariant todo <= branches.Keys && ids <= k.Keys && k == View(cls.Abs(), group)
        invariant forall i :: i in ids ==> MetBySome(k, branches, i)
        invariant forall j :: j in branches.Keys - todo ==> HasItsOne(k, branches[j], ids)
        decreases todo
      {
        var j :| j in todo;
        var id := FindClusterOf(cls, branches[j]);
        FewerAreLive(cls, ps, branches[j]);
        if id.Some? {
          forall l | l in branches.Keys - todo ensures HasItsOne(k, branches[l], ids + {id.value}) {
            OneMore(k, branches[l], ids, id.value);
          }
          FoundOne(k, branches, j, ids, id.value);
          ids := ids + {id.value};
        } else {
          assert k == View(cls.Abs(), group);
          FoundNone(k, branches[j], ids);
        }
        todo := todo - {j};
      }
      FoundAll(k, branches, ids);
    }

    method DestroyAll(cls: Clusters, ids: set<nat>, ghost ps: set<Vec>)
      requires cls.Valid() && cls.Live(ps)
      modifies cls, cls.clusters.Values
      ensures cls.Valid() && cls.Live(ps) && (old(cls.Exact()) ==> cls.Exact())
      ensures cls.Abs() == old(cls.Abs()) - ids
      ensures cls.clusters.Values <= old(cls.clusters.Values) && cls.lastId == old(cls.lastId)
    {
      hide Clusters.Valid, Clusters.Exact, Clusters.Abs;
      var todo := ids;
      ghost var m, done: set<nat> := cls.Abs(), {};
      assert m - {} == m;
      while todo != {}
        invariant todo + done == ids && cls.Valid() && cls.Live(ps) && cls.Abs() == m - done
        invariant old(cls.Exact()) ==> cls.Exact()
        invariant cls.clusters.Values <= old(cls.clusters.Values) && cls.lastId == old(cls.lastId)
        decreases todo
      {
        var i :| i in todo;
        ghost var listed := cls.nodeClusters;
        var _ := cls.DestroyCluster(i);
        LiveWithout(m - done, listed, cls.nodeClusters, cls.lastId, ps, i);
        assert m - done - {i} == m - (done + {i});
        todo, done := todo - {i}, done + {i};
      }
      assert done == ids;
    }

    /** A new cluster of the group with the nodes of a branch, as they are in the world. */
    method BuildCluster(cls: Clusters, w: World, nodes: set<Vec>, ghost ps: set<Vec>) returns (ghost id: nat)
      requires cls.Valid() && cls.Live(ps)
      modifies cls
      ensures cls.Valid() && cls.Live(ps) && (old(cls.Exact()) ==> cls.Exact())
      ensures id !in old(cls.Abs()) && id == cls.lastId == old(cls.lastId) + 1
      ensures cls.Abs() == old(cls.Abs())[id := Data(ClusterGroups(), BranchNodes(w, nodes))]
      ensures fresh(cls.clusters.Values - old(cls.clusters.Values))
    {
      hide Clusters.Objects, Clusters.Mirrored, Clusters.Exact, BranchNodes, LiveOn;
      ghost var m := cls.Abs();
      cls.IdsAreOld();
      LiveWithNew(m, cls.nodeClusters, cls.lastId, ps, ClusterGroups());
      var c := cls.CreateCluster(ClusterGroups());
      id := c.id;
      NoNodes(w);
      var todo := nodes;
      assert nodes - todo == {};
      while todo != {}
        invariant todo <= nodes && cls.Valid() && cls.Live(ps) && (old(cls.Exact()) ==> cls.Exact())
        invariant cls.clusters == old(cls.clusters)[id := c] && c.id == id == cls.lastId == old(cls.lastId) + 1
        invariant c.Content() == Data(ClusterGroups(), BranchNodes(w, nodes - todo))
        invariant cls.Abs() == m[id := c.Content()]
        decreases todo
      {
        var q :| q in todo;
        var node := w.GetNode(q);
        NextNode(w, nodes - todo, q);
        AddTo(cls, c, q, node, w.MemberGroups(node), m, ps);
        assert nodes - (todo - {q}) == nodes - todo + {q};
        todo := todo - {q};
      }
      assert nodes - todo == nodes;
    }

    method AddTo(cls: Clusters, c: Cluster, q: Vec, node: Node, groups: Groups, ghost m: Contents, ghost ps: set<Vec>)
      requires cls.Valid() && cls.Live(ps) && c.id in cls.clusters && cls.clusters[c.id] == c
      requires cls.Abs() == m[c.id := c.Content()] && q !in c.nodes
      modifies cls`nodeClusters, c
      ensures cls.Valid() && cls.Live(ps) && (old(cls.Exact()) ==> cls.Exact()) && cls.Abs() == m[c.id := c.Content()]
      ensures c.Content() == Data(old(c.groups), old(c.nodes)[q := Entry(q, node, groups)])
    {
      hide Clusters.Valid, Clusters.Exact, Clusters.Abs, LiveOn;
      ghost var nodes := c.nodes[q := Entry(q, node, groups)];
      AddedIsLive(cls, c.id, q, nodes, ps);
      cls.AddNodeToCluster(c.id, q, node, groups);
      assert cls.Abs() == old(cls.Abs())[c.id := Data(old(c.groups), nodes)];
      cls.AbsAt(c.id);
    }

    /** A new cluster for every branch that is not empty. */
    method BuildAll(cls: Clusters, w: World, branches: Clustering, ghost ps: set<Vec>)
      returns (ghost made: map<nat, nat>)
      requires cls.Valid() && cls.Live(ps)
      modifies cls
      ensures cls.Valid() && cls.Live(ps) && (old(cls.Exact()) ==> cls.Exact())
      ensures forall i :: i in made ==> i > old(cls.lastId)
      ensures cls.Abs() == old(cls.Abs()) + Built(w, ClusterGroups(), branches, made)
      ensures OneToOne(branches, branches.Keys, made)
      ensures fresh(cls.clusters.Values - old(cls.clusters.Values))
    {
      hide Clusters.Valid, Clusters.Exact, Clusters.Live, Clusters.Abs, Built, OneToOne, BranchNodes;
      ghost var m := cls.Abs();
      made := map[];
      NothingBuilt(w, ClusterGroups(), branches, m);
      var todo := branches.Keys;
      assert branches.Keys - todo == {};
      while todo != {}
        invariant todo <= branches.Keys && cls.Valid() && cls.Live(ps) && (old(cls.Exact()) ==> cls.Exact())
        invariant cls.lastId >= old(cls.lastId) && forall i :: i in made ==> i > old(cls.lastId)
        invariant cls.Abs() == m + Built(w, ClusterGroups(), branches, made)
        invariant OneToOne(branches, branches.Keys - todo, made)
        invariant fresh(cls.clusters.Values - old(cls.clusters.Values))
        decreases todo
      {
        var j :| j in todo;
        assert branches.Keys - (todo - {j}) == branches.Keys - todo + {j};
        BuiltKeys(w, ClusterGroups(), branches, branches.Keys - todo, made);
        if branches[j] != {} {
          ghost var id := BuildCluster(cls, w, branches[j], ps);
          BuiltNext(w, ClusterGroups(), branches, made, id, j);
          OneToOneNext(branches, branches.Keys - todo, made, id, j);
          made := made[id := j];
        } else {
          OneToOneNext(branches, branches.Keys - todo, made, 0, j);
        }
        todo := todo - {j};
      }
      assert branches.Keys - todo == branches.Keys;
    }

    /** The node leaves the cluster that it is found in. */
    method Detach(cls: Clusters, pos: Vec, ghost ps: set<Vec>)
      requires cls.Valid() && cls.Live(ps) && pos in ps && AtMostOne(cls.Abs(), group, pos)
      modifies cls, cls.clusters.Values
      ensures cls.Valid() && cls.Live(ps) && (old(cls.Exact()) ==> cls.Exact())
      ensures cls.clusters == old(cls.clusters) && cls.lastId == old(cls.lastId)
      ensures cls.Abs() == Detached(old(cls.Abs()), group, pos)
    {
      hide Clusters.Objects, Clusters.Mirrored, Clusters.Exact, Clusters.Abs, Detached, AtMostOne, LiveOn;
      ghost var m := cls.Abs();
      ListedIsHeld(cls, pos, ps);
      var current := cls.FindNodeCluster(pos, group);
      if current != null {
        cls.AbsAt(current.id);
        assert HeldIn(m, group, pos, current.id);
        DetachOne(m, group, pos, current.id);
        LiveRemoved(m, cls.nodeClusters, cls.lastId, ps, current.id, pos);
        cls.RemoveNodeFromCluster(current.id, pos);
      } else {
        DetachNone(m, group, pos);
      }
    }

    /**
     A node is taken out, the world is searched for branches around it, and the clusters they meet
     are replaced by new ones. `s` says what became of the registry, whatever the world is like.
     */
    method Resplit(cls: Clusters, w: World, pos: Vec, order: seq<Dir>, ghost ps: set<Vec>) returns (ghost s: Split)
      requires cls.Valid() && w.Valid() && AtMostOne(cls.Abs(), group, pos)
      requires cls.Live(ps) && pos in ps && CoversSearch(w, Origins(pos, order, |order|), ps)
      modifies cls, cls.clusters.Values
      ensures cls.Valid() && cls.Live(ps) && (old(cls.Exact()) ==> cls.Exact())
      ensures s.group == group && s.pos == pos && s.Of(old(cls.Abs())) && cls.Abs() == s.Contents(w, old(cls.Abs()))
      ensures Scanned(ColorGraph(w.Painted()), Origins(pos, order, |order|), s.b)
      ensures OthersKept(old(cls.Abs()), cls.Abs(), group)
      ensures Rated(old(cls.Abs()), group) ==> Rated(cls.Abs(), group)
      ensures fresh(cls.clusters.Values - old(cls.clusters.Values))
    {
      hide Clusters.Valid, Clusters.Exact, Clusters.Abs, ColorGraph, World.Painted, Scanned, Affected, OneToOne,
           OthersKept, Detached, Built, View, Without, Origins, AtMostOne, Rated, Clusters.Live, CoversSearch;
      ghost var m := cls.Abs();
      Detach(cls, pos, ps);
      DetachedKeys(cls, m, group, pos);
      var scan := new BranchScan(w);
      scan.ScanForBranches(pos, order);
      BranchesAreCovered(w, Origins(pos, order, |order|), ps, scan.branches);
      var ids := FindAffected(cls, scan.branches, ps);
      DestroyAll(cls, ids, ps);
      ghost var made := BuildAll(cls, w, scan.branches, ps);
      s := Split(group, pos, ids, ClusterGroups(), scan.branches, made);
      assert s.Of(m);
      SplitOthers(w, m, s);
      SplitRated(w, m, s);
    }

    /**
     A node that has left the world is removed, and what is left of its cluster is split by the
     branches found around it. The nodes `gone` have left by now, and the removals of `done` were
     handled. After the last one the clusters of the group are the components if and only if the
     removals together were harmless. What the search sees of the world around the node is as it
     is in `v`, which is the world without the nodes of `gone`. There may be stale listings, but not
     under the nodes `ps`, among them the removed one and those that the search finds.
     */
    method HandleRemoveNode(cls: Clusters, w: World, pos: Vec, order: seq<Dir>, ghost v: World, ghost paint: Painting,
                            ghost gone: set<Vec>, ghost done: set<Vec>, ghost o: set<Vec>, ghost ps: set<Vec>)
      requires cls.Valid() && w.Valid()
      requires cls.Live(ps) && pos in ps && CoversSearch(w, Origins(pos, order, |order|), ps)
      requires v.Painted() == paint - gone && pos in gone && done <= gone && Sees(w, v, Origins(pos, order, |order|))
      requires Sweeping(v, cls.Abs(), group, paint, gone, done, o)
      modifies cls, cls.clusters.Values
      ensures cls.Valid() && cls.Live(ps) && (old(cls.Exact()) ==> cls.Exact())
      ensures OthersKept(old(cls.Abs()), cls.Abs(), group)
      ensures Sweeping(v, cls.Abs(), group, paint, gone, done + {pos}, o + Origins(pos, order, |order|))
      ensures done + {pos} == gone ==>
        (Tracks(v, cls.Abs(), group, v.Painted()) <==> Harmless(paint, gone, o + Origins(pos, order, |order|)))
      ensures InheritsFrom(v, old(cls.Abs()), cls.Abs(), group)
      ensures Rated(old(cls.Abs()), group) ==> Rated(cls.Abs(), group)
      ensures fresh(cls.clusters.Values - old(cls.clusters.Values))
    {
      hide Clusters.Valid, Clusters.Exact, Clusters.Abs, Tracks, ColorGraph, World.Painted, Sees, Sweeping, Scanned,
           OthersKept, Origins, Harmless, Split.Contents, Split.Of, InheritsFrom, Rated, Clusters.Live, CoversSearch;
      ghost var m := cls.Abs();
      ghost var origins := Origins(pos, order, |order|);
      SweepingIsApart(v, m, group, paint, gone, done, o, pos);
      ghost var s := Resplit(cls, w, pos, order, ps);
      SeenIsScanned(w, v, m, s, origins);
      SeenIsGone(v, s, paint, gone, origins);
      SweepingGoesOn(v, m, s, paint, gone, done, o, origins);
      SplitInherits(v, m, s);
      if done + {pos} == gone {
        SweepingEnds(v, cls.Abs(), group, paint, gone, o + origins);
      }
    }
  }
}
