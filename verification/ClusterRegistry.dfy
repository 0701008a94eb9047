/**
 The registry of all clusters, with the clusters of each group and the clusters of each node. On
 values the registry is a map from cluster ids to contents; the two tables are views of that map.
 */
module ClusterRegistry {
  import opened Grid
  import opened Worlds
  import opened Buckets
  import opened ClusterNodes

  type Contents = map<nat, Data>

  predicate HasClusterGroup(m: Contents, g: string, i: nat) {
    i in m && g in m[i].groups
  }

  predicate Holds(m: Contents, p: Vec, i: nat) {
    i in m && p in m[i].nodes
  }

  /** `m_group_clusters` lists exactly the clusters of each group. */
  ghost predicate GroupClustersMirror(m: Contents, idx: Index<string, nat, int>) {
    && NoEmptyBucket(idx)
    && (forall g, i :: Listed(idx, g, i) <==> HasClusterGroup(m, g, i))
    && (forall g, i :: Listed(idx, g, i) ==> idx[g][i] == m[i].groups[g])
  }

  /** `m_node_clusters` lists every cluster under each of its nodes, and possibly more. */
  ghost predicate NodeClustersCover(m: Contents, idx: Index<Vec, nat, bool>) {
    && NoEmptyBucket(idx)
    && (forall p, i :: Holds(m, p, i) ==> Listed(idx, p, i))
  }

  /** Nothing stale is listed under a node. */
  ghost predicate NothingStale(m: Contents, idx: Index<Vec, nat, bool>) {
    forall p, i :: Listed(idx, p, i) ==> Holds(m, p, i)
  }

  /**
   Nothing stale is listed under the nodes `ps`, as far as clusters that are there are concerned, and
   no cluster is listed that is still to come.
   */
  ghost predicate LiveOn(m: Contents, idx: Index<Vec, nat, bool>, last: nat, ps: set<Vec>) {
    && (forall p, i: nat :: Listed(idx, p, i) ==> i <= last)
    && (forall p, i: nat :: Listed(idx, p, i) && p in ps && i in m ==> Holds(m, p, i))
  }

  lemma LiveWithout(m: Contents, nc: Index<Vec, nat, bool>, nc': Index<Vec, nat, bool>, last: nat, ps: set<Vec>,
                    id: nat)
    requires LiveOn(m, nc, last, ps) && forall p, i: nat :: Listed(nc', p, i) ==> Listed(nc, p, i)
    ensures LiveOn(m - {id}, nc', last, ps)
  {
    forall p, i: nat | Listed(nc', p, i) && p in ps && i in m - {id} ensures Holds(m - {id}, p, i) {
      assert Holds(m, p, i);
    }
  }

  lemma LiveWithNew(m: Contents, nc: Index<Vec, nat, bool>, last: nat, ps: set<Vec>, groups: Groups)
    requires LiveOn(m, nc, last, ps)
    ensures LiveOn(m[last + 1 := Data(groups, map[])], nc, last + 1, ps)
  {
    var n := m[last + 1 := Data(groups, map[])];
    forall p, i: nat | Listed(nc, p, i) && p in ps && i in n ensures Holds(n, p, i) {
      assert Holds(m, p, i);
    }
  }

  lemma LiveAdded(m: Contents, nc: Index<Vec, nat, bool>, last: nat, ps: set<Vec>, id: nat, pos: Vec, nodes: Nodes)
    requires LiveOn(m, nc, last, ps) && id in m && id <= last && pos in nodes && m[id].nodes.Keys <= nodes.Keys
    ensures LiveOn(m[id := Data(m[id].groups, nodes)], Put(nc, pos, id, true), last, ps)
  {
    PutLists(nc, pos, id, true);
    var n := m[id := Data(m[id].groups, nodes)];
    forall p, i: nat | Listed(Put(nc, pos, id, true), p, i) && p in ps && i in n ensures Holds(n, p, i) {
      assert Holds(m, p, i) || (p == pos && i == id);
    }
  }

  lemma LiveRemoved(m: Contents, nc: Index<Vec, nat, bool>, last: nat, ps: set<Vec>, id: nat, pos: Vec)
    requires LiveOn(m, nc, last, ps) && id in m
    ensures LiveOn(m[id := Data(m[id].groups, m[id].nodes - {pos})], Drop(nc, pos, id), last, ps)
  {
    DropLists(nc, pos, id);
    var n := m[id := Data(m[id].groups, m[id].nodes - {pos})];
    forall p, i: nat | Listed(Drop(nc, pos, id), p, i) && p in ps && i in n ensures Holds(n, p, i) {
      assert Holds(m, p, i);
    }
  }

  function Keep(m: Contents, block: Vec): Contents {
    map i | i in m :: Data(m[i].groups, KeepNodes(m[i].nodes, block))
  }

  function KeepNodes(nodes: Nodes, block: Vec): Nodes {
    map p | p in nodes && BlockOf(p) != block :: nodes[p]
  }

  function MergedNodes(m: Contents, ids: seq<nat>): Nodes {
    if ids == [] then map[]
    else if ids[|ids| - 1] in m then MergedNodes(m, ids[..|ids| - 1]) + m[ids[|ids| - 1]].nodes
    else MergedNodes(m, ids[..|ids| - 1])
  }

  function MergedGroups(m: Contents, ids: seq<nat>): Groups {
    if ids == [] then map[]
    else if ids[|ids| - 1] in m then MergedGroups(m, ids[..|ids| - 1]) + m[ids[|ids| - 1]].groups
    else MergedGroups(m, ids[..|ids| - 1])
  }

  lemma MergedNodeComesFrom(m: Contents, ids: seq<nat>, p: Vec)
    ensures p in MergedNodes(m, ids) <==> exists k :: 0 <= k < |ids| && Holds(m, p, ids[k])
    ensures p in MergedNodes(m, ids) ==> exists k ::
      0 <= k < |ids| && Holds(m, p, ids[k]) && MergedNodes(m, ids)[p] == m[ids[k]].nodes[p]
  {
    if ids != [] {
      var init := ids[..|ids| - 1];
      MergedNodeComesFrom(m, init, p);
      assert Holds(m, p, ids[|ids| - 1]) <==>
        p in MergedNodes(m, ids) && ids[|ids| - 1] in m && p in m[ids[|ids| - 1]].nodes;
      if p in MergedNodes(m, init) {
        var k :| 0 <= k < |init| && Holds(m, p, init[k]) && MergedNodes(m, init)[p] == m[init[k]].nodes[p];
        assert Holds(m, p, ids[k]);
      }
      if k :| 0 <= k < |ids| && Holds(m, p, ids[k]) && k < |ids| - 1 {
        assert Holds(m, p, init[k]);
      }
    }
  }

  function SetOf(ids: seq<nat>): set<nat> {
    set i | i in ids
  }

  /** A list without repetition of clusters that have no node in common. */
  ghost predicate Apart(m: Contents, ids: seq<nat>) {
    && (forall i, j :: 0 <= i < j < |ids| ==> ids[i] != ids[j])
    && (forall i, j, p :: 0 <= i < j < |ids| ==> !(Holds(m, p, ids[i]) && Holds(m, p, ids[j])))
  }

  /** What the tables list while cluster `id` takes over the clusters `gone`. */
  function Unlisted(m: Contents, gone: set<nat>, id: nat): Contents {
    (m - gone)[id := Data(map[], map[])]
  }

  lemma DropMore(m: Contents, gone: set<nat>, x: nat, id: nat)
    requires x != id
    ensures Unlisted(m, gone, id) - {x} == Unlisted(m, gone + {x}, id)
    ensures Unlisted(m, gone, id).Keys == m.Keys - gone + {id}
    ensures x in m && x !in gone ==> Unlisted(m, gone, id)[x] == m[x]
  {
  }

  lemma MergedNext(m: Contents, ids: seq<nat>, n: nat)
    requires Apart(m, ids) && n < |ids|
    ensures SetOf(ids[..n + 1]) == SetOf(ids[..n]) + {ids[n]} && ids[n] !in SetOf(ids[..n])
    ensures ids[n] in m ==> MergedNodes(m, ids[..n]).Keys !! m[ids[n]].nodes.Keys
    ensures MergedNodes(m, ids[..n + 1]) == if ids[n] in m then MergedNodes(m, ids[..n]) + m[ids[n]].nodes
      else MergedNodes(m, ids[..n])
    ensures MergedGroups(m, ids[..n + 1]) == if ids[n] in m then MergedGroups(m, ids[..n]) + m[ids[n]].groups
      else MergedGroups(m, ids[..n])
  {
    assert ids[..n + 1][..n] == ids[..n];
    forall p | p in MergedNodes(m, ids[..n]) ensures !Holds(m, p, ids[n]) {
      MergedNodeComesFrom(m, ids[..n], p);
      var k :| 0 <= k < n && Holds(m, p, ids[..n][k]);
    }
    if ids[n] in m {
      forall p | p in m[ids[n]].nodes ensures p !in MergedNodes(m, ids[..n]) {
        assert Holds(m, p, ids[n]);
      }
    }
  }

  class Clusters {
    var lastId: nat
    var clusters: map<nat, Cluster>
    var groupClusters: Index<string, nat, int>
    var nodeClusters: Index<Vec, nat, bool>

    ghost predicate Objects()
      reads this`lastId, this`clusters, clusters.Values
    {
      forall i :: i in clusters ==> 0 < i <= lastId && clusters[i].id == i && clusters[i].Coherent()
    }

    ghost function Abs(): Contents
      reads this`clusters, clusters.Values
    {
      map i | i in clusters :: Data(clusters[i].groups, clusters[i].nodes)
    }

    ghost predicate Mirrored(m: Contents)
      reads this`groupClusters, this`nodeClusters
    {
      GroupClustersMirror(m, groupClusters) && NodeClustersCover(m, nodeClusters)
    }

    ghost predicate Valid()
      reads this, clusters.Values
    {
      Objects() && Mirrored(Abs())
    }

    ghost predicate Exact()
      reads this, clusters.Values
    {
      NothingStale(Abs(), nodeClusters)
    }

    /** The listings under the nodes `ps` can be relied on. */
    ghost predicate Live(ps: set<Vec>)
      reads this, clusters.Values
    {
      LiveOn(Abs(), nodeClusters, lastId, ps)
    }

    lemma ExactIsLive(ps: set<Vec>)
      requires Valid() && Exact()
      ensures Live(ps)
    {
      hide Mirrored, Cluster.Coherent;
      forall p, i: nat | Listed(nodeClusters, p, i) ensures i <= lastId {
        assert Holds(Abs(), p, i);
      }
    }

    constructor ()
      ensures Valid() && Exact() && Abs() == map[] && clusters == map[]
    {
      lastId, clusters, groupClusters, nodeClusters := 0, map[], map[], map[];
    }

    lemma AbsAt(id: nat)
      requires id in clusters
      ensures id in Abs() && Abs()[id] == clusters[id].Content()
    {
    }

    /** What a change of one cluster does to the whole. */
    twostate lemma OneChanged(id: nat)
      requires clusters == old(clusters) && lastId == old(lastId) && id in clusters && old(Objects())
      requires clusters[id].id == old(clusters[id].id) && forall i ::
        i in clusters && clusters[i] != clusters[id] ==> unchanged(clusters[i])
      ensures Abs() == old(Abs())[id := clusters[id].Content()]
      ensures Objects() <==> clusters[id].Coherent()
    {
      hide Cluster.Coherent;
      assert forall i :: i in clusters && i != id ==> clusters[i] != clusters[id];
    }

    lemma IdsAreOld()
      requires Objects()
      ensures forall i :: i in clusters ==> i <= lastId && clusters[i].id == i
    {
    }

    method CreateCluster(groups: Groups) returns (c: Cluster)
      requires Valid()
      modifies this
      ensures Valid() && fresh(c) && lastId == old(lastId) + 1 && c.id == lastId
      ensures clusters == old(clusters)[lastId := c] && c.Content() == Data(groups, map[])
      ensures Abs() == old(Abs())[lastId := Data(groups, map[])]
      ensures nodeClusters == old(nodeClusters) && (old(Exact()) ==> Exact())
    {
      hide GroupClustersMirror, NodeClustersCover, NothingStale, Clusters.Objects, Enlisted;
      ghost var m := Abs();
      IdsAreOld();
      c := NextCluster(groups);
      groupClusters := EnlistIn(groupClusters, lastId, groups);
      CreateMirrors(m, old(groupClusters), nodeClusters, lastId, groups, groupClusters);
    }

    /** A cluster with the next id, not listed under its groups yet. */
    method NextCluster(groups: Groups) returns (c: Cluster)
      requires Objects()
      modifies this`lastId, this`clusters
      ensures Objects() && fresh(c) && lastId == old(lastId) + 1 && c.id == lastId
      ensures clusters == old(clusters)[lastId := c] && c.Content() == Data(groups, map[])
      ensures Abs() == old(Abs())[lastId := Data(groups, map[])]
    {
      hide Cluster.Coherent;
      ghost var m := Abs();
      lastId := lastId + 1;
      c := new Cluster(lastId, groups);
      clusters := clusters[lastId := c];
      assert Abs() == m[lastId := Data(groups, map[])];
    }

    /** Takes a cluster off both tables; `m` is the contents that the tables are views of. */
    method CleanupCluster(c: Cluster, ghost m: Contents)
      requires Mirrored(m) && c.id in m && m[c.id] == c.Content()
      modifies this`groupClusters, this`nodeClusters
      ensures Mirrored(m - {c.id})
      ensures NothingStale(m, old(nodeClusters)) ==> NothingStale(m - {c.id}, nodeClusters)
      ensures forall p, i: nat :: Listed(nodeClusters, p, i) ==> Listed(old(nodeClusters), p, i)
    {
      hide GroupClustersMirror, NodeClustersCover, Struck, NothingStale;
      groupClusters := StrikeFrom(groupClusters, c.id, c.groups.Keys);
      nodeClusters := StrikeFrom(nodeClusters, c.id, c.nodes.Keys);
      CleanupMirrors(m, old(groupClusters), old(nodeClusters), c.id, groupClusters, nodeClusters);
    }

    method RemoveClusterById(id: nat, ghost m: Contents) returns (c: Cluster?)
      requires Objects() && Mirrored(m) && m.Keys == clusters.Keys
      requires id in clusters ==> m[id] == clusters[id].Content()
      modifies this`clusters, this`groupClusters, this`nodeClusters
      ensures Objects() && Mirrored(m - {id}) && clusters == old(clusters) - {id}
      ensures c == if id in old(clusters) then old(clusters)[id] else null
      ensures NothingStale(m, old(nodeClusters)) ==> NothingStale(m - {id}, nodeClusters)
      ensures forall p, i: nat :: Listed(nodeClusters, p, i) ==> Listed(old(nodeClusters), p, i)
    {
      hide GroupClustersMirror, NodeClustersCover, NothingStale, Cluster.Coherent;
      if id in clusters {
        c := clusters[id];
        CleanupCluster(c, m);
        clusters := clusters - {id};
      } else {
        c := null;
        assert m - {id} == m && clusters - {id} == clusters;
      }
    }

    method DestroyCluster(id: nat) returns (c: Cluster?)
      requires Valid()
      modifies this`clusters, this`groupClusters, this`nodeClusters, clusters.Values
      ensures Valid() && Abs() == old(Abs()) - {id} && clusters == old(clusters) - {id}
      ensures old(Exact()) ==> Exact()
      ensures forall p, i: nat :: Listed(nodeClusters, p, i) ==> Listed(old(nodeClusters), p, i)
      ensures c == if id in old(clusters) then old(clusters)[id] else null
      ensures c != null ==> c.terminated
    {
      hide GroupClustersMirror, NodeClustersCover, NothingStale, Cluster.Coherent;
      ghost var m := Abs();
      c := RemoveClusterById(id, m);
      assert Abs() == m - {id};
      if c != null {
        c.terminated := true;
      }
    }

    /**
     The clusters of the list become one new cluster with all their nodes. They have no node in
     common, and the list names each at most once.
     */
    method MergeClusters(ids: seq<nat>) returns (c: Cluster)
      requires Valid()
      requires Apart(Abs(), ids) && forall i :: i in ids ==> i <= lastId
      modifies this
      ensures Valid() && fresh(c) && c.id == lastId == old(lastId) + 1 && lastId in clusters && c == clusters[lastId]
      ensures Abs() ==
        (old(Abs()) - SetOf(ids))[lastId := Data(MergedGroups(old(Abs()), ids), MergedNodes(old(Abs()), ids))]
      ensures clusters == (old(clusters) - SetOf(ids))[lastId := c]
      ensures old(Exact()) ==> Exact()
    {
      hide Clusters.Objects, Clusters.Mirrored, Clusters.Merging, NothingStale, MergedNodes, MergedGroups, Apart,
        Unlisted;
      ghost var m := Abs();
      IdsAreOld();
      c := CreateCluster(map[]);
      ghost var all := clusters;
      MergingBegins(c, m);
      MergeAll(c, ids, m);
      Publish(c, all, m, SetOf(ids), Data(MergedGroups(m, ids), MergedNodes(m, ids)));
      assert clusters == (old(clusters) - SetOf(ids))[lastId := c];
    }

    lemma MergingAbs(c: Cluster, all: map<nat, Cluster>, m: Contents, gone: set<nat>, taken: Data)
      requires Merging(c, all, m, gone, taken)
      ensures Abs() == Unlisted(m, gone, c.id)[c.id := taken] == (m - gone)[c.id := taken]
      ensures c.id in Unlisted(m, gone, c.id) && Unlisted(m, gone, c.id)[c.id] == Data(map[], map[])
    {
      hide Clusters.Mirrored, Clusters.Objects, Cluster.Coherent, Unlisted;
      UnlistedThenTaken(m, gone, c.id, taken);
      forall i | i in clusters ensures Abs()[i] == (m - gone)[c.id := taken][i] {
      }
    }

    lemma UnlistedThenTaken(m: Contents, gone: set<nat>, id: nat, taken: Data)
      ensures Unlisted(m, gone, id)[id := taken] == (m - gone)[id := taken]
      ensures id in Unlisted(m, gone, id) && Unlisted(m, gone, id)[id] == Data(map[], map[])
    {
    }

    lemma MergingBegins(c: Cluster, m: Contents)
      requires Valid() && c.id !in m && c.id in clusters && clusters[c.id] == c
      requires Abs() == m[c.id := Data(map[], map[])]
      ensures Merging(c, clusters, m, {}, Data(map[], map[])) && Unlisted(m, {}, c.id) == Abs()
    {
      hide Clusters.Mirrored, Cluster.Coherent;
      assert m - {} == m && clusters - {} == clusters;
      assert forall i :: i in clusters ==> Abs()[i] == clusters[i].Content();
      assert clusters.Keys == Abs().Keys;
    }

    /**
     The new cluster `c` has taken over the clusters `gone` of `m`, and holds `taken`; the tables
     do not list its content yet.
     */
    ghost predicate Merging(c: Cluster, all: map<nat, Cluster>, m: Contents, gone: set<nat>, taken: Data)
      reads this, clusters.Values
    {
      && Objects() && clusters == all - gone && all.Keys == m.Keys + {c.id}
      && c.id !in m && c.id !in gone && c.id in clusters && clusters[c.id] == c && c.Content() == taken
      && (forall i :: i in clusters && i != c.id ==> i in m && Data(clusters[i].groups, clusters[i].nodes) == m[i])
      && Mirrored(Unlisted(m, gone, c.id))
    }

    /** The new cluster `c` takes over the clusters one by one. */
    method MergeAll(c: Cluster, ids: seq<nat>, ghost m: Contents)
      requires Merging(c, clusters, m, {}, Data(map[], map[])) && Apart(m, ids) && c.id !in SetOf(ids)
      modifies this`clusters, this`groupClusters, this`nodeClusters, c
      ensures Merging(c, old(clusters), m, SetOf(ids), Data(MergedGroups(m, ids), MergedNodes(m, ids)))
      ensures NothingStale(Unlisted(m, {}, c.id), old(nodeClusters)) ==>
        NothingStale(Unlisted(m, SetOf(ids), c.id), nodeClusters)
    {
      hide Clusters.Merging, Clusters.Objects, Clusters.Mirrored, NothingStale, Apart, Unlisted;
      assert ids[..0] == [] && SetOf([]) == {};
      for n := 0 to |ids|
        invariant Merging(c, old(clusters), m, SetOf(ids[..n]),
          Data(MergedGroups(m, ids[..n]), MergedNodes(m, ids[..n])))
        invariant NothingStale(Unlisted(m, {}, c.id), old(nodeClusters)) ==>
          NothingStale(Unlisted(m, SetOf(ids[..n]), c.id), nodeClusters)
      {
        var id := ids[n];
        assert id in SetOf(ids);
        MergedNext(m, ids, n);
        MergeOne(c, id, old(clusters), m, SetOf(ids[..n]), Data(MergedGroups(m, ids[..n]), MergedNodes(m, ids[..n])));
      }
      assert ids[..|ids|] == ids;
    }

    /** Moves the content of one cluster into the new cluster. */
    method MergeOne(c: Cluster, id: nat, ghost all: map<nat, Cluster>, ghost m: Contents, ghost gone: set<nat>,
                    ghost taken: Data)
      requires Merging(c, all, m, gone, taken) && id != c.id && id !in gone
      requires id in m ==> m[id].nodes.Keys !! taken.nodes.Keys
      modifies this`clusters, this`groupClusters, this`nodeClusters, c
      ensures Merging(c, all, m, gone + {id}, if id in m then
        Data(taken.groups + m[id].groups, taken.nodes + m[id].nodes) else taken)
      ensures NothingStale(Unlisted(m, gone, c.id), old(nodeClusters)) ==>
        NothingStale(Unlisted(m, gone + {id}, c.id), nodeClusters)
    {
      hide Clusters.Mirrored, NothingStale, Cluster.Coherent, Unlisted;
      ghost var listed := Unlisted(m, gone, c.id);
      DropMore(m, gone, id, c.id);
      assert clusters - {id} == all - (gone + {id});
      var other := RemoveClusterById(id, listed);
      assert Merging(c, all, m, gone + {id}, taken);
      if other != null {
        Absorb(c, other, all, m, gone + {id}, taken);
      }
    }

    /** The new cluster takes in the content of one that is no longer registered. */
    method Absorb(c: Cluster, other: Cluster, ghost all: map<nat, Cluster>, ghost m: Contents, ghost gone: set<nat>,
                  ghost taken: Data)
      requires Merging(c, all, m, gone, taken)
      requires other.id !in clusters && other != c && other.Coherent() && other.nodes.Keys !! taken.nodes.Keys
      modifies c
      ensures Merging(c, all, m, gone, Data(taken.groups + other.groups, taken.nodes + other.nodes))
    {
      hide Clusters.Mirrored, Cluster.Coherent, Unlisted;
      c.Merge(other);
      assert c.Coherent();
    }

    /** Lists the new cluster once it is complete. */
    method Publish(c: Cluster, ghost all: map<nat, Cluster>, ghost m: Contents, ghost gone: set<nat>, ghost taken: Data)
      requires Merging(c, all, m, gone, taken)
      modifies this`groupClusters, this`nodeClusters
      ensures Valid() && Abs() == (m - gone)[c.id := taken] && clusters == all - gone
      ensures NothingStale(Unlisted(m, gone, c.id), old(nodeClusters)) ==> Exact()
    {
      hide GroupClustersMirror, NodeClustersCover, NothingStale, Clusters.Objects, Clusters.Abs, Enlisted, Unlisted;
      MergingAbs(c, all, m, gone, taken);
      groupClusters := EnlistIn(groupClusters, c.id, c.groups);
      nodeClusters := EnlistIn(nodeClusters, c.id, map p | p in c.nodes :: true);
      FinishMirrors(Unlisted(m, gone, c.id), old(groupClusters), old(nodeClusters), c.id, taken, groupClusters,
        nodeClusters);
    }

    method AddNodeToCluster(id: nat, pos: Vec, node: Node, groups: Groups)
      requires Valid() && id in clusters
      modifies this`nodeClusters, clusters[id]
      ensures Abs() ==
        old(Abs())[id := Data(old(clusters[id].groups), Added(old(clusters[id].nodes), pos, node, groups))]
      ensures nodeClusters == Put(old(nodeClusters), pos, id, true)
      ensures Valid() <==> old(MayAdd(clusters[id].nodes, pos, node, groups))
      ensures old(Exact()) ==> Exact()
    {
      hide GroupClustersMirror, NodeClustersCover, NothingStale, Cluster.Coherent;
      ghost var m := Abs();
      var c := clusters[id];
      var ok := c.AddNode(pos, node, groups);
      nodeClusters := Put(nodeClusters, pos, id, true);
      OneChanged(id);
      hide Clusters.Abs, Clusters.Objects;
      AddMirrors(m, groupClusters, old(nodeClusters), id, pos, node, groups);
    }

    method UpdateNodeInCluster(id: nat, pos: Vec, node: Node, groups: Groups) returns (ok: bool)
      requires Valid() && id in clusters
      modifies clusters[id]
      ensures Valid() && (ok <==> pos in old(clusters[id].nodes))
      ensures Abs() == if ok then
        old(Abs())[id := Data(old(clusters[id].groups), old(clusters[id].nodes)[pos := Entry(pos, node, groups)])]
          else old(Abs())
      ensures old(Exact()) ==> Exact()
    {
      hide GroupClustersMirror, NodeClustersCover, NothingStale, Cluster.Coherent;
      ghost var m := Abs();
      ok := clusters[id].UpdateNode(pos, node, groups);
      if ok {
        SameNodesMirror(m, groupClusters, nodeClusters, id, m[id].nodes[pos := Entry(pos, node, groups)]);
        assert Abs() == m[id := Data(m[id].groups, m[id].nodes[pos := Entry(pos, node, groups)])];
      } else {
        assert Abs() == m;
      }
    }

    method RemoveNodeFromCluster(id: nat, pos: Vec)
      requires Valid() && id in clusters
      modifies this`nodeClusters, clusters[id]
      ensures Valid() && clusters[id].groups == old(clusters[id].groups)
      ensures Abs() == old(Abs())[id := Data(old(clusters[id].groups), old(clusters[id].nodes) - {pos})]
      ensures nodeClusters == Drop(old(nodeClusters), pos, id)
      ensures old(Exact()) ==> Exact()
    {
      hide GroupClustersMirror, NodeClustersCover, NothingStale, Cluster.Coherent, Cluster.GroupsCoherent;
      ghost var m := Abs();
      clusters[id].CoherentGroups();
      var _ := clusters[id].RemoveNode(pos);
      nodeClusters := Drop(nodeClusters, pos, id);
      OneChanged(id);
      hide Clusters.Abs, Clusters.Objects;
      RemoveNodeMirrors(m, groupClusters, old(nodeClusters), id, pos);
    }

    method ExpireOne(id: nat, block: Vec)
      requires Objects() && id in clusters
      modifies clusters[id]
      ensures Objects()
      ensures clusters[id].groups == old(clusters[id].groups) &&
        clusters[id].nodes == KeepNodes(old(clusters[id].nodes), block)
      ensures forall i ::
        i in clusters && i != id ==>
          clusters[i].groups == old(clusters[i].groups) && clusters[i].nodes == old(clusters[i].nodes)
    {
      hide Cluster.Coherent;
      clusters[id].OnBlockExpired(block);
    }

    /** Every cluster loses its nodes of the block; the table of nodes keeps listing them. */
    method ExpireBlock(block: Vec)
      requires Valid()
      modifies clusters.Values
      ensures Valid() && Abs() == Keep(old(Abs()), block)
    {
      hide GroupClustersMirror, NodeClustersCover, Clusters.Objects;
      ghost var m := Abs();
      var todo := clusters.Keys;
      while todo != {}
        invariant todo <= clusters.Keys && Objects()
        invariant forall i :: i in clusters ==> clusters[i].groups == m[i].groups
        invariant forall i ::
          i in clusters ==> clusters[i].nodes == if i in todo then m[i].nodes else KeepNodes(m[i].nodes, block)
        decreases todo
      {
        var i :| i in todo;
        ExpireOne(i, block);
        todo := todo - {i};
      }
      assert Abs() == Keep(m, block);
      KeepMirrors(m, groupClusters, nodeClusters, block);
    }

    /** A live cluster of the group that is listed under the node, if there is one. */
    method FindNodeCluster(pos: Vec, group: string) returns (c: Cluster?)
      requires Valid()
      ensures c != null ==>
        c.id in clusters && clusters[c.id] == c && HasClusterGroup(Abs(), group, c.id) &&
          Listed(nodeClusters, pos, c.id)
      ensures c == null ==> forall i :: Listed(nodeClusters, pos, i) ==> !HasClusterGroup(Abs(), group, i)
    {
      hide GroupClustersMirror, NodeClustersCover, Cluster.Coherent;
      c := null;
      if pos !in nodeClusters {
        return;
      }
      var todo := nodeClusters[pos].Keys;
      while todo != {}
        invariant todo <= nodeClusters[pos].Keys
        invariant forall i :: Listed(nodeClusters, pos, i) && i !in todo ==> !HasClusterGroup(Abs(), group, i)
        decreases todo
      {
        var i :| i in todo;
        if i in clusters && group in clusters[i].groups {
          return clusters[i];
        }
        todo := todo - {i};
      }
    }
  }

  lemma SameNodesMirror(m: Contents, gc: Index<string, nat, int>, nc: Index<Vec, nat, bool>, id: nat, nodes: Nodes)
    requires GroupClustersMirror(m, gc) && NodeClustersCover(m, nc) && id in m && nodes.Keys == m[id].nodes.Keys
    ensures var n := m[id := Data(m[id].groups, nodes)];
      GroupClustersMirror(n, gc) && NodeClustersCover(n, nc) && (NothingStale(m, nc) ==> NothingStale(n, nc))
  {
    var n := m[id := Data(m[id].groups, nodes)];
    forall g, i ensures HasClusterGroup(n, g, i) <==> HasClusterGroup(m, g, i) {
    }
    forall p, i ensures Holds(n, p, i) <==> Holds(m, p, i) {
    }
  }

  lemma RemoveNodeMirrors(m: Contents, gc: Index<string, nat, int>, nc: Index<Vec, nat, bool>, id: nat, pos: Vec)
    requires GroupClustersMirror(m, gc) && NodeClustersCover(m, nc) && id in m
    ensures var n := m[id := Data(m[id].groups, m[id].nodes - {pos})];
      GroupClustersMirror(n, gc) && NodeClustersCover(n, Drop(nc, pos, id))
      && (NothingStale(m, nc) ==> NothingStale(n, Drop(nc, pos, id)))
  {
    var n := m[id := Data(m[id].groups, m[id].nodes - {pos})];
    DropLists(nc, pos, id);
    forall g, i ensures HasClusterGroup(n, g, i) <==> HasClusterGroup(m, g, i) {
    }
    forall p, i ensures Holds(n, p, i) <==> Holds(m, p, i) && !(p == pos && i == id) {
    }
  }

  lemma KeepMirrors(m: Contents, gc: Index<string, nat, int>, nc: Index<Vec, nat, bool>, block: Vec)
    requires GroupClustersMirror(m, gc) && NodeClustersCover(m, nc)
    ensures GroupClustersMirror(Keep(m, block), gc) && NodeClustersCover(Keep(m, block), nc)
  {
    forall g, i ensures HasClusterGroup(Keep(m, block), g, i) <==> HasClusterGroup(m, g, i) {
    }
    forall p, i | Holds(Keep(m, block), p, i) ensures Holds(m, p, i) {
    }
  }

  /** `add_node` on values. */
  function Added(nodes: Nodes, pos: Vec, node: Node, groups: Groups): Nodes {
    if pos in nodes && nodes[pos].node.name == node.name then nodes else nodes[pos := Entry(pos, node, groups)]
  }

  /** The node is new, or already there, or replaces one whose groups it has. */
  predicate MayAdd(nodes: Nodes, pos: Vec, node: Node, groups: Groups) {
    pos in nodes ==> nodes[pos].node.name == node.name || nodes[pos].groups.Keys <= groups.Keys
  }

  lemma AddMirrors(m: Contents, gc: Index<string, nat, int>, nc: Index<Vec, nat, bool>, id: nat, pos: Vec, node: Node,
                   groups: Groups)
    requires GroupClustersMirror(m, gc) && NodeClustersCover(m, nc) && id in m
    ensures var n := m[id := Data(m[id].groups, Added(m[id].nodes, pos, node, groups))];
      GroupClustersMirror(n, gc) && NodeClustersCover(n, Put(nc, pos, id, true))
      && (NothingStale(m, nc) ==> NothingStale(n, Put(nc, pos, id, true)))
  {
    var n := m[id := Data(m[id].groups, Added(m[id].nodes, pos, node, groups))];
    PutLists(nc, pos, id, true);
    forall g, i ensures HasClusterGroup(n, g, i) <==> HasClusterGroup(m, g, i) {
    }
    forall p, i ensures Holds(n, p, i) <==> Holds(m, p, i) || (p == pos && i == id) {
    }
  }

  lemma CleanupMirrors(m: Contents, gc: Index<string, nat, int>, nc: Index<Vec, nat, bool>, id: nat, gc': Index<string,
                       nat, int>, nc': Index<Vec, nat, bool>)
    requires GroupClustersMirror(m, gc) && NodeClustersCover(m, nc) && id in m
    requires Struck(gc, id, m[id].groups.Keys, gc') && Struck(nc, id, m[id].nodes.Keys, nc')
    ensures GroupClustersMirror(m - {id}, gc') && NodeClustersCover(m - {id}, nc')
    ensures NothingStale(m, nc) ==> NothingStale(m - {id}, nc')
  {
    CleanupGroups(m, gc, id, gc');
    forall p, i ensures Holds(m - {id}, p, i) <==> Holds(m, p, i) && i != id {
    }
  }

  lemma CleanupGroups(m: Contents, gc: Index<string, nat, int>, id: nat, gc': Index<string, nat, int>)
    requires GroupClustersMirror(m, gc) && id in m && Struck(gc, id, m[id].groups.Keys, gc')
    ensures GroupClustersMirror(m - {id}, gc')
  {
    forall g, i ensures HasClusterGroup(m - {id}, g, i) <==> HasClusterGroup(m, g, i) && i != id {
    }
  }

  /** Listing a cluster that was empty under its groups and nodes makes the tables right again. */
  lemma FinishMirrors(m: Contents, gc: Index<string, nat, int>, nc: Index<Vec, nat, bool>, id: nat, d: Data,
                      gc': Index<string, nat, int>, nc': Index<Vec, nat, bool>)
    requires GroupClustersMirror(m, gc) && NodeClustersCover(m, nc) && id in m && m[id] == Data(map[], map[])
    requires Enlisted(gc, id, d.groups, gc') && Enlisted(nc, id, map p | p in d.nodes :: true, nc')
    ensures GroupClustersMirror(m[id := d], gc') && NodeClustersCover(m[id := d], nc')
    ensures NothingStale(m, nc) ==> NothingStale(m[id := d], nc')
  {
    FinishGroups(m, gc, id, d, gc');
    forall p, i ensures Holds(m[id := d], p, i) <==> Holds(m, p, i) || (i == id && p in d.nodes) {
    }
  }

  lemma FinishGroups(m: Contents, gc: Index<string, nat, int>, id: nat, d: Data, gc': Index<string, nat, int>)
    requires GroupClustersMirror(m, gc) && id in m && m[id] == Data(map[], map[]) && Enlisted(gc, id, d.groups, gc')
    ensures GroupClustersMirror(m[id := d], gc')
  {
    var n := m[id := d];
    forall g, i ensures Listed(gc', g, i) <==> HasClusterGroup(n, g, i) {
      assert Listed(gc, g, i) <==> HasClusterGroup(m, g, i);
    }
    forall g, i | Listed(gc', g, i) ensures gc'[g][i] == n[i].groups[g] {
      assert Listed(gc, g, i) <==> HasClusterGroup(m, g, i);
    }
  }

  lemma NewIsNotStale(m: Contents, nc: Index<Vec, nat, bool>, id: nat, groups: Groups)
    requires id !in m
    ensures NothingStale(m, nc) ==> NothingStale(m[id := Data(groups, map[])], nc)
  {
    forall p, i | Holds(m, p, i) ensures Holds(m[id := Data(groups, map[])], p, i) {
    }
  }

  lemma CreateMirrors(m: Contents, gc: Index<string, nat, int>, nc: Index<Vec, nat, bool>, id: nat, groups: Groups,
                      gc': Index<string, nat, int>)
    requires GroupClustersMirror(m, gc) && NodeClustersCover(m, nc) && id !in m && Enlisted(gc, id, groups, gc')
    ensures GroupClustersMirror(m[id := Data(groups, map[])], gc')
    ensures NodeClustersCover(m[id := Data(groups, map[])], nc)
    ensures NothingStale(m, nc) ==> NothingStale(m[id := Data(groups, map[])], nc)
  {
    NewIsNotStale(m, nc, id, groups);
    NewIsListed(m, gc, id, groups, gc');
    forall p, i | Holds(m[id := Data(groups, map[])], p, i) ensures Listed(nc, p, i) {
      assert Holds(m, p, i);
    }
  }

  lemma NewIsListed(m: Contents, gc: Index<string, nat, int>, id: nat, groups: Groups, gc': Index<string, nat, int>)
    requires GroupClustersMirror(m, gc) && id !in m && Enlisted(gc, id, groups, gc')
    ensures GroupClustersMirror(m[id := Data(groups, map[])], gc')
  {
    hide GroupClustersMirror, Enlisted;
    var n := m[id := Data(groups, map[])];
    StillNoEmptyBucket(m, gc, id, groups, gc');
    forall g, i ensures Listed(gc', g, i) <==> HasClusterGroup(n, g, i) {
      ListedWithNew(m, gc, id, groups, gc', g, i);
    }
    forall g, i | Listed(gc', g, i) ensures gc'[g][i] == n[i].groups[g] {
      ListedWithNew(m, gc, id, groups, gc', g, i);
    }
    MeansMirror(n, gc');
  }

  lemma MeansMirror(m: Contents, gc: Index<string, nat, int>)
    requires NoEmptyBucket(gc)
    requires forall g, i :: Listed(gc, g, i) <==> HasClusterGroup(m, g, i)
    requires forall g, i :: Listed(gc, g, i) && HasClusterGroup(m, g, i) ==> gc[g][i] == m[i].groups[g]
    ensures GroupClustersMirror(m, gc)
  {
  }

  lemma StillNoEmptyBucket(m: Contents, gc: Index<string, nat, int>, id: nat, groups: Groups, gc': Index<string, nat,
                           int>)
    requires GroupClustersMirror(m, gc) && Enlisted(gc, id, groups, gc')
    ensures NoEmptyBucket(gc')
  {
  }

  lemma ListedWithNew(m: Contents, gc: Index<string, nat, int>, id: nat, groups: Groups, gc': Index<string, nat, int>,
                      g: string, i: nat)
    requires GroupClustersMirror(m, gc) && id !in m && Enlisted(gc, id, groups, gc')
    ensures Listed(gc', g, i) <==> HasClusterGroup(m[id := Data(groups, map[])], g, i)
    ensures Listed(gc', g, i) ==> gc'[g][i] == m[id := Data(groups, map[])][i].groups[g]
  {
    hide NoEmptyBucket;
    assert Listed(gc, g, i) <==> HasClusterGroup(m, g, i);
  }
}
