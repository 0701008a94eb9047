/** A cluster is a set of nodes with an index by group and one by map block. */
module ClusterNodes {
  import opened Grid
  import opened Worlds
  import opened Buckets

  type Groups = map<string, int>

  datatype Entry = Entry(pos: Vec, node: Node, groups: Groups)

  type Nodes = map<Vec, Entry>

  /** The map block of a position, 16 nodes to a side. */
  function BlockOf(p: Vec): Vec {
    Vec(p.x / 16, p.y / 16, p.z / 16)
  }

  /** A block is a cube of sixteen positions each way. */
  lemma BlockHolds(b: Vec, p: Vec)
    ensures BlockOf(p) == b <==>
      16 * b.x <= p.x < 16 * b.x + 16 && 16 * b.y <= p.y < 16 * b.y + 16 && 16 * b.z <= p.z < 16 * b.z + 16
  {
    SixteenthOf(p.x, b.x);
    SixteenthOf(p.y, b.y);
    SixteenthOf(p.z, b.z);
  }

  lemma SixteenthOf(x: int, b: int)
    ensures x / 16 == b <==> 16 * b <= x < 16 * b + 16
  {
  }

  predicate HasGroup(nodes: Nodes, g: string, p: Vec) {
    p in nodes && g in nodes[p].groups
  }

  predicate InBlock(nodes: set<Vec>, b: Vec, p: Vec) {
    p in nodes && BlockOf(p) == b
  }

  /** `m_group_nodes` lists exactly the nodes of each group, with their ratings. */
  ghost predicate GroupsMirror(nodes: Nodes, idx: Index<string, Vec, int>) {
    && NoEmptyBucket(idx)
    && (forall g, p :: Listed(idx, g, p) <==> HasGroup(nodes, g, p))
    && (forall g, p :: Listed(idx, g, p) ==> idx[g][p] == nodes[p].groups[g])
  }

  /** `m_block_nodes` lists exactly the nodes of each block. */
  ghost predicate BlocksMirror(nodes: set<Vec>, idx: Index<Vec, Vec, bool>) {
    && NoEmptyBucket(idx)
    && (forall b, p :: Listed(idx, b, p) <==> InBlock(nodes, b, p))
  }

  ghost predicate KeyedByPosition(nodes: Nodes) {
    forall p :: p in nodes ==> nodes[p].pos == p
  }

  /**
   Writing an entry over another one without striking the old groups first, as `add_node` does,
   keeps the group index right exactly when the new entry has all the old groups.
   */
  lemma OverwriteMirrors(nodes: Nodes, idx: Index<string, Vec, int>, e: Entry, r: Index<string, Vec, int>)
    requires GroupsMirror(nodes, idx) && Enlisted(idx, e.pos, e.groups, r)
    ensures GroupsMirror(nodes[e.pos := e], r) <==> (e.pos in nodes ==> nodes[e.pos].groups.Keys <= e.groups.Keys)
  {
    var m := nodes[e.pos := e];
    if e.pos in nodes && GroupsMirror(m, r) {
      forall g | g in nodes[e.pos].groups ensures g in e.groups {
        assert HasGroup(nodes, g, e.pos) && Listed(r, g, e.pos);
      }
    }
  }

  /** Striking the old groups first makes it right always. */
  lemma ReplaceMirrors(nodes: Nodes, idx: Index<string, Vec, int>, e: Entry, s: Index<string, Vec, int>,
                       r: Index<string, Vec, int>)
    requires GroupsMirror(nodes, idx) && e.pos in nodes
    requires Struck(idx, e.pos, nodes[e.pos].groups.Keys, s) && Enlisted(s, e.pos, e.groups, r)
    ensures GroupsMirror(nodes[e.pos := e], r)
  {
    var n := nodes[e.pos := e];
    assert NoEmptyBucket(r);
    hide GroupsMirror, Struck, Enlisted, NoEmptyBucket;
    forall g, p ensures Listed(r, g, p) <==> HasGroup(n, g, p) {
      ReplacedAt(nodes, idx, e, s, r, g, p);
    }
    forall g, p | Listed(r, g, p) ensures r[g][p] == n[p].groups[g] {
      ReplacedAt(nodes, idx, e, s, r, g, p);
    }
    MeansGroupsMirror(n, r);
  }

  lemma MeansGroupsMirror(nodes: Nodes, idx: Index<string, Vec, int>)
    requires NoEmptyBucket(idx)
    requires forall g, p :: Listed(idx, g, p) <==> HasGroup(nodes, g, p)
    requires forall g, p :: Listed(idx, g, p) && HasGroup(nodes, g, p) ==> idx[g][p] == nodes[p].groups[g]
    ensures GroupsMirror(nodes, idx)
  {
  }

  lemma ReplacedAt(nodes: Nodes, idx: Index<string, Vec, int>, e: Entry, s: Index<string, Vec, int>,
                   r: Index<string, Vec, int>, g: string, p: Vec)
    requires GroupsMirror(nodes, idx) && e.pos in nodes
    requires Struck(idx, e.pos, nodes[e.pos].groups.Keys, s) && Enlisted(s, e.pos, e.groups, r)
    ensures Listed(r, g, p) <==> HasGroup(nodes[e.pos := e], g, p)
    ensures Listed(r, g, p) ==> r[g][p] == nodes[e.pos := e][p].groups[g]
  {
    hide NoEmptyBucket;
    assert Listed(idx, g, p) <==> HasGroup(nodes, g, p);
    assert Listed(s, g, p) <==> Listed(idx, g, p) && !(p == e.pos && g in nodes[e.pos].groups.Keys);
  }

  lemma RemoveMirrors(nodes: Nodes, idx: Index<string, Vec, int>, p: Vec, r: Index<string, Vec, int>)
    requires GroupsMirror(nodes, idx) && p in nodes && Struck(idx, p, nodes[p].groups.Keys, r)
    ensures GroupsMirror(nodes - {p}, r)
  {
  }

  /**
   Merging two coherent clusters is coherent exactly when a node of both keeps all its groups, in
   particular when the clusters have no node in common.
   */
  lemma MergeMirrors(a: Nodes, b: Nodes, ia: Index<string, Vec, int>, ib: Index<string, Vec, int>)
    requires GroupsMirror(a, ia) && GroupsMirror(b, ib)
    ensures GroupsMirror(a + b, Overlay(ia, ib)) <==>
      (forall p :: p in a && p in b ==> a[p].groups.Keys <= b[p].groups.Keys)
  {
    if GroupsMirror(a + b, Overlay(ia, ib)) {
      forall p, g | p in a && p in b && g in a[p].groups ensures g in b[p].groups {
        OverlayLists(ia, ib);
        assert HasGroup(a, g, p) && Listed(Overlay(ia, ib), g, p);
        assert HasGroup(a + b, g, p);
      }
    }
    if forall p :: p in a && p in b ==> a[p].groups.Keys <= b[p].groups.Keys {
      MergeMirrorsIf(a, b, ia, ib);
    }
  }

  lemma MergeMirrorsIf(a: Nodes, b: Nodes, ia: Index<string, Vec, int>, ib: Index<string, Vec, int>)
    requires GroupsMirror(a, ia) && GroupsMirror(b, ib)
    requires forall p :: p in a && p in b ==> a[p].groups.Keys <= b[p].groups.Keys
    ensures GroupsMirror(a + b, Overlay(ia, ib))
  {
    OverlayLists(ia, ib);
    var r := Overlay(ia, ib);
    forall g, p ensures Listed(r, g, p) <==> HasGroup(a + b, g, p) {
      assert Listed(r, g, p) <==> HasGroup(a, g, p) || HasGroup(b, g, p);
    }
    forall g, p | Listed(r, g, p) ensures r[g][p] == (a + b)[p].groups[g] {
      assert Listed(ib, g, p) <==> HasGroup(b, g, p);
      assert HasGroup(a + b, g, p);
    }
  }

  lemma MergeBlocksMirror(a: set<Vec>, b: set<Vec>, ia: Index<Vec, Vec, bool>, ib: Index<Vec, Vec, bool>)
    requires BlocksMirror(a, ia) && BlocksMirror(b, ib)
    ensures BlocksMirror(a + b, Overlay(ia, ib))
  {
    OverlayLists(ia, ib);
  }

  /** The three indexes after an entry was written. */
  lemma WritingMirrors(nodes: Nodes, groupNodes: Index<string, Vec, int>, blockNodes: Index<Vec, Vec, bool>, e: Entry,
                       r: Index<string, Vec, int>)
    requires KeyedByPosition(nodes) && GroupsMirror(nodes, groupNodes) && BlocksMirror(nodes.Keys, blockNodes)
    requires Enlisted(groupNodes, e.pos, e.groups, r)
    ensures KeyedByPosition(nodes[e.pos := e])
    ensures BlocksMirror(nodes[e.pos := e].Keys, Put(blockNodes, BlockOf(e.pos), e.pos, true))
    ensures GroupsMirror(nodes[e.pos := e], r) <==> (e.pos in nodes ==> nodes[e.pos].groups.Keys <= e.groups.Keys)
  {
    OverwriteMirrors(nodes, groupNodes, e, r);
    PutLists(blockNodes, BlockOf(e.pos), e.pos, true);
  }

  datatype Data = Data(groups: Groups, nodes: Nodes)

  class Cluster {
    const id: nat
    var groups: Groups
    var nodes: Nodes
    var blockNodes: Index<Vec, Vec, bool>
    var groupNodes: Index<string, Vec, int>
    var terminated: bool

    ghost predicate Coherent()
      reads this
    {
      KeyedByPosition(nodes) && GroupsMirror(nodes, groupNodes) && BlocksMirror(nodes.Keys, blockNodes)
    }

    ghost predicate GroupsCoherent()
      reads this
    {
      GroupsMirror(nodes, groupNodes)
    }

    lemma CoherentGroups()
      requires Coherent()
      ensures GroupsCoherent()
    {
    }

    function Content(): Data
      reads this
    {
      Data(groups, nodes)
    }

    constructor (id: nat, groups: Groups)
      ensures this.id == id && Content() == Data(groups, map[]) && Coherent() && !terminated
    {
      this.id, this.groups, nodes := id, groups, map[];
      blockNodes, groupNodes, terminated := map[], map[], false;
    }

    /** Merging keeps the indexes right exactly when common nodes lose no group. */
    method Merge(other: Cluster)
      requires Coherent() && other.Coherent() && other != this
      modifies this
      ensures Content() == Data(old(groups) + other.groups, old(nodes) + other.nodes)
      ensures terminated == old(terminated)
      ensures Coherent() <==> forall p ::
        p in old(nodes) && p in other.nodes ==> old(nodes)[p].groups.Keys <= other.nodes[p].groups.Keys
    {
      groups := CopyInto(groups, other.groups);
      nodes := CopyInto(nodes, other.nodes);
      MergeBlocksMirror(old(nodes).Keys, other.nodes.Keys, blockNodes, other.blockNodes);
      blockNodes := OverlayBuckets(blockNodes, other.blockNodes);
      MergeMirrors(old(nodes), other.nodes, groupNodes, other.groupNodes);
      groupNodes := OverlayBuckets(groupNodes, other.groupNodes);
    }

    /** Lists an entry in the group and block indexes. */
    method RefreshNodeEntry(e: Entry)
      modifies this`groupNodes, this`blockNodes
      ensures Enlisted(old(groupNodes), e.pos, e.groups, groupNodes)
      ensures blockNodes == Put(old(blockNodes), BlockOf(e.pos), e.pos, true)
    {
      groupNodes := EnlistIn(groupNodes, e.pos, e.groups);
      blockNodes := Put(blockNodes, BlockOf(e.pos), e.pos, true);
    }

    /**
     A node of the same name at the same position is left alone; one of another name is replaced,
     and its groups stay listed.
     */
    method AddNode(pos: Vec, node: Node, newGroups: Groups) returns (ok: bool)
      requires Coherent()
      modifies this`nodes, this`groupNodes, this`blockNodes
      ensures ok <==> !(pos in old(nodes) && old(nodes)[pos].node.name == node.name)
      ensures !ok ==> nodes == old(nodes) && Coherent()
      ensures ok ==> nodes == old(nodes)[pos := Entry(pos, node, newGroups)]
      ensures ok ==> (Coherent() <==> (pos in old(nodes) ==> old(nodes)[pos].groups.Keys <= newGroups.Keys))
    {
      hide GroupsMirror, BlocksMirror, KeyedByPosition, Enlisted;
      if pos in nodes && nodes[pos].node.name == node.name {
        return false;
      }
      var e := Entry(pos, node, newGroups);
      nodes := nodes[pos := e];
      RefreshNodeEntry(e);
      WritingMirrors(old(nodes), old(groupNodes), old(blockNodes), e, groupNodes);
      return true;
    }

    method UpdateNode(pos: Vec, node: Node, newGroups: Groups) returns (ok: bool)
      requires Coherent()
      modifies this`nodes, this`groupNodes, this`blockNodes
      ensures Coherent() && (ok <==> pos in old(nodes))
      ensures nodes == if ok then old(nodes)[pos := Entry(pos, node, newGroups)] else old(nodes)
    {
      if pos !in nodes {
        return false;
      }
      groupNodes := StrikeFrom(groupNodes, pos, nodes[pos].groups.Keys);
      ghost var struck := groupNodes;
      var e := Entry(pos, node, newGroups);
      nodes := nodes[pos := e];
      RefreshNodeEntry(e);
      PutLists(old(blockNodes), BlockOf(pos), pos, true);
      ReplaceMirrors(old(nodes), old(groupNodes), e, struck, groupNodes);
      return true;
    }

    /** The block index may be ahead: block expiry takes the bucket away first. */
    method RemoveNode(pos: Vec) returns (ok: bool)
      requires GroupsCoherent()
      modifies this`nodes, this`groupNodes, this`blockNodes
      ensures ok <==> pos in old(nodes)
      ensures nodes == old(nodes) - {pos} && GroupsCoherent()
      ensures blockNodes == if ok then Drop(old(blockNodes), BlockOf(pos), pos) else old(blockNodes)
      ensures old(Coherent()) ==> Coherent()
    {
      if pos !in nodes {
        assert nodes - {pos} == nodes;
        return false;
      }
      groupNodes := StrikeFrom(groupNodes, pos, nodes[pos].groups.Keys);
      DropLists(blockNodes, BlockOf(pos), pos);
      blockNodes := Drop(blockNodes, BlockOf(pos), pos);
      RemoveMirrors(nodes, old(groupNodes), pos, groupNodes);
      nodes := nodes - {pos};
      return true;
    }

    /** Removes exactly the nodes of a block. */
    method OnBlockExpired(block: Vec)
      requires Coherent()
      modifies this`nodes, this`groupNodes, this`blockNodes
      ensures Coherent()
      ensures nodes == map p | p in old(nodes) && BlockOf(p) != block :: old(nodes)[p]
    {
      if block in blockNodes {
        var oldNodes := blockNodes[block].Keys;
        blockNodes := blockNodes - {block};
        ghost var rest := blockNodes;
        var todo := oldNodes;
        while todo != {}
          invariant todo <= oldNodes && blockNodes == rest && GroupsMirror(nodes, groupNodes)
          invariant nodes == old(nodes) - (oldNodes - todo)
          decreases todo
        {
          var p :| p in todo;
          if p in nodes {
            assert Listed(old(blockNodes), block, p);
            var _ := RemoveNode(nodes[p].pos);
          }
          todo := todo - {p};
        }
        forall p ensures p in oldNodes <==> InBlock(old(nodes).Keys, block, p) {
          assert p in oldNodes <==> Listed(old(blockNodes), block, p);
        }
        BlockGone(old(nodes).Keys, old(blockNodes), block);
      } else {
        forall p | p in nodes ensures BlockOf(p) != block {
          assert InBlock(nodes.Keys, BlockOf(p), p);
        }
      }
    }

    /**
     `reduce_nodes_of_groups` with a reducer that notes the entry and goes on: it sees every node
     that has all the groups, once, and no other.
     */
    method ReduceNodesOfGroups(wanted: seq<string>) returns (visited: seq<Entry>)
      requires Coherent()
      ensures forall e :: e in visited ==> e.pos in nodes && nodes[e.pos] == e
      ensures forall i, j :: 0 <= i < j < |visited| ==> visited[i].pos != visited[j].pos
      ensures forall p :: p in nodes ==>
        (nodes[p] in visited <==> wanted != [] && forall k :: 0 <= k < |wanted| ==> wanted[k] in nodes[p].groups)
    {
      visited := [];
      if wanted == [] || wanted[0] !in groupNodes {
        forall p | p in nodes && wanted != [] ensures wanted[0] !in nodes[p].groups {
          assert !HasGroup(nodes, wanted[0], p);
        }
        return;
      }
      var primary := groupNodes[wanted[0]].Keys;
      var todo := primary;
      forall p | p in nodes && p !in primary ensures wanted[0] !in nodes[p].groups {
        assert !HasGroup(nodes, wanted[0], p);
      }
      while todo != {}
        invariant todo <= primary
        invariant forall e :: e in visited ==> e.pos in nodes && nodes[e.pos] == e && e.pos !in todo
        invariant forall i, j :: 0 <= i < j < |visited| ==> visited[i].pos != visited[j].pos
        invariant forall p :: p in nodes && p !in todo ==>
          (nodes[p] in visited <==> forall k :: 0 <= k < |wanted| ==> wanted[k] in nodes[p].groups)
        decreases todo
      {
        var p :| p in todo;
        assert Listed(groupNodes, wanted[0], p);
        var inAll := HasAll(p, wanted);
        if inAll {
          visited := visited + [nodes[p]];
        }
        todo := todo - {p};
      }
    }

    method HasAll(p: Vec, wanted: seq<string>) returns (all: bool)
      requires Coherent() && wanted != [] && p in nodes && wanted[0] in nodes[p].groups
      ensures all <==> forall k :: 0 <= k < |wanted| ==> wanted[k] in nodes[p].groups
    {
      all := true;
      if |wanted| > 1 {
        for i := 0 to |wanted|
          invariant all && forall k :: 0 <= k < i ==> wanted[k] in nodes[p].groups
        {
          assert Listed(groupNodes, wanted[i], p) <==> HasGroup(nodes, wanted[i], p);
          if wanted[i] !in groupNodes || p !in groupNodes[wanted[i]] {
            all := false;
            break;
          }
        }
      }
    }
  }

  lemma BlockGone(nodes: set<Vec>, idx: Index<Vec, Vec, bool>, block: Vec)
    requires BlocksMirror(nodes, idx)
    ensures BlocksMirror((set p | p in nodes && BlockOf(p) != block), idx - {block})
  {
    var m := set p | p in nodes && BlockOf(p) != block;
    forall b, p ensures Listed(idx - {block}, b, p) <==> InBlock(m, b, p) {
      assert Listed(idx, b, p) <==> InBlock(nodes, b, p);
    }
  }
}
