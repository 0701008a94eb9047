/** The game world as the networks see it: named nodes at positions, and their definitions. */
module Worlds {
  import opened Basics
  import opened Grid
  import opened Graphs

  datatype Node = Node(name: string, param2: int)

  /**
   A node definition: its groups with their ratings; when it has a `yatm_network` table, the colour
   written there, if any; and the groups of its `simple_network` table, if it has one.
   */
  datatype NodeDef = NodeDef(groups: map<string, int>, network: Option<Option<string>>, member: Option<map<string,
    int>>)

  type Color = Option<string>

  const DEFAULT_COLOR: Color := Some("default")

  /** `minetest.get_node` answers for a position that is not loaded with this node. */
  const IGNORE := Node("ignore", 0)

  /** The loaded nodes, the definitions by name, and the group that a network is made of. */
  datatype World = World(nodes: map<Vec, Node>, defs: map<string, NodeDef>, group: string) {
    function GetNode(p: Vec): Node {
      if p in nodes then nodes[p] else IGNORE
    }

    /** `nodedef.groups[group]` is present. */
    predicate InGroup(node: Node) {
      node.name in defs && group in defs[node.name].groups
    }

    /** `minetest.get_item_group`. */
    function ItemGroup(node: Node): int {
      if InGroup(node) then defs[node.name].groups[group] else 0
    }

    function NodeColor(node: Node): Color {
      if node.name in defs && defs[node.name].network.Some? then
        if defs[node.name].network.value.Some? then defs[node.name].network.value else DEFAULT_COLOR
      else
        None
    }

    /** `get_node_groups`: the groups under which a node is listed in its cluster. */
    function MemberGroups(node: Node): map<string, int> {
      if node.name in defs && defs[node.name].member.Some? then defs[node.name].member.value else map[]
    }

    /** A listed group has a positive rating, and the placeholder node is in no such group. */
    ghost predicate Valid() {
      && (forall n :: n in defs && group in defs[n].groups ==> defs[n].groups[group] > 0)
      && !InGroup(Node("ignore", 0))
    }

    /** The nodes of the group, each with its colour. */
    function Painted(): Painting {
      map p | p in nodes && InGroup(nodes[p]) :: NodeColor(nodes[p])
    }
  }

  predicate Compatible(a: Color, b: Color) {
    if a == DEFAULT_COLOR || b == DEFAULT_COLOR then true else a == b
  }

  /** Colours fit when they are equal or one of them is the default. */
  predicate ColorsFit(a: Color, b: Color) {
    a == b || Some("default") in {a, b}
  }

  /** For all colours: equal ones are compatible, the default is with all, and no others are. */
  lemma CompatibleColors(a: Color, b: Color)
    ensures Compatible(a, a) && Compatible(a, Some("default")) && Compatible(Some("default"), a)
    ensures a != b && a != Some("default") && b != Some("default") ==> !Compatible(a, b)
    ensures Compatible(a, b) <==> ColorsFit(a, b)
  {
  }

  lemma CompatibleIsSymmetricOnly(a: Color, b: Color)
    ensures Compatible(a, b) <==> Compatible(b, a)
    ensures Compatible(Some("red"), DEFAULT_COLOR) && Compatible(DEFAULT_COLOR, Some("blue"))
    ensures !Compatible(Some("red"), Some("blue"))
  {
    assert "red"[0] != "blue"[0];
  }

  type Painting = map<Vec, Color>

  /** Neighbouring nodes with compatible colours are linked. */
  function ColorGraph(m: Painting): Graph {
    Graph(m.Keys, set u, v | u in m.Keys && v in m.Keys && Adjacent(u, v) && Compatible(m[u], m[v]) :: (u, v))
  }

  lemma ColorGraphUndirected(m: Painting)
    ensures Undirected(ColorGraph(m))
  {
    var g := ColorGraph(m);
    forall u, v | (u, v) in g.links ensures (v, u) in g.links {
      AdjacentSymmetric(u, v);
    }
  }
}
