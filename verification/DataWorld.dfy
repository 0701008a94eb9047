/** Devices, buses and cables of the data network, and which neighbours connect. */
module DataWorlds {
  import opened Grid
  import opened Graphs
  import opened Worlds

  datatype Kind = Device | Bus | MountedBus | Cable | MountedCable

  /** `data_network_device` of a node definition. */
  datatype Part = Part(kind: Kind, color: string, accessible: map<Dir, bool>)

  /**
   The loaded nodes, the parts by node name, and the table behind `facedir_to_local_face`, which
   turns a world direction into a face of a rotated node.
   */
  datatype DataWorld = DataWorld(nodes: map<Vec, Node>, parts: map<string, Part>, faces: map<(int, Dir), Dir>) {
    function GetNode(p: Vec): Node {
      if p in nodes then nodes[p] else IGNORE
    }

    predicate HasPart(p: Vec) {
      GetNode(p).name in parts
    }

    function PartAt(p: Vec): Part
      requires HasPart(p)
    {
      parts[GetNode(p).name]
    }

    /** The placeholder of positions that are not loaded is no part of a network. */
    predicate Valid() {
      "ignore" !in parts
    }

    /** `accessible_dirs` at the face that looks in a world direction. */
    predicate Opens(node: Node, part: Part, d: Dir) {
      (node.param2, d) in faces && faces[(node.param2, d)] in part.accessible &&
        part.accessible[faces[(node.param2, d)]]
    }
  }

  predicate IsMounted(k: Kind) {
    k == MountedCable || k == MountedBus
  }

  predicate IsBus(k: Kind) {
    k == Bus || k == MountedBus
  }

  predicate IsCable(k: Kind) {
    k == Cable || k == MountedCable
  }

  predicate CompatibleColors(a: string, b: string) {
    if a == "multi" || b == "multi" then true else a == b
  }

  /** `devices_have_compatible_colors`. */
  predicate PartsCompatible(from: Part, to: Part) {
    if IsCable(from.kind) then
      (IsBus(to.kind) || IsCable(to.kind)) && CompatibleColors(from.color, to.color)
    else if IsBus(from.kind) then
      to.kind == Device || ((IsCable(to.kind) || IsBus(to.kind)) && CompatibleColors(from.color, to.color))
    else
      IsBus(to.kind)
  }

  /** `can_connect_to`: from a part to the one in a direction of it. */
  predicate CanConnect(w: DataWorld, fromNode: Node, from: Part, d: Dir, toNode: Node, to: Part) {
    if IsMounted(from.kind) && !w.Opens(fromNode, from, d) then false
    else if IsMounted(to.kind) && !w.Opens(toNode, to, Invert(d)) then false
    else PartsCompatible(from, to)
  }

  /** Two cables or buses fit when they have the same colour or one of them is `multi`. */
  predicate SameOrMulti(a: string, b: string) {
    a == b || "multi" in {a, b}
  }

  /** A part lets through in a direction; a mounted one only if the face that looks there is listed as open. */
  predicate Lets(w: DataWorld, node: Node, part: Part, d: Dir) {
    part.kind in {MountedCable, MountedBus} ==>
      exists face | face in part.accessible :: part.accessible[face] && (node.param2, d) in w.faces &&
        w.faces[(node.param2, d)] == face
  }

  /**
   What connects, by kind and colour: cables and buses whose colours fit, and a device with any bus;
   never a device with a device or a cable.
   */
  lemma ConnectsByKind(w: DataWorld, a: Node, from: Part, d: Dir, b: Node, to: Part)
    ensures CanConnect(w, a, from, d, b, to) <==>
      (Lets(w, a, from, d) && Lets(w, b, to, Invert(d)) &&
        match (from.kind, to.kind)
        case (Device, _) => to.kind in {Bus, MountedBus}
        case (_, Device) => from.kind in {Bus, MountedBus}
        case (_, _) => SameOrMulti(from.color, to.color))
  {
    assert IsMounted(from.kind) ==> (w.Opens(a, from, d) <==> Lets(w, a, from, d));
    assert IsMounted(to.kind) ==> (w.Opens(b, to, Invert(d)) <==> Lets(w, b, to, Invert(d)));
  }

  /** A connection is the same seen from either end. */
  lemma ConnectIsSymmetric(w: DataWorld, a: Node, from: Part, d: Dir, b: Node, to: Part)
    ensures CanConnect(w, a, from, d, b, to) <==> CanConnect(w, b, to, Invert(d), a, from)
  {
    InvertReturns(Vec(0, 0, 0), d);
  }

  /** Connection is not transitive: a device and a bus of each of two colours. */
  lemma ConnectIsNotTransitive(w: DataWorld, n: Node)
    ensures var red, blue, device := Part(Bus, "red", map[]), Part(Bus, "blue", map[]), Part(Device, "", map[]);
      CanConnect(w, n, red, North, n, device) && CanConnect(w, n, device, North, n, blue) &&
        !CanConnect(w, n, red, North, n, blue)
  {
    assert "red"[0] != "blue"[0];
  }

  predicate Connects(w: DataWorld, p: Vec, d: Dir) {
    var q := Step(p, d);
    w.HasPart(p) && w.HasPart(q) && CanConnect(w, w.GetNode(p), w.PartAt(p), d, w.GetNode(q), w.PartAt(q))
  }

  function PartPositions(w: DataWorld): set<Vec> {
    set p | p in w.nodes && w.HasPart(p)
  }

  /** The parts of the world and their connections. */
  function PartGraph(w: DataWorld): Graph {
    Graph(PartPositions(w), set p,
      q | p in PartPositions(w) && q in PartPositions(w) && (exists d :: Step(p, d) == q && Connects(w, p, d)) ::
        (p, q))
  }

  lemma PartGraphUndirected(w: DataWorld)
    ensures Undirected(PartGraph(w))
  {
    var g := PartGraph(w);
    forall p, q | (p, q) in g.links ensures (q, p) in g.links {
      var d :| Step(p, d) == q && Connects(w, p, d);
      InvertReturns(p, d);
      ConnectIsSymmetric(w, w.GetNode(p), w.PartAt(p), d, w.GetNode(q), w.PartAt(q));
      assert Step(q, Invert(d)) == p && Connects(w, q, Invert(d));
    }
  }

  lemma LinkIsConnection(w: DataWorld, p: Vec, d: Dir)
    requires w.Valid()
    ensures (p, Step(p, d)) in PartGraph(w).links <==> Connects(w, p, d)
  {
    var q := Step(p, d);
    if (p, q) in PartGraph(w).links {
      var e :| Step(p, e) == q && Connects(w, p, e);
      DirToStep(p, d);
      DirToStep(p, e);
    }
    if Connects(w, p, d) {
      assert p in w.nodes && q in w.nodes;
    }
  }
}
