/** The sub-networks of a data network: what its cables and buses connect, and the devices on the buses. */
module SubNetworks {
  import opened Grid
  import opened Graphs
  import opened DataWorlds
  import opened Floods

  /** The cables and buses among some members, and how they connect; devices are left out. */
  function CableGraph(w: DataWorld, members: set<Vec>): Graph {
    var nodes := set p | p in members && p in w.nodes && w.HasPart(p) && w.PartAt(p).kind != Device;
    Graph(nodes, set l | l in PartGraph(w).links && l.0 in nodes && l.1 in nodes)
  }

  predicate IsBusAt(w: DataWorld, p: Vec) {
    w.HasPart(p) && IsBus(w.PartAt(p).kind)
  }

  predicate IsDeviceAt(w: DataWorld, p: Vec) {
    w.HasPart(p) && w.PartAt(p).kind == Device
  }

  lemma CableGraphUndirected(w: DataWorld, members: set<Vec>)
    ensures Undirected(CableGraph(w, members))
  {
    PartGraphUndirected(w);
  }

  lemma IsCableNode(w: DataWorld, members: set<Vec>, p: Vec)
    requires w.Valid() && p in members && w.HasPart(p)
    ensures p in CableGraph(w, members).nodes <==> w.PartAt(p).kind != Device
  {
  }

  lemma CableNeighbours(w: DataWorld, members: set<Vec>, pos: Vec, more: set<Vec>)
    requires w.Valid() && pos in CableGraph(w, members).nodes
    requires forall d :: d in DIRS ==> (Step(pos, d) in members && Connects(w, pos, d) ==> Step(pos, d) in more)
    requires forall u :: u in more ==> exists d :: Step(pos, d) == u && Connects(w, pos, d)
    ensures Lists(CableGraph(w, members), pos, more)
  {
    forall u | u in CableGraph(w, members).nodes ensures (pos, u) in CableGraph(w, members).links <==> u in more {
      if (pos, u) in CableGraph(w, members).links {
        var d :| Step(pos, d) == u && Connects(w, pos, d);
        AllDirs(d);
      }
      if u in more {
        var d :| Step(pos, d) == u && Connects(w, pos, d);
        LinkIsConnection(w, pos, d);
      }
    }
  }

  datatype SubNetwork = SubNetwork(cables: set<Vec>, devices: set<Vec>)

  type Side = (Vec, Dir)

  type Subs = map<nat, SubNetwork>

  function CablesOf(subs: Subs, i: nat): set<Vec> {
    if i in subs then subs[i].cables else {}
  }

  /**
   The sub-networks are components of the cable graph, each has a bus, and the record of a cable or
   bus names the sub-network that it is in.
   */
  ghost predicate AreBranches(w: DataWorld, members: set<Vec>, subs: Subs, subOf: map<Vec, nat>) {
    && (forall i :: i in subs ==> IsBranch(w, members, subs[i].cables))
    && (forall i, p :: p in CablesOf(subs, i) <==> p in subOf && subOf[p] == i)
  }

  ghost predicate IsBranch(w: DataWorld, members: set<Vec>, c: set<Vec>) {
    Component(CableGraph(w, members), c) && exists b :: b in c && IsBusAt(w, b)
  }

  /** Every bus is in a sub-network. */
  ghost predicate EveryBus(w: DataWorld, buses: set<Vec>, subOf: map<Vec, nat>) {
    forall b :: b in buses && IsBusAt(w, b) ==> b in subOf
  }

  /**
   Every bus lies in exactly one sub-network, different sub-networks have no cable in common, and
   they are exactly the components with a bus: so a device never joins two of them.
   */
  lemma BranchesPartition(w: DataWorld, members: set<Vec>, subs: Subs, subOf: map<Vec, nat>)
    requires w.Valid() && AreBranches(w, members, subs, subOf) && EveryBus(w, members, subOf)
    ensures forall i, j :: i in subs && j in subs && i != j ==> subs[i].cables !! subs[j].cables
    ensures forall b :: b in members && IsBusAt(w, b) ==> exists i :: i in subs && b in subs[i].cables && forall j ::
      b in CablesOf(subs, j) ==> j == i
    ensures forall c :: IsBranch(w, members, c) <==> exists i :: i in subs && subs[i].cables == c
  {
    hide CableGraph, Component;
    forall i, j | i in subs && j in subs && i != j ensures subs[i].cables !! subs[j].cables {
      forall p | p in subs[i].cables ensures p !in subs[j].cables {
        assert p in CablesOf(subs, i) && (p in CablesOf(subs, j) <==> p in subOf && subOf[p] == j);
      }
    }
    forall b | b in members && IsBusAt(w, b)
      ensures exists i :: i in subs && b in subs[i].cables && forall j :: b in CablesOf(subs, j) ==> j == i
    {
      var i := subOf[b];
      assert b in CablesOf(subs, i);
    }
    forall c | IsBranch(w, members, c) ensures exists i :: i in subs && subs[i].cables == c {
      BranchIsBuilt(w, members, subs, subOf, c);
    }
  }

  lemma BranchIsBuilt(w: DataWorld, members: set<Vec>, subs: Subs, subOf: map<Vec, nat>, c: set<Vec>)
    requires AreBranches(w, members, subs, subOf) && EveryBus(w, members, subOf) && IsBranch(w, members, c)
    ensures exists i :: i in subs && subs[i].cables == c
  {
    var b :| b in c && IsBusAt(w, b);
    assert b in members;
    var i := subOf[b];
    assert b in CablesOf(subs, i);
    ComponentUnique(CableGraph(w, members), c, subs[i].cables, b);
  }

  /** If one of a component is in a sub-network, all of it is. */
  lemma NamedTogether(w: DataWorld, members: set<Vec>, subs: Subs, subOf: map<Vec, nat>, c: set<Vec>, p: Vec)
    requires AreBranches(w, members, subs, subOf) && Component(CableGraph(w, members), c) && p in c && p in subOf
    ensures forall q :: q in c ==> q in subOf
  {
    var i := subOf[p];
    assert p in CablesOf(subs, i) && IsBranch(w, members, subs[i].cables);
    ComponentUnique(CableGraph(w, members), c, subs[i].cables, p);
    assert forall q :: q in c ==> q in CablesOf(subs, i);
  }

  /** What one more explored sub-network adds. */
  lemma BranchAdds(w: DataWorld, members: set<Vec>, subs: Subs, subOf: map<Vec, nat>, id: nat, sub: SubNetwork,
                   origin: Vec)
    requires AreBranches(w, members, subs, subOf) && id !in subs && Component(CableGraph(w, members), sub.cables)
    requires origin in sub.cables && IsBusAt(w, origin) && origin !in subOf
    ensures AreBranches(w, members, subs[id := sub], subOf + Named(sub.cables, id))
    ensures forall p :: p in sub.cables ==> p !in subOf
  {
    forall p | p in sub.cables ensures p !in subOf {
      if p in subOf {
        NamedTogether(w, members, subs, subOf, sub.cables, p);
      }
    }
    var subs', subOf' := subs[id := sub], subOf + Named(sub.cables, id);
    forall i, p ensures p in CablesOf(subs', i) <==> p in subOf' && subOf'[p] == i {
      assert p in CablesOf(subs, i) <==> p in subOf && subOf[p] == i;
      assert p in CablesOf(subs, id) <==> p in subOf && subOf[p] == id;
    }
    forall i | i in subs' ensures IsBranch(w, members, subs'[i].cables) {
      if i != id {
        assert IsBranch(w, members, subs[i].cables);
      }
    }
  }

  /* The devices on the buses. */

  /** A bus looks at its neighbour in a direction: a mounted bus only through the faces it opens. */
  predicate Faces(w: DataWorld, outward: (int, Dir) -> Dir, b: Vec, d: Dir) {
    IsBusAt(w, b) &&
      (w.PartAt(b).kind == Bus || exists face | face in w.PartAt(b).accessible ::
        outward(w.GetNode(b).param2, face) == d)
  }

  /** The side of a device that looks at one of the given buses, which looks back. */
  predicate OnBus(w: DataWorld, outward: (int, Dir) -> Dir, members: set<Vec>, buses: set<Vec>, s: Side) {
    && s.0 in members && IsDeviceAt(w, s.0) && Step(s.0, s.1) in buses
    && Faces(w, outward, Step(s.0, s.1), Invert(s.1))
  }

  function SidesOn(w: DataWorld, outward: (int, Dir) -> Dir, members: set<Vec>, buses: set<Vec>): set<Side> {
    set p, d | p in members && d in DIRS && OnBus(w, outward, members, buses, (p, d)) :: (p, d)
  }

  lemma OnBusIsSide(w: DataWorld, outward: (int, Dir) -> Dir, members: set<Vec>, buses: set<Vec>, s: Side)
    ensures s in SidesOn(w, outward, members, buses) <==> OnBus(w, outward, members, buses, s)
  {
    AllDirs(s.1);
    assert s == (s.0, s.1);
  }

  function DevicesOf(sides: set<Side>): set<Vec> {
    set s | s in sides :: s.0
  }

  /** The sides of devices that one bus sees in some directions. */
  function Seen(w: DataWorld, members: set<Vec>, b: Vec, dirs: set<Dir>): set<Side> {
    set d | d in dirs && Step(b, d) in members && IsDeviceAt(w, Step(b, d)) :: (Step(b, d), Invert(d))
  }

  /** The directions that a mounted bus looks at, through some of its faces. */
  function Outward(w: DataWorld, outward: (int, Dir) -> Dir, b: Vec, faces: set<Dir>): set<Dir> {
    set f | f in faces :: outward(w.GetNode(b).param2, f)
  }

  function Looks(w: DataWorld, outward: (int, Dir) -> Dir, b: Vec): set<Dir> {
    if !IsBusAt(w, b) then {}
    else if w.PartAt(b).kind == Bus then DIRS
    else Outward(w, outward, b, w.PartAt(b).accessible.Keys)
  }

  lemma SidesMore(w: DataWorld, outward: (int, Dir) -> Dir, members: set<Vec>, buses: set<Vec>, b: Vec)
    ensures SidesOn(w, outward, members, buses + {b}) ==
      SidesOn(w, outward, members, buses) + Seen(w, members, b, Looks(w, outward, b))
  {
    forall s: Side
      ensures s in SidesOn(w, outward, members, buses + {b}) <==>
        s in SidesOn(w, outward, members, buses) || s in Seen(w, members, b, Looks(w, outward, b))
    {
      OnBusIsSide(w, outward, members, buses + {b}, s);
      OnBusIsSide(w, outward, members, buses, s);
      SeenSide(w, outward, members, b, s);
    }
  }

  lemma SeenSide(w: DataWorld, outward: (int, Dir) -> Dir, members: set<Vec>, b: Vec, s: Side)
    ensures s in Seen(w, members, b, Looks(w, outward, b)) <==> OnBus(w, outward, members, {b}, s)
  {
    InvertReturns(s.0, s.1);
    AllDirs(Invert(s.1));
    if s in Seen(w, members, b, Looks(w, outward, b)) {
      var d :| d in Looks(w, outward, b) && s == (Step(b, d), Invert(d));
      InvertReturns(b, d);
    }
    if OnBus(w, outward, members, {b}, s) {
      var d := Invert(s.1);
      assert d in Looks(w, outward, b) && s == (Step(b, d), Invert(d));
    }
  }

  /** A sub-network gets more devices. */
  function WithDevices(subs: Subs, id: nat, devices: set<Vec>): Subs
    requires id in subs
  {
    subs[id := SubNetwork(subs[id].cables, subs[id].devices + devices)]
  }

  lemma WithMoreDevices(subs: Subs, id: nat, ds: set<Vec>, es: set<Vec>)
    requires id in subs
    ensures WithDevices(WithDevices(subs, id, ds), id, es) == WithDevices(subs, id, ds + es)
  {
    assert subs[id].devices + ds + es == subs[id].devices + (ds + es);
  }

  function Marked(sides: set<Side>, id: nat): map<Side, nat> {
    map s | s in sides :: id
  }

  lemma MarkedMore(at: map<Side, nat>, id: nat, s: set<Side>, t: set<Side>)
    ensures at + Marked(s, id) + Marked(t, id) == at + Marked(s + t, id)
    ensures DevicesOf(s + t) == DevicesOf(s) + DevicesOf(t)
  {
  }

  /** The devices of the sub-networks, the sides that have a colour, and the sub-network of each side. */
  datatype Attachments = Attachments(subs: Subs, colored: set<Side>, at: map<Side, nat>) {
    /** More sides look at buses of a sub-network. */
    ghost predicate Became(id: nat, sides: set<Side>, later: Attachments) {
      && id in subs && later.subs == WithDevices(subs, id, DevicesOf(sides))
      && later.colored == colored + sides && later.at == at + Marked(sides, id)
    }
  }

  lemma NothingAttached(a: Attachments, id: nat)
    requires id in a.subs
    ensures a.Became(id, {}, a)
  {
    assert a.subs[id].devices + DevicesOf({}) == a.subs[id].devices;
  }

  lemma MoreAttached(a: Attachments, id: nat, s: set<Side>, b: Attachments, t: set<Side>, c: Attachments)
    requires a.Became(id, s, b) && b.Became(id, t, c)
    ensures a.Became(id, s + t, c)
  {
    hide WithDevices, DevicesOf, Marked;
    MarkedMore(a.at, id, s, t);
    WithMoreDevices(a.subs, id, DevicesOf(s), DevicesOf(t));
  }

  lemma OneAttached(a: Attachments, id: nat, side: Side, b: Attachments)
    requires id in a.subs && b.subs == a.subs[id := a.subs[id].(devices := a.subs[id].devices + {side.0})]
    requires b.colored == a.colored + {side} && b.at == a.at[side := id]
    ensures a.Became(id, {side}, b)
  {
    assert DevicesOf({side}) == {side.0};
    assert Marked({side}, id) == map[side := id];
  }

  /** The records of some cables name their sub-network. */
  function Named(cables: set<Vec>, id: nat): map<Vec, nat> {
    map p | p in cables :: id
  }

  lemma NamedMore(subOf: map<Vec, nat>, cables: set<Vec>, p: Vec, id: nat)
    ensures subOf + Named(cables + {p}, id) == (subOf + Named(cables, id))[p := id]
    ensures subOf + Named({}, id) == subOf
  {
  }

  lemma OneSeen(w: DataWorld, members: set<Vec>, b: Vec, d: Dir)
    ensures Seen(w, members, b, {d}) == if Step(b, d) in members && IsDeviceAt(w, Step(b, d)) then
      {(Step(b, d), Invert(d))} else {}
  {
  }

  lemma SeenNothing(w: DataWorld, members: set<Vec>, b: Vec)
    ensures Seen(w, members, b, {}) == {}
  {
  }

  lemma SeenMore(w: DataWorld, members: set<Vec>, b: Vec, dirs: set<Dir>, d: Dir)
    ensures Seen(w, members, b, dirs + {d}) == Seen(w, members, b, dirs) + Seen(w, members, b, {d})
  {
  }

  lemma OutwardMore(w: DataWorld, outward: (int, Dir) -> Dir, b: Vec, faces: set<Dir>, face: Dir)
    ensures Outward(w, outward, b, faces + {face}) ==
      Outward(w, outward, b, faces) + {outward(w.GetNode(b).param2, face)}
    ensures Outward(w, outward, b, {}) == {}
  {
  }

  lemma NoSides(w: DataWorld, outward: (int, Dir) -> Dir, members: set<Vec>)
    ensures SidesOn(w, outward, members, {}) == {}
  {
  }

  /**
   A side of a device has a sub-network exactly when it is on a bus of that sub-network, it then has
   a colour, and a sub-network lists exactly the devices on its buses.
   */
  ghost predicate AreAttached(w: DataWorld, outward: (int, Dir) -> Dir, members: set<Vec>, a: Attachments) {
    && (forall s, i :: Holds(a.at, s, i) <==> OnBus(w, outward, members, CablesOf(a.subs, i), s))
    && a.at.Keys <= a.colored
    && (forall i :: i in a.subs ==> a.subs[i].devices == DevicesOf(SidesOn(w, outward, members, a.subs[i].cables)))
  }

  predicate Holds(at: map<Side, nat>, s: Side, i: nat) {
    s in at && at[s] == i
  }

  lemma NewBranchAttaches(w: DataWorld, outward: (int, Dir) -> Dir, members: set<Vec>, a: Attachments, id: nat,
                          cables: set<Vec>, b: Attachments)
    requires AreAttached(w, outward, members, a) && id !in a.subs
    requires forall i, p :: p in cables ==> p !in CablesOf(a.subs, i)
    requires a.(subs := a.subs[id := SubNetwork(cables, {})]).Became(id, SidesOn(w, outward, members, cables), b)
    ensures AreAttached(w, outward, members, b)
  {
    hide OnBus, SidesOn;
    var sides := SidesOn(w, outward, members, cables);
    forall s, i ensures Holds(b.at, s, i) <==> OnBus(w, outward, members, CablesOf(b.subs, i), s) {
      OnBusIsSide(w, outward, members, cables, s);
      assert Holds(a.at, s, i) <==> OnBus(w, outward, members, CablesOf(a.subs, i), s);
      OnOneBus(w, outward, members, cables, CablesOf(a.subs, i), s);
      OnNoBus(w, outward, members, s);
      assert s in a.at ==>
        Holds(a.at, s, a.at[s]) && (s in sides ==> OnBus(w, outward, members, CablesOf(a.subs, a.at[s]), s));
      if s in a.at {
        OnOneBus(w, outward, members, cables, CablesOf(a.subs, a.at[s]), s);
      }
    }
  }

  lemma OnOneBus(w: DataWorld, outward: (int, Dir) -> Dir, members: set<Vec>, c: set<Vec>, d: set<Vec>, s: Side)
    requires forall p :: p in c ==> p !in d
    ensures !(OnBus(w, outward, members, c, s) && OnBus(w, outward, members, d, s))
  {
  }

  lemma OnNoBus(w: DataWorld, outward: (int, Dir) -> Dir, members: set<Vec>, s: Side)
    ensures !OnBus(w, outward, members, {}, s)
  {
  }

  lemma NotListed(w: DataWorld, members: set<Vec>, subs: Subs, subOf: map<Vec, nat>, nodes: set<Vec>)
    requires AreBranches(w, members, subs, subOf) && forall p :: p in nodes ==> p !in subOf
    ensures forall i, p :: p in nodes ==> p !in CablesOf(subs, i)
  {
    forall i, p | p in nodes ensures p !in CablesOf(subs, i) {
      assert p in CablesOf(subs, i) ==> p in subOf;
    }
  }

  lemma DevicesIrrelevant(w: DataWorld, members: set<Vec>, a: Attachments, id: nat, sides: set<Side>, b: Attachments,
                          subOf: map<Vec, nat>)
    requires AreBranches(w, members, a.subs, subOf) && a.Became(id, sides, b)
    ensures AreBranches(w, members, b.subs, subOf)
  {
    var subs, subs' := a.subs, b.subs;
    forall i ensures CablesOf(subs', i) == CablesOf(subs, i) {
    }
    assert forall i :: i in subs' ==> subs'[i].cables == subs[i].cables;
  }

  lemma NothingBuilt(w: DataWorld, outward: (int, Dir) -> Dir, members: set<Vec>)
    ensures AreBranches(w, members, map[], map[])
    ensures forall colored :: AreAttached(w, outward, members, Attachments(map[], colored, map[]))
  {
  }
}
