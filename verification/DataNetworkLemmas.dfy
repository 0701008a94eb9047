/** The records of the data network on values: members, networks and what a refresh does to them. */
module DataNetworkLemmas {
  import opened Basics
  import opened Grid
  import opened Graphs
  import opened Clusterings
  import opened Worlds
  import opened Buckets
  import opened ClusterNodes
  import opened DataWorlds
  import opened Floods

  datatype Member = Member(pos: Vec, node: Node, part: Option<Part>, networkId: Option<nat>, resolutionId: Option<nat>)

  type Members = map<Vec, Member>

  /** The member set of each registered network. */
  type Networks = map<nat, set<Vec>>

  function ListSet(s: seq<Vec>): set<Vec> {
    set p | p in s
  }

  lemma MadeAreResolved(w: DataWorld, ms: Members, found: set<Vec>, id: nat, r: nat)
    requires forall p :: p in ms && ms[p].resolutionId.Some? ==> ms[p].resolutionId.value <= r
    ensures var n := (ms - found) + Made(w, found, id, r);
      forall p :: p in n && n[p].resolutionId.Some? ==> n[p].resolutionId.value <= r
  {
  }

  predicate Resolved(ms: Members, r: nat, p: Vec) {
    p in ms && ms[p].resolutionId == Some(r)
  }

  /** The records of the members of a new network. */
  function Made(w: DataWorld, ps: set<Vec>, id: nat, r: nat): Members {
    map p | p in ps && w.HasPart(p) :: Member(p, w.GetNode(p), Some(w.PartAt(p)), Some(id), Some(r))
  }

  /** The state after a refresh that found the positions `found`. */
  ghost predicate Rebuilds(w: DataWorld, ms: Members, nets: Networks, found: set<Vec>, id: nat, r: nat, ms': Members,
                           nets': Networks) {
    && id !in nets && ms' == (ms - found) + Made(w, found, id, r)
    && nets' == if found == {} then TakeOut(nets, found) else TakeOut(nets, found)[id := found]
  }

  lemma FoundAreParts(w: DataWorld, basePos: Vec, found: set<Vec>)
    requires Flood(PartGraph(w), basePos, found, {}).Done()
    ensures forall p :: p in found ==> p in w.nodes && w.HasPart(p)
  {
  }

  lemma TakeOutNothing(nets: Networks, ms: Members)
    requires Agree(ms, nets)
    ensures TakeOut(nets, {}) == nets
  {
    forall i | i in nets ensures nets[i] - {} == nets[i] {
    }
  }

  lemma NothingMade(w: DataWorld, ms: Members, id: nat, r: nat)
    ensures (ms - {}) + Made(w, {}, id, r) == ms
  {
  }

  lemma MadeNext(w: DataWorld, ms: Members, ps: set<Vec>, p: Vec, id: nat, r: nat)
    requires p !in ps && w.HasPart(p)
    ensures ((ms - ps) + Made(w, ps, id, r) - {p})[p := Member(p, w.GetNode(p), Some(w.PartAt(p)), Some(id), Some(r))]
         == (ms - (ps + {p})) + Made(w, ps + {p}, id, r)
    ensures p in (ms - ps) + Made(w, ps, id, r) <==> p in ms
    ensures p in ms ==> ((ms - ps) + Made(w, ps, id, r))[p] == ms[p]
  {
  }

  /** Taking out one more position is what unregistering its record does. */
  lemma TakeOutNext(ms: Members, nets: Networks, ps: set<Vec>, p: Vec)
    requires Agree(ms, nets) && p !in ps
    ensures TakeOut(nets, ps + {p}) == if p in ms && ms[p].networkId.Some?
                                       then Withdraw(TakeOut(nets, ps), ms[p].networkId.value, p) else TakeOut(nets, ps)
  {
    forall i | i in nets && !NamesNetwork(ms, i, p) ensures nets[i] - (ps + {p}) == nets[i] - ps {
      assert !InNetwork(nets, i, p);
    }
    if p in ms && ms[p].networkId.Some? {
      var i := ms[p].networkId.value;
      assert NamesNetwork(ms, i, p) && InNetwork(nets, i, p);
      assert p in nets[i] - ps && nets[i] - (ps + {p}) == nets[i] - ps - {p};
    }
  }

  lemma DroppedThenPut(ps: set<Vec>, idx: Index<Vec, Vec, bool>, p: Vec)
    requires BlocksMirror(ps, idx)
    ensures BlocksMirror(ps + {p}, Put(if p in ps then Drop(idx, BlockOf(p), p) else idx, BlockOf(p), p, true))
  {
    var dropped := if p in ps then Drop(idx, BlockOf(p), p) else idx;
    DroppedMirror(ps, idx, p, dropped);
    PutLists(dropped, BlockOf(p), p, true);
    var r := Put(dropped, BlockOf(p), p, true);
    forall b, q ensures Listed(r, b, q) <==> InBlock(ps + {p}, b, q) {
      assert Listed(dropped, b, q) <==> InBlock(ps - {p}, b, q);
    }
  }

  lemma RebuildAgrees(w: DataWorld, ms: Members, nets: Networks, found: set<Vec>, id: nat, r: nat)
    requires Agree(ms, nets) && id !in nets && forall p :: p in found ==> w.HasPart(p)
    ensures Agree((ms - found) + Made(w, found, id, r), if found == {} then TakeOut(nets, found)
      else TakeOut(nets, found)[id := found])
  {
    var ms' := (ms - found) + Made(w, found, id, r);
    var nets' := if found == {} then TakeOut(nets, found) else TakeOut(nets, found)[id := found];
    forall i, p ensures InNetwork(nets', i, p) <==> NamesNetwork(ms', i, p) {
      TakenOut(nets, found, i, p);
      assert InNetwork(nets, i, p) <==> NamesNetwork(ms, i, p);
    }
  }

  lemma TakenOut(nets: Networks, ps: set<Vec>, i: nat, p: Vec)
    ensures InNetwork(TakeOut(nets, ps), i, p) <==> InNetwork(nets, i, p) && p !in ps
  {
    if InNetwork(nets, i, p) && p !in ps {
      assert p in nets[i] - ps;
    }
  }

  lemma TakeOutAgrees(ms: Members, nets: Networks, ps: set<Vec>)
    requires Agree(ms, nets)
    ensures Agree(ms - ps, TakeOut(nets, ps))
  {
    forall i, p ensures InNetwork(TakeOut(nets, ps), i, p) <==> NamesNetwork(ms - ps, i, p) {
      TakenOut(nets, ps, i, p);
      assert InNetwork(nets, i, p) <==> NamesNetwork(ms, i, p);
    }
  }

  lemma NewMemberAgrees(ms: Members, nets: Networks, p: Vec, node: Node)
    requires Agree(ms, nets) && p !in ms
    ensures Agree(ms[p := Member(p, node, None, None, None)], nets)
  {
    forall i, q ensures InNetwork(nets, i, q) <==> NamesNetwork(ms[p := Member(p, node, None, None, None)], i, q) {
      assert InNetwork(nets, i, q) <==> NamesNetwork(ms, i, q);
    }
  }

  lemma DroppedMirror(ps: set<Vec>, idx: Index<Vec, Vec, bool>, p: Vec, r: Index<Vec, Vec, bool>)
    requires BlocksMirror(ps, idx) && r == if p in ps then Drop(idx, BlockOf(p), p) else idx
    ensures BlocksMirror(ps - {p}, r)
  {
    DropLists(idx, BlockOf(p), p);
    forall b, q ensures Listed(r, b, q) <==> InBlock(ps - {p}, b, q) {
      assert Listed(idx, b, q) <==> InBlock(ps, b, q);
    }
  }

  /** A network has a position as a member. */
  predicate InNetwork(nets: Networks, i: nat, p: Vec) {
    i in nets && p in nets[i]
  }

  predicate NamesNetwork(ms: Members, i: nat, p: Vec) {
    p in ms && ms[p].networkId == Some(i)
  }

  /**
   The networks and the records of their members agree: a position is a member of a network exactly
   when its record names that network, and no network is empty.
   */
  ghost predicate Agree(ms: Members, nets: Networks) {
    && (forall p :: p in ms ==> ms[p].pos == p)
    && (forall i, p :: InNetwork(nets, i, p) <==> NamesNetwork(ms, i, p))
    && (forall i :: i in nets ==> nets[i] != {})
  }

  /** A position and its neighbours in some directions. */
  function Beside(p: Vec, dirs: set<Dir>): set<Vec> {
    {p} + set d | d in dirs :: Step(p, d)
  }

  function AllBeside(ps: set<Vec>): set<Vec> {
    set p, q | p in ps && q in Beside(p, DIRS) :: q
  }

  lemma NothingBeside()
    ensures AllBeside({}) == {}
  {
  }

  lemma BesideMore(ps: set<Vec>, p: Vec)
    ensures AllBeside(ps + {p}) == AllBeside(ps) + Beside(p, DIRS)
  {
    forall q | q in AllBeside(ps) + Beside(p, DIRS) ensures q in AllBeside(ps + {p}) {
      if q in Beside(p, DIRS) {
        assert p in ps + {p};
      }
    }
  }

  /** Queued refreshes that are not cancelled. */
  function Waits(ps: set<Vec>): map<Vec, bool> {
    map p | p in ps :: false
  }

  function Around(p: Vec): map<Vec, bool> {
    Waits(Beside(p, DIRS))
  }

  lemma BesideNone(queued: map<Vec, bool>, p: Vec)
    ensures queued[p := false] == queued + Waits(Beside(p, {}))
  {
    assert Beside(p, {}) == {p};
  }

  lemma AroundMore(queued: map<Vec, bool>, p: Vec, dirs: set<Dir>, d: Dir)
    ensures queued + Waits(Beside(p, dirs + {d})) == (queued + Waits(Beside(p, dirs)))[Step(p, d) := false]
  {
    assert Beside(p, dirs + {d}) == Beside(p, dirs) + {Step(p, d)};
  }

  /** A network without a position, and without the network when that was its last member. */
  function Withdraw(nets: Networks, i: nat, p: Vec): Networks {
    if i !in nets || p !in nets[i] then nets
    else if nets[i] == {p} then nets - {i}
    else nets[i := nets[i] - {p}]
  }

  /** All networks without some positions, and without the networks that this empties. */
  function TakeOut(nets: Networks, ps: set<Vec>): Networks {
    map i | i in nets && nets[i] - ps != {} :: nets[i] - ps
  }

  lemma ListSplits(list: seq<Vec>, i: nat)
    requires i < |list|
    ensures ListSet(list[i..]) == {list[i]} + ListSet(list[i + 1..]) && list[i] in ListSet(list)
  {
    assert list[i..] == [list[i]] + list[i + 1..];
  }

  lemma PartIsNode(w: DataWorld, p: Vec)
    requires w.Valid()
    ensures p in PartGraph(w).nodes <==> w.HasPart(p)
  {
  }

  lemma NeighboursAreLinks(w: DataWorld, pos: Vec, more: set<Vec>)
    requires w.Valid() && w.HasPart(pos)
    requires forall d :: d in DIRS ==> (Connects(w, pos, d) ==> Step(pos, d) in more)
    requires forall u :: u in more ==> exists d :: Step(pos, d) == u && Connects(w, pos, d)
    ensures Lists(PartGraph(w), pos, more) && more <= PartGraph(w).nodes
  {
    forall u ensures (pos, u) in PartGraph(w).links <==> u in more {
      if (pos, u) in PartGraph(w).links {
        var d :| Step(pos, d) == u && Connects(w, pos, d);
        AllDirs(d);
      }
      if u in more {
        var d :| Step(pos, d) == u && Connects(w, pos, d);
        LinkIsConnection(w, pos, d);
      }
    }
    PartGraphUndirected(w);
  }

  lemma ListAppends(s: seq<Vec>, p: Vec)
    ensures ListSet(s + [p]) == ListSet(s) + {p}
  {
  }

  lemma ListOfOne(p: Vec)
    ensures ListSet([p]) == {p}
  {
  }

  lemma ListOfNone()
    ensures ListSet([]) == {}
  {
  }

  lemma SeenIsIrrelevant(g: Graph, origin: Vec, found: set<Vec>, seen: set<Vec>)
    requires Flood(g, origin, found, seen).Done()
    ensures Flood(g, origin, found, {}).Done()
  {
  }

  /* What the networks have to do with the world. */

  /** The positions whose refresh is queued and was not cancelled. */
  function Pending(queued: map<Vec, bool>): set<Vec> {
    set p | p in queued && !queued[p]
  }

  /**
   The networks hold parts of the world only, and a component of connected parts that is not a
   network has a position that waits for a refresh.
   */
  ghost predicate Accounted(g: Graph, nets: Networks, waiting: set<Vec>) {
    && (forall i :: i in nets ==> nets[i] <= g.nodes)
    && (forall d :: Component(g, d) ==> d in nets.Values || d * waiting != {})
  }

  /** A position reached in this update is in a network that is its component, reached as a whole. */
  ghost predicate Settled(g: Graph, ms: Members, nets: Networks, r: nat) {
    forall p :: Resolved(ms, r, p) ==> InPlace(g, ms, nets, r, p)
  }

  ghost predicate InPlace(g: Graph, ms: Members, nets: Networks, r: nat, p: Vec) {
    && p in ms && ms[p].networkId.Some? && InNetwork(nets, ms[p].networkId.value, p)
    && Component(g, nets[ms[p].networkId.value])
    && forall q :: q in nets[ms[p].networkId.value] ==> Resolved(ms, r, q)
  }

  /**
   One refresh in the world `w`, of the position `base`: it found `found`, which became the network
   `id`. The records and networks are `ms` and `nets` before, and `ms'` and `nets'` afterwards.
   */
  datatype Refresh = Refresh(w: DataWorld, base: Vec, found: set<Vec>, id: nat, r: nat,
                             ms: Members, nets: Networks, ms': Members, nets': Networks)
  {
    /** The position was not reached yet in this update. */
    ghost predicate Valid() {
      && w.Valid() && Agree(ms, nets) && !Resolved(ms, r, base)
      && Flood(PartGraph(w), base, found, {}).Done() && Rebuilds(w, ms, nets, found, id, r, ms', nets')
    }
  }

  /** What is connected to a position that was not reached yet was not reached either. */
  lemma FoundIsUnresolved(x: Refresh, q: Vec)
    requires x.Valid() && Settled(PartGraph(x.w), x.ms, x.nets, x.r) && q in x.found
    ensures !Resolved(x.ms, x.r, q)
  {
    hide PartGraph, Agree, Rebuilds;
    if Resolved(x.ms, x.r, q) {
      assert InPlace(PartGraph(x.w), x.ms, x.nets, x.r, q);
      ComponentUnique(PartGraph(x.w), x.found, x.nets[x.ms[q].networkId.value], q);
      assert false;
    }
  }

  lemma RefreshKeepsInPlace(x: Refresh, p: Vec)
    requires x.Valid() && Settled(PartGraph(x.w), x.ms, x.nets, x.r)
    requires Resolved(x.ms, x.r, p)
    ensures Resolved(x.ms', x.r, p) && InPlace(PartGraph(x.w), x.ms', x.nets', x.r, p)
  {
    hide PartGraph, Agree, Component;
    assert InPlace(PartGraph(x.w), x.ms, x.nets, x.r, p);
    var i := x.ms[p].networkId.value;
    forall q | q in x.nets[i] ensures q !in x.found {
      if q in x.found {
        FoundIsUnresolved(x, q);
      }
    }
    assert x.nets[i] - x.found == x.nets[i];
    assert i != x.id && x.nets'[i] == x.nets[i];
  }

  lemma RefreshSettles(x: Refresh)
    requires x.Valid() && Settled(PartGraph(x.w), x.ms, x.nets, x.r)
    ensures Settled(PartGraph(x.w), x.ms', x.nets', x.r)
    ensures forall p :: Resolved(x.ms, x.r, p) ==> Resolved(x.ms', x.r, p)
    ensures x.w.HasPart(x.base) ==> Resolved(x.ms', x.r, x.base)
  {
    hide Agree, Settled, InPlace, Refresh.Valid;
    forall p | Resolved(x.ms, x.r, p)
      ensures Resolved(x.ms', x.r, p) && InPlace(PartGraph(x.w), x.ms', x.nets', x.r, p)
    {
      RefreshKeepsInPlace(x, p);
    }
    forall p | Resolved(x.ms', x.r, p) && !Resolved(x.ms, x.r, p)
      ensures InPlace(PartGraph(x.w), x.ms', x.nets', x.r, p)
    {
      NewIsInPlace(x, p);
    }
    BaseIsResolved(x);
    MeansSettled(PartGraph(x.w), x.ms', x.nets', x.r);
  }

  lemma MeansSettled(g: Graph, ms: Members, nets: Networks, r: nat)
    requires forall p :: Resolved(ms, r, p) ==> InPlace(g, ms, nets, r, p)
    ensures Settled(g, ms, nets, r)
  {
  }

  lemma NewIsInPlace(x: Refresh, p: Vec)
    requires x.Valid() && Resolved(x.ms', x.r, p) && !Resolved(x.ms, x.r, p)
    ensures InPlace(PartGraph(x.w), x.ms', x.nets', x.r, p)
  {
    hide Agree, TakeOut;
    FoundAreParts(x.w, x.base, x.found);
    assert p in x.found;
  }

  lemma BaseIsResolved(x: Refresh)
    requires x.Valid()
    ensures x.w.HasPart(x.base) ==> Resolved(x.ms', x.r, x.base)
  {
    hide Agree, TakeOut;
    assert x.w.HasPart(x.base) ==> x.base in PartGraph(x.w).nodes;
  }

  lemma RefreshedMembers(x: Refresh)
    requires x.Valid()
    ensures x.ms.Keys <= x.ms'.Keys <= x.ms.Keys + PartPositions(x.w)
  {
    hide Agree, TakeOut;
    FoundAreParts(x.w, x.base, x.found);
  }

  /** A refresh accounts for its position. */
  lemma RefreshAccounts(x: Refresh, waiting: set<Vec>)
    requires x.Valid() && Accounted(PartGraph(x.w), x.nets, waiting)
    ensures Accounted(PartGraph(x.w), x.nets', waiting - {x.base})
  {
    hide PartGraph, Agree, Made;
    var g := PartGraph(x.w);
    forall d | Component(g, d) ensures d in x.nets'.Values || d * (waiting - {x.base}) != {} {
      if x.base in d {
        ComponentUnique(g, d, x.found, x.base);
        assert x.id in x.nets' && x.nets'[x.id] == d;
      } else if d * waiting != {} {
        var u :| u in d * waiting;
        assert u in d * (waiting - {x.base});
      } else {
        var i :| i in x.nets && x.nets[i] == d;
        forall u | u in x.found ensures u !in d {
          if u in d {
            ComponentUnique(g, d, x.found, u);
          }
        }
        assert x.nets[i] - x.found == d;
        assert i in x.nets' && x.nets'[i] == d;
      }
    }
  }

  /** A position whose component is a network already needs no refresh. */
  lemma SkipAccounts(g: Graph, ms: Members, nets: Networks, r: nat, base: Vec, waiting: set<Vec>)
    requires Settled(g, ms, nets, r) && Resolved(ms, r, base) && Accounted(g, nets, waiting)
    ensures Accounted(g, nets, waiting - {base})
  {
    forall d | Component(g, d) ensures d in nets.Values || d * (waiting - {base}) != {} {
      if base in d {
        assert InPlace(g, ms, nets, r, base);
        ComponentUnique(g, d, nets[ms[base].networkId.value], base);
      } else if d * waiting != {} {
        var x :| x in d * waiting;
        assert x in d * (waiting - {base});
      }
    }
  }

  /** With nothing waiting the networks are exactly the components. */
  lemma AccountedIsExact(g: Graph, ms: Members, nets: Networks)
    requires Undirected(g) && Agree(ms, nets) && Accounted(g, nets, {})
    ensures Partitioned(g, nets)
  {
    forall p | p in g.nodes ensures Covered(nets, p) {
      var d := ComponentOf(g, p);
      var i :| i in nets && nets[i] == d;
    }
    forall i, j, p | i in nets && j in nets && i != j && p in nets[i] ensures p !in nets[j] {
      assert InNetwork(nets, i, p);
      assert p in nets[j] ==> InNetwork(nets, j, p);
    }
    forall i | i in nets ensures Component(g, nets[i]) {
      var p :| p in nets[i];
      var d := ComponentOf(g, p);
      var j :| j in nets && nets[j] == d;
    }
  }

  predicate SamePart(v: DataWorld, w: DataWorld, p: Vec) {
    (v.HasPart(p) <==> w.HasPart(p)) && (v.HasPart(p) ==> v.GetNode(p) == w.GetNode(p))
  }

  /**
   The parts of the world change at some positions, which leave their networks or were in none, and they and
   their neighbours wait for a refresh: the networks are accounted for in the new world.
   */
  lemma ChangeIsAccounted(v: DataWorld, w: DataWorld, changed: set<Vec>, nets: Networks, out: set<Vec>,
                          waiting: set<Vec>, waiting': set<Vec>)
    requires Accounted(PartGraph(v), nets, waiting) && v.Valid() && w.Valid()
    requires v.parts == w.parts && v.faces == w.faces && forall p :: p !in changed ==> SamePart(v, w, p)
    requires out <= changed && waiting <= waiting' && forall p :: p in changed ==> Beside(p, DIRS) <= waiting'
    requires forall p, i :: p in changed && InNetwork(TakeOut(nets, out), i, p) ==> w.HasPart(p)
    ensures Accounted(PartGraph(w), TakeOut(nets, out), waiting')
  {
    var g, h := PartGraph(v), PartGraph(w);
    forall i | i in TakeOut(nets, out) ensures TakeOut(nets, out)[i] <= h.nodes {
      forall p | p in TakeOut(nets, out)[i] ensures p in h.nodes {
        assert InNetwork(TakeOut(nets, out), i, p) && (p !in changed ==> SamePart(v, w, p));
        IsNode(w, p);
        IsNode(v, p);
      }
    }
    forall d | Component(h, d) ensures d in TakeOut(nets, out).Values || d * waiting' != {} {
      if d * waiting' == {} {
        UnchangedComponent(v, w, changed, d, waiting');
        assert d * waiting == {};
        var i :| i in nets && nets[i] == d;
        assert forall x :: x in d ==> x !in d * changed;
        assert nets[i] - out == d;
        assert i in TakeOut(nets, out) && TakeOut(nets, out)[i] == d;
      }
    }
  }

  lemma IsNode(w: DataWorld, p: Vec)
    requires w.Valid()
    ensures p in PartGraph(w).nodes <==> w.HasPart(p)
  {
  }

  lemma UnchangedComponent(v: DataWorld, w: DataWorld, changed: set<Vec>, d: set<Vec>, waiting: set<Vec>)
    requires v.Valid() && w.Valid()
    requires v.parts == w.parts && v.faces == w.faces && forall p :: p !in changed ==> SamePart(v, w, p)
    requires forall p :: p in changed ==> Beside(p, DIRS) <= waiting
    requires Component(PartGraph(w), d) && d * waiting == {}
    ensures Component(PartGraph(v), d) && d * changed == {}
  {
    hide PartGraph;
    var g, h := PartGraph(v), PartGraph(w);
    forall p | p in d ensures p !in changed && p in g.nodes {
      assert p !in d * waiting;
      assert p in Beside(p, DIRS) && (p !in changed ==> SamePart(v, w, p));
      IsNode(w, p);
      IsNode(v, p);
    }
    forall p, q | p in d ensures (p, q) in g.links <==> (p, q) in h.links {
      assert p !in d * waiting;
      SameLinkOutside(v, w, changed, p, q, waiting);
    }
    assert d <= g.nodes;
    SameLinksConnected(h, g, d);
  }

  lemma IsBeside(p: Vec, d: Dir)
    ensures p in Beside(Step(p, d), DIRS)
  {
    InvertReturns(p, d);
    AllDirs(Invert(d));
    assert Step(Step(p, d), Invert(d)) in Beside(Step(p, d), DIRS);
  }

  lemma SameLinkOutside(v: DataWorld, w: DataWorld, changed: set<Vec>, p: Vec, q: Vec, waiting: set<Vec>)
    requires v.Valid() && w.Valid()
    requires v.parts == w.parts && v.faces == w.faces && forall p :: p !in changed ==> SamePart(v, w, p)
    requires forall p :: p in changed ==> Beside(p, DIRS) <= waiting
    requires p !in changed && p !in waiting
    ensures (p, q) in PartGraph(v).links <==> (p, q) in PartGraph(w).links
  {
    if d :| Step(p, d) == q {
      LinkIsConnection(v, p, d);
      LinkIsConnection(w, p, d);
      IsBeside(p, d);
      assert SamePart(v, w, p) && SamePart(v, w, q);
    }
  }

  lemma NothingSettled(g: Graph, ms: Members, nets: Networks, r: nat)
    requires forall p :: p in ms && ms[p].resolutionId.Some? ==> ms[p].resolutionId.value < r
    ensures Settled(g, ms, nets, r) && forall p :: !Resolved(ms, r, p)
  {
  }

  lemma SettledInPlace(g: Graph, ms: Members, nets: Networks, r: nat, p: Vec)
    requires Settled(g, ms, nets, r) && Resolved(ms, r, p)
    ensures InPlace(g, ms, nets, r, p)
  {
  }

  lemma IsPending(queued: map<Vec, bool>, p: Vec)
    requires p in queued
    ensures p in Pending(queued) <==> !queued[p]
  {
  }

  lemma PendingAreQueued(queued: map<Vec, bool>)
    ensures Pending(queued) <= queued.Keys
  {
  }

  lemma PendingGrows(queued: map<Vec, bool>, p: Vec)
    ensures Pending(queued + Around(p)) == Pending(queued) + Beside(p, DIRS)
  {
  }

  lemma NothingPending()
    ensures Pending(map[]) == {}
  {
  }

  lemma TakeOutMore(nets: Networks, ps: set<Vec>, p: Vec)
    ensures TakeOut(TakeOut(nets, ps), {p}) == TakeOut(nets, ps + {p})
  {
    forall i | i in nets ensures nets[i] - ps - {p} == nets[i] - (ps + {p}) {
    }
  }

  lemma AgreePosition(ms: Members, nets: Networks, p: Vec)
    requires Agree(ms, nets) && p in ms
    ensures ms[p].pos == p
  {
  }

  lemma BlockIsBucket(ps: set<Vec>, idx: Index<Vec, Vec, bool>, block: Vec, out: set<Vec>)
    requires BlocksMirror(ps, idx) && out == set p | p in ps && BlockOf(p) == block
    ensures Bucket(idx, block).Keys == out
  {
    forall p ensures p in Bucket(idx, block).Keys <==> p in out {
      assert Listed(idx, block, p) <==> InBlock(ps, block, p);
    }
  }
}
