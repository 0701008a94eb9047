/**
 The search behind node removal: `yatm_clusters.explore_nodes` driven by the stateful reducer of
 `scan_for_branches`. The class holds the variables that the reducer closes over.
 */
module BranchScans {
  import opened Basics
  import opened Grid
  import opened Graphs
  import opened Clusterings
  import opened Sweeps
  import opened Worlds

  /** Pending positions, each with the direction it was entered from (`pos4.w`). */
  type Frontier = map<Vec, Option<Dir>>

  /** The directions in which `mark_accessible_dirs` leaves the flag set. */
  function AccessibleDirs(w: World, pos: Vec, node: Node): set<Dir> {
    set d | d in DIRS && Accessible(w, pos, node, d)
  }

  predicate Accessible(w: World, pos: Vec, node: Node, d: Dir) {
    var q := Step(pos, d);
    q in w.nodes && w.ItemGroup(w.nodes[q]) > 0 && Compatible(w.NodeColor(node), w.NodeColor(w.nodes[q]))
  }

  lemma AccessibleIsLinked(w: World, pos: Vec, d: Dir)
    requires w.Valid() && pos in w.Painted()
    ensures d in AccessibleDirs(w, pos, w.nodes[pos]) <==> (pos, Step(pos, d)) in ColorGraph(w.Painted()).links
  {
    assert d in DIRS;
  }

  /**
   The search from one origin. `before` are the branches when it starts, with an empty one at
   `slot`; `branches` and `current` are those of now.
   */
  datatype Search = Search(g: Graph, before: Clustering, slot: nat, origin: Vec,
                           branches: Clustering, current: nat, seen: set<Vec>)
  {
    function Nodes(): set<Vec> {
      if current in branches then branches[current] else {}
    }

    /** The branches so far are empty or components. */
    ghost predicate Start() {
      && Undirected(g)
      && (forall i :: i in before && before[i] != {} ==> Component(g, before[i]))
      && (forall i, j :: i in before && j in before && i != j ==> before[i] !! before[j])
      && slot in before && before[slot] == {}
    }

    /** Either the new branch is being filled, or it was merged into a finished one. */
    ghost predicate OnSlot() {
      && current == slot && slot in branches && branches.Keys == before.Keys
      && (forall i :: i in before && i != slot ==> branches[i] == before[i])
      && (forall i :: i in before && i != slot ==> branches[slot] !! before[i])
    }

    ghost predicate OnFinished() {
      && current != slot && current in before && before[current] != {}
      && branches == before - {slot}
    }

    ghost predicate Invariant(a: Frontier, b: Frontier) {
      && Start() && (OnSlot() || OnFinished())
      && Nodes() <= g.nodes && Connected(g, Nodes()) && (Nodes() != {} ==> origin in Nodes())
      && (seen != {} && origin in g.nodes ==> Nodes() != {})
      && seen * g.nodes <= Nodes()
      && PendingAll(a) && PendingAll(b) && (forall v :: v in b ==> b[v].Some?)
      && (forall u, v :: u in Nodes() && (u, v) in g.links ==> v in Nodes() || v in a || v in b)
    }

    /** A pending position was entered from a node of the branch, or is the unvisited origin. */
    ghost predicate PendingAll(m: Frontier) {
      forall v :: v in m ==> Pending(v, m[v])
    }

    ghost predicate Pending(v: Vec, from: Option<Dir>) {
      match from
      case Some(d) => Step(v, d) in Nodes() && (v, Step(v, d)) in g.links
      case None => v == origin && Nodes() == {} && seen == {}
    }

    /** What the search leaves: the component of the origin is one of the branches. */
    ghost predicate Done() {
      && Start() && (OnSlot() || OnFinished())
      && (if origin in g.nodes then Component(g, Nodes()) && origin in Nodes() else Nodes() == {})
    }

    function Merge(o: nat): Search
      requires o in branches
    {
      this.(branches := branches[o := Nodes() + branches[o]] - {current}, current := o)
    }

    function Insert(v: Vec): Search {
      this.(branches := branches[current := Nodes() + {v}])
    }

    function Visit(v: Vec): Search {
      this.(seen := seen + {v})
    }
  }

  lemma SearchStarts(s: Search)
    requires s.Start() && s.branches == s.before && s.current == s.slot && s.seen == {}
    ensures s.Invariant(map[s.origin := None], map[])
  {
  }

  /** A search that has nothing left to visit is done. */
  lemma SearchEnds(s: Search)
    requires s.Invariant(map[], map[]) && s.seen != {}
    ensures s.(seen := {}).Done()
  {
  }

  /** A seen position needs no second visit. */
  lemma SkipSeen(s: Search, a: Frontier, b: Frontier, v: Vec)
    requires s.Invariant(a, b) && v in a && v in s.seen
    ensures s.Invariant(a - {v}, b)
  {
    assert s.Pending(v, a[v]);
    assert v in s.g.nodes;
  }

  /** Visiting a node of the branch changes nothing. */
  lemma VisitMember(s: Search, a: Frontier, b: Frontier, v: Vec)
    requires s.Invariant(a, b) && v in a && v in s.Nodes()
    ensures s.Visit(v).Invariant(a - {v}, b)
  {
  }

  lemma NothingPushed(s: Search, a: Frontier, b: Frontier)
    requires s.Invariant(a, b) && s.Nodes() == {}
    ensures b == map[]
  {
    assert forall x :: x in b ==> !s.Pending(x, b[x]);
  }

  /** Only the origin can be outside the graph. */
  lemma VisitOutsider(s: Search, a: Frontier, b: Frontier, v: Vec)
    requires s.Invariant(a, b) && v in a && v !in s.g.nodes
    ensures s.Visit(v).Invariant(a - {v}, b)
  {
    assert s.Pending(v, a[v]);
    assert a[v].None?;
    assert forall x :: x in a ==> s.Pending(x, a[x]);
    NothingPushed(s, a, b);
  }

  /** `c` is `b` with the flagged neighbours of `v` queued, except the one the search came from. */
  ghost predicate Pushes(v: Vec, from: Option<Dir>, dirs: set<Dir>, b: Frontier, c: Frontier) {
    && (forall q :: q in b ==> q in c)
    && (forall q :: q in c ==> (q in b && c[q] == b[q]) || PushedEntry(v, dirs, q, c[q]))
    && (forall d :: d in dirs && from != Some(d) ==> Step(v, d) in c)
  }

  predicate PushedEntry(v: Vec, dirs: set<Dir>, q: Vec, e: Option<Dir>) {
    e.Some? && Invert(e.value) in dirs && Step(v, Invert(e.value)) == q
  }

  ghost predicate FlagsAreLinks(g: Graph, v: Vec, dirs: set<Dir>) {
    forall u :: (v, u) in g.links <==> exists d :: d in dirs && Step(v, d) == u
  }

  /** Visiting a node of another finished branch, which happens at the origin only. */
  lemma VisitFinished(s: Search, a: Frontier, b: Frontier, v: Vec, o: nat, dirs: set<Dir>, c: Frontier)
    requires s.Invariant(a, b) && v in a && v !in s.Nodes() && o in s.branches && v in s.branches[o]
    requires FlagsAreLinks(s.g, v, dirs) && Pushes(v, a[v], dirs, b, c)
    ensures o != s.current
    ensures s.Merge(o).Visit(v).Invariant(a - {v}, c)
  {
    assert o != s.current;
    assert o in s.before && s.branches[o] == s.before[o];
    assert Component(s.g, s.before[o]);
    assert s.Pending(v, a[v]);
    assert s.Nodes() == {};
    var t := s.Merge(o).Visit(v);
    assert t.Nodes() == s.before[o];
    assert t.branches == s.before - {s.slot};
    assert forall x :: x in a ==> s.Pending(x, a[x]);
    NothingPushed(s, a, b);
    forall x | x in c && PushedEntry(v, dirs, x, c[x]) ensures t.Pending(x, c[x]) && c[x].Some? {
      PushedIsPending(t, v, dirs, x, c[x]);
    }
  }

  lemma PushedIsPending(t: Search, v: Vec, dirs: set<Dir>, x: Vec, e: Option<Dir>)
    requires Undirected(t.g) && FlagsAreLinks(t.g, v, dirs) && v in t.Nodes() && PushedEntry(v, dirs, x, e)
    ensures t.Pending(x, e)
  {
    InvertReturns(v, Invert(e.value));
    assert (v, x) in t.g.links;
  }

  /** Visiting a new node adds it to the branch. */
  lemma VisitNew(s: Search, a: Frontier, b: Frontier, v: Vec, dirs: set<Dir>, c: Frontier)
    requires s.Invariant(a, b) && v in a && v !in s.Nodes() && v in s.g.nodes
    requires forall i :: i in s.branches ==> v !in s.branches[i]
    requires FlagsAreLinks(s.g, v, dirs) && Pushes(v, a[v], dirs, b, c)
    ensures s.Insert(v).Visit(v).Invariant(a - {v}, c)
  {
    assert s.Pending(v, a[v]);
    OnlySlotGrows(s, a, b, v);
    NewNodeConnected(s, a, b, v);
    var t := s.Insert(v).Visit(v);
    assert t.Nodes() == s.Nodes() + {v};
    NewNodePending(s, t, a, b, v, dirs, c);
    forall u, x | u in t.Nodes() && (u, x) in t.g.links ensures x in t.Nodes() || x in a - {v} || x in c {
      if u == v {
        var d :| d in dirs && Step(v, d) == x;
      }
    }
  }

  lemma NewNodeConnected(s: Search, a: Frontier, b: Frontier, v: Vec)
    requires s.Invariant(a, b) && v in a && s.Pending(v, a[v])
    ensures Connected(s.g, s.Nodes() + {v})
    ensures s.Nodes() == {} ==> b == map[] && v == s.origin && forall x :: x in a ==> x == v
  {
    hide Connected;
    if a[v].None? {
      SingletonConnected(s.g, v);
      NothingPushed(s, a, b);
      assert forall x :: x in a ==> s.Pending(x, a[x]);
      assert s.Nodes() + {v} == {v};
    } else {
      assert (Step(v, a[v].value), v) in s.g.links;
      ExtendConnected(s.g, s.Nodes(), Step(v, a[v].value), v);
    }
  }

  lemma NewNodePending(s: Search, t: Search, a: Frontier, b: Frontier, v: Vec, dirs: set<Dir>, c: Frontier)
    requires s.Invariant(a, b) && v in a && t.g == s.g && t.Nodes() == s.Nodes() + {v}
    requires FlagsAreLinks(s.g, v, dirs) && Pushes(v, a[v], dirs, b, c)
    requires s.Nodes() == {} ==> b == map[] && forall x :: x in a ==> x == v
    ensures t.PendingAll(a - {v}) && t.PendingAll(c) && forall x :: x in c ==> c[x].Some?
  {
    forall x | x in a - {v} ensures t.Pending(x, (a - {v})[x]) {
      assert s.Pending(x, a[x]);
    }
    forall x | x in c ensures t.Pending(x, c[x]) && c[x].Some? {
      if PushedEntry(v, dirs, x, c[x]) {
        PushedIsPending(t, v, dirs, x, c[x]);
      } else {
        assert s.Pending(x, b[x]);
      }
    }
  }

  /** A finished branch has no link to a node outside, so it is the new branch that grows. */
  lemma OnlySlotGrows(s: Search, a: Frontier, b: Frontier, v: Vec)
    requires s.Invariant(a, b) && v in a && v !in s.Nodes() && v in s.g.nodes
    ensures s.OnSlot()
  {
    assert s.Pending(v, a[v]);
    assert s.OnFinished() ==> Component(s.g, s.before[s.current]);
  }

  ghost predicate Mirrors(owner: map<Vec, nat>, k: Clustering) {
    && (forall n :: n in owner ==> owner[n] in k && n in k[owner[n]])
    && (forall i, n :: i in k && n in k[i] ==> n in owner && owner[n] == i)
  }

  lemma MergedMirrors(owner: map<Vec, nat>, k: Clustering, i: nat, o: nat, owner': map<Vec, nat>)
    requires Mirrors(owner, k) && i in k && o in k && i != o
    requires owner' == owner + (map n | n in k[i] + k[o] :: o)
    ensures Mirrors(owner', k[o := k[i] + k[o]] - {i})
  {
    var l := k[o := k[i] + k[o]] - {i};
    forall n | n in owner' ensures owner'[n] in l && n in l[owner'[n]] {
      if n !in k[i] + k[o] {
        assert owner'[n] == owner[n];
      }
    }
    forall j, n | j in l && n in l[j] ensures n in owner' && owner'[n] == j {
      if j != o {
        assert n in k[j] && owner[n] == j;
      }
    }
  }

  class BranchScan {
    const world: World
    var allNodes: map<Vec, nat>
    var branches: Clustering
    var branchId: nat  // the table `nodes` of the source is branches[branchId]

    ghost predicate Valid()
      reads this
    {
      Indexed() && branchId in branches
    }

    /** `all_nodes` names the branch of every node. */
    ghost predicate Indexed()
      reads this
    {
      world.Valid() && Mirrors(allNodes, branches)
    }

    ghost function Searching(before: Clustering, slot: nat, origin: Vec, seen: set<Vec>): Search
      reads this
    {
      Search(ColorGraph(world.Painted()), before, slot, origin, branches, branchId, seen)
    }

    constructor (w: World)
      ensures world == w && allNodes == map[] && branches == map[] && branchId == 0
    {
      world, allNodes, branches, branchId := w, map[], map[], 0;
    }

    /** `all_nodes[node_id] = owner`, `new_nodes[node_id] = owner` for every node of a table. */
    method Relabel(ns: set<Vec>, owner: nat, into: set<Vec>) returns (all: set<Vec>)
      modifies this`allNodes
      ensures allNodes == old(allNodes) + map n | n in ns :: owner
      ensures all == into + ns
    {
      all := into;
      var todo := ns;
      while todo != {}
        invariant todo <= ns && all == into + (ns - todo)
        invariant allNodes == old(allNodes) + map n | n in ns - todo :: owner
        decreases todo
      {
        var n :| n in todo;
        allNodes := allNodes[n := owner];
        all := all + {n};
        todo := todo - {n};
      }
    }

    /** The current branch and another become one, under the id of the other. */
    method MergeInto(other: nat)
      requires Valid() && other in branches && other != branchId
      modifies this
      ensures Valid() && branchId == other
      ensures branches == old(branches[other := branches[branchId] + branches[other]] - {branchId})
    {
      hide Mirrors;
      var otherNodes := branches[other];
      var newNodes := Relabel(branches[branchId], other, {});
      newNodes := Relabel(otherNodes, other, newNodes);
      assert newNodes == branches[branchId] + otherNodes;
      MergedMirrors(old(allNodes), branches, branchId, other, allNodes);
      branches := branches[other := newNodes];
      branches := branches - {branchId};
      branchId := other;
    }

    method MarkAccessibleDirs(pos: Vec, node: Node) returns (dirs: set<Dir>)
      ensures dirs == AccessibleDirs(world, pos, node)
    {
      dirs := DIRS;
      var todo := DIRS;
      while todo != {}
        invariant todo <= dirs <= DIRS
        invariant forall d :: d in DIRS - todo ==> (d in dirs <==> Accessible(world, pos, node, d))
        decreases todo
      {
        var d :| d in todo;
        var q := Step(pos, d);
        if q in world.nodes {
          if world.ItemGroup(world.nodes[q]) > 0 {
            if !Compatible(world.NodeColor(node), world.NodeColor(world.nodes[q])) {
              dirs := dirs - {d};
            }
          } else {
            dirs := dirs - {d};
          }
        } else {
          dirs := dirs - {d};
        }
        todo := todo - {d};
      }
    }

    /** The reducer of the scan, called once for every position that is visited. */
    method Reduce(pos: Vec, node: Node) returns (explore: bool, dirs: set<Dir>)
      requires Valid()
      modifies this
      ensures Valid()
      ensures explore <==> pos !in old(branches[branchId]) && world.InGroup(node)
      ensures explore ==> dirs == AccessibleDirs(world, pos, node)
      ensures !explore ==> branches == old(branches) && branchId == old(branchId)
      ensures explore && pos in old(allNodes) ==>
        var o := old(allNodes[pos]);
        && branchId == o
        && branches == old(branches[o := branches[branchId] + branches[o]] - {branchId})
      ensures explore && pos !in old(allNodes) ==>
        branchId == old(branchId) && branches == old(branches[branchId := branches[branchId] + {pos}])
    {
      dirs := DIRS;
      if pos in branches[branchId] {
        return false, dirs;
      }
      if world.InGroup(node) {
        if pos in allNodes {
          var other := allNodes[pos];
          if other != branchId {
            MergeInto(other);
          }
        } else {
          allNodes := allNodes[pos := branchId];
          branches := branches[branchId := branches[branchId] + {pos}];
        }
        dirs := MarkAccessibleDirs(pos, node);
        return true, dirs;
      }
      return false, dirs;
    }

    /** Queues the neighbours whose flag is set, except the one the search came from. */
    method PushNeighbours(pos: Vec, from: Option<Dir>, dirs: set<Dir>, toVisit: Frontier) returns (next: Frontier)
      ensures Pushes(pos, from, dirs, toVisit, next)
    {
      next := toVisit;
      var todo := dirs;
      while todo != {}
        invariant todo <= dirs
        invariant Pushes(pos, from, dirs - todo, toVisit, next)
        decreases todo
      {
        var d :| d in todo;
        InvertReturns(pos, d);
        if from != Some(d) {
          next := next[Step(pos, d) := Some(Invert(d))];
        }
        todo := todo - {d};
      }
    }

    /** One position of the breadth-first search. */
    method Visit(pos: Vec, ghost s: Search, ghost a: Frontier, from: Option<Dir>, toVisit: Frontier)
      returns (next: Frontier)
      requires Valid() && s.Invariant(a, toVisit) && pos in a && a[pos] == from
      requires s == Searching(s.before, s.slot, s.origin, s.seen)
      modifies this
      ensures Valid()
      ensures Searching(s.before, s.slot, s.origin, s.seen + {pos}).Invariant(a - {pos}, next)
    {
      hide Search.Invariant;
      var node := world.GetNode(pos);
      var explore, dirs := Reduce(pos, node);
      next := toVisit;
      if explore {
        next := PushNeighbours(pos, from, dirs, toVisit);
      }
      ghost var t := Searching(s.before, s.slot, s.origin, s.seen + {pos});
      if pos in s.Nodes() {
        assert t == s.Visit(pos);
        VisitMember(s, a, toVisit, pos);
      } else if pos !in s.g.nodes {
        assert t == s.Visit(pos);
        VisitOutsider(s, a, toVisit, pos);
      } else {
        LinksOfNode(world, pos);
        if o :| o in s.branches && pos in s.branches[o] {
          assert t == s.Merge(o).Visit(pos);
          VisitFinished(s, a, toVisit, pos, o, dirs, next);
        } else {
          assert t == s.Insert(pos).Visit(pos);
          VisitNew(s, a, toVisit, pos, dirs, next);
        }
      }
    }

    /** The positions of one layer, in any order; what they lead to is the next layer. */
    method ExploreLayer(layer: Frontier, ghost s: Search, already: set<Vec>) returns (toVisit: Frontier, seen: set<Vec>)
      requires Valid() && s.Invariant(layer, map[]) && layer != map[]
      requires s == Searching(s.before, s.slot, s.origin, already)
      modifies this
      ensures Valid() && already <= seen <= already + layer.Keys && seen != {}
      ensures seen == already ==> toVisit == map[]
      ensures Searching(s.before, s.slot, s.origin, seen).Invariant(toVisit, map[])
    {
      hide ColorGraph;
      var oldToVisit := layer;
      toVisit, seen := map[], already;
      while oldToVisit != map[]
        invariant oldToVisit.Keys <= layer.Keys
        invariant Valid() && already <= seen <= already + layer.Keys && (oldToVisit == map[] ==> seen != {})
        invariant seen == already ==> toVisit == map[]
        invariant Searching(s.before, s.slot, s.origin, seen).Invariant(oldToVisit, toVisit)
        decreases oldToVisit.Keys
      {
        ghost var t := Searching(s.before, s.slot, s.origin, seen);
        var pos :| pos in oldToVisit;
        if pos !in seen {
          toVisit := Visit(pos, t, oldToVisit, oldToVisit[pos], toVisit);
          seen := seen + {pos};
        } else {
          SkipSeen(t, oldToVisit, toVisit, pos);
        }
        oldToVisit := oldToVisit - {pos};
      }
      ForgetLayer(Searching(s.before, s.slot, s.origin, seen), toVisit);
    }

    /** `yatm_clusters.explore_nodes`, layer by layer. */
    method Explore(origin: Vec)
      requires Valid() && Searching(branches, branchId, origin, {}).Start()
      modifies this
      ensures Valid() && Searching(old(branches), old(branchId), origin, {}).Done()
    {
      hide ColorGraph, Search.Invariant, Search.Start, Search.Done;
      ghost var before, slot := branches, branchId;
      SearchStarts(Searching(before, slot, origin, {}));
      var seen: set<Vec> := {};
      ghost var reach := Searching(before, slot, origin, {}).g.nodes + {origin};
      var toVisit: Frontier := map[origin := None];
      assert origin in toVisit;
      while toVisit != map[]
        invariant Valid() && (toVisit == map[] ==> seen != {})
        invariant seen <= reach == Searching(before, slot, origin, seen).g.nodes + {origin}
        invariant Searching(before, slot, origin, seen).Invariant(toVisit, map[])
        decreases reach - seen, toVisit.Keys != {}
      {
        ghost var s := Searching(before, slot, origin, seen);
        LayerIsInside(s, toVisit);
        toVisit, seen := ExploreLayer(toVisit, s, seen);
      }
      SearchEnds(Searching(before, slot, origin, seen));
    }

    /**
     `scan_for_branches`: one search from each origin, where the origin moves on by a direction
     each time instead of restarting from the position that was removed.
     */
    method ScanForBranches(scanOrigin: Vec, order: seq<Dir>)
      requires Indexed() && branches == map[]
      modifies this
      ensures Scanned(ColorGraph(world.Painted()), Origins(scanOrigin, order, |order|), branches)
    {
      hide ColorGraph, Search.Start, Search.Done, Scanned;
      ghost var g := ColorGraph(world.Painted());
      ColorGraphUndirected(world.Painted());
      ScanBegins(g);
      assert Origins(scanOrigin, order, 0) == {};
      var origin := scanOrigin;
      var lastId := 0;
      for n := 0 to |order|
        invariant Indexed() && lastId == n && origin == OriginAt(scanOrigin, order, n)
        invariant forall i :: i in branches ==> i <= lastId
        invariant Scanned(g, Origins(scanOrigin, order, n), branches)
      {
        ghost var k, found := branches, Origins(scanOrigin, order, n);
        lastId := lastId + 1;
        origin := Step(origin, order[n]);
        branchId := lastId;
        branches := branches[branchId := {}];
        ScanMayGoOn(Searching(branches, branchId, origin, {}), found, k);
        ghost var before, slot := branches, branchId;
        Explore(origin);
        ghost var s := Searching(before, slot, origin, {});
        ScanGoesOn(s, found, k);
        BranchIds(s);
        OriginsGrow(scanOrigin, order, n);
      }
    }
  }

  /** The origin of the n-th search: the first n directions added up. */
  function OriginAt(p: Vec, order: seq<Dir>, n: nat): Vec
    requires n <= |order|
  {
    if n == 0 then p else Step(OriginAt(p, order, n - 1), order[n - 1])
  }

  function Origins(p: Vec, order: seq<Dir>, n: nat): set<Vec>
    requires n <= |order|
  {
    set k | 1 <= k <= n :: OriginAt(p, order, k)
  }

  lemma OriginsGrow(p: Vec, order: seq<Dir>, n: nat)
    requires n < |order|
    ensures Origins(p, order, n + 1) == Origins(p, order, n) + {OriginAt(p, order, n + 1)}
  {
    var s := Origins(p, order, n) + {OriginAt(p, order, n + 1)};
    assert forall x :: x in Origins(p, order, n + 1) <==> x in s;
  }

  lemma ScanBegins(g: Graph)
    ensures Scanned(g, {}, map[])
  {
  }

  lemma ScanMayGoOn(s: Search, found: set<Vec>, k: Clustering)
    requires Undirected(s.g) && Scanned(s.g, found, k) && s.slot !in k && s.before == k[s.slot := {}]
    ensures s.Start()
  {
  }

  /** A finished search adds the component of its origin to those that were found before. */
  lemma ScanGoesOn(s: Search, found: set<Vec>, k: Clustering)
    requires s.Done() && Scanned(s.g, found, k) && s.slot !in k && s.before == k[s.slot := {}]
    ensures Scanned(s.g, found + {s.origin}, s.branches)
  {
    forall i | i in s.branches && s.branches[i] != {}
      ensures Component(s.g, s.branches[i]) && s.branches[i] * (found + {s.origin}) != {}
    {
      if i == s.current {
        assert s.origin in s.branches[i] * (found + {s.origin});
      } else {
        var x :| x in k[i] * found;
        assert x in s.branches[i] * (found + {s.origin});
      }
    }
    forall o | o in found + {s.origin} && o in s.g.nodes ensures Covered(s.branches, o) {
      if o == s.origin {
        assert o in s.branches[s.current];
      } else {
        assert Covered(k, o);
        var i :| i in k && o in k[i];
        assert i in s.branches && o in s.branches[i];
      }
    }
  }

  lemma BranchIds(s: Search)
    requires s.Done()
    ensures s.branches.Keys <= s.before.Keys
  {
  }

  lemma ForgetLayer(s: Search, b: Frontier)
    requires s.Invariant(map[], b)
    ensures s.Invariant(b, map[])
  {
  }

  lemma LayerIsInside(s: Search, a: Frontier)
    requires s.Invariant(a, map[])
    ensures a.Keys <= s.g.nodes + {s.origin}
  {
    forall v | v in a ensures v in s.g.nodes + {s.origin} {
      assert s.Pending(v, a[v]);
    }
  }

  lemma LinksOfNode(w: World, pos: Vec)
    requires w.Valid() && pos in w.Painted()
    ensures FlagsAreLinks(ColorGraph(w.Painted()), pos, AccessibleDirs(w, pos, w.nodes[pos]))
  {
    var g := ColorGraph(w.Painted());
    forall u
      ensures (pos, u) in g.links <==> exists d :: d in AccessibleDirs(w, pos, w.nodes[pos]) && Step(pos, d) == u
    {
      if (pos, u) in g.links {
        var d :| Step(pos, d) == u;
        AccessibleIsLinked(w, pos, d);
      }
      if d :| d in AccessibleDirs(w, pos, w.nodes[pos]) && Step(pos, d) == u {
        AccessibleIsLinked(w, pos, d);
      }
    }
  }
}
