/** Breadth-first search by a list of positions to check, as the data network does it twice. */
module Floods {
  import opened Grid
  import opened Graphs

  /** A search from `origin`: what was seen, and what of it belongs to the graph. */
  datatype Flood = Flood(g: Graph, origin: Vec, found: set<Vec>, seen: set<Vec>) {
    /** `pending` are the positions still on a list. */
    ghost predicate Invariant(pending: set<Vec>) {
      && Undirected(g) && found == seen * g.nodes
      && Connected(g, found) && (found != {} ==> origin in found)
      && (origin in seen || origin in pending)
      && (forall v :: v in pending && v in g.nodes ==> Reached(v))
      && (forall u, v :: u in found && (u, v) in g.links ==> v in found || v in pending)
    }

    ghost predicate Reached(v: Vec) {
      v in found || v == origin || exists u :: u in found && (u, v) in g.links
    }

    function Visit(v: Vec): Flood {
      this.(seen := seen + {v}, found := if v in g.nodes then found + {v} else found)
    }

    /** The component of the origin, or nothing when the origin is not in the graph. */
    ghost predicate Done() {
      if origin in g.nodes then Component(g, found) && origin in found else found == {}
    }
  }

  lemma FloodBegins(g: Graph, origin: Vec)
    requires Undirected(g)
    ensures Flood(g, origin, {}, {}).Invariant({origin})
  {
  }

  lemma FloodEnds(f: Flood)
    requires f.Invariant({})
    ensures f.Done()
  {
  }

  /** What a position adds to the list: at least what it is linked to, and nothing else of the graph. */
  ghost predicate Lists(g: Graph, v: Vec, more: set<Vec>) {
    forall u :: u in g.nodes ==> ((v, u) in g.links <==> u in more)
  }

  lemma FloodVisits(f: Flood, pending: set<Vec>, v: Vec, more: set<Vec>)
    requires f.Invariant(pending) && v in pending && v !in f.seen
    requires if v in f.g.nodes then Lists(f.g, v, more) else more == {}
    ensures f.Visit(v).Invariant(pending - {v} + more)
  {
    var t := f.Visit(v);
    if v in f.g.nodes {
      if f.found == {} {
        SingletonConnected(f.g, v);
        assert t.found == {v};
      } else {
        var u :| u in f.found && (u, v) in f.g.links;
        ExtendConnected(f.g, f.found, u, v);
      }
      assert forall u :: u in more && u in f.g.nodes ==> (v, u) in f.g.links;
    }
    forall u | u in pending - {v} + more && u in t.g.nodes ensures t.Reached(u) {
      if u in pending {
        assert f.Reached(u);
      }
    }
  }

  /** A position that was seen may be on the list or not. */
  lemma FloodIgnores(f: Flood, pending: set<Vec>, v: Vec, other: set<Vec>)
    requires f.Invariant(pending) && v in f.seen && pending - {v} == other - {v}
    ensures f.Invariant(other)
  {
    assert forall u :: u in other && u != v ==> u in pending - {v};
    assert forall u :: u in pending && u != v ==> u in other - {v};
  }
}
