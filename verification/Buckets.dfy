/** Two-level index tables: a key leads to a bucket, a bucket lists members with a value. */
module Buckets {
  type Index<K, V, W> = map<K, map<V, W>>

  predicate Listed<K(!new), V(!new), W>(idx: Index<K, V, W>, k: K, v: V) {
    k in idx && v in idx[k]
  }

  ghost predicate NoEmptyBucket<K(!new), V(!new), W>(idx: Index<K, V, W>) {
    forall k :: k in idx ==> idx[k].Keys != {}
  }

  function Bucket<K(!new), V(!new), W>(idx: Index<K, V, W>, k: K): map<V, W> {
    if k in idx then idx[k] else map[]
  }

  /** Lists a member, making the bucket if there is none. */
  function Put<K(!new), V(!new), W>(idx: Index<K, V, W>, k: K, v: V, w: W): Index<K, V, W> {
    idx[k := Bucket(idx, k)[v := w]]
  }

  /** Takes a member off the list, and the bucket away when it was the last one. */
  function Drop<K(!new), V(!new), W>(idx: Index<K, V, W>, k: K, v: V): Index<K, V, W> {
    if k !in idx then idx
    else if (idx[k] - {v}).Keys == {} then idx - {k}
    else idx[k := idx[k] - {v}]
  }

  lemma PutLists<K(!new), V(!new), W>(idx: Index<K, V, W>, k: K, v: V, w: W)
    ensures forall l, u :: Listed(Put(idx, k, v, w), l, u) <==> Listed(idx, l, u) || (l == k && u == v)
    ensures forall l, u :: Listed(Put(idx, k, v, w), l, u) ==>
      Put(idx, k, v, w)[l][u] == if l == k && u == v then w else idx[l][u]
    ensures NoEmptyBucket(idx) ==> NoEmptyBucket(Put(idx, k, v, w))
  {
    var r := Put(idx, k, v, w);
    assert v in r[k].Keys;
  }

  lemma DropLists<K(!new), V(!new), W>(idx: Index<K, V, W>, k: K, v: V)
    ensures forall l, u :: Listed(Drop(idx, k, v), l, u) <==> Listed(idx, l, u) && !(l == k && u == v)
    ensures forall l, u :: Listed(Drop(idx, k, v), l, u) ==> Drop(idx, k, v)[l][u] == idx[l][u]
    ensures NoEmptyBucket(idx) ==> NoEmptyBucket(Drop(idx, k, v))
  {
    if k in idx {
      forall u | u in idx[k] && u != v ensures u in (idx[k] - {v}).Keys {
      }
    }
  }

  /** The index once a member is listed under some keys. */
  ghost predicate Enlisted<K(!new), V(!new), W>(idx: Index<K, V, W>, v: V, values: map<K, W>, r: Index<K, V, W>) {
    && (forall k, u :: Listed(r, k, u) <==> Listed(idx, k, u) || (u == v && k in values))
    && (forall k, u :: Listed(r, k, u) ==> r[k][u] == if u == v && k in values then values[k] else idx[k][u])
    && (NoEmptyBucket(idx) ==> NoEmptyBucket(r))
  }

  /** The index once a member is struck from some keys. */
  ghost predicate Struck<K(!new), V(!new), W>(idx: Index<K, V, W>, v: V, keys: set<K>, r: Index<K, V, W>) {
    && (forall k, u :: Listed(r, k, u) <==> Listed(idx, k, u) && !(u == v && k in keys))
    && (forall k, u :: Listed(r, k, u) ==> r[k][u] == idx[k][u])
    && (NoEmptyBucket(idx) ==> NoEmptyBucket(r))
  }

  method EnlistIn<K(!new), V(!new), W>(idx: Index<K, V, W>, v: V, values: map<K, W>) returns (r: Index<K, V, W>)
    ensures Enlisted(idx, v, values, r)
  {
    r := idx;
    var todo := values.Keys;
    while todo != {}
      invariant todo <= values.Keys
      invariant Enlisted(idx, v, values - todo, r)
      decreases todo
    {
      var k :| k in todo;
      PutLists(r, k, v, values[k]);
      r := Put(r, k, v, values[k]);
      todo := todo - {k};
    }
    assert values - todo == values;
  }

  method StrikeFrom<K(!new), V(!new), W>(idx: Index<K, V, W>, v: V, keys: set<K>) returns (r: Index<K, V, W>)
    ensures Struck(idx, v, keys, r)
  {
    r := idx;
    var todo := keys;
    while todo != {}
      invariant todo <= keys
      invariant Struck(idx, v, keys - todo, r)
      decreases todo
    {
      var k :| k in todo;
      DropLists(r, k, v);
      r := Drop(r, k, v);
      todo := todo - {k};
    }
  }

  /** Every bucket of `b` added to the one of `a`, with the values of `b`. */
  function Overlay<K(!new), V(!new), W>(a: Index<K, V, W>, b: Index<K, V, W>): Index<K, V, W> {
    map k | k in a.Keys + b.Keys :: if k in b then Bucket(a, k) + b[k] else a[k]
  }

  lemma OverlayLists<K(!new), V(!new), W>(a: Index<K, V, W>, b: Index<K, V, W>)
    ensures forall k, v :: Listed(Overlay(a, b), k, v) <==> Listed(a, k, v) || Listed(b, k, v)
    ensures forall k, v :: Listed(Overlay(a, b), k, v) ==>
      Overlay(a, b)[k][v] == if Listed(b, k, v) then b[k][v] else a[k][v]
    ensures NoEmptyBucket(a) && NoEmptyBucket(b) ==> NoEmptyBucket(Overlay(a, b))
  {
    if NoEmptyBucket(a) && NoEmptyBucket(b) {
      forall k | k in Overlay(a, b) ensures Overlay(a, b)[k].Keys != {} {
        if k in a {
          var v :| v in a[k].Keys;
          assert v in Overlay(a, b)[k].Keys;
        } else {
          var v :| v in b[k].Keys;
          assert v in Overlay(a, b)[k].Keys;
        }
      }
    }
  }

  method CopyInto<V, W>(a: map<V, W>, b: map<V, W>) returns (r: map<V, W>)
    ensures r == a + b
  {
    r := a;
    var todo := b.Keys;
    while todo != {}
      invariant todo <= b.Keys
      invariant r == a + map v | v in b && v !in todo :: b[v]
      decreases todo
    {
      var v :| v in todo;
      r := r[v := b[v]];
      todo := todo - {v};
    }
    assert (map v | v in b && v !in todo :: b[v]) == b;
  }

  lemma IsOverlay<K(!new), V(!new), W>(a: Index<K, V, W>, b: Index<K, V, W>, r: Index<K, V, W>)
    requires r.Keys == a.Keys + b.Keys
    requires forall k :: k in a && k !in b ==> r[k] == a[k]
    requires forall k :: k in b ==> r[k] == Bucket(a, k) + b[k]
    ensures r == Overlay(a, b)
  {
  }

  method OverlayBuckets<K(!new), V(!new), W>(a: Index<K, V, W>, b: Index<K, V, W>) returns (r: Index<K, V, W>)
    ensures r == Overlay(a, b)
  {
    r := a;
    var todo := b.Keys;
    while todo != {}
      invariant todo <= b.Keys && r.Keys == a.Keys + (b.Keys - todo)
      invariant forall k :: k in a && (k !in b || k in todo) ==> r[k] == a[k]
      invariant forall k :: k in b && k !in todo ==> r[k] == Bucket(a, k) + b[k]
      decreases todo
    {
      var k :| k in todo;
      assert Bucket(r, k) == Bucket(a, k);
      var bucket := CopyInto(Bucket(r, k), b[k]);
      r := r[k := bucket];
      todo := todo - {k};
    }
    IsOverlay(a, b, r);
  }
}
