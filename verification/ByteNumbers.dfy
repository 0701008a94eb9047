/** Little-endian vectors of digits and the numbers they stand for. */
module ByteNumbers {
  type Byte = b: int | 0 <= b < 256

  function Pow256(n: nat): (r: nat)
    ensures r > 0
  {
    if n == 0 then 1 else 256 * Pow256(n - 1)
  }

  /** The number of a vector; its digits may be out of the range of a byte. */
  function Val(s: seq<int>): int {
    if s == [] then 0 else Val(s[..|s| - 1]) + s[|s| - 1] * Pow256(|s| - 1)
  }

  predicate AreBytes(s: seq<int>) {
    forall k :: 0 <= k < |s| ==> 0 <= s[k] < 256
  }

  lemma ValAppend(s: seq<int>, x: int)
    ensures Val(s + [x]) == Val(s) + x * Pow256(|s|)
  {
    assert (s + [x])[..|s|] == s;
  }

  /** Changing one digit changes the number by the digit's weight. */
  lemma {:induction false} ValUpdate(s: seq<int>, k: nat, x: int)
    requires k < |s|
    ensures Val(s[k := x]) == Val(s) + (x - s[k]) * Pow256(k)
  {
    var n := |s| - 1;
    if k == n {
      assert s[k := x][..n] == s[..n];
    } else {
      ValUpdate(s[..n], k, x);
      assert s[k := x][..n] == s[..n][k := x];
    }
  }

  lemma {:induction false} ValBound(s: seq<int>)
    requires AreBytes(s)
    ensures 0 <= Val(s) < Pow256(|s|)
  {
    if s != [] {
      var n := |s| - 1;
      ValBound(s[..n]);
      MulMono(s[n], 255, Pow256(n));
    }
  }

  lemma MulMono(a: int, b: int, c: nat)
    requires 0 <= a <= b
    ensures 0 <= a * c <= b * c
  {
  }

  /** A vector of bytes with a negative digit above them is negative. */
  lemma NegativeTop(s: seq<int>, x: int)
    requires AreBytes(s) && x < 0
    ensures Val(s + [x]) < 0
  {
    ValBound(s);
    ValAppend(s, x);
    MulMono(1, -x, Pow256(|s|));
  }

  lemma {:induction false} ValZeros(s: seq<int>, k: nat)
    requires k <= |s| && forall i :: k <= i < |s| ==> s[i] == 0
    ensures Val(s) == Val(s[..k])
    decreases |s|
  {
    if k < |s| {
      var n := |s| - 1;
      ValZeros(s[..n], k);
      assert s[..n][..k] == s[..k];
    } else {
      assert s[..k] == s;
    }
  }

  /** Two vectors of bytes of one length with one number are the same. */
  lemma {:induction false} ValInjective(s: seq<int>, t: seq<int>)
    requires AreBytes(s) && AreBytes(t) && |s| == |t| && Val(s) == Val(t)
    ensures s == t
  {
    if s != [] {
      var n := |s| - 1;
      ValBound(s[..n]);
      ValBound(t[..n]);
      TopDigit(Val(s[..n]), s[n], Val(t[..n]), t[n], Pow256(n));
      ValInjective(s[..n], t[..n]);
      assert s == s[..n] + [s[n]] && t == t[..n] + [t[n]];
    }
  }

  lemma TopDigit(a: int, x: int, b: int, y: int, p: nat)
    requires 0 <= a < p && 0 <= b < p && a + x * p == b + y * p
    ensures x == y && a == b
  {
    if x < y {
      MulMono(1, y - x, p);
    } else if y < x {
      MulMono(1, x - y, p);
    }
  }

  /** The remainder of a number that differs by a multiple. */
  lemma RemainderUnique(v: int, r: int, q: int, p: nat)
    requires p > 0 && 0 <= r < p && v == r + q * p
    ensures v % p == r
  {
    TopDigit(r, q, v % p, v / p, p);
  }

  lemma PowNext(n: nat)
    ensures Pow256(n + 1) == 256 * Pow256(n)
  {
  }

  lemma {:induction false} PowAdd(a: nat, b: nat)
    ensures Pow256(a + b) == Pow256(a) * Pow256(b)
  {
    if a > 0 {
      PowAdd(a - 1, b);
      assert 256 * (Pow256(a - 1) * Pow256(b)) == 256 * Pow256(a - 1) * Pow256(b);
    }
  }

  lemma {:induction false} PowMono(a: nat, b: nat)
    requires a <= b
    ensures Pow256(a) <= Pow256(b)
    decreases b
  {
    if a < b {
      PowMono(a, b - 1);
    }
  }
}
