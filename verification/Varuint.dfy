/** Encoding of integers as byte vectors, and arithmetic on encodings. */
module Varuint {
  import opened Basics
  import opened ByteNumbers
  import opened DataMath

  /** The vector of n bytes that stands for v modulo 256^n; there is one, by `EncodingUnique`. */
  predicate Encodes(s: Bytes, v: int, n: nat) {
    |s| == n && Val(s) == v % Pow256(n)
  }

  /** Two's complement for negative values, as the division of the source rounds down. */
  method LeEncodeVaruint(value: int, length: nat) returns (r: Bytes)
    ensures Encodes(r, value, length)
  {
    hide Val;
    var now := value;
    r := [];
    ValOfNothing();
    for i := 0 to length
      invariant |r| == i && Val(r) + now * Pow256(i) == value
    {
      ValAppend(r, now % 256);
      ShiftStep(now, Pow256(i));
      r := r + [(now % 256) as Byte];
      now := now / 256;
    }
    ValBound(r);
    RemainderUnique(value, Val(r), now, Pow256(length));
  }

  lemma ValOfNothing()
    ensures Val([]) == 0
  {
  }

  lemma ShiftStep(v: int, p: int)
    ensures v * p == v % 256 * p + v / 256 * (256 * p)
  {
    assert v == v % 256 + 256 * (v / 256);
    calc {
      v % 256 * p + v / 256 * (256 * p);
      (v % 256 + 256 * (v / 256)) * p;
    }
  }

  lemma EncodingUnique(s: Bytes, t: Bytes, v: int, n: nat)
    requires Encodes(s, v, n) && Encodes(t, v, n)
    ensures s == t
  {
    ValInjective(s, t);
  }

  lemma NumberOfEncoding(s: Bytes, v: int, n: nat)
    requires Encodes(s, v, n)
    ensures Number(s, n) == v % Pow256(n)
  {
    assert Digits(s, n) == s;
  }

  lemma SumOfRemainders(x: int, y: int, p: nat)
    requires p > 0
    ensures (x % p + y % p) % p == (x + y) % p
  {
    var r := (x % p + y % p) % p;
    var q := (x % p + y % p) / p + x / p + y / p;
    calc {
      x + y;
      x % p + x / p * p + y % p + y / p * p;
      r + (x % p + y % p) / p * p + x / p * p + y / p * p;
      { Distribute((x % p + y % p) / p, x / p, p); Distribute((x % p + y % p) / p + x / p, y / p, p); }
      r + q * p;
    }
    RemainderUnique(x + y, r, q, p);
  }

  /** Adding two encodings gives the encoding of the sum, for all integers. */
  lemma AddingEncodings(x: int, y: int, n: nat, s: Bytes, t: Bytes, r: Bytes)
    requires Encodes(s, x, n) && Encodes(t, y, n)
    requires |r| == n && Val(r) == (Number(s, n) + Number(t, n)) % Pow256(n)
    ensures Encodes(r, x + y, n)
  {
    NumberOfEncoding(s, x, n);
    NumberOfEncoding(t, y, n);
    SumOfRemainders(x, y, Pow256(n));
  }

  /** The two ways to a sum: encode and add, or add and encode. */
  method AddEncoded(x: int, y: int, n: nat) returns (r: Bytes, e: Bytes)
    ensures r == e && Encodes(r, x + y, n)
  {
    var s := LeEncodeVaruint(x, n);
    var t := LeEncodeVaruint(y, n);
    r := Add(s, t, n);
    AddingEncodings(x, y, n, s, t, r);
    e := LeEncodeVaruint(x + y, n);
    EncodingUnique(r, e, x + y, n);
  }

  /** Taking back what was added gives the same encoding, as long as the sum fits. */
  method AddThenSubtract(x: nat, y: nat, n: nat) returns (s: Bytes, r: Option<Bytes>)
    requires x + y < Pow256(n)
    ensures Encodes(s, x, n) && r == Some(s)
  {
    hide Val;
    s := LeEncodeVaruint(x, n);
    var t := LeEncodeVaruint(y, n);
    var u := Add(s, t, n);
    AddingEncodings(x, y, n, s, t, u);
    NumberOfEncoding(t, y, n);
    NumberOfEncoding(u, x + y, n);
    SmallRemainder(x, Pow256(n));
    SmallRemainder(y, Pow256(n));
    SmallRemainder(x + y, Pow256(n));
    r := Subtract(u, t, n);
    EncodingUnique(s, r.value, x, n);
  }

  lemma SmallRemainder(v: nat, p: nat)
    requires v < p
    ensures v % p == v
  {
    RemainderUnique(v, v, 0, p);
  }
}
