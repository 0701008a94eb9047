/**
 The byte-vector arithmetic of the logic nodes. Tables are arrays indexed from 1, as in the source;
 index 0 is used by multiplication only.
 */
module DataMath {
  import opened Basics
  import opened ByteNumbers

  type Bytes = seq<Byte>

  /** `elem(object, i) or 0`, for i from 1. */
  function Elem(s: Bytes, i: nat): Byte {
    if 1 <= i <= |s| then s[i - 1] else 0
  }

  /** The first n digits of an operand, padded with zeros. */
  function Digits(s: Bytes, n: nat): (r: seq<int>)
    ensures |r| == n && AreBytes(r)
  {
    seq(n, i requires 0 <= i < n => Elem(s, i + 1))
  }

  /** The number that an operand stands for. */
  function Number(s: Bytes, n: nat): int {
    Val(Digits(s, n))
  }

  lemma NumberNext(s: Bytes, n: nat)
    ensures Number(s, n + 1) == Number(s, n) + Elem(s, n + 1) * Pow256(n)
  {
    assert Digits(s, n + 1)[..n] == Digits(s, n);
  }

  method NewVector(value: Bytes, size: nat) returns (a: array<int>)
    ensures fresh(a) && a.Length == size + 2
    ensures a[1..size + 1] == Digits(value, size) && a[0] == 0 && a[size + 1] == 0
  {
    a := new int[size + 2](_ => 0);
    for i := 1 to size + 1
      invariant forall k :: 1 <= k < i ==> a[k] == Elem(value, k)
      invariant a[0] == 0 && forall k :: i <= k < size + 2 ==> a[k] == 0
    {
      a[i] := Elem(value, i);
    }
  }

  /** `string.char` of the digits 1 to n. */
  method ToBytes(a: array<int>, n: nat) returns (r: Bytes)
    requires n + 1 <= a.Length && AreBytes(a[1..n + 1])
    ensures r == a[1..n + 1]
  {
    r := [];
    for i := 1 to n + 1
      invariant |r| == i - 1 && forall k :: 0 <= k < i - 1 ==> r[k] == a[k + 1]
    {
      assert a[1..n + 1][i - 1] == a[i];
      r := r + [a[i] as Byte];
    }
  }

  /* Addition. */

  /** After i digits: the digits so far and the carry stand for the sum of the operands so far. */
  ghost predicate Summed(left: Bytes, right: Bytes, i: nat, digits: seq<int>, carry: int) {
    && |digits| == i && AreBytes(digits) && 0 <= carry <= 1
    && Val(digits) + carry * Pow256(i) == Number(left, i) + Number(right, i)
  }

  lemma SummedNext(left: Bytes, right: Bytes, i: nat, digits: seq<int>, carry: int)
    requires Summed(left, right, i, digits, carry)
    ensures var v := Elem(left, i + 1) + Elem(right, i + 1) + carry;
      Summed(left, right, i + 1, digits + [v % 256], v / 256)
  {
    hide Number, Val;
    var v := Elem(left, i + 1) + Elem(right, i + 1) + carry;
    NumberNext(left, i);
    NumberNext(right, i);
    ValAppend(digits, v % 256);
    SumStep(Val(digits), Number(left, i), Number(right, i), Elem(left, i + 1), Elem(right, i + 1), carry, Pow256(i));
  }

  lemma SumStep(d: int, l: int, r: int, x: int, y: int, c: int, p: int)
    requires d + c * p == l + r
    ensures d + (x + y + c) % 256 * p + (x + y + c) / 256 * (256 * p) == (l + x * p) + (r + y * p)
  {
    var v := x + y + c;
    assert v == v % 256 + 256 * (v / 256);
    calc {
      v % 256 * p + v / 256 * (256 * p);
      (v % 256 + 256 * (v / 256)) * p;
      x * p + y * p + c * p;
    }
  }

  lemma NothingSummed(left: Bytes, right: Bytes)
    ensures Summed(left, right, 0, [], 0)
  {
  }

  lemma SummedRange(left: Bytes, right: Bytes, i: nat, digits: seq<int>, carry: int)
    requires Summed(left, right, i, digits, carry)
    ensures 0 <= carry <= 1
  {
  }

  lemma SummedAll(left: Bytes, right: Bytes, n: nat, digits: seq<int>, carry: int)
    requires Summed(left, right, n, digits, carry)
    ensures AreBytes(digits) && Val(digits) == (Number(left, n) + Number(right, n)) % Pow256(n)
  {
    ValBound(digits);
    RemainderUnique(Number(left, n) + Number(right, n), Val(digits), carry, Pow256(n));
  }

  /** The sum of the operands modulo 256^n, whatever the operands. */
  method Add(left: Bytes, right: Bytes, n: nat) returns (r: Bytes)
    ensures |r| == n && Val(r) == (Number(left, n) + Number(right, n)) % Pow256(n)
  {
    hide Summed, Number, Val;
    var accumulator := NewVector([], n);
    var carry := NewVector([], n);
    assert forall k :: 1 <= k <= n ==> accumulator[k] == accumulator[1..n + 1][k - 1] == 0;
    assert forall k :: 1 <= k <= n ==> carry[k] == carry[1..n + 1][k - 1] == 0;
    NothingSummed(left, right);
    assert accumulator[1..1] == [];
    for i := 1 to n + 1
      invariant Summed(left, right, i - 1, accumulator[1..i], carry[i])
      invariant forall k :: i <= k <= n ==> accumulator[k] == 0
      invariant forall k :: i < k <= n + 1 ==> carry[k] == 0
    {
      ghost var digits, v := accumulator[1..i], Elem(left, i) + Elem(right, i) + carry[i];
      SummedNext(left, right, i - 1, digits, carry[i]);
      SummedRange(left, right, i - 1, digits, carry[i]);
      accumulator[i] := accumulator[i] + Elem(left, i) + Elem(right, i) + carry[i];
      carry[i] := 0;
      if accumulator[i] > 255 {
        carry[i + 1] := accumulator[i] / 256;
      }
      accumulator[i] := accumulator[i] % 256;
      assert accumulator[1..i] == digits && accumulator[i] == v % 256;
      assert accumulator[1..i + 1] == accumulator[1..i] + [accumulator[i]];
    }
    SummedAll(left, right, n, accumulator[1..n + 1], carry[n + 1]);
    r := ToBytes(accumulator, n);
  }

  /* Subtraction. */

  /**
   Borrows for digit i from the next positive digit above. The search runs off the vector, an error
   in the source, exactly when there is none.
   */
  method PerformBorrow(a: array<int>, i: nat, n: nat) returns (ok: bool)
    requires 1 <= i <= n < a.Length
    modifies a
    ensures ok <==> exists j :: i <= j <= n && old(a[j]) > 0
    ensures !ok ==> a[..] == old(a[..])
    ensures ok ==> Val(a[1..n + 1]) == Val(old(a[1..n + 1]))
    ensures ok ==> exists j :: i <= j <= n && Borrowed(old(a[..]), a[..], i, j) && forall k ::
      i <= k < j ==> old(a[k]) <= 0
  {
    hide Val;
    var j := i;
    while a[j] <= 0
      invariant i <= j <= n && forall k :: i <= k < j ==> a[k] <= 0
      decreases n - j
    {
      j := j + 1;
      if j > n {
        return false;
      }
    }
    ghost var found := j;
    while j > i
      invariant i <= j <= found && Borrowed(old(a[..]), a[..], j, found)
      invariant Val(a[1..n + 1]) == Val(old(a[1..n + 1]))
    {
      BorrowOnce(a, j, n);
      j := j - 1;
    }
    return true;
  }

  method BorrowOnce(a: array<int>, j: nat, n: nat)
    requires 1 < j <= n < a.Length
    modifies a
    ensures a[..] == old(a[..][j := a[j] - 1][j - 1 := a[j - 1] + 256])
    ensures Val(a[1..n + 1]) == Val(old(a[1..n + 1]))
  {
    hide Val;
    ghost var s := a[1..n + 1];
    BorrowKeepsValue(s, j - 1);
    a[j] := a[j] - 1;
    a[j - 1] := a[j - 1] + 256;
    assert a[1..n + 1] == s[j - 1 := s[j - 1] - 1][j - 2 := s[j - 2] + 256];
  }

  /** Digit j was the next positive one: it lost 1, digit i gained 256, those between 255. */
  ghost predicate Borrowed(s: seq<int>, t: seq<int>, i: nat, j: nat) {
    && |s| == |t| && i <= j < |s| && s[j] > 0
    && (forall k :: 0 <= k < |s| && (k < i || k > j) ==> t[k] == s[k])
    && (if i == j then t[i] == s[i] else
        t[i] == s[i] + 256 && t[j] == s[j] - 1 && forall k :: i < k < j ==> t[k] == s[k] + 255)
  }

  lemma BorrowKeepsValue(s: seq<int>, j: nat)
    requires 0 < j < |s|
    ensures Val(s[j := s[j] - 1][j - 1 := s[j - 1] + 256]) == Val(s)
  {
    ValUpdate(s, j, s[j] - 1);
    ValUpdate(s[j := s[j] - 1], j - 1, s[j - 1] + 256);
    assert Pow256(j) == 256 * Pow256(j - 1);
  }

  lemma {:induction false} NumberMono(s: Bytes, i: nat, n: nat)
    requires i <= n
    ensures 0 <= Number(s, i) <= Number(s, n)
    decreases n
  {
    ValBound(Digits(s, i));
    if i < n {
      NumberMono(s, i, n - 1);
      NumberNext(s, n - 1);
      MulMono(0, Elem(s, n), Pow256(n - 1));
    }
  }

  /** A negative digit below zeros makes the whole vector negative. */
  lemma NoBorrowIsNegative(s: seq<int>, i: nat)
    requires i < |s| && AreBytes(s[..i]) && s[i] < 0
    requires forall k :: i < k < |s| ==> s[k] == 0
    ensures Val(s) < 0
  {
    ValZeros(s, i + 1);
    NegativeTop(s[..i], s[i]);
    assert s[..i + 1] == s[..i] + [s[i]];
  }

  /** After i digits: bytes that stand for the left operand less the right one so far. */
  ghost predicate Reduced(left: Bytes, right: Bytes, n: nat, i: nat, digits: seq<int>) {
    |digits| == n && AreBytes(digits) && Val(digits) == Number(left, n) - Number(right, i)
  }

  /** One digit of the subtraction; it fails exactly when the rest of the left operand is too small. */
  method SubtractDigit(a: array<int>, left: Bytes, right: Bytes, n: nat, i: nat) returns (ok: bool)
    requires 1 <= i <= n < a.Length && Reduced(left, right, n, i - 1, a[1..n + 1])
    modifies a
    ensures ok ==> Reduced(left, right, n, i, a[1..n + 1])
    ensures !ok ==> Number(left, n) < Number(right, i)
  {
    hide Val, Number;
    ghost var s := a[1..n + 1];
    var byte := Elem(right, i);
    NumberNext(right, i - 1);
    ValUpdate(s, i - 1, s[i - 1] - byte);
    a[i] := a[i] - byte;
    ghost var t := a[1..n + 1];
    assert t == s[i - 1 := s[i - 1] - byte];
    SubtractWeight(s[i - 1], byte, Pow256(i - 1));
    ok := true;
    if a[i] < 0 {
      ghost var before := a[..];
      ok := PerformBorrow(a, i, n);
      if ok {
        ghost var j :| i <= j <= n && Borrowed(before, a[..], i, j) && forall k :: i <= k < j ==> before[k] <= 0;
        BorrowedBytes(before, a[..], i, j, n);
      } else {
        assert forall k :: i <= k <= n ==> before[k] <= 0;
        NoBorrowIsNegative(t, i - 1);
      }
    }
  }

  lemma SubtractWeight(x: int, b: int, p: int)
    ensures (x - b - x) * p == -(b * p)
  {
  }

  lemma BorrowedBytes(s: seq<int>, t: seq<int>, i: nat, j: nat, n: nat)
    requires 1 <= i <= j <= n < |s| && Borrowed(s, t, i, j) && forall k :: i <= k < j ==> s[k] <= 0
    requires -256 < s[i] < 0 && forall k :: 1 <= k <= n && k != i ==> 0 <= s[k] < 256
    ensures AreBytes(t[1..n + 1])
  {
    forall k | 1 <= k <= n ensures 0 <= t[k] < 256 {
    }
  }

  /**
   The difference of the operands, when the left one is not the smaller; otherwise an error, and
   never a wrong result.
   */
  method Subtract(left: Bytes, right: Bytes, n: nat) returns (r: Option<Bytes>)
    ensures r.Some? <==> Number(left, n) >= Number(right, n)
    ensures r.Some? ==> |r.value| == n && Val(r.value) == Number(left, n) - Number(right, n)
  {
    hide Val, Number;
    var accumulator := NewVector(left, n);
    NumberZero(left, right, n);
    for i := 1 to n + 1
      invariant Reduced(left, right, n, i - 1, accumulator[1..n + 1])
    {
      var ok := SubtractDigit(accumulator, left, right, n, i);
      if !ok {
        NumberMono(right, i, n);
        return None;
      }
    }
    ValBound(accumulator[1..n + 1]);
    var bytes := ToBytes(accumulator, n);
    return Some(bytes);
  }

  lemma NumberZero(left: Bytes, right: Bytes, n: nat)
    ensures Reduced(left, right, n, 0, Digits(left, n))
  {
  }

  /* Multiplication. */

  /** The part of the product that is added up before digit j of row i. */
  function Partial(left: Bytes, right: Bytes, n: nat, i: nat, j: nat): int {
    Number(left, i) * Number(right, n) + Elem(left, i + 1) * Pow256(i) * Number(right, j)
  }

  lemma PartialMono(left: Bytes, right: Bytes, n: nat, i: nat, j: nat)
    requires i < n && j <= n
    ensures Partial(left, right, n, i, j) <= Partial(left, right, n, i, n) == Number(left, i + 1) * Number(right, n)
    ensures Number(left, i + 1) * Number(right, n) <= Number(left, n) * Number(right, n)
  {
    hide Number;
    NumberNext(left, i);
    NumberMono(right, j, n);
    NumberMono(left, i + 1, n);
    MulMono(0, Elem(left, i + 1), Pow256(i));
    MulLe(Elem(left, i + 1) * Pow256(i), Number(right, j), Number(right, n));
    Distribute(Number(left, i), Elem(left, i + 1) * Pow256(i), Number(right, n));
    MulMono(Number(left, i + 1), Number(left, n), Number(right, n));
  }

  lemma MulLe(c: int, a: int, b: int)
    requires 0 <= c && a <= b
    ensures c * a <= c * b
  {
  }

  lemma Distribute(a: int, b: int, c: int)
    ensures (a + b) * c == a * c + b * c
  {
  }

  lemma PartialNext(left: Bytes, right: Bytes, n: nat, i: nat, j: nat)
    requires j < n
    ensures Partial(left, right, n, i, j + 1) ==
      Partial(left, right, n, i, j) + Elem(left, i + 1) * Elem(right, j + 1) * Pow256(i + j)
  {
    hide Number, Pow256;
    NumberNext(right, j);
    PowAdd(i, j);
    var l: int, r: int, p, q, m := Elem(left, i + 1), Elem(right, j + 1), Pow256(i), Pow256(j), Number(right, j);
    calc {
      l * p * (m + r * q);
      l * p * m + l * p * (r * q);
      { Shuffle(l, p, r, q); }
      l * p * m + l * r * (p * q);
    }
  }

  lemma Shuffle(l: int, p: int, r: int, q: int)
    ensures l * p * (r * q) == l * r * (p * q)
  {
    assert l * p * (r * q) == l * (p * (r * q));
    assert p * (r * q) == r * (p * q);
  }

  /** The product leaves the last digit free. */
  ghost predicate Fits(left: Bytes, right: Bytes, n: nat)
    requires n > 0
  {
    Number(left, n) * Number(right, n) < Pow256(n - 1)
  }

  /** All digits are bytes and the last one is never written; index 0 takes what wraps around. */
  ghost predicate Clean(s: seq<int>, n: nat) {
    |s| == n + 2 && AreBytes(s[..n]) && s[n] == 0
  }

  /**
   Before digit j of row i: the digits 1 to n - 1 and the carry stand for the part of the product
   added up so far, and nothing has wrapped around.
   */
  ghost predicate Product(left: Bytes, right: Bytes, n: nat, i: nat, j: nat, s: seq<int>, carry: int)
    requires n > 0 && |s| == n + 2
  {
    s[0] == 0 && carry >= 0 && Val(s[1..n]) + carry * Pow256(i + j) == Partial(left, right, n, i, j)
  }

  /** From the weight of the last digit on there is no carry and no product left. */
  lemma NothingWraps(left: Bytes, right: Bytes, n: nat, i: nat, j: nat, s: seq<int>, carry: int)
    requires i < n && j <= n && Fits(left, right, n) && Clean(s, n) && Product(left, right, n, i, j, s, carry)
    requires i + j >= n - 1
    ensures carry == 0
    ensures j < n ==> Elem(left, i + 1) * Elem(right, j + 1) == 0
  {
    hide Number, Val, Partial;
    var p := Pow256(i + j);
    ValBound(s[1..n]);
    PowMono(n - 1, i + j);
    PartialMono(left, right, n, i, j);
    if carry > 0 {
      MulMono(1, carry, p);
    }
    if j < n {
      PartialMono(left, right, n, i, j + 1);
      PartialNext(left, right, n, i, j);
      var x: int := Elem(left, i + 1) * Elem(right, j + 1);
      MulMono(0, Elem(left, i + 1), Elem(right, j + 1));
      if x > 0 {
        MulMono(1, x, p);
      }
    }
  }

  /** One digit of the multiplication, at the index that wraps around modulo n. */
  method MultiplyDigit(a: array<int>, left: Bytes, right: Bytes, n: nat, i: nat, j: nat, carry: int) returns (next: int)
    requires 1 <= i <= n && 1 <= j <= n && a.Length == n + 2 && Clean(a[..], n) && carry >= 0
    modifies a
    ensures Clean(a[..], n) && next >= 0
    ensures Fits(left, right, n) && Product(left, right, n, i - 1, j - 1, old(a[..]), carry)
      ==> Product(left, right, n, i - 1, j, a[..], next)
  {
    hide Number, Val, Partial, Fits, Pow256;
    ghost var s := a[..];
    var index := (i - 1 + j) % n;
    assert 0 <= index < n && a[index] == s[..n][index];
    var value := Elem(left, i) * Elem(right, j);
    MulMono(0, Elem(left, i), Elem(right, j));
    value := a[index] + value + carry;
    next := value / 256;
    value := value % 256;
    a[index] := value;
    assert a[..] == s[index := value];
    CleanUpdate(s, n, index, value);
    if Fits(left, right, n) && Product(left, right, n, i - 1, j - 1, s, carry) {
      ProductNext(left, right, n, i - 1, j - 1, s, carry);
    }
  }

  lemma CleanUpdate(s: seq<int>, n: nat, k: nat, x: int)
    requires Clean(s, n) && k < n && 0 <= x < 256
    ensures Clean(s[k := x], n)
  {
    assert s[k := x][..n] == s[..n][k := x];
  }

  lemma ProductNext(left: Bytes, right: Bytes, n: nat, i: nat, j: nat, s: seq<int>, carry: int)
    requires i < n && j < n && Fits(left, right, n) && Clean(s, n) && Product(left, right, n, i, j, s, carry)
    ensures var k := (i + j + 1) % n;
      var v := s[k] + Elem(left, i + 1) * Elem(right, j + 1) + carry;
      Product(left, right, n, i, j + 1, s[k := v % 256], v / 256)
  {
    hide Product, Fits, Clean;
    if i + j >= n - 1 {
      ProductWraps(left, right, n, i, j, s, carry, (i + j + 1) % n);
    } else {
      ProductAdds(left, right, n, i, j, s, carry);
    }
  }

  /** A digit that wraps around is written with the value it has. */
  lemma ProductWraps(left: Bytes, right: Bytes, n: nat, i: nat, j: nat, s: seq<int>, carry: int, k: nat)
    requires i < n && j < n && Fits(left, right, n) && Clean(s, n) && Product(left, right, n, i, j, s, carry)
    requires i + j >= n - 1 && k < n
    ensures var v := s[k] + Elem(left, i + 1) * Elem(right, j + 1) + carry;
      Product(left, right, n, i, j + 1, s[k := v % 256], v / 256)
  {
    hide Number, Partial, Fits, Val, Pow256;
    NothingWraps(left, right, n, i, j, s, carry);
    PartialNext(left, right, n, i, j);
    assert s[k] == s[..n][k];
    assert s[k := s[k]] == s;
  }

  lemma ProductAdds(left: Bytes, right: Bytes, n: nat, i: nat, j: nat, s: seq<int>, carry: int)
    requires i < n && j < n && Clean(s, n) && Product(left, right, n, i, j, s, carry)
    requires i + j < n - 1
    ensures var v := s[i + j + 1] + Elem(left, i + 1) * Elem(right, j + 1) + carry;
      Product(left, right, n, i, j + 1, s[i + j + 1 := v % 256], v / 256)
  {
    hide Number, Partial, Val, Pow256;
    var w := i + j;
    var x: int := Elem(left, i + 1) * Elem(right, j + 1);
    var v := s[w + 1] + x + carry;
    assert s[w + 1] == s[..n][w + 1];
    PartialNext(left, right, n, i, j);
    ValUpdate(s[1..n], w, v % 256);
    assert s[w + 1 := v % 256][1..n] == s[1..n][w := v % 256];
    MulMono(0, Elem(left, i + 1), Elem(right, j + 1));
    PowNext(w);
    DigitStep(Val(s[1..n]), s[w + 1], x, carry, Pow256(w));
  }

  lemma DigitStep(d: int, y: int, x: int, c: int, p: int)
    ensures d + ((y + x + c) % 256 - y) * p + (y + x + c) / 256 * (256 * p) == d + c * p + x * p
  {
    var v := y + x + c;
    assert v == v % 256 + 256 * (v / 256);
    calc {
      (v % 256 - y) * p + v / 256 * (256 * p);
      (v % 256 - y + 256 * (v / 256)) * p;
      (x + c) * p;
    }
  }

  /** Between rows: all of the product of the first i digits of the left operand. */
  ghost predicate Rows(left: Bytes, right: Bytes, n: nat, i: nat, s: seq<int>)
    requires n > 0 && |s| == n + 2
  {
    s[0] == 0 && Val(s[1..n]) == Number(left, i) * Number(right, n)
  }

  lemma RowStarts(left: Bytes, right: Bytes, n: nat, i: nat, s: seq<int>)
    requires i < n && |s| == n + 2 && Rows(left, right, n, i, s)
    ensures Product(left, right, n, i, 0, s, 0)
  {
  }

  lemma RowEnds(left: Bytes, right: Bytes, n: nat, i: nat, s: seq<int>, carry: int)
    requires i < n && Fits(left, right, n) && Clean(s, n) && Product(left, right, n, i, n, s, carry)
    ensures Rows(left, right, n, i + 1, s)
  {
    NothingWraps(left, right, n, i, n, s, carry);
    PartialMono(left, right, n, i, n);
  }

  /**
   The product, exactly when it leaves the last digit free. Otherwise the result is some vector of
   bytes that ends in zero.
   */
  method Multiply(left: Bytes, right: Bytes, n: nat) returns (r: Bytes)
    ensures |r| == n && (n > 0 ==> r[n - 1] == 0)
    ensures n > 0 ==>
      (Val(r) == Number(left, n) * Number(right, n) <==> Number(left, n) * Number(right, n) < Pow256(n - 1))
  {
    hide Number, Val, Product, Rows, Fits;
    var accumulator := NewVector([], n);
    var carry := 0;
    if n > 0 {
      NoRows(left, right, n, accumulator[..]);
    }
    for i := 1 to n + 1
      invariant n > 0 ==> Clean(accumulator[..], n)
      invariant n > 0 && Fits(left, right, n) ==> Rows(left, right, n, i - 1, accumulator[..])
    {
      carry := 0;
      if Fits(left, right, n) {
        RowStarts(left, right, n, i - 1, accumulator[..]);
      }
      for j := 1 to n + 1
        invariant Clean(accumulator[..], n) && carry >= 0
        invariant Fits(left, right, n) ==> Product(left, right, n, i - 1, j - 1, accumulator[..], carry)
      {
        carry := MultiplyDigit(accumulator, left, right, n, i, j, carry);
      }
      if Fits(left, right, n) {
        RowEnds(left, right, n, i - 1, accumulator[..], carry);
      }
    }
    if n == 0 {
      return [];
    }
    ProductRead(left, right, n, accumulator[..]);
    assert accumulator[1..n + 1] == accumulator[..][1..n + 1];
    r := ToBytes(accumulator, n);
  }

  lemma NoRows(left: Bytes, right: Bytes, n: nat, s: seq<int>)
    requires n > 0 && |s| == n + 2 && s[0] == 0 && s[1..n + 1] == Digits([], n)
    ensures Clean(s, n) && Rows(left, right, n, 0, s)
  {
    assert forall k :: 1 <= k <= n ==> s[k] == s[1..n + 1][k - 1];
    ValZeros(s[1..n], 0);
  }

  lemma ProductRead(left: Bytes, right: Bytes, n: nat, s: seq<int>)
    requires n > 0 && Clean(s, n) && (Fits(left, right, n) ==> Rows(left, right, n, n, s))
    ensures AreBytes(s[1..n + 1]) && s[1..n + 1][n - 1] == 0
    ensures Val(s[1..n + 1]) == Number(left, n) * Number(right, n) <==>
      Number(left, n) * Number(right, n) < Pow256(n - 1)
  {
    var digits := s[1..n];
    assert forall k :: 0 <= k < n - 1 ==> digits[k] == s[..n][k + 1];
    assert s[1..n + 1] == digits + [s[n]];
    ValAppend(digits, s[n]);
    ValBound(digits);
  }
}
