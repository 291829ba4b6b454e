/** What a check register stands for: the remainder of the message by the polynomial, over coefficients that add without
    carry.  Sequences are polynomials, highest power first. */
module CrcRemainder {
  import opened CrcTheory

  /** The product of `q` and of the polynomial that is one power higher than `poly`, with leading coefficient one. */
  function Product(q: seq<bool>, poly: seq<bool>): (r: seq<bool>)
    ensures |r| == |q| + |poly|
  {
    ProductOf(q, |q|, poly)
  }

  /** The product with the first `n` coefficients of `q`. */
  function ProductOf(q: seq<bool>, n: nat, poly: seq<bool>): (r: seq<bool>)
    requires n <= |q|
    ensures |r| == n + |poly|
  {
    if n == 0 then Zeros(|poly|)
    else Xor(ProductOf(q, n - 1, poly) + [false], Zeros(n - 1) + Times(q[n - 1], poly))
  }

  function Times(bit: bool, poly: seq<bool>): (r: seq<bool>)
    ensures |r| == |poly| + 1
  {
    if bit then [true] + poly else Zeros(|poly| + 1)
  }

  /** What is divided: the message followed by as many zeros as the register has bits, with the start value added to its
      front. */
  function Dividend(bits: seq<bool>, init: seq<bool>): (r: seq<bool>)
    ensures |r| == |bits| + |init|
  {
    Xor(bits + Zeros(|init|), init + Zeros(|bits|))
  }

  /** Dividing gives quotient `q` and remainder `r`. */
  predicate Divides(bits: seq<bool>, init: seq<bool>, poly: seq<bool>, q: seq<bool>, r: seq<bool>)
    requires |init| == |poly|
  {
    |q| == |bits| && |r| == |poly| && Dividend(bits, init) == Xor(Product(q, poly), Zeros(|bits|) + r)
  }

  // ---------- place by place ----------

  /** The coefficient at a place, zero outside the sequence. */
  function Coefficient(s: seq<bool>, i: int): bool {
    0 <= i < |s| && s[i]
  }

  lemma SamePlaces(a: seq<bool>, b: seq<bool>)
    requires |a| == |b| && forall i :: 0 <= i < |a| ==> a[i] == b[i]
    ensures a == b
  {}

  lemma SameCoefficients(a: seq<bool>, b: seq<bool>)
    requires |a| == |b| && forall i: nat :: Coefficient(a, i) == Coefficient(b, i)
    ensures a == b
  {
    forall i | 0 <= i < |a| ensures a[i] == b[i] {
      assert Coefficient(a, i) == Coefficient(b, i);
    }
  }

  lemma InConcat(a: seq<bool>, b: seq<bool>, i: int)
    ensures Coefficient(a + b, i) == if i < |a| then Coefficient(a, i) else Coefficient(b, i - |a|)
  {}

  lemma InXor(a: seq<bool>, b: seq<bool>, i: int)
    requires |a| == |b|
    ensures Coefficient(Xor(a, b), i) == (Coefficient(a, i) != Coefficient(b, i))
  {}

  lemma InZeros(n: nat, i: int)
    ensures !Coefficient(Zeros(n), i)
  {}

  lemma InDividend(bits: seq<bool>, init: seq<bool>, i: int)
    ensures Coefficient(Dividend(bits, init), i) == (Coefficient(bits, i) != Coefficient(init, i))
  {
    InXor(bits + Zeros(|init|), init + Zeros(|bits|), i);
    InConcat(bits, Zeros(|init|), i);
    InConcat(init, Zeros(|bits|), i);
    InZeros(|init|, i - |bits|);
    InZeros(|bits|, i - |init|);
  }

  /** `next` is `p` moved up by one place, with `t` added to its end. */
  predicate Extends(next: seq<bool>, p: seq<bool>, n: nat, t: seq<bool>) {
    |p| + 1 == n + |t| && next == Xor(p + [false], Zeros(n) + t)
  }

  lemma InExtended(next: seq<bool>, p: seq<bool>, n: nat, t: seq<bool>, i: int)
    requires Extends(next, p, n, t)
    ensures Coefficient(next, i) == (Coefficient(p, i) != Coefficient(t, i - n))
  {
    InXor(p + [false], Zeros(n) + t, i);
    InConcat(p, [false], i);
    InConcat(Zeros(n), t, i);
    InZeros(n, i);
  }

  lemma InProduct(q: seq<bool>, n: nat, poly: seq<bool>, i: int)
    requires n < |q|
    ensures Coefficient(ProductOf(q, n + 1, poly), i)
         == (Coefficient(ProductOf(q, n, poly), i) != Coefficient(Times(q[n], poly), i - n))
  {
    InExtended(ProductOf(q, n + 1, poly), ProductOf(q, n, poly), n, Times(q[n], poly), i);
  }

  lemma {:induction false} SameFront(q: seq<bool>, q': seq<bool>, n: nat, poly: seq<bool>)
    requires n <= |q| && n <= |q'| && forall k :: 0 <= k < n ==> q[k] == q'[k]
    ensures ProductOf(q, n, poly) == ProductOf(q', n, poly)
  {
    if n > 0 { SameFront(q, q', n - 1, poly); }
  }

  lemma InProductNext(q: seq<bool>, bit: bool, poly: seq<bool>, i: int)
    ensures Coefficient(Product(q + [bit], poly), i)
         == (Coefficient(Product(q, poly), i) != Coefficient(Times(bit, poly), i - |q|))
  {
    InProduct(q + [bit], |q|, poly, i);
    SameFront(q + [bit], q, |q|, poly);
  }

  lemma InTimes(bit: bool, poly: seq<bool>, j: int)
    ensures Coefficient(Times(bit, poly), j) == (bit && (j == 0 || Coefficient(poly, j - 1)))
  {
    if bit {
      InConcat([true], poly, j);
    } else {
      InZeros(|poly| + 1, j);
    }
  }

  lemma InShifted(r: seq<bool>, j: int)
    requires 0 < |r|
    ensures Coefficient(r[1..] + [false], j) == (0 <= j && Coefficient(r, j + 1))
  {
    InConcat(r[1..], [false], j);
  }

  /** One step of the register takes off the polynomial, or nothing, and moves the rest up. */
  lemma InStep(r: seq<bool>, bit: bool, poly: seq<bool>, j: int)
    requires 0 < |r| == |poly|
    ensures Coefficient(Step(r, bit, poly), j)
         == (0 <= j && Coefficient(r, j + 1) != Coefficient(Times(r[0] != bit, poly), j + 1))
  {
    InShifted(r, j);
    InTimes(r[0] != bit, poly, j + 1);
    InXor(r[1..] + [false], poly, j);
  }

  lemma DividedAt(bits: seq<bool>, init: seq<bool>, poly: seq<bool>, q: seq<bool>, r: seq<bool>, i: int)
    requires |init| == |poly| && |q| == |bits| && |r| == |poly|
    ensures Coefficient(Xor(Product(q, poly), Zeros(|bits|) + r), i)
         == (Coefficient(Product(q, poly), i) != Coefficient(r, i - |bits|))
  {
    InXor(Product(q, poly), Zeros(|bits|) + r, i);
    InConcat(Zeros(|bits|), r, i);
    InZeros(|bits|, i);
  }

  /** What `Divides` says of each place. */
  predicate DividesAt(bits: seq<bool>, init: seq<bool>, poly: seq<bool>, q: seq<bool>, r: seq<bool>, i: int) {
    (Coefficient(bits, i) != Coefficient(init, i))
      == (Coefficient(Product(q, poly), i) != Coefficient(r, i - |bits|))
  }

  lemma DividesPlaces(bits: seq<bool>, init: seq<bool>, poly: seq<bool>, q: seq<bool>, r: seq<bool>, i: int)
    requires |init| == |poly| && Divides(bits, init, poly, q, r)
    ensures DividesAt(bits, init, poly, q, r, i)
  {
    InDividend(bits, init, i);
    DividedAt(bits, init, poly, q, r, i);
  }

  lemma DividesByPlaces(bits: seq<bool>, init: seq<bool>, poly: seq<bool>, q: seq<bool>, r: seq<bool>)
    requires |init| == |poly| && |q| == |bits| && |r| == |poly|
    requires forall i: nat :: DividesAt(bits, init, poly, q, r, i)
    ensures Divides(bits, init, poly, q, r)
  {
    var left, right := Dividend(bits, init), Xor(Product(q, poly), Zeros(|bits|) + r);
    forall i: nat ensures Coefficient(left, i) == Coefficient(right, i) {
      assert DividesAt(bits, init, poly, q, r, i);
      InDividend(bits, init, i);
      DividedAt(bits, init, poly, q, r, i);
    }
    SameCoefficients(left, right);
  }

  /** The place `j` of the register and of the product after one more bit. */
  lemma NextPlace(r: seq<bool>, bit: bool, poly: seq<bool>, j: int)
    requires 0 < |r| == |poly|
    ensures (Coefficient(r, j) != Coefficient([bit], j))
         == (Coefficient(Times(r[0] != bit, poly), j) != Coefficient(Step(r, bit, poly), j - 1))
  {
    InStep(r, bit, poly, j - 1);
    InTimes(r[0] != bit, poly, j);
  }

  /** One more bit, at one place. */
  lemma DividesNextAt(bits: seq<bool>, bit: bool, init: seq<bool>, poly: seq<bool>, q: seq<bool>, top: bool,
      r: seq<bool>, s: seq<bool>, i: int)
    requires 0 < |r| == |poly| && |q| == |bits| && DividesAt(bits, init, poly, q, r, i)
    requires top == (r[0] != bit) && s == Step(r, bit, poly)
    ensures DividesAt(bits + [bit], init, poly, q + [top], s, i)
  {
    var j := i - |bits|;
    OneMoreBit(bits, bit, i);
    InProductNext(q, top, poly, i);
    NextPlace(r, bit, poly, j);
  }

  lemma OneMoreBit(bits: seq<bool>, bit: bool, i: int)
    ensures Coefficient(bits + [bit], i) == (Coefficient(bits, i) != Coefficient([bit], i - |bits|))
  {}

  lemma DividesNext(bits: seq<bool>, bit: bool, init: seq<bool>, poly: seq<bool>, q: seq<bool>, r: seq<bool>)
    requires 0 < |init| == |poly| && Divides(bits, init, poly, q, r)
    ensures Divides(bits + [bit], init, poly, q + [r[0] != bit], Step(r, bit, poly))
  {
    var top, s := r[0] != bit, Step(r, bit, poly);
    var bits', q' := bits + [bit], q + [top];
    forall i: nat ensures DividesAt(bits', init, poly, q', s, i) {
      DividesPlaces(bits, init, poly, q, r, i);
      DividesNextAt(bits, bit, init, poly, q, top, r, s, i);
    }
    DividesByPlaces(bits', init, poly, q', s);
  }

  /** The register after all bits is the remainder of a division. */
  lemma {:induction false} RegisterIsRemainder(bits: seq<bool>, init: seq<bool>, poly: seq<bool>)
    returns (q: seq<bool>)
    requires 0 < |init| == |poly|
    ensures Divides(bits, init, poly, q, Feed(init, bits, poly))
  {
    if bits == [] {
      q := [];
      DividesNothing(init, poly);
    } else {
      var last := |bits| - 1;
      var q' := RegisterIsRemainder(bits[..last], init, poly);
      q := RegisterNext(bits, bits[..last], bits[last], init, poly, q');
    }
  }

  lemma RegisterNext(bits: seq<bool>, front: seq<bool>, bit: bool, init: seq<bool>, poly: seq<bool>, q: seq<bool>)
    returns (next: seq<bool>)
    requires 0 < |init| == |poly| && bits == front + [bit] && Divides(front, init, poly, q, Feed(init, front, poly))
    ensures Divides(bits, init, poly, next, Feed(init, bits, poly))
  {
    var r := Feed(init, front, poly);
    DividesNext(front, bit, init, poly, q, r);
    assert bits[..|bits| - 1] == front;
    next := q + [r[0] != bit];
  }

  lemma DividesNothing(init: seq<bool>, poly: seq<bool>)
    requires |init| == |poly|
    ensures Divides([], init, poly, [], init)
  {
    forall i: nat ensures DividesAt([], init, poly, [], init, i) {
      InZeros(|poly|, i);
    }
    DividesByPlaces([], init, poly, [], init);
  }

  // ---------- the remainder is unique ----------

  /** A place of the product depends on no later bit of the quotient. */
  lemma {:induction false} LaterBits(q: seq<bool>, n: nat, poly: seq<bool>, i: nat)
    requires i < n <= |q|
    ensures Coefficient(ProductOf(q, n, poly), i) == (Coefficient(ProductOf(q, i, poly), i) != q[i])
    decreases n
  {
    InProduct(q, n - 1, poly, i);
    InTimes(q[n - 1], poly, i - (n - 1));
    if i < n - 1 { LaterBits(q, n - 1, poly, i); }
  }

  /** Where two quotients first differ, so do the products. */
  lemma ProductsDiffer(q: seq<bool>, q': seq<bool>, poly: seq<bool>, i: nat)
    requires i < |q| == |q'| && (forall k :: 0 <= k < i ==> q[k] == q'[k]) && q[i] != q'[i]
    ensures Coefficient(Product(q, poly), i) != Coefficient(Product(q', poly), i)
  {
    LaterBits(q, |q|, poly, i);
    LaterBits(q', |q|, poly, i);
    SameFront(q, q', i, poly);
  }

  lemma {:induction false} FirstDifference(a: seq<bool>, b: seq<bool>, n: nat) returns (i: nat)
    requires n < |a| == |b| && a[n] != b[n]
    ensures i < |a| && a[i] != b[i] && forall k :: 0 <= k < i ==> a[k] == b[k]
  {
    if k: nat :| k < n && a[k] != b[k] {
      i := FirstDifference(a, b, k);
    } else {
      i := n;
    }
  }

  /** There is only one quotient and one remainder. */
  lemma RemainderIsUnique(bits: seq<bool>, init: seq<bool>, poly: seq<bool>, q: seq<bool>, r: seq<bool>,
      q': seq<bool>, r': seq<bool>)
    requires |init| == |poly| && Divides(bits, init, poly, q, r) && Divides(bits, init, poly, q', r')
    ensures q == q' && r == r'
  {
    if q != q' {
      var n: nat :| n < |q| && q[n] != q'[n];
      var i := FirstDifference(q, q', n);
      ProductsDiffer(q, q', poly, i);
      DividesPlaces(bits, init, poly, q, r, i);
      DividesPlaces(bits, init, poly, q', r', i);
      assert false;
    }
    forall j: nat ensures Coefficient(r, j) == Coefficient(r', j) {
      DividesPlaces(bits, init, poly, q, r, |bits| + j);
      DividesPlaces(bits, init, poly, q', r', |bits| + j);
    }
    SameCoefficients(r, r');
  }

  /** A register is the remainder of a division exactly if it is what feeding the message leaves. */
  lemma RemainderIff(bits: seq<bool>, init: seq<bool>, poly: seq<bool>, r: seq<bool>)
    requires 0 < |init| == |poly|
    ensures (exists q :: Divides(bits, init, poly, q, r)) <==> r == Feed(init, bits, poly)
  {
    var q := RegisterIsRemainder(bits, init, poly);
    if q' :| Divides(bits, init, poly, q', r) {
      RemainderIsUnique(bits, init, poly, q, Feed(init, bits, poly), q', r);
    }
  }
}
