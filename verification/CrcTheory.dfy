/** Cyclic redundancy checks of any width, on registers written as bit sequences, most significant bit first. */
module CrcTheory {

  function Xor(a: seq<bool>, b: seq<bool>): (r: seq<bool>)
    requires |a| == |b|
    ensures |r| == |a|
    ensures forall i :: 0 <= i < |r| ==> r[i] == (a[i] != b[i])
  {
    seq(|a|, i requires 0 <= i < |a| => a[i] != b[i])
  }

  function Zeros(n: nat): (r: seq<bool>)
    ensures |r| == n
    ensures forall i :: 0 <= i < n ==> !r[i]
  {
    seq(n, _ => false)
  }

  lemma XorLaws(a: seq<bool>)
    ensures Xor(a, Zeros(|a|)) == a && Xor(Zeros(|a|), a) == a && Xor(a, a) == Zeros(|a|)
  {}

  lemma XorAppend(a: seq<bool>, b: seq<bool>, x: bool, y: bool)
    requires |a| == |b|
    ensures Xor(a + [x], b + [y]) == Xor(a, b) + [x != y]
  {}

  lemma ZerosJoin(m: nat, n: nat)
    ensures Zeros(m) + Zeros(n) == Zeros(m + n)
  {}

  /** Shifts the register left and subtracts the polynomial when the bit that falls out differs from the input bit. */
  function Step(r: seq<bool>, bit: bool, poly: seq<bool>): (s: seq<bool>)
    requires 0 < |r| == |poly|
    ensures |s| == |r|
  {
    var shifted := r[1..] + [false];
    if r[0] != bit then Xor(shifted, poly) else shifted
  }

  function Feed(r: seq<bool>, bits: seq<bool>, poly: seq<bool>): (s: seq<bool>)
    requires 0 < |r| == |poly|
    ensures |s| == |r|
  {
    if bits == [] then r
    else Step(Feed(r, bits[..|bits| - 1], poly), bits[|bits| - 1], poly)
  }

  lemma {:induction false} FeedConcat(r: seq<bool>, a: seq<bool>, b: seq<bool>, poly: seq<bool>)
    requires 0 < |r| == |poly|
    ensures Feed(r, a + b, poly) == Feed(Feed(r, a, poly), b, poly)
  {
    if b == [] {
      assert a + b == a;
    } else {
      var last := |b| - 1;
      assert (a + b)[..|a + b| - 1] == a + b[..last];
      FeedConcat(r, a, b[..last], poly);
    }
  }

  // ---------- linearity ----------

  lemma StepLinear(r: seq<bool>, r': seq<bool>, bit: bool, bit': bool, poly: seq<bool>)
    requires 0 < |r| == |r'| == |poly|
    ensures Step(Xor(r, r'), bit != bit', poly) == Xor(Step(r, bit, poly), Step(r', bit', poly))
  {}

  /** Feeding the difference of two messages to the difference of two registers gives the difference of the results. */
  lemma {:induction false} FeedLinear(r: seq<bool>, r': seq<bool>, bits: seq<bool>, bits': seq<bool>, poly: seq<bool>)
    requires 0 < |r| == |r'| == |poly| && |bits| == |bits'|
    ensures Feed(Xor(r, r'), Xor(bits, bits'), poly) == Xor(Feed(r, bits, poly), Feed(r', bits', poly))
  {
    if bits != [] {
      var last := |bits| - 1;
      FeedLinear(r, r', bits[..last], bits'[..last], poly);
      assert Xor(bits, bits')[..last] == Xor(bits[..last], bits'[..last]);
      StepLinear(Feed(r, bits[..last], poly), Feed(r', bits'[..last], poly), bits[last], bits'[last], poly);
    }
  }

  /** A register whose leading bits are the message is shifted out to the rest of the register. */
  lemma {:induction false} Cancels(bits: seq<bool>, rest: seq<bool>, poly: seq<bool>)
    requires 0 < |bits + rest| == |poly|
    ensures Feed(bits + rest, bits, poly) == rest + Zeros(|bits|)
  {
    if bits == [] {
      assert bits + rest == rest == rest + Zeros(0);
    } else {
      var last := |bits| - 1;
      assert bits + rest == bits[..last] + ([bits[last]] + rest);
      Cancels(bits[..last], [bits[last]] + rest, poly);
      assert rest + Zeros(|bits|) == (rest + Zeros(last)) + [false];
    }
  }

  function Aligned(bits: seq<bool>, n: nat): (r: seq<bool>)
    requires |bits| <= n
    ensures |r| == n
  {
    bits + Zeros(n - |bits|)
  }

  lemma AlignedVanishes(bits: seq<bool>, n: nat, poly: seq<bool>)
    requires 0 < n == |poly| && |bits| <= n
    ensures Feed(Aligned(bits, n), bits, poly) == Zeros(n)
  {
    Cancels(bits, Zeros(n - |bits|), poly);
    ZerosJoin(n - |bits|, |bits|);
  }

  /** Taking bits in one by one, or adding them to the top of the register first and then shifting, is the same. */
  lemma FeedAligned(r: seq<bool>, bits: seq<bool>, poly: seq<bool>)
    requires 0 < |r| == |poly| && |bits| <= |r|
    ensures Feed(Xor(r, Aligned(bits, |r|)), Zeros(|bits|), poly) == Feed(r, bits, poly)
  {
    AddVanishing(r, Aligned(bits, |r|), bits, poly);
    AlignedVanishes(bits, |r|, poly);
  }

  lemma AddVanishing(r: seq<bool>, x: seq<bool>, bits: seq<bool>, poly: seq<bool>)
    requires 0 < |r| == |x| == |poly|
    ensures Feed(x, bits, poly) == Zeros(|r|) ==> Feed(Xor(r, x), Zeros(|bits|), poly) == Feed(r, bits, poly)
  {
    FeedLinear(r, x, bits, bits, poly);
    XorLaws(bits);
    XorLaws(Feed(r, bits, poly));
  }

  // ---------- detection ----------

  lemma StepInjective(r: seq<bool>, r': seq<bool>, bit: bool, poly: seq<bool>)
    requires 0 < |r| == |r'| == |poly| && poly[|poly| - 1]
    requires Step(r, bit, poly) == Step(r', bit, poly)
    ensures r == r'
  {
    var last := |r| - 1;
    var s, s' := Step(r, bit, poly), Step(r', bit, poly);
    assert s[last] == (r[0] != bit) && s'[last] == (r'[0] != bit);
    forall i | 0 < i < |r| ensures r[i] == r'[i] {
      assert s[i - 1] == s'[i - 1];
    }
  }

  lemma {:induction false} FeedInjective(r: seq<bool>, r': seq<bool>, bits: seq<bool>, poly: seq<bool>)
    requires 0 < |r| == |r'| == |poly| && poly[|poly| - 1]
    requires Feed(r, bits, poly) == Feed(r', bits, poly)
    ensures r == r'
  {
    if bits != [] {
      var last := |bits| - 1;
      StepInjective(Feed(r, bits[..last], poly), Feed(r', bits[..last], poly), bits[last], poly);
      FeedInjective(r, r', bits[..last], poly);
    }
  }

  /** Two different bursts no longer than the register never lead from one register to the same register. */
  lemma BurstsDiffer(r: seq<bool>, w: seq<bool>, w': seq<bool>, poly: seq<bool>)
    requires 0 < |r| == |poly| && poly[|poly| - 1]
    requires |w| == |w'| <= |r| && w != w'
    ensures Feed(r, w, poly) != Feed(r, w', poly)
  {
    if Feed(r, w, poly) == Feed(r, w', poly) {
      var n := |r|;
      FeedAligned(r, w, poly);
      FeedAligned(r, w', poly);
      var x, x' := Xor(r, Aligned(w, n)), Xor(r, Aligned(w', n));
      FeedInjective(x, x', Zeros(|w|), poly);
      forall i | 0 <= i < |w| ensures w[i] == w'[i] {
        assert x[i] == (r[i] != w[i]) && x'[i] == (r[i] != w'[i]);
      }
      assert false;
    }
  }

  /** Two messages that differ, but only within a window no longer than the register. */
  ghost predicate DifferInBurst(m: seq<bool>, m': seq<bool>, n: nat, p: nat, length: nat) {
    && |m| == |m'| && p + length <= |m| && length <= n
    && m[..p] == m'[..p] && m[p + length..] == m'[p + length..]
    && m != m'
  }

  lemma BurstDetected(r: seq<bool>, m: seq<bool>, m': seq<bool>, poly: seq<bool>, p: nat, length: nat)
    requires 0 < |r| == |poly| && poly[|poly| - 1]
    requires DifferInBurst(m, m', |r|, p, length)
    ensures Feed(r, m, poly) != Feed(r, m', poly)
  {
    var a, w, w', c := m[..p], m[p..p + length], m'[p..p + length], m[p + length..];
    assert m == a + (w + c) && m' == a + (w' + c);
    var q := Feed(r, a, poly);
    FeedConcat(r, a, w + c, poly);
    FeedConcat(r, a, w' + c, poly);
    FeedConcat(q, w, c, poly);
    FeedConcat(q, w', c, poly);
    BurstsDiffer(q, w, w', poly);
    if Feed(r, m, poly) == Feed(r, m', poly) {
      FeedInjective(Feed(q, w, poly), Feed(q, w', poly), c, poly);
    }
  }

  ghost predicate DetectsBursts(poly: seq<bool>)
    requires 0 < |poly|
  {
    forall r, m, m', p, length ::
      |r| == |poly| && DifferInBurst(m, m', |poly|, p, length) ==> Feed(r, m, poly) != Feed(r, m', poly)
  }

  /** Exactly the polynomials with a constant term detect every burst as long as the register. */
  lemma DetectsBurstsIff(poly: seq<bool>)
    requires 0 < |poly|
    ensures DetectsBursts(poly) <==> poly[|poly| - 1]
  {
    var n := |poly|;
    if poly[n - 1] {
      forall r, m, m', p, length | |r| == n && DifferInBurst(m, m', n, p, length)
        ensures Feed(r, m, poly) != Feed(r, m', poly)
      {
        BurstDetected(r, m, m', poly, p, length);
      }
    } else {
      var burst := [true] + poly[..n - 1];
      MissedBurst(poly);
      assert burst[0] != Zeros(n)[0];
      assert DifferInBurst(burst, Zeros(n), n, 0, n);
    }
  }

  /** Without a constant term, the polynomial shifted right by one bit leaves no trace. */
  lemma MissedBurst(poly: seq<bool>)
    requires 0 < |poly| && !poly[|poly| - 1]
    ensures Feed(Zeros(|poly|), [true] + poly[..|poly| - 1], poly) == Feed(Zeros(|poly|), Zeros(|poly|), poly)
  {
    var n, burst := |poly|, [true] + poly[..|poly| - 1];
    FeedAligned(Zeros(n), burst, poly);
    AlignedWhole(burst);
    XorLaws(burst);
    ShiftsToZero(poly);
    SameAfterOne(burst, Zeros(n), n, poly);
  }

  lemma AlignedWhole(bits: seq<bool>)
    ensures Aligned(bits, |bits|) == bits
  {}

  lemma SameAfterOne(r: seq<bool>, r': seq<bool>, n: nat, poly: seq<bool>)
    requires 0 < |r| == |r'| == |poly| && 0 < n
    requires Feed(r, Zeros(1), poly) == Feed(r', Zeros(1), poly)
    ensures Feed(r, Zeros(n), poly) == Feed(r', Zeros(n), poly)
  {
    ZerosJoin(1, n - 1);
    FeedConcat(r, Zeros(1), Zeros(n - 1), poly);
    FeedConcat(r', Zeros(1), Zeros(n - 1), poly);
  }

  lemma ShiftsToZero(poly: seq<bool>)
    requires 0 < |poly| && !poly[|poly| - 1]
    ensures Feed([true] + poly[..|poly| - 1], Zeros(1), poly) == Zeros(|poly|) == Feed(Zeros(|poly|), Zeros(1), poly)
  {
    var burst := [true] + poly[..|poly| - 1];
    assert Zeros(1) == [false];
    SingleStep(burst, false, poly);
    SingleStep(Zeros(|poly|), false, poly);
    assert burst[1..] + [false] == poly;
    XorLaws(poly);
  }

  lemma SingleStep(r: seq<bool>, bit: bool, poly: seq<bool>)
    requires 0 < |r| == |poly|
    ensures Feed(r, [bit], poly) == Step(r, bit, poly)
  {
    assert [bit][..0] == [];
    assert Feed(r, [], poly) == r;
  }
}
