/** Bitwise operators of C on natural numbers, and the arithmetic of aligned
    power-of-two blocks. All definitions recurse on the binary representation, so
    every proof below stays linear. */
module Bits {

  /** `1 << k` */
  function Pow2(k: nat): (r: nat)
    ensures r >= 1
  {
    if k == 0 then 1 else 2 * Pow2(k - 1)
  }

  /** `a ^ b` */
  function Xor(a: nat, b: nat): nat
    decreases a + b
  {
    if a == 0 && b == 0 then 0 else 2 * Xor(a / 2, b / 2) + if a % 2 == b % 2 then 0 else 1
  }

  /** `a & b` */
  function And(a: nat, b: nat): nat
    decreases a + b
  {
    if a == 0 && b == 0 then 0 else 2 * And(a / 2, b / 2) + if a % 2 == 1 && b % 2 == 1 then 1 else 0
  }

  /** The low `k` bits of `i` are zero. */
  predicate Aligned(i: nat, k: nat) {
    k == 0 || (i % 2 == 0 && Aligned(i / 2, k - 1))
  }

  lemma {:induction false} AndSelf(a: nat)
    ensures And(a, a) == a
  {
    if a != 0 { AndSelf(a / 2); }
  }

  /** For an aligned index, flipping bit `k` moves by exactly one block: the lower
      of the two is the one aligned one order higher, and `&` selects it. */
  lemma XorFlipsBlock(i: nat, k: nat)
    requires Aligned(i, k)
    ensures Aligned(Xor(i, Pow2(k)), k)
    ensures Aligned(i, k + 1) ==> Xor(i, Pow2(k)) == i + Pow2(k)
    ensures !Aligned(i, k + 1) ==> Xor(i, Pow2(k)) == i - Pow2(k)
    ensures Aligned(i, k + 1) <==> !Aligned(Xor(i, Pow2(k)), k + 1)
    ensures Xor(Xor(i, Pow2(k)), Pow2(k)) == i
  {
    XorMoves(i, k);
    XorMoves(Xor(i, Pow2(k)), k);
  }

  lemma {:induction false} XorMoves(i: nat, k: nat)
    requires Aligned(i, k)
    ensures Aligned(Xor(i, Pow2(k)), k)
    ensures Aligned(i, k + 1) ==> Xor(i, Pow2(k)) == i + Pow2(k)
    ensures !Aligned(i, k + 1) ==> Xor(i, Pow2(k)) == i - Pow2(k)
    ensures Aligned(i, k + 1) <==> !Aligned(Xor(i, Pow2(k)), k + 1)
  {
    if k == 0 {
      XorLowBit(i);
      assert Pow2(k) == 1 && (Aligned(i, k + 1) <==> i % 2 == 0);
    } else {
      var y := Xor(i / 2, Pow2(k - 1));
      XorMoves(i / 2, k - 1);
      XorDouble(i, Pow2(k - 1));
      AlignedDouble(i / 2, k - 1);
      AlignedDouble(i / 2, k);
      AlignedDouble(y, k - 1);
      AlignedDouble(y, k);
    }
  }

  lemma XorDouble(i: nat, b: nat)
    requires i % 2 == 0
    ensures Xor(i, 2 * b) == 2 * Xor(i / 2, b) && i == 2 * (i / 2)
  {
    var c := 2 * b;
    assert c / 2 == b && c % 2 == 0;
    if i == 0 && c == 0 {
      assert Xor(i, c) == 0 && Xor(i / 2, c / 2) == 0;
    } else {
      assert Xor(i, c) == 2 * Xor(i / 2, c / 2);
    }
  }

  lemma AlignedDouble(y: nat, k: nat)
    ensures Aligned(2 * y, k + 1) <==> Aligned(y, k)
  {
    assert 2 * y / 2 == y;
  }

  lemma {:induction false} AndSelectsLower(i: nat, k: nat)
    requires Aligned(i, k)
    ensures And(i, Xor(i, Pow2(k))) == if Aligned(i, k + 1) then i else i - Pow2(k)
  {
    XorFlipsBlock(i, k);
    if k == 0 {
      XorLowBit(i);
      AndSelf(i / 2);
    } else {
      XorFlipsBlock(i / 2, k - 1);
      AndSelectsLower(i / 2, k - 1);
    }
  }

  lemma XorLowBit(i: nat)
    ensures Xor(i, 1) == if i % 2 == 0 then i + 1 else i - 1
  {
    XorZero(i / 2);
  }

  lemma {:induction false} XorZero(a: nat)
    ensures Xor(a, 0) == a
  {
    if a != 0 { XorZero(a / 2); }
  }

  /** An index aligned for a larger order is aligned for every smaller one. */
  lemma {:induction false} AlignedDown(i: nat, k: nat, m: nat)
    requires Aligned(i, m) && k <= m
    ensures Aligned(i, k)
  {
    if k > 0 { AlignedDown(i / 2, k - 1, m - 1); }
  }

  /** Aligned blocks never straddle: one that meets a block of at least its own order
      lies inside it. */
  lemma {:induction false} BlocksNest(i: nat, k: nat, j: nat, m: nat, p: nat)
    requires Aligned(i, k) && Aligned(j, m) && k <= m
    requires i <= p < i + Pow2(k) && j <= p < j + Pow2(m)
    ensures j <= i && i + Pow2(k) <= j + Pow2(m)
  {
    if k > 0 {
      BlocksNest(i / 2, k - 1, j / 2, m - 1, p / 2);
    }
  }

  /** `Aligned` in the usual arithmetic form. */
  lemma {:induction false} AlignedIsModulo(i: nat, k: nat)
    ensures Aligned(i, k) <==> i % Pow2(k) == 0
  {
    if k > 0 {
      AlignedIsModulo(i / 2, k - 1);
      ModDouble(i, Pow2(k - 1));
    }
  }

  lemma ModDouble(i: nat, h: nat)
    requires h > 0
    ensures i % (2 * h) == 2 * ((i / 2) % h) + i % 2
  {
    var q, r := (i / 2) / h, (i / 2) % h;
    calc {
      i;
      2 * (i / 2) + i % 2;
      2 * (q * h + r) + i % 2;
      q * (2 * h) + (2 * r + i % 2);
    }
    RemainderUnique(i, 2 * h, q, 2 * r + i % 2);
  }

  lemma RemainderUnique(n: nat, d: nat, q: nat, r: nat)
    requires d > 0 && n == q * d + r && r < d
    ensures n / d == q && n % d == r
  {
    var e := n / d - q;
    assert n == (q + e) * d + n % d == q * d + e * d + n % d;
    assert e * d == r - n % d;
    assert e >= 1 ==> e * d >= d;
    assert e <= -1 ==> e * d <= 0 - d;
  }
}
