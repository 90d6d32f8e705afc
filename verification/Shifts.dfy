/** Shifts and masks on unbounded naturals, defined one bit at a time so that no fact about
    them needs non-linear arithmetic. */
module Shifts {
  /** `v << k`. */
  function Mul2(v: int, k: nat): (r: int)
    ensures v >= 0 ==> r >= v
  {
    if k == 0 then v else 2 * Mul2(v, k - 1)
  }

  /** `v >> k`. */
  function Div2(v: nat, k: nat): nat {
    if k == 0 then v else Div2(v / 2, k - 1)
  }

  /** The `k` low bits of `v`. */
  function Mod2(v: nat, k: nat): (r: nat)
    ensures r < Pow2(k)
  {
    if k == 0 then 0 else 2 * Mod2(v / 2, k - 1) + v % 2
  }

  function Pow2(k: nat): (p: nat)
    ensures p > 0
  {
    Mul2(1, k)
  }

  lemma {:induction false} Split(v: nat, k: nat)
    ensures v == Mul2(Div2(v, k), k) + Mod2(v, k)
  {
    if k == 0 {
    } else {
      Split(v / 2, k - 1);
    }
  }

  lemma {:induction false} Mul2Mul2(v: int, a: nat, b: nat)
    ensures Mul2(Mul2(v, a), b) == Mul2(v, a + b)
  {
    if b == 0 {
    } else {
      Mul2Mul2(v, a, b - 1);
      assert a + b - 1 == a + (b - 1);
    }
  }

  lemma {:induction false} Mul2Sum(x: int, y: int, k: nat)
    ensures Mul2(x + y, k) == Mul2(x, k) + Mul2(y, k)
  {
    if k == 0 {
    } else {
      Mul2Sum(x, y, k - 1);
    }
  }

  lemma {:induction false} Mul2Less(x: int, y: int, k: nat)
    requires x < y
    ensures Mul2(x, k) + Pow2(k) <= Mul2(y, k)
  {
    if k == 0 {
    } else {
      Mul2Less(x, y, k - 1);
    }
  }

  /** Quotient and remainder by `2^k` are unique. */
  lemma {:induction false} Join(q: nat, r: nat, k: nat)
    requires r < Pow2(k)
    ensures Div2(Mul2(q, k) + r, k) == q && Mod2(Mul2(q, k) + r, k) == r
  {
    if k == 0 {
    } else {
      var v := Mul2(q, k) + r;
      assert v / 2 == Mul2(q, k - 1) + r / 2 && v % 2 == r % 2;
      Join(q, r / 2, k - 1);
    }
  }

  lemma Div2Below(v: nat, k: nat, limit: nat)
    requires v < Mul2(limit, k)
    ensures Div2(v, k) < limit
  {
    Split(v, k);
    if Div2(v, k) > limit {
      Mul2Less(limit, Div2(v, k), k);
    }
  }

  /** A numeral `a * 2^k + b` stays below `limit * 2^k` when `a` is below `limit`. */
  lemma JoinBelow(a: int, b: int, k: nat, limit: int)
    requires a < limit && b < Pow2(k)
    ensures Mul2(a, k) + b < Mul2(limit, k)
  {
    Mul2Less(a, limit, k);
  }

  /** Cutting off `k` bits and then `j` more. */
  lemma SplitTwice(v: nat, j: nat, k: nat)
    ensures v == Mul2(Div2(Div2(v, k), j), j + k) + (Mul2(Mod2(Div2(v, k), j), k) + Mod2(v, k))
  {
    var q := Div2(v, k);
    Split(v, k);
    Split(q, j);
    Mul2Sum(Mul2(Div2(q, j), j), Mod2(q, j), k);
    Mul2Mul2(Div2(q, j), j, k);
  }

  lemma ConcatBelow(a: nat, b: nat, j: nat, k: nat)
    requires a < Pow2(j) && b < Pow2(k)
    ensures Mul2(a, k) + b < Pow2(j + k)
  {
    JoinBelow(a, b, k, Pow2(j));
    Mul2Mul2(1, j, k);
  }

  /** The low `j + k` bits are the low `j` bits of the upper part followed by the low `k` bits. */
  lemma ModSplit(v: nat, j: nat, k: nat)
    ensures Mod2(v, j + k) == Mul2(Mod2(Div2(v, k), j), k) + Mod2(v, k)
  {
    SplitTwice(v, j, k);
    var low := Mul2(Mod2(Div2(v, k), j), k) + Mod2(v, k);
    ConcatBelow(Mod2(Div2(v, k), j), Mod2(v, k), j, k);
    Join(Div2(Div2(v, k), j), low, j + k);
  }

  /** Masking to more bits first changes nothing. */
  lemma ModMod(v: nat, j: nat, k: nat)
    requires j <= k
    ensures Mod2(Mod2(v, k), j) == Mod2(v, j)
  {
    ModSplit(v, k - j, j);
    Join(Mod2(Div2(v, j), k - j), Mod2(v, j), j);
  }

  /** Adding below zeroed low bits, which is what `|` does there. */
  lemma OrLowBits(v: nat, bits: nat, d: nat, k: nat)
    requires Mod2(v, k) == 0 && d < Pow2(k)
    ensures Mod2(v + d, bits + k) == Mod2(v, bits + k) + d
  {
    Split(v, k);
    Join(Div2(v, k), d, k);
    ModSplit(v, bits, k);
    ModSplit(v + d, bits, k);
  }

  const WORD: nat := 0x1_0000_0000

  lemma {:induction false} Mul2Word(y: nat, w: nat)
    requires Pow2(w) == WORD
    ensures Mul2(y, w) == y * WORD
  {
    if y == 0 {
      Mul2Sum(0, 0, w);
    } else {
      Mul2Word(y - 1, w);
      Mul2Sum(y - 1, 1, w);
    }
  }

  /** Keeping `w` low bits is the remainder modulo `2^w`, here for a 32-bit word. */
  lemma WordMask(v: nat, w: nat)
    requires Pow2(w) == WORD
    ensures v % WORD == Mod2(v, w)
  {
    Split(v, w);
    Mul2Word(Div2(v, w), w);
  }

  lemma WordWidth() returns (w: nat)
    ensures w >= 16 && Pow2(w) == WORD
  {
    w := 32;
    assert Pow2(8) == 0x100;
    assert Mul2(0x100, 8) == 0x1_0000 && Mul2(0x1_0000, 8) == 0x100_0000 && Mul2(0x100_0000, 8) == WORD;
    Mul2Mul2(1, 8, 8);
    Mul2Mul2(1, 16, 8);
    Mul2Mul2(1, 24, 8);
  }
}
