/** Powers of two and the reversal of the low bits of a number. */
module Bits {
  function Pow2(k: nat): (p: nat)
    ensures p >= 1
  {
    if k == 0 then 1 else 2 * Pow2(k - 1)
  }

  lemma {:induction false} Pow2Adds(a: nat, b: nat)
    ensures Pow2(a + b) == Pow2(a) * Pow2(b)
  {
    if a > 0 {
      Pow2Adds(a - 1, b);
      assert 2 * Pow2(a - 1) * Pow2(b) == 2 * (Pow2(a - 1) * Pow2(b));
    }
  }

  lemma {:induction false} Pow2Grows(a: nat, b: nat)
    requires a < b
    ensures 2 * Pow2(a) <= Pow2(b)
  {
    if a + 1 < b {
      Pow2Grows(a, b - 1);
    }
  }

  /** The low k bits of p, last bit first. */
  function Rev(k: nat, p: nat): nat {
    if k == 0 then 0 else (if p % 2 == 1 then Pow2(k - 1) else 0) + Rev(k - 1, p / 2)
  }

  lemma {:induction false} RevBound(k: nat, p: nat)
    ensures Rev(k, p) < Pow2(k)
  {
    if k > 0 {
      RevBound(k - 1, p / 2);
    }
  }

  /** Seen from the top bit: the lower half of the numbers maps to the even ones, the upper half
      to the odd ones. */
  lemma {:induction false} RevTop(k: nat, p: nat)
    requires p < Pow2(k)
    ensures Rev(k + 1, p) == 2 * Rev(k, p)
    ensures Rev(k + 1, p + Pow2(k)) == 2 * Rev(k, p) + 1
  {
    if k == 0 {
      assert Rev(1, 0) == 0 && Rev(1, 1) == 1 by {
        assert Rev(0, 0) == 0;
      }
    } else {
      RevTop(k - 1, p / 2);
      HalfOfSum(p, Pow2(k - 1));
    }
  }

  lemma HalfOfSum(p: nat, m: nat)
    ensures (p + 2 * m) % 2 == p % 2 && (p + 2 * m) / 2 == p / 2 + m
  {
  }

  lemma LowBit(p: nat)
    ensures p == 2 * (p / 2) + p % 2 && (p % 2 == 0 || p % 2 == 1)
  {
  }

  /** The reversal of a reversed number, bit by bit from the top. */
  lemma RevOfRev(k: nat, p: nat, q: nat)
    requires k > 0 && q < Pow2(k - 1) && Rev(k, p) == (if p % 2 == 0 then q else q + Pow2(k - 1))
    ensures Rev(k, Rev(k, p)) == 2 * Rev(k - 1, q) + p % 2
  {
    RevTop(k - 1, q);
  }

  /** Reversing twice gives the number back, so Rev(k, _) is a permutation of the numbers below 2^k. */
  lemma {:induction false} RevInvolution(k: nat, p: nat)
    requires p < Pow2(k)
    ensures Rev(k, Rev(k, p)) == p
  {
    if k > 0 {
      var q := Rev(k - 1, p / 2);
      LowBit(p);
      RevBound(k - 1, p / 2);
      RevInvolution(k - 1, p / 2);
      RevOfRev(k, p, q);
    }
  }
}
