/** The discrete Fourier transform over a commutative ring, as a sum, and the equations by which
    a transform of length 2m is put together from two of length m. */
module Dft {
  import opened Ring

  /** Sum of x(start + stride * j) * root^(stride * j * k) over j < n: entry k of the transform of
      every stride-th sample from start on, when root^(stride * n) is one. */
  function DftSum<T>(r: Ring<T>, root: T, x: nat -> T, start: nat, stride: nat, k: nat, n: nat): T {
    if n == 0 then r.zero
    else r.add(DftSum(r, root, x, start, stride, k, n - 1), Term(r, root, x, start, stride, k, n - 1))
  }

  function Term<T>(r: Ring<T>, root: T, x: nat -> T, start: nat, stride: nat, k: nat, j: nat): T {
    r.mul(x(start + stride * j), Pow(r, root, stride * j * k))
  }

  /** Regrouping of four summands. */
  lemma Regroup<T(!new)>(r: Ring<T>, a: T, b: T, c: T, d: T)
    requires IsRing(r)
    ensures r.add(r.add(r.add(a, b), c), d) == r.add(r.add(a, c), r.add(b, d))
  {
    assert AddAssoc(r, a, b, c) && AddComm(r, b, c) && AddAssoc(r, a, c, b);
    assert AddAssoc(r, r.add(a, c), b, d);
  }

  lemma OddTerm<T(!new)>(r: Ring<T>, root: T, x: nat -> T, start: nat, stride: nat, k: nat, j: nat)
    requires IsRing(r)
    ensures Term(r, root, x, start, stride, k, 2 * j + 1)
         == r.mul(Pow(r, root, stride * k), Term(r, root, x, start + stride, 2 * stride, k, j))
  {
    var v := x(start + stride * (2 * j + 1));
    assert start + stride * (2 * j + 1) == start + stride + 2 * stride * j;
    assert stride * (2 * j + 1) * k == stride * k + 2 * stride * j * k;
    var w, p := Pow(r, root, stride * k), Pow(r, root, 2 * stride * j * k);
    PowAdds(r, root, stride * k, 2 * stride * j * k);
    assert MulComm(r, v, r.mul(w, p)) && MulAssoc(r, w, p, v) && MulComm(r, p, v);
  }

  lemma EvenTerm<T>(r: Ring<T>, root: T, x: nat -> T, start: nat, stride: nat, k: nat, j: nat)
    ensures Term(r, root, x, start, stride, k, 2 * j) == Term(r, root, x, start, 2 * stride, k, j)
  {
    assert stride * (2 * j) == 2 * stride * j;
    assert stride * (2 * j) * k == 2 * stride * j * k;
  }

  lemma TwoMore<T>(r: Ring<T>, root: T, x: nat -> T, start: nat, stride: nat, k: nat, n: nat)
    ensures DftSum(r, root, x, start, stride, k, n + 2)
         == r.add(r.add(DftSum(r, root, x, start, stride, k, n), Term(r, root, x, start, stride, k, n)),
                  Term(r, root, x, start, stride, k, n + 1))
  {
    assert DftSum(r, root, x, start, stride, k, n + 1)
        == r.add(DftSum(r, root, x, start, stride, k, n), Term(r, root, x, start, stride, k, n));
  }

  /** One more even and one more odd term. */
  lemma JoinTerms<T(!new)>(r: Ring<T>, w: T, even: T, odd: T, t0: T, t1: T)
    requires IsRing(r)
    ensures r.add(r.add(r.add(even, r.mul(w, odd)), t0), r.mul(w, t1))
         == r.add(r.add(even, t0), r.mul(w, r.add(odd, t1)))
  {
    Regroup(r, even, r.mul(w, odd), t0, r.mul(w, t1));
    assert Distributes(r, w, odd, t1);
  }

  /** A sum of 2m terms is the sum over the even samples plus a power of the root times the sum over
      the odd ones. */
  lemma {:induction false} Interleave<T(!new)>(
      r: Ring<T>, root: T, x: nat -> T, start: nat, stride: nat, k: nat, m: nat)
    requires IsRing(r)
    ensures DftSum(r, root, x, start, stride, k, 2 * m)
         == r.add(DftSum(r, root, x, start, 2 * stride, k, m),
                  r.mul(Pow(r, root, stride * k), DftSum(r, root, x, start + stride, 2 * stride, k, m)))
  {
    var w := Pow(r, root, stride * k);
    if m == 0 {
      MulZero(r, w);
      assert AddZero(r, r.zero);
    } else {
      var j := m - 1;
      Interleave(r, root, x, start, stride, k, j);
      EvenTerm(r, root, x, start, stride, k, j);
      OddTerm(r, root, x, start, stride, k, j);
      TwoMore(r, root, x, start, stride, k, 2 * j);
      JoinTerms(r, w, DftSum(r, root, x, start, 2 * stride, k, j),
                DftSum(r, root, x, start + stride, 2 * stride, k, j),
                Term(r, root, x, start, 2 * stride, k, j), Term(r, root, x, start + stride, 2 * stride, k, j));
    }
  }

  /** Whole turns leave a power as it is. */
  lemma PowTurns<T(!new)>(r: Ring<T>, root: T, e: nat, t: nat, j: nat)
    requires IsRing(r) && Pow(r, root, t) == r.one
    ensures Pow(r, root, e + t * j) == Pow(r, root, e)
  {
    PowAdds(r, root, e, t * j);
    PowMul(r, root, t, j);
    PowOne(r, j);
    assert MulComm(r, Pow(r, root, e), r.one) && MulOne(r, Pow(r, root, e));
  }

  lemma ExponentGrows(stride: nat, j: nat, k: nat, m: nat)
    ensures stride * j * (k + m) == stride * j * k + stride * m * j
  {
  }

  /** A term m entries on is the same. */
  lemma PeriodicTerm<T(!new)>(r: Ring<T>, root: T, x: nat -> T, start: nat, stride: nat, k: nat, m: nat, j: nat)
    requires IsRing(r) && Pow(r, root, stride * m) == r.one
    ensures Term(r, root, x, start, stride, k + m, j) == Term(r, root, x, start, stride, k, j)
  {
    ExponentGrows(stride, j, k, m);
    PowTurns(r, root, stride * j * k, stride * m, j);
  }

  /** The transform of length m repeats after m entries. */
  lemma {:induction false} Periodic<T(!new)>(
      r: Ring<T>, root: T, x: nat -> T, start: nat, stride: nat, k: nat, m: nat, n: nat)
    requires IsRing(r) && Pow(r, root, stride * m) == r.one
    ensures DftSum(r, root, x, start, stride, k + m, n) == DftSum(r, root, x, start, stride, k, n)
  {
    if n > 0 {
      Periodic(r, root, x, start, stride, k, m, n - 1);
      PeriodicTerm(r, root, x, start, stride, k, m, n - 1);
    }
  }

  /** Half a turn further the power of the root is negated. */
  lemma HalfTurn<T(!new)>(r: Ring<T>, root: T, stride: nat, k: nat, m: nat, odd: T)
    requires IsRing(r) && Pow(r, root, stride * m) == r.neg(r.one)
    ensures r.mul(Pow(r, root, stride * (k + m)), odd) == r.neg(r.mul(Pow(r, root, stride * k), odd))
  {
    var w := Pow(r, root, stride * k);
    assert stride * (k + m) == stride * m + stride * k;
    PowAdds(r, root, stride * m, stride * k);
    assert MulAssoc(r, r.neg(r.one), w, odd);
    MulNegOne(r, r.mul(w, odd));
  }

  /** Entry k + m of the transform of both, from entries k of the transforms of the even and the
      odd samples; Interleave is the same for entry k. */
  lemma ButterflyHigh<T(!new)>(r: Ring<T>, root: T, x: nat -> T, start: nat, stride: nat, k: nat, m: nat)
    requires IsRing(r) && Pow(r, root, stride * m) == r.neg(r.one)
    ensures DftSum(r, root, x, start, stride, k + m, 2 * m)
         == Sub(r, DftSum(r, root, x, start, 2 * stride, k, m),
                   r.mul(Pow(r, root, stride * k), DftSum(r, root, x, start + stride, 2 * stride, k, m)))
  {
    FullTurn(r, root, stride, m);
    Interleave(r, root, x, start, stride, k + m, m);
    Periodic(r, root, x, start, 2 * stride, k, m, m);
    Periodic(r, root, x, start + stride, 2 * stride, k, m, m);
    HalfTurn(r, root, stride, k, m, DftSum(r, root, x, start + stride, 2 * stride, k, m));
  }

  lemma FullTurn<T(!new)>(r: Ring<T>, root: T, stride: nat, m: nat)
    requires IsRing(r) && Pow(r, root, stride * m) == r.neg(r.one)
    ensures Pow(r, root, 2 * stride * m) == r.one
  {
    assert 2 * stride * m == stride * m + stride * m;
    PowAdds(r, root, stride * m, stride * m);
    var n := r.neg(r.one);
    MulNegOne(r, n);
    assert AddNeg(r, n) && AddNeg(r, r.one) && AddComm(r, r.one, n);
    NegUnique(r, n, r.one);
  }
}
