/** Commutative rings, as records of their operations: the arithmetic of the transform without
    rounding. Each law is a predicate of its own, to be invoked where it is needed. */
module Ring {
  datatype Ring<!T> = Ring(zero: T, one: T, add: (T, T) -> T, neg: T -> T, mul: (T, T) -> T)

  ghost predicate AddComm<T>(r: Ring<T>, a: T, b: T) {
    r.add(a, b) == r.add(b, a)
  }

  ghost predicate AddAssoc<T>(r: Ring<T>, a: T, b: T, c: T) {
    r.add(r.add(a, b), c) == r.add(a, r.add(b, c))
  }

  ghost predicate AddZero<T>(r: Ring<T>, a: T) {
    r.add(r.zero, a) == a
  }

  ghost predicate AddNeg<T>(r: Ring<T>, a: T) {
    r.add(a, r.neg(a)) == r.zero
  }

  ghost predicate MulComm<T>(r: Ring<T>, a: T, b: T) {
    r.mul(a, b) == r.mul(b, a)
  }

  ghost predicate MulAssoc<T>(r: Ring<T>, a: T, b: T, c: T) {
    r.mul(r.mul(a, b), c) == r.mul(a, r.mul(b, c))
  }

  ghost predicate MulOne<T>(r: Ring<T>, a: T) {
    r.mul(r.one, a) == a
  }

  ghost predicate Distributes<T>(r: Ring<T>, a: T, b: T, c: T) {
    r.mul(a, r.add(b, c)) == r.add(r.mul(a, b), r.mul(a, c))
  }

  ghost predicate IsRing<T(!new)>(r: Ring<T>) {
    && (forall a, b :: AddComm(r, a, b))
    && (forall a, b, c :: AddAssoc(r, a, b, c))
    && (forall a :: AddZero(r, a))
    && (forall a :: AddNeg(r, a))
    && (forall a, b :: MulComm(r, a, b))
    && (forall a, b, c :: MulAssoc(r, a, b, c))
    && (forall a :: MulOne(r, a))
    && (forall a, b, c :: Distributes(r, a, b, c))
  }

  function Sub<T>(r: Ring<T>, a: T, b: T): T {
    r.add(a, r.neg(b))
  }

  function Pow<T>(r: Ring<T>, a: T, n: nat): T {
    if n == 0 then r.one else r.mul(a, Pow(r, a, n - 1))
  }

  lemma {:induction false} PowAdds<T(!new)>(r: Ring<T>, a: T, m: nat, n: nat)
    requires IsRing(r)
    ensures Pow(r, a, m + n) == r.mul(Pow(r, a, m), Pow(r, a, n))
  {
    if m == 0 {
      assert MulOne(r, Pow(r, a, n));
    } else {
      PowAdds(r, a, m - 1, n);
      assert MulAssoc(r, a, Pow(r, a, m - 1), Pow(r, a, n));
    }
  }

  lemma {:induction false} PowOne<T(!new)>(r: Ring<T>, n: nat)
    requires IsRing(r)
    ensures Pow(r, r.one, n) == r.one
  {
    assert MulOne(r, r.one);
    if n > 0 {
      PowOne(r, n - 1);
    }
  }

  lemma {:induction false} PowMul<T(!new)>(r: Ring<T>, a: T, m: nat, n: nat)
    requires IsRing(r)
    ensures Pow(r, a, m * n) == Pow(r, Pow(r, a, m), n)
  {
    if n == 0 {
      assert m * n == 0;
    } else {
      PowMul(r, a, m, n - 1);
      PowAdds(r, a, m, m * (n - 1));
      assert m + m * (n - 1) == m * n;
    }
  }

  /** What adds up to zero with a is the negation of a. */
  lemma NegUnique<T(!new)>(r: Ring<T>, a: T, b: T)
    requires IsRing(r) && r.add(a, b) == r.zero
    ensures b == r.neg(a)
  {
    var n := r.neg(a);
    assert AddNeg(r, a) && AddComm(r, n, a) && AddAssoc(r, n, a, b);
    assert AddZero(r, b) && AddZero(r, n) && AddComm(r, n, r.zero);
  }

  lemma MulZero<T(!new)>(r: Ring<T>, a: T)
    requires IsRing(r)
    ensures r.mul(a, r.zero) == r.zero
  {
    var z := r.mul(a, r.zero);
    assert Distributes(r, a, r.zero, r.zero) && AddZero(r, r.zero);
    assert AddAssoc(r, z, z, r.neg(z)) && AddNeg(r, z) && AddComm(r, z, r.zero) && AddZero(r, z);
  }

  /** Multiplying by the negated unit negates. */
  lemma MulNegOne<T(!new)>(r: Ring<T>, a: T)
    requires IsRing(r)
    ensures r.mul(r.neg(r.one), a) == r.neg(a)
  {
    var m := r.neg(r.one);
    MulZero(r, a);
    assert MulOne(r, a) && MulComm(r, r.one, a) && MulComm(r, m, a);
    assert Distributes(r, a, r.one, m) && AddNeg(r, r.one);
    NegUnique(r, a, r.mul(m, a));
  }
}
