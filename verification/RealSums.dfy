/** Finite sums of reals, with products kept behind a name. */
module RealSums {

  function Prod(x: real, y: real): real {
    x * y
  }

  /** Sum of f(0), ..., f(n - 1). */
  function Sum(n: nat, f: int -> real): real {
    if n == 0 then 0.0 else Sum(n - 1, f) + f(n - 1)
  }

  /** Total indexing, so that sums can be written with total lambdas. */
  function At(s: seq<real>, i: int): real {
    if 0 <= i < |s| then s[i] else 0.0
  }

  lemma ProdAdd(x: real, y: real, z: real)
    ensures Prod(x, y + z) == Prod(x, y) + Prod(x, z)
    ensures Prod(y + z, x) == Prod(y, x) + Prod(z, x)
  {
  }

  lemma ProdAssoc(x: real, y: real, z: real)
    ensures Prod(Prod(x, y), z) == Prod(x, Prod(y, z))
  {
  }

  lemma ProdComm(x: real, y: real)
    ensures Prod(x, y) == Prod(y, x)
  {
  }

  lemma ProdUnits(x: real)
    ensures Prod(0.0, x) == 0.0 && Prod(x, 0.0) == 0.0 && Prod(1.0, x) == x && Prod(x, 1.0) == x
    ensures Prod(-1.0, x) == -x
  {
  }

  lemma ProdNeg(x: real, y: real)
    ensures Prod(-x, y) == -Prod(x, y) && Prod(x, -y) == -Prod(x, y)
  {
  }

  lemma ProdPositive(x: real, y: real)
    requires x > 0.0 && y > 0.0
    ensures Prod(x, y) > 0.0
  {
  }

  lemma ProdNonNegative(x: real, y: real)
    requires x >= 0.0 && y >= 0.0
    ensures Prod(x, y) >= 0.0
  {
  }

  lemma SquareNonNegative(x: real)
    ensures Prod(x, x) >= 0.0
  {
    hide Prod;
    ProdNeg(x, x);
    ProdNeg(x, -x);
    if x >= 0.0 { ProdNonNegative(x, x); } else { ProdNonNegative(-x, -x); }
  }

  lemma {:induction false} SumCong(n: nat, f: int -> real, g: int -> real)
    requires forall i :: 0 <= i < n ==> f(i) == g(i)
    ensures Sum(n, f) == Sum(n, g)
  {
    if n > 0 {
      SumCong(n - 1, f, g);
    }
  }

  lemma {:induction false} SumAdd(n: nat, f: int -> real, g: int -> real, h: int -> real)
    requires forall i :: 0 <= i < n ==> h(i) == f(i) + g(i)
    ensures Sum(n, h) == Sum(n, f) + Sum(n, g)
  {
    if n > 0 {
      SumAdd(n - 1, f, g, h);
    }
  }

  lemma {:induction false} SumScale(n: nat, c: real, f: int -> real, h: int -> real)
    requires forall i :: 0 <= i < n ==> h(i) == Prod(c, f(i))
    ensures Sum(n, h) == Prod(c, Sum(n, f))
  {
    hide Prod;
    if n > 0 {
      SumScale(n - 1, c, f, h);
      ProdAdd(c, Sum(n - 1, f), f(n - 1));
    } else {
      ProdUnits(c);
    }
  }

  lemma {:induction false} SumSplit(m: nat, n: nat, f: int -> real, h: int -> real)
    requires forall i :: 0 <= i < n ==> h(i) == f(m + i)
    ensures Sum(m + n, f) == Sum(m, f) + Sum(n, h)
  {
    if n > 0 {
      SumSplit(m, n - 1, f, h);
      assert h(n - 1) == f(m + (n - 1));
    }
  }

  /** Summing backwards. */
  lemma {:induction false} SumReverse(n: nat, f: int -> real, g: int -> real)
    requires forall i :: 0 <= i < n ==> g(i) == f(n - 1 - i)
    ensures Sum(n, g) == Sum(n, f)
  {
    if n > 0 {
      var h := (i: int) => f(1 + i);
      SumSplit(1, n - 1, f, h);
      SumReverse(n - 1, h, g);
      assert Sum(1, f) == Sum(0, f) + f(0);
    }
  }

  lemma {:induction false} SumNonNegative(n: nat, f: int -> real)
    requires forall i :: 0 <= i < n ==> f(i) >= 0.0
    ensures Sum(n, f) >= 0.0
  {
    if n > 0 {
      SumNonNegative(n - 1, f);
    }
  }

  lemma {:induction false} SumZero(n: nat, f: int -> real)
    requires forall i :: 0 <= i < n ==> f(i) == 0.0
    ensures Sum(n, f) == 0.0
  {
    if n > 0 {
      SumZero(n - 1, f);
    }
  }

  lemma {:induction false} SumOne(n: nat, at: int, f: int -> real)
    requires forall i :: 0 <= i < n && i != at ==> f(i) == 0.0
    ensures Sum(n, f) == if 0 <= at < n then f(at) else 0.0
  {
    if n > 0 {
      SumOne(n - 1, at, f);
    }
  }
}
