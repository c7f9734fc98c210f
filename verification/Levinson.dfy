/** Levinson-Durbin recursion, updating the predictor coefficients pairwise in place. */
module Levinson {
  import opened RealSums

  function Abs(x: int): int {
    if x < 0 then -x else x
  }

  /** Row k of the symmetric Toeplitz matrix of ac applied to the first n coefficients. */
  function Row(a: seq<real>, ac: seq<real>, n: nat, k: int): real {
    Sum(n, j => Prod(At(a, j), At(ac, Abs(k - j))))
  }

  /** Normal equation k of order n. */
  ghost predicate Equation(a: seq<real>, ac: seq<real>, n: nat, k: int) {
    Row(a, ac, n, k) + At(ac, k + 1) == 0.0
  }

  /** The first n coefficients solve the order-n normal equations. */
  ghost predicate Solves(a: seq<real>, ac: seq<real>, n: nat) {
    forall k :: 0 <= k < n ==> Equation(a, ac, n, k)
  }

  /** Prediction error of the first n coefficients: ac[0] + sum of a[j] * ac[j + 1]. */
  function PredictionError(a: seq<real>, ac: seq<real>, n: nat): real {
    At(ac, 0) + Row(a, ac, n, -1)
  }

  /** The coefficients of order n + 1 made from those of order n and reflection r. */
  function Reflected(a: seq<real>, n: nat, r: real): (b: seq<real>)
    requires n <= |a|
    ensures |b| == n + 1 && b[n] == r && forall j :: 0 <= j < n ==> b[j] == a[j] + Prod(r, a[n - 1 - j])
  {
    seq(n, j requires 0 <= j < n => a[j] + Prod(r, a[n - 1 - j])) + [r]
  }

  /** A row over the reversed coefficients is the mirrored row. */
  lemma MirroredRow(a: seq<real>, ac: seq<real>, n: nat, k: int)
    ensures Sum(n, j => Prod(At(a, n - 1 - j), At(ac, Abs(k - j)))) == Row(a, ac, n, n - 1 - k)
  {
    hide Prod, At;
    SumReverse(n, j => Prod(At(a, j), At(ac, Abs(n - 1 - k - j))),
                  j => Prod(At(a, n - 1 - j), At(ac, Abs(k - j))));
  }

  lemma ReflectedTerm(a: seq<real>, n: nat, r: real, j: nat, c: real)
    requires j < n <= |a|
    ensures Prod(At(Reflected(a, n, r), j), c) == Prod(At(a, j), c) + Prod(r, Prod(At(a, n - 1 - j), c))
  {
    hide Prod, Reflected;
    ProdAdd(c, a[j], Prod(r, a[n - 1 - j]));
    ProdAssoc(r, a[n - 1 - j], c);
  }

  /** How one reflection changes every row. */
  lemma ReflectedRow(a: seq<real>, ac: seq<real>, n: nat, r: real, k: int)
    requires n <= |a|
    ensures Row(Reflected(a, n, r), ac, n + 1, k)
         == Row(a, ac, n, k) + Prod(r, Row(a, ac, n, n - 1 - k) + At(ac, Abs(k - n)))
  {
    hide Prod, Reflected, At, Abs;
    var b := Reflected(a, n, r);
    var f := (j: int) => Prod(At(a, j), At(ac, Abs(k - j)));
    var g := (j: int) => Prod(At(a, n - 1 - j), At(ac, Abs(k - j)));
    var h := (j: int) => Prod(At(b, j), At(ac, Abs(k - j)));
    var rg := (j: int) => Prod(r, g(j));
    forall j | 0 <= j < n ensures h(j) == f(j) + rg(j) {
      ReflectedTerm(a, n, r, j, At(ac, Abs(k - j)));
    }
    SumAdd(n, f, rg, h);
    SumScale(n, r, g, rg);
    MirroredRow(a, ac, n, k);
    ProdAdd(r, Row(a, ac, n, n - 1 - k), At(ac, Abs(k - n)));
    assert At(b, n) == r by { LastCoefficient(a, n, r); }
  }

  lemma LastCoefficient(a: seq<real>, n: nat, r: real)
    requires n <= |a|
    ensures At(Reflected(a, n, r), n) == r
  {
  }

  /** One Levinson step: the new coefficients solve the next order, and the error shrinks by r squared. */
  lemma LevinsonStep(a: seq<real>, ac: seq<real>, n: nat, r: real, rr: real, e: real)
    requires n <= |a| && Solves(a, ac, n)
    requires e == PredictionError(a, ac, n) && rr == Row(a, ac, n, n) + At(ac, n + 1)
    requires Prod(r, e) == -rr
    ensures Solves(Reflected(a, n, r), ac, n + 1)
    ensures PredictionError(Reflected(a, n, r), ac, n + 1) == e - Prod(Prod(r, r), e)
  {
    hide Prod, Row, Reflected;
    var b := Reflected(a, n, r);
    var next := n + 1;
    forall k | 0 <= k < next ensures Equation(b, ac, next, k) {
      ReflectedRow(a, ac, n, r, k);
      if k < n {
        assert Equation(a, ac, n, n - 1 - k) && Equation(a, ac, n, k);
        ProdUnits(r);
      }
    }
    ReflectedRow(a, ac, n, r, -1);
    ProdAssoc(r, r, e);
    ProdNeg(r, rr);
  }

  /** Only the first n coefficients matter. */
  lemma RowLocal(a: seq<real>, b: seq<real>, ac: seq<real>, n: nat, k: int)
    requires forall j :: 0 <= j < n ==> At(a, j) == At(b, j)
    ensures Row(a, ac, n, k) == Row(b, ac, n, k)
  {
    hide Prod, At;
    SumCong(n, j => Prod(At(a, j), At(ac, Abs(k - j))), j => Prod(At(b, j), At(ac, Abs(k - j))));
  }

  lemma SolvesLocal(a: seq<real>, b: seq<real>, ac: seq<real>, n: nat)
    requires forall j :: 0 <= j < n ==> At(a, j) == At(b, j)
    ensures Solves(a, ac, n) == Solves(b, ac, n)
    ensures PredictionError(a, ac, n) == PredictionError(b, ac, n)
  {
    hide Row, At;
    forall k | 0 <= k < n ensures Equation(a, ac, n, k) == Equation(b, ac, n, k) {
      RowLocal(a, b, ac, n, k);
    }
    RowLocal(a, b, ac, n, -1);
  }

  /** The pairwise update: both ends move towards the middle, which may meet in one element. */
  method UpdateInPlace(lpc: array<real>, i: nat, r: real)
    requires i < lpc.Length
    modifies lpc
    ensures forall k :: 0 <= k <= i ==> lpc[k] == Reflected(old(lpc[..]), i, r)[k]
    ensures forall k :: i < k < lpc.Length ==> lpc[k] == old(lpc[k])
  {
    hide Prod, Reflected;
    ghost var a := lpc[..];
    ghost var b := Reflected(a, i, r);
    lpc[i] := r;
    var j := 0;
    while j < (i + 1) / 2
      invariant 0 <= j <= (i + 1) / 2
      invariant forall k :: 0 <= k < j ==> lpc[k] == b[k]
      invariant forall k :: i - j <= k <= i ==> lpc[k] == b[k]
      invariant forall k :: j <= k < i - j ==> lpc[k] == a[k]
      invariant forall k :: i < k < lpc.Length ==> lpc[k] == a[k]
    {
      var tmp1 := lpc[j];
      var tmp2 := lpc[i - 1 - j];
      assert tmp1 == a[j] && tmp2 == a[i - 1 - j];
      assert b[j] == a[j] + Prod(r, a[i - 1 - j]);
      assert b[i - 1 - j] == a[i - 1 - j] + Prod(r, a[j]);
      lpc[j] := tmp1 + Prod(r, tmp2);
      lpc[i - 1 - j] := tmp2 + Prod(r, tmp1);
      j := j + 1;
    }
  }

  /** Sum of lpc[j] * ac[i - j] over the current order. */
  method ReflectionSum(lpc: array<real>, ac: seq<real>, i: nat) returns (rr: real)
    requires i < lpc.Length && i < |ac|
    ensures rr == Row(lpc[..], ac, i, i)
  {
    hide Prod;
    ghost var a := lpc[..];
    ghost var f := (j: int) => Prod(At(a, j), At(ac, Abs(i - j)));
    rr := 0.0;
    var j := 0;
    while j < i
      invariant 0 <= j <= i && rr == Sum(j, f)
    {
      rr := rr + Prod(lpc[j], ac[i - j]);
      j := j + 1;
    }
  }

  lemma Quotient(rr: real, e: real)
    requires e != 0.0
    ensures Prod(-rr / e, e) == -rr
  {
  }

  /** The order-n coefficients of the recursion, from ac alone. */
  function Coeffs(ac: seq<real>, n: nat): (a: seq<real>)
    ensures |a| == n
  {
    if n == 0 then [] else
      var last: nat := n - 1;
      Reflected(Coeffs(ac, last), last, ReflectionOf(Coeffs(ac, last), ac, last))
  }

  /** What the recursion reflects order n with; an error of zero has no quotient. */
  function ReflectionOf(a: seq<real>, ac: seq<real>, n: nat): real {
    var e := PredictionError(a, ac, n);
    if e == 0.0 then 0.0 else -(Row(a, ac, n, n) + At(ac, n + 1)) / e
  }

  /** The error left by order n. */
  function ErrorAt(ac: seq<real>, n: nat): real {
    PredictionError(Coeffs(ac, n), ac, n)
  }

  /** Order n is passed: its error is not below the bail-out and can be divided by. */
  ghost predicate Passed(ac: seq<real>, n: nat) {
    ErrorAt(ac, n) != 0.0 && (n > 0 ==> ErrorAt(ac, n) >= 0.001 * At(ac, 0))
  }

  /** Some order below p leaves an error of exactly zero that does not end the loop, and no earlier order ends it. */
  ghost predicate DividesByZero(ac: seq<real>, p: nat) {
    && At(ac, 0) < 0.0
    && exists i: nat :: 0 < i < p && ErrorAt(ac, i) == 0.0 && forall j: nat :: j < i ==> Passed(ac, j)
  }

  /** lpc holds the order-i solution, its error, and zeros beyond. */
  ghost predicate Holds(lpc: seq<real>, was: seq<real>, ac: seq<real>, i: nat, p: nat, error: real) {
    && |lpc| == |was| && i <= p <= |lpc|
    && (forall j :: i <= j < p ==> lpc[j] == 0.0)
    && (forall j :: p <= j < |lpc| ==> lpc[j] == was[j])
    && lpc[..i] == Coeffs(ac, i)
    && Solves(lpc, ac, i)
    && error == PredictionError(lpc, ac, i)
  }

  lemma HeldError(lpc: seq<real>, was: seq<real>, ac: seq<real>, i: nat, p: nat, error: real)
    requires Holds(lpc, was, ac, i, p, error)
    ensures error == ErrorAt(ac, i)
  {
    hide Solves, PredictionError, Coeffs;
    assert forall j :: 0 <= j < i ==> lpc[..i][j] == lpc[j];
    SolvesLocal(lpc, Coeffs(ac, i), ac, i);
  }

  /** The recursion's next coefficients, from an array whose first i entries are the current ones. */
  lemma CoeffsStep(a: seq<real>, ac: seq<real>, i: nat, r: real)
    requires i <= |a| && a[..i] == Coeffs(ac, i) && r == ReflectionOf(a, ac, i)
    ensures Coeffs(ac, i + 1) == Reflected(a, i, r)
  {
    hide Solves, PredictionError, Row, Prod, ReflectionOf, Reflected;
    var c := a[..i];
    SameReflection(a, c, ac, i);
    ReflectedLocal(a, c, i, r);
  }

  lemma ReflectedLocal(a: seq<real>, c: seq<real>, i: nat, r: real)
    requires i <= |a| && a[..i] == c
    ensures Reflected(a, i, r) == Reflected(c, i, r)
  {
    hide Prod;
    assert forall j :: 0 <= j < i ==> c[j] == a[j];
  }

  lemma SameReflection(a: seq<real>, c: seq<real>, ac: seq<real>, i: nat)
    requires i <= |a| && a[..i] == c
    ensures ReflectionOf(a, ac, i) == ReflectionOf(c, ac, i)
  {
    hide Solves, PredictionError, Row;
    assert forall j :: 0 <= j < i ==> c[j] == a[j];
    SolvesLocal(a, c, ac, i);
    RowLocal(a, c, ac, i, i);
  }

  method Clear(lpc: array<real>, p: nat)
    requires p <= lpc.Length
    modifies lpc
    ensures forall j :: 0 <= j < p ==> lpc[j] == 0.0
    ensures forall j :: p <= j < lpc.Length ==> lpc[j] == old(lpc[j])
  {
    var c := 0;
    while c < p
      invariant 0 <= c <= p
      invariant forall j :: 0 <= j < c ==> lpc[j] == 0.0
      invariant forall j :: p <= j < lpc.Length ==> lpc[j] == old(lpc[j])
    {
      lpc[c] := 0.0;
      c := c + 1;
    }
  }

  lemma DivisionAt(ac: seq<real>, p: nat, i: nat)
    requires At(ac, 0) < 0.0 && 0 < i < p && ErrorAt(ac, i) == 0.0
    requires forall j: nat :: j < i ==> Passed(ac, j)
    ensures DividesByZero(ac, p)
  {
  }

  /** One order alone, and any autocorrelation, is safe. */
  lemma Harmless(ac: seq<real>, p: nat)
    requires p <= 1 || At(ac, 0) >= 0.0
    ensures !DividesByZero(ac, p)
  {
  }

  lemma NoDivision(ac: seq<real>, p: nat, n: nat)
    requires n <= p && forall j: nat :: j < n ==> Passed(ac, j)
    requires n == p || (n > 0 && ErrorAt(ac, n) < 0.001 * At(ac, 0))
    ensures !DividesByZero(ac, p)
  {
    hide ErrorAt;
    assert n < p ==> !Passed(ac, n);
    if At(ac, 0) < 0.0 {
      forall i: nat | 0 < i < p && forall j: nat :: j < i ==> Passed(ac, j)
        ensures ErrorAt(ac, i) != 0.0
      {
        assert i < n ==> Passed(ac, i);
      }
    }
  }

  /** One order: reflection, pairwise update and new error. */
  method NextOrder(lpc: array<real>, ac: seq<real>, i: nat, p: nat, error: real, ghost was: seq<real>)
    returns (next: real)
    requires i < p < |ac| && error != 0.0 && Holds(lpc[..], was, ac, i, p, error)
    modifies lpc
    ensures Holds(lpc[..], was, ac, i + 1, p, next)
  {
    hide Solves, PredictionError, Prod, Row, Coeffs, Reflected;
    ghost var a := lpc[..];
    var rr := ReflectionSum(lpc, ac, i);
    rr := rr + ac[i + 1];
    var r := -rr / error;
    Quotient(rr, error);
    UpdateInPlace(lpc, i, r);
    LevinsonStep(a, ac, i, r, rr, error);
    SolvesLocal(Reflected(a, i, r), lpc[..], ac, i + 1);
    CoeffsStep(a, ac, i, r);
    assert lpc[..i + 1] == Reflected(a, i, r);
    next := error - Prod(Prod(r, r), error);
  }

  /** Solves for the predictor, stopping early once the error has dropped by 30 dB; order is the number of
      coefficients reached. `defined` is false when an error of exactly zero would be divided by. */
  method RnnLpc(lpc: array<real>, ac: seq<real>, p: nat) returns (ghost order: nat, error: real, defined: bool)
    requires p <= lpc.Length && |ac| > p
    modifies lpc
    ensures defined <==> !DividesByZero(ac, p)
    ensures !defined ==> error == 0.0 && order < p && order > 0
    ensures order <= p && (ac[0] == 0.0 ==> order == 0)
    ensures lpc[..order] == Coeffs(ac, order) && error == ErrorAt(ac, order)
    ensures forall j: nat :: j < order ==> Passed(ac, j)
    ensures forall j :: order <= j < p ==> lpc[j] == 0.0
    ensures forall j :: p <= j < lpc.Length ==> lpc[j] == old(lpc[j])
    ensures Solves(lpc[..], ac, order) && error == PredictionError(lpc[..], ac, order)
    ensures ac[0] != 0.0 && defined ==> order == p || error < 0.001 * ac[0]
  {
    hide Solves, PredictionError, Coeffs, ErrorAt, DividesByZero;
    ghost var was := lpc[..];
    error := ac[0];
    Clear(lpc, p);
    order, defined := 0, true;
    EmptyOrder(lpc[..], ac);
    HeldError(lpc[..], was, ac, 0, p, error);
    if ac[0] != 0.0 {
      var i := 0;
      while i < p
        invariant 0 <= i <= p && order == i && defined
        invariant Holds(lpc[..], was, ac, i, p, error) && error == ErrorAt(ac, i)
        invariant i > 0 ==> error >= 0.001 * ac[0]
        invariant forall j: nat :: j < i ==> Passed(ac, j)
      {
        if error == 0.0 {
          DivisionAt(ac, p, i);
          defined := false;
          break;
        }
        assert Passed(ac, i);
        error := NextOrder(lpc, ac, i, p, error, was);
        HeldError(lpc[..], was, ac, i + 1, p, error);
        order := i + 1;
        if error < 0.001 * ac[0] {
          NoDivision(ac, p, i + 1);
          break;
        }
        i := i + 1;
      }
      if order == p {
        NoDivision(ac, p, p);
      }
    } else {
      Harmless(ac, p);
    }
  }

  /** While no error is zero, the recursion's coefficients solve the normal equations of their order. */
  lemma {:induction false} CoeffsSolve(ac: seq<real>, n: nat)
    requires forall j: nat :: j < n ==> ErrorAt(ac, j) != 0.0
    ensures Solves(Coeffs(ac, n), ac, n)
  {
    hide Solves, PredictionError, Prod, Row, Reflected;
    if n > 0 {
      var last: nat := n - 1;
      CoeffsSolve(ac, last);
      OneOrder(ac, last);
    } else {
      NothingToSolve(ac);
    }
  }

  lemma NothingToSolve(ac: seq<real>)
    ensures Solves([], ac, 0)
  {
  }

  lemma OneOrder(ac: seq<real>, n: nat)
    requires Solves(Coeffs(ac, n), ac, n) && ErrorAt(ac, n) != 0.0
    ensures Solves(Coeffs(ac, n + 1), ac, n + 1)
    ensures var r := ReflectionOf(Coeffs(ac, n), ac, n);
            ErrorAt(ac, n + 1) == ErrorAt(ac, n) - Prod(Prod(r, r), ErrorAt(ac, n))
  {
    hide Solves, PredictionError, Prod, Row, Reflected;
    var a, e := Coeffs(ac, n), ErrorAt(ac, n);
    var rr := Row(a, ac, n, n) + At(ac, n + 1);
    Quotient(rr, e);
    LevinsonStep(a, ac, n, -rr / e, rr, e);
  }

  /** Each order scales the error by 1 - r squared, so an error of zero comes exactly from a reflection of size one. */
  lemma ErrorRecursion(ac: seq<real>, n: nat)
    requires forall j: nat :: j <= n ==> ErrorAt(ac, j) != 0.0
    ensures var r := ReflectionOf(Coeffs(ac, n), ac, n);
            && ErrorAt(ac, n + 1) == ErrorAt(ac, n) - Prod(Prod(r, r), ErrorAt(ac, n))
            && (ErrorAt(ac, n + 1) == 0.0 <==> r == 1.0 || r == -1.0)
  {
    hide ErrorAt, Coeffs, ReflectionOf, Prod;
    CoeffsSolve(ac, n);
    OneOrder(ac, n);
    UnitReflection(ReflectionOf(Coeffs(ac, n), ac, n), ErrorAt(ac, n));
  }

  lemma UnitReflection(r: real, e: real)
    requires e != 0.0
    ensures e - Prod(Prod(r, r), e) == 0.0 <==> r == 1.0 || r == -1.0
  {
    assert e - Prod(Prod(r, r), e) == (1.0 - r) * (1.0 + r) * e;
  }

  /** Before any step the error is ac[0] and the reflection is -ac[1] / ac[0]. */
  lemma FirstOrder(ac: seq<real>)
    requires At(ac, 0) != 0.0
    ensures ErrorAt(ac, 0) == At(ac, 0) && ReflectionOf(Coeffs(ac, 0), ac, 0) == -At(ac, 1) / At(ac, 0)
  {
    assert Coeffs(ac, 0) == [];
    assert Row([], ac, 0, 0) == 0.0 && Row([], ac, 0, -1) == 0.0;
  }

  /** A negative ac[0] and an ac[1] of the same size: the second order divides by zero. */
  lemma EqualEnergiesDivideByZero(ac: seq<real>, p: nat)
    requires At(ac, 0) < 0.0 && (At(ac, 1) == At(ac, 0) || At(ac, 1) == -At(ac, 0))
    ensures DividesByZero(ac, p) <==> p >= 2
  {
    hide ErrorAt, Coeffs, ReflectionOf, Prod;
    FirstOrder(ac);
    ErrorRecursion(ac, 0);
    assert ErrorAt(ac, 1) == 0.0 && Passed(ac, 0);
  }

  /** Which orders and energies are safe whatever follows: at most one order, or an ac[0] that is not negative. */
  lemma SafeIff(p: nat, c: real)
    ensures (forall ac: seq<real> :: |ac| > p && At(ac, 0) == c ==> !DividesByZero(ac, p)) <==> p <= 1 || c >= 0.0
  {
    if p > 1 && c < 0.0 {
      var ac := [c, c] + seq(p, i => 0.0);
      EqualEnergiesDivideByZero(ac, p);
      assert |ac| > p && At(ac, 0) == c && DividesByZero(ac, p);
    }
  }

  /** With two orders the division by zero takes exactly a negative ac[0] and an ac[1] of the same size. */
  lemma TwoOrdersIff(ac: seq<real>)
    ensures DividesByZero(ac, 2) <==> At(ac, 0) < 0.0 && (At(ac, 1) == At(ac, 0) || At(ac, 1) == -At(ac, 0))
  {
    hide ErrorAt, Coeffs, ReflectionOf, Prod;
    if DividesByZero(ac, 2) {
      assert ErrorAt(ac, 1) == 0.0;
      FirstOrder(ac);
      ErrorRecursion(ac, 0);
      Quotient(At(ac, 1), At(ac, 0));
      UnitQuotient(At(ac, 1), At(ac, 0));
    } else if At(ac, 0) < 0.0 && (At(ac, 1) == At(ac, 0) || At(ac, 1) == -At(ac, 0)) {
      EqualEnergiesDivideByZero(ac, 2);
    }
  }

  lemma UnitQuotient(a: real, c: real)
    requires c != 0.0 && (-a / c == 1.0 || -a / c == -1.0)
    ensures a == c || a == -c
  {
  }

  lemma EmptyOrder(a: seq<real>, ac: seq<real>)
    requires |ac| > 0
    ensures Solves(a, ac, 0) && PredictionError(a, ac, 0) == ac[0] && Coeffs(ac, 0) == []
  {
  }
}
