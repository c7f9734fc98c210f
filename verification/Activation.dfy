/** Rational activation functions of the network, and their application to a stretch of a buffer. */
module Activation {
  import opened RealSums

  datatype Kind = Linear | Sigmoid | Tanh | Relu | Softmax | Swish

  const N0 := 952.52801514
  const N1 := 96.39235687
  const N2 := 0.60863042
  const D0 := 952.72399902
  const D1 := 413.36801147
  const D2 := 11.88600922

  /** Numerator over x, and denominator, as polynomials in u = x * x. */
  function Num(u: real): real {
    Prod(Prod(N2, u) + N1, u) + N0
  }

  function Den(u: real): real {
    Prod(Prod(D2, u) + D1, u) + D0
  }

  function Clamp(x: real): (r: real)
    ensures -1.0 <= r <= 1.0
    ensures -1.0 <= x <= 1.0 ==> r == x
  {
    var low := if 1.0 < x then 1.0 else x;
    if -1.0 > low then -1.0 else low
  }

  lemma Denominator(u: real)
    requires u >= 0.0
    ensures 0.0 < Num(u) <= Den(u)
  {
    hide Prod;
    ProdMono(u, N2, D2);
    ProdMono(u, Prod(N2, u) + N1, Prod(D2, u) + D1);
  }

  lemma ProdMono(u: real, x: real, y: real)
    requires u >= 0.0 && 0.0 <= x <= y
    ensures 0.0 <= Prod(x, u) <= Prod(y, u)
  {
    assert (y - x) * u >= 0.0;
  }

  function Ratio(x: real): real {
    var u := Prod(x, x);
    SquareNonNegative(x);
    Denominator(u);
    Prod(Num(u), x) / Den(u)
  }

  /** Rational approximation of tanh, clamped. */
  function TanhApprox(x: real): (r: real)
    ensures -1.0 <= r <= 1.0
  {
    Clamp(Ratio(x))
  }

  function SigmoidApprox(x: real): (r: real)
    ensures 0.0 <= r <= 1.0
  {
    0.5 + 0.5 * TanhApprox(0.5 * x)
  }

  lemma DivBetween(p: real, x: real, d: real)
    requires d > 0.0 && 0.0 <= p <= Prod(x, d)
    ensures 0.0 <= p / d <= x
  {
    var q := p / d;
    assert q * d == p;
  }

  lemma DivNeg(p: real, d: real)
    requires d > 0.0
    ensures (-p) / d == -(p / d)
  {
  }

  /** The approximation is odd, has the sign of its argument, and never leaves the diagonal's side of zero:
      between 0 and min(1, x) for x >= 0. */
  lemma TanhShape(x: real)
    ensures TanhApprox(-x) == -TanhApprox(x)
    ensures x >= 0.0 ==> 0.0 <= TanhApprox(x) <= x
    ensures x <= 0.0 ==> x <= TanhApprox(x) <= 0.0
  {
    hide Prod, Num, Den;
    RatioOdd(x);
    if x >= 0.0 { RatioBelow(x); } else { RatioBelow(-x); }
  }

  lemma RatioOdd(x: real)
    ensures Ratio(-x) == -Ratio(x)
  {
    hide Prod, Num, Den;
    var u := Prod(x, x);
    SquareNonNegative(x);
    Denominator(u);
    ProdNeg(x, x);
    ProdNeg(x, -x);
    ProdNeg(Num(u), x);
    DivNeg(Prod(Num(u), x), Den(u));
  }

  lemma RatioBelow(x: real)
    requires x >= 0.0
    ensures 0.0 <= Ratio(x) <= x
  {
    hide Prod, Num, Den;
    var u := Prod(x, x);
    SquareNonNegative(x);
    Denominator(u);
    ProdMono(x, Num(u), Den(u));
    ProdComm(x, Den(u));
    DivBetween(Prod(Num(u), x), x, Den(u));
  }

  /** Complementary probabilities: sigmoid(-x) = 1 - sigmoid(x). */
  lemma SigmoidComplement(x: real)
    ensures SigmoidApprox(-x) == 1.0 - SigmoidApprox(x)
    ensures x >= 0.0 ==> SigmoidApprox(x) >= 0.5
  {
    hide Ratio, Clamp;
    assert 0.5 * (-x) == -(0.5 * x);
    TanhShape(0.5 * x);
  }

  function Activate(kind: Kind, x: real): real {
    match kind
    case Sigmoid => SigmoidApprox(x)
    case Tanh => TanhApprox(x)
    case Relu => if x < 0.0 then 0.0 else x
    case Swish => Prod(x, SigmoidApprox(x))
    case Linear => x
    case Softmax => x
  }

  /** Activations of `count` entries from `start`, in place. */
  method ComputeActivation(y: array<real>, start: nat, count: nat, kind: Kind)
    requires start + count <= y.Length
    modifies y
    ensures forall i :: start <= i < start + count ==> y[i] == Activate(kind, old(y[i]))
    ensures forall i :: 0 <= i < y.Length && !(start <= i < start + count) ==> y[i] == old(y[i])
  {
    hide Activate;
    var i := start;
    while i < start + count
      invariant start <= i <= start + count
      invariant forall k :: start <= k < i ==> y[k] == Activate(kind, old(y[k]))
      invariant forall k :: 0 <= k < y.Length && !(start <= k < i) ==> y[k] == old(y[k])
    {
      y[i] := Activate(kind, y[i]);
      i := i + 1;
    }
  }

  /** Far from zero the approximation is exactly one in size. */
  lemma TanhSaturates(x: real)
    ensures x >= 20.0 ==> TanhApprox(x) == 1.0
    ensures x <= -20.0 ==> TanhApprox(x) == -1.0
  {
    hide Prod, Num, Den, Ratio;
    if x >= 20.0 { RatioAboveOne(x); }
    if x <= -20.0 { RatioAboveOne(-x); TanhShape(-x); assert -(-x) == x; }
  }

  lemma RatioAboveOne(x: real)
    requires x >= 20.0
    ensures Ratio(x) >= 1.0
  {
    hide Prod;
    var u := Prod(x, x);
    SquareNonNegative(x);
    Denominator(u);
    NumeratorLarger(u);
    ProdAtLeast(Num(u), x, Den(u));
    QuotientAtLeastOne(Prod(Num(u), x), Den(u));
  }

  lemma NumeratorLarger(u: real)
    requires u >= 0.0
    ensures 20.0 * Num(u) >= Den(u)
  {
    var low, high := 20.0 * N2 - D2, 20.0 * N1 - D1;
    assert 20.0 * Num(u) - Den(u) == (low * u + high) * u + (20.0 * N0 - D0);
    ProdNonNegative(low, u);
    ProdNonNegative(low * u + high, u);
  }

  lemma ProdAtLeast(n: real, x: real, d: real)
    requires n >= 0.0 && x >= 20.0 && 20.0 * n >= d
    ensures Prod(n, x) >= d
  {
    assert n * (x - 20.0) >= 0.0;
  }

  lemma QuotientAtLeastOne(p: real, d: real)
    requires d > 0.0 && p >= d
    ensures p / d >= 1.0
  {
  }

  /** Probabilities that complement each other. */
  lemma SigmoidKind(x: real)
    ensures Activate(Sigmoid, x) + Activate(Sigmoid, -x) == 1.0 && 0.0 <= Activate(Sigmoid, x) <= 1.0
  {
    hide TanhApprox, SigmoidApprox;
    SigmoidComplement(x);
  }

  /** An odd function between zero and its argument. */
  lemma TanhKind(x: real)
    ensures Activate(Tanh, -x) == -Activate(Tanh, x) && (x >= 0.0 ==> 0.0 <= Activate(Tanh, x) <= x)
  {
    hide TanhApprox;
    TanhShape(x);
  }

  /** The kinds without a curve of their own: relu splits its argument between the two signs, swish weighs it by its own
      sigmoid, the others pass it on. */
  lemma OtherKinds(x: real)
    ensures Activate(Relu, x) - Activate(Relu, -x) == x && Activate(Relu, x) >= 0.0
    ensures Activate(Swish, x) == Prod(x, Activate(Sigmoid, x))
    ensures Activate(Linear, x) == x == Activate(Softmax, x)
  {
    hide SigmoidApprox, Prod;
  }
}
