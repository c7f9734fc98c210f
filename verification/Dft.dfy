/** The discrete Fourier transform, and the decimation step that a mixed-radix stage performs. */
module Dft {
  import opened ComplexNumbers
  import opened Integers
  import opened FftPlan

  /** Input t of the block that starts at o with stride s. */
  function Tap(x: seq<Complex>, o: int, s: int, t: int): Complex {
    At(x, o + s * t)
  }

  function Twiddle(w: Complex, s: int, t: int, k: int): Complex {
    Pow(w, s * t * k)
  }

  /** Transform of length len of the inputs x[o], x[o + s], x[o + 2s], ..., at frequency k, over the root w. */
  function BlockDft(x: seq<Complex>, w: Complex, o: int, s: int, len: nat, k: int): Complex {
    Sum(len, t => Mul(Tap(x, o, s, t), Twiddle(w, s, t, k)))
  }

  /** The transform's definition: the sum over j of x[j] * w^(j * k). */
  function DftAt(x: seq<Complex>, w: Complex, k: int): Complex {
    Sum(|x|, j => Mul(At(x, j), Pow(w, j * k)))
  }

  /** Frequency of position k inside its block of length p * m. */
  function Freq(p: int, m: int, k: int): int
    requires p >= 1 && m >= 1
  {
    MulPositive(p, m);
    k % (p * m)
  }

  /** Number of the block of length p * m that holds position k. */
  function BlockOf(p: int, m: int, k: int): int
    requires p >= 1 && m >= 1
  {
    MulPositive(p, m);
    k / (p * m)
  }

  /** Position of the input that leg q of a radix-p butterfly reads for output position k. */
  function Leg(p: int, m: int, k: int, q: int): int
    requires p >= 1 && m >= 1
  {
    k - Freq(p, m, k) + q * m + Freq(p, m, k) % m
  }

  /** What a radix-p stage over sub-transforms of length m and stride s leaves at position k. */
  function StageAt(a: seq<Complex>, w: Complex, p: nat, m: nat, s: int, k: int): Complex
    requires p >= 1 && m >= 1
  {
    Sum(p, q => Mul(Twiddle(w, s, q, Freq(p, m, k)), At(a, Leg(p, m, k, q))))
  }

  /** After stages stages-1 down to i, each block of stage i holds the transform of its inputs. */
  ghost predicate LevelDone(a: seq<Complex>, x: seq<Complex>, w: Complex, factors: seq<int>, n: nat, i: nat) {
    && |a| == n
    && forall k :: 0 <= k < n ==> a[k] == LevelAt(x, w, factors, n, i, k)
  }

  function LevelAt(x: seq<Complex>, w: Complex, factors: seq<int>, n: nat, i: nat, k: int): Complex {
    var len := BlockLen(factors, n, i);
    if len < 1 then ZERO
    else BlockDft(x, w, Offset(factors, i, k / len), Stride(factors, i), len, k % len)
  }

  // ----- exponent arithmetic -----

  lemma ExponentSplit(s: nat, p: nat, m: nat, q: nat, r: nat, k: nat, n: nat)
    requires m >= 1 && s * (p * m) == n
    ensures s * (q + p * r) * k == s * q * k + ((s * p) * r * (k % m) + n * (r * (k / m)))
  {
    MulAssocInt(s, p, m);
    SplitIndex(s, p, q, r, k);
    SplitFrequency(s * p, m, r, k, n);
  }

  lemma ExponentSigns(s: nat, p: nat, m: nat, q: nat, r: nat, k: nat)
    requires m >= 1
    ensures s * q * k >= 0 && (s * p) * r * (k % m) >= 0 && r * (k / m) >= 0
  {
    NonNegative3(s, q, k);
    NonNegative3(s * p, r, k % m);
  }

  lemma SplitIndex(s: int, p: int, q: int, r: int, k: int)
    ensures s * (q + p * r) * k == s * q * k + (s * p) * r * k
  {
    assert s * (q + p * r) == s * q + s * (p * r);
    MulAssocInt(s, p, r);
    DistributeRight(s * q, (s * p) * r, k);
  }

  lemma SplitFrequency(sp: int, m: int, r: int, k: int, n: int)
    requires m >= 1 && sp * m == n
    ensures sp * r * k == sp * r * (k % m) + n * (r * (k / m))
  {
    DivSplit(k, m);
    var d, u, a := k / m, k % m, sp * r;
    assert a * (d * m + u) == a * (d * m) + a * u;
    RearrangeFour(sp, r, d, m);
  }

  lemma DistributeRight(a: int, b: int, c: int)
    ensures (a + b) * c == a * c + b * c
  {
  }

  lemma RearrangeFour(a: int, r: int, d: int, m: int)
    ensures a * r * (d * m) == (a * m) * (r * d)
  {
  }

  lemma NonNegative3(a: nat, b: nat, c: nat)
    ensures a * b >= 0 && a * b * c >= 0
  {
  }

  lemma TermCore(c: Complex, w: Complex, n: nat, whole: int, a: nat, b: nat, e: nat, ne: nat)
    requires Pow(w, n) == ONE && ne == n * e && whole == a + (b + ne)
    ensures Mul(c, Pow(w, whole)) == Mul(Pow(w, a), Mul(c, Pow(w, b)))
  {
    hide Mul, Pow;
    PowAdd(w, a, b + ne);
    PowPeriod(w, n, b, e);
    MulSwapInner(c, Pow(w, a), Pow(w, b));
  }

  /** One input of a block, rewritten as a member of the residue class q of its index. */
  lemma TermSplit(x: seq<Complex>, w: Complex, o: int, s: nat, p: nat, m: nat, q: nat, r: nat, k: nat, n: nat)
    requires m >= 1 && s * (p * m) == n && Pow(w, n) == ONE
    ensures Mul(Tap(x, o, s, q + p * r), Twiddle(w, s, q + p * r, k))
         == Mul(Twiddle(w, s, q, k), Mul(Tap(x, o + s * q, s * p, r), Twiddle(w, s * p, r, k % m)))
  {
    hide Mul, Pow, At;
    ExponentSplit(s, p, m, q, r, k, n);
    ExponentSigns(s, p, m, q, r, k);
    TapSplit(x, o, s, p, q, r);
    var e := r * (k / m);
    TermCore(Tap(x, o, s, q + p * r), w, n, s * (q + p * r) * k, s * q * k, s * p * r * (k % m), e, n * e);
  }

  lemma TapSplit(x: seq<Complex>, o: int, s: int, p: int, q: int, r: int)
    ensures Tap(x, o, s, q + p * r) == Tap(x, o + s * q, s * p, r)
  {
    MulAssocInt(s, p, r);
    assert s * (q + p * r) == s * q + s * (p * r);
  }

  /** Residue class q of a block's sum is a sub-transform turned by its twiddle. */
  lemma ClassSum(x: seq<Complex>, w: Complex, o: int, s: nat, p: nat, m: nat, q: nat, k: nat, n: nat,
                 g: int -> Complex)
    requires m >= 1 && s * (p * m) == n && Pow(w, n) == ONE
    requires forall t :: g(t) == Mul(Tap(x, o, s, t), Twiddle(w, s, t, k))
    ensures Sum(m, r => g(q + p * r)) == Mul(Twiddle(w, s, q, k), BlockDft(x, w, o + s * q, s * p, m, k % m))
  {
    hide Mul, Twiddle, Tap, Add;
    var inner := (t: int) => Mul(Tap(x, o + s * q, s * p, t), Twiddle(w, s * p, t, k % m));
    var outer := (r: int) => g(q + p * r);
    forall r | 0 <= r < m ensures outer(r) == Mul(Twiddle(w, s, q, k), inner(r)) {
      TermSplit(x, w, o, s, p, m, q, r, k, n);
    }
    SumMul(m, Twiddle(w, s, q, k), inner, outer);
  }

  /** Decimation in time: a length p*m transform from p transforms of length m. */
  lemma Decimate(x: seq<Complex>, w: Complex, o: int, s: nat, p: nat, m: nat, k: nat, n: nat)
    requires m >= 1 && s * (p * m) == n && Pow(w, n) == ONE
    ensures p * m >= 0
    ensures BlockDft(x, w, o, s, p * m, k)
         == Sum(p, q => Mul(Twiddle(w, s, q, k), BlockDft(x, w, o + s * q, s * p, m, k % m)))
  {
    hide Mul, Twiddle, Tap, Add;
    assert p * m >= 0;
    var g := (t: int) => Mul(Tap(x, o, s, t), Twiddle(w, s, t, k));
    DecimateWith(x, w, o, s, p, m, k, n, g);
  }

  lemma DecimateWith(x: seq<Complex>, w: Complex, o: int, s: nat, p: nat, m: nat, k: nat, n: nat,
                     g: int -> Complex)
    requires m >= 1 && s * (p * m) == n && Pow(w, n) == ONE
    requires forall t :: g(t) == Mul(Tap(x, o, s, t), Twiddle(w, s, t, k))
    ensures p * m >= 0
    ensures Sum(p * m, g) == Sum(p, q => Mul(Twiddle(w, s, q, k), BlockDft(x, w, o + s * q, s * p, m, k % m)))
  {
    hide *;
    var cls := (q: int) => Mul(Twiddle(w, s, q, k), BlockDft(x, w, o + s * q, s * p, m, k % m));
    forall q | 0 <= q < p ensures cls(q) == Sum(m, r => g(q + p * r)) {
      ClassSum(x, w, o, s, p, m, q, k, n, g);
    }
    SumByResidue(p, m, g, cls);
  }

  // ----- one stage advances the level -----

  lemma FreqNat(p: nat, m: nat, k: nat)
    requires p >= 1 && m >= 1
    ensures 0 <= Freq(p, m, k) && 0 <= BlockOf(p, m, k)
  {
  }

  lemma LegForm(p: nat, m: nat, k: nat, q: nat)
    requires p >= 1 && m >= 1
    ensures Leg(p, m, k, q) == (BlockOf(p, m, k) * p + q) * m + Freq(p, m, k) % m
  {
    MulPositive(p, m);
    DivSplit(k, p * m);
    MulAssocInt(BlockOf(p, m, k), p, m);
    DistributeRight(BlockOf(p, m, k) * p, q, m);
  }

  lemma LegPosition(p: nat, m: nat, k: nat, q: nat)
    requires p >= 1 && m >= 1 && q < p
    ensures Leg(p, m, k, q) >= 0
    ensures Leg(p, m, k, q) / m == BlockOf(p, m, k) * p + q
    ensures Leg(p, m, k, q) % m == Freq(p, m, k) % m
  {
    hide Leg, Freq, BlockOf;
    LegForm(p, m, k, q);
    FreqNat(p, m, k);
    var d := BlockOf(p, m, k) * p + q;
    assert d >= 0;
    assert d * m >= 0;
    DivUnique(Leg(p, m, k, q), m, d, Freq(p, m, k) % m);
  }

  lemma LegBelow(p: nat, m: nat, s: nat, k: nat, q: nat, n: nat)
    requires p >= 1 && m >= 1 && q < p && k < n && s * (p * m) == n
    ensures Leg(p, m, k, q) < n
  {
    MulPositive(p, m);
    var f := k % (p * m);
    var b := k / (p * m);
    DivSplit(k, p * m);
    DivBound(k, p * m, s);
    assert q * m + f % m < p * m by {
      DistributeRight(q + 1, p - (q + 1), m);
      DistributeRight(q, 1, m);
    }
    assert (b + 1) * (p * m) <= s * (p * m) by {
      DistributeRight(b + 1, s - (b + 1), p * m);
    }
    DistributeRight(b, 1, p * m);
  }

  /** The value a leg reads is the sub-transform of its own residue class. */
  lemma LegValue(a: seq<Complex>, x: seq<Complex>, w: Complex, factors: seq<int>, stages: nat, n: nat,
                 i: nat, k: nat, q: nat, p: nat, m: nat, s: nat)
    requires IsPlan(factors, stages, n) && i < stages && k < n
    requires p == Radix(factors, i) && m == SubLen(factors, i) && s == Stride(factors, i)
    requires LevelDone(a, x, w, factors, n, i + 1)
    requires q < p && m >= 1
    ensures At(a, Leg(p, m, k, q))
         == BlockDft(x, w, Offset(factors, i, BlockOf(p, m, k)) + s * q, s * p, m, Freq(p, m, k) % m)
  {
    hide BlockDft, Leg, Freq, BlockOf;
    assert StageOk(factors, i, n);
    StrideTimesLen(factors, stages, n, i);
    LegPosition(p, m, k, q);
    LegBelow(p, m, s, k, q, n);
    assert a[Leg(p, m, k, q)] == LevelAt(x, w, factors, n, i + 1, Leg(p, m, k, q));
    OffsetChild(factors, i, BlockOf(p, m, k), q);
  }

  /** A stage whose every output is the radix-p combination turns level i+1 into level i. */
  lemma StageAdvances(a: seq<Complex>, b: seq<Complex>, x: seq<Complex>, w: Complex,
                      factors: seq<int>, stages: nat, n: nat, i: nat)
    requires IsPlan(factors, stages, n) && i < stages && Pow(w, n) == ONE
    requires LevelDone(a, x, w, factors, n, i + 1)
    requires |b| == n && Radix(factors, i) >= 1 && SubLen(factors, i) >= 1
    requires forall k :: 0 <= k < n ==>
      b[k] == StageAt(a, w, Radix(factors, i), SubLen(factors, i), Stride(factors, i), k)
    ensures LevelDone(b, x, w, factors, n, i)
  {
    forall k | 0 <= k < n ensures b[k] == LevelAt(x, w, factors, n, i, k) {
      StageAdvancesAt(a, x, w, factors, stages, n, i, k);
    }
  }

  lemma StageAdvancesAt(a: seq<Complex>, x: seq<Complex>, w: Complex,
                        factors: seq<int>, stages: nat, n: nat, i: nat, k: nat)
    requires IsPlan(factors, stages, n) && i < stages && Pow(w, n) == ONE && k < n
    requires LevelDone(a, x, w, factors, n, i + 1)
    requires Radix(factors, i) >= 1 && SubLen(factors, i) >= 1
    ensures StageAt(a, w, Radix(factors, i), SubLen(factors, i), Stride(factors, i), k)
         == LevelAt(x, w, factors, n, i, k)
  {
    hide Mul, Twiddle, Add, At, BlockDft, Leg, Offset, Pow;
    var p, m, s := Radix(factors, i), SubLen(factors, i), Stride(factors, i);
    assert StageOk(factors, i, n);
    StrideTimesLen(factors, stages, n, i);
    MulPositive(p, m);
    LegsCombine(a, x, w, factors, stages, n, i, k, p, m, s);
  }

  lemma LegsCombine(a: seq<Complex>, x: seq<Complex>, w: Complex, factors: seq<int>, stages: nat, n: nat,
                    i: nat, k: nat, p: nat, m: nat, s: nat)
    requires IsPlan(factors, stages, n) && i < stages && Pow(w, n) == ONE && k < n
    requires LevelDone(a, x, w, factors, n, i + 1)
    requires p == Radix(factors, i) && m == SubLen(factors, i) && s == Stride(factors, i)
    requires p >= 1 && m >= 1 && s * (p * m) == n
    ensures p * m >= 1
    ensures StageAt(a, w, p, m, s, k) == BlockDft(x, w, Offset(factors, i, BlockOf(p, m, k)), s, p * m, Freq(p, m, k))
  {
    hide *;
    MulPositive(p, m);
    FreqNat(p, m, k);
    Decimate(x, w, Offset(factors, i, BlockOf(p, m, k)), s, p, m, Freq(p, m, k), n);
    LegsSum(a, x, w, factors, stages, n, i, k, p, m, s);
  }

  lemma LegsSum(a: seq<Complex>, x: seq<Complex>, w: Complex, factors: seq<int>, stages: nat, n: nat,
                i: nat, k: nat, p: nat, m: nat, s: nat)
    requires IsPlan(factors, stages, n) && i < stages && k < n
    requires LevelDone(a, x, w, factors, n, i + 1)
    requires p == Radix(factors, i) && m == SubLen(factors, i) && s == Stride(factors, i)
    requires p >= 1 && m >= 1
    ensures StageAt(a, w, p, m, s, k) == Sum(p, q =>
      Mul(Twiddle(w, s, q, Freq(p, m, k)),
          BlockDft(x, w, Offset(factors, i, BlockOf(p, m, k)) + s * q, s * p, m, Freq(p, m, k) % m)))
  {
    hide *;
    var f := Freq(p, m, k);
    var o := Offset(factors, i, BlockOf(p, m, k));
    var got := (q: int) => Mul(Twiddle(w, s, q, Freq(p, m, k)), At(a, Leg(p, m, k, q)));
    var want := (q: int) => Mul(Twiddle(w, s, q, Freq(p, m, k)),
      BlockDft(x, w, Offset(factors, i, BlockOf(p, m, k)) + s * q, s * p, m, Freq(p, m, k) % m));
    forall q | 0 <= q < p ensures got(q) == want(q) {
      LegValue(a, x, w, factors, stages, n, i, k, q, p, m, s);
    }
    SumCong(p, got, want);
    StageIsSum(a, w, p, m, s, k, got);
  }

  lemma StageIsSum(a: seq<Complex>, w: Complex, p: nat, m: nat, s: int, k: int, legs: int -> Complex)
    requires p >= 1 && m >= 1
    requires forall q :: legs(q) == Mul(Twiddle(w, s, q, Freq(p, m, k)), At(a, Leg(p, m, k, q)))
    ensures StageAt(a, w, p, m, s, k) == Sum(p, legs)
  {
    hide Mul, Twiddle, Leg, At, Freq;
    SumCong(p, legs, q => Mul(Twiddle(w, s, q, Freq(p, m, k)), At(a, Leg(p, m, k, q))));
  }
}
