/** Pitch search: best lags by normalised correlation, refinement, and removal of period doubling. */
module Pitch {
  import opened RealSums
  import opened Correlation

  const PITCH_MIN_PERIOD := 60
  const PITCH_MAX_PERIOD := 768
  const PITCH_FRAME_SIZE := 960
  const PITCH_BUF_SIZE := 1728

  /** Keeps squares of correlations in range; only their order matters. */
  const CORR_SCALE := 0.000000000001

  // ----- the ranking find_best_pitch must produce -----

  /** Energy of the window of len samples that starts at o. */
  function Energy(y: seq<real>, o: int, len: nat): real {
    Sum(len, j => Prod(At(y, o + j), At(y, o + j)))
  }

  lemma EnergyNonNegative(y: seq<real>, o: int, len: nat)
    ensures Energy(y, o, len) >= 0.0
  {
    hide Prod;
    var f := (j: int) => Prod(At(y, o + j), At(y, o + j));
    forall j | 0 <= j < len ensures f(j) >= 0.0 {
      SquareNonNegative(At(y, o + j));
    }
    SumNonNegative(len, f);
  }

  /** Sliding the window by one sample. */
  lemma EnergySlides(y: seq<real>, o: int, len: nat)
    ensures Energy(y, o + 1, len)
         == Energy(y, o, len) + Prod(At(y, o + len), At(y, o + len)) - Prod(At(y, o), At(y, o))
  {
    hide Prod, At;
    var f := (j: int) => Prod(At(y, o + j), At(y, o + j));
    var g := (j: int) => Prod(At(y, o + 1 + j), At(y, o + 1 + j));
    forall j | 0 <= j < len ensures g(j) == f(1 + j) {
      assert o + 1 + j == o + (1 + j);
    }
    SumSplit(1, len, f, g);
    assert Sum(1, f) == Sum(0, f) + f(0);
    assert Sum(len + 1, f) == Sum(len, f) + f(len);
    assert 1 + len == len + 1;
  }

  /** Squared correlation over energy: what the search maximises. */
  function Score(xcorr: seq<real>, y: seq<real>, len: nat, i: int): real {
    EnergyNonNegative(y, i, len);
    Prod(At(xcorr, i), At(xcorr, i)) / (1.0 + Energy(y, i, len))
  }

  /** Lags with positive correlation. */
  ghost predicate Candidate(xcorr: seq<real>, i: int) {
    At(xcorr, i) > 0.0
  }

  /** b is the best candidate below n other than skip; among equals the earliest. */
  ghost predicate BestBut(xcorr: seq<real>, y: seq<real>, len: nat, n: int, skip: int, b: int) {
    && 0 <= b < n && b != skip && Candidate(xcorr, b)
    && forall k :: 0 <= k < n && k != skip && Candidate(xcorr, k) ==>
      && Score(xcorr, y, len, k) <= Score(xcorr, y, len, b)
      && (k < b ==> Score(xcorr, y, len, k) < Score(xcorr, y, len, b))
  }

  ghost predicate NoneBut(xcorr: seq<real>, n: int, skip: int) {
    forall k :: 0 <= k < n && k != skip ==> !Candidate(xcorr, k)
  }

  /** b0 and b1 are the best and second-best candidates below n; 0 and 1 stand in when there is none,
      and 0 for the second when there is only one. */
  ghost predicate Ranked(xcorr: seq<real>, y: seq<real>, len: nat, n: int, b0: int, b1: int) {
    if NoneBut(xcorr, n, -1) then b0 == 0 && b1 == 1
    else
      && BestBut(xcorr, y, len, n, -1, b0)
      && (if NoneBut(xcorr, n, b0) then b1 == 0 else BestBut(xcorr, y, len, n, b0, b1))
  }

  // ----- comparing by cross-multiplication -----

  /** The scaled square the source compares. */
  function Num(x: real): real {
    Prod(Prod(x, CORR_SCALE), Prod(x, CORR_SCALE))
  }

  lemma NumIsScaled(x: real)
    ensures Num(x) == Prod(Prod(CORR_SCALE, CORR_SCALE), Prod(x, x))
  {
    hide Prod;
    ProdComm(x, CORR_SCALE);
    ProdAssoc(CORR_SCALE, x, Prod(CORR_SCALE, x));
    ProdAssoc(x, CORR_SCALE, x);
    ProdComm(x, CORR_SCALE);
    ProdAssoc(CORR_SCALE, x, x);
    ProdAssoc(CORR_SCALE, CORR_SCALE, Prod(x, x));
  }

  lemma ScaledOrder(c: real, p: real, q: real)
    requires c > 0.0
    ensures Prod(c, p) > Prod(c, q) <==> p > q
  {
    hide Prod;
    ProdAdd(c, q, p - q);
    ProdNeg(c, p - q);
    ProdUnits(c);
    if p > q {
      ProdPositive(c, p - q);
    } else if p < q {
      ProdPositive(c, q - p);
    }
  }

  lemma DivideCancels(p: real, d: real)
    requires d > 0.0
    ensures Prod(p / d, d) == p
  {
  }

  /** p1 / d1 > p2 / d2 exactly when p1 * d2 > p2 * d1. */
  lemma CrossMultiply(p1: real, d1: real, p2: real, d2: real)
    requires d1 > 0.0 && d2 > 0.0
    ensures Prod(p1, d2) > Prod(p2, d1) <==> p1 / d1 > p2 / d2
  {
    var q1, q2 := p1 / d1, p2 / d2;
    DivideCancels(p1, d1);
    DivideCancels(p2, d2);
    CrossProducts(q1, d1, q2, d2);
  }

  lemma CrossProducts(q1: real, d1: real, q2: real, d2: real)
    requires d1 > 0.0 && d2 > 0.0
    ensures Prod(Prod(q1, d1), d2) > Prod(Prod(q2, d2), d1) <==> q1 > q2
  {
    hide Prod;
    var d := Prod(d1, d2);
    ProdPositive(d1, d2);
    ProdAssoc(q1, d1, d2);
    ProdAssoc(q2, d2, d1);
    ProdComm(d1, d2);
    ProdComm(q1, d);
    ProdComm(q2, d);
    ScaledOrder(d, q1, q2);
  }

  /** The source's comparison of two lags is the comparison of their scores. */
  lemma CompareScores(xcorr: seq<real>, y: seq<real>, len: nat, i: int, b: int)
    ensures Prod(Num(At(xcorr, i)), 1.0 + Energy(y, b, len)) > Prod(Num(At(xcorr, b)), 1.0 + Energy(y, i, len))
       <==> Score(xcorr, y, len, i) > Score(xcorr, y, len, b)
  {
    hide Prod, Num, Energy;
    var di, db := 1.0 + Energy(y, i, len), 1.0 + Energy(y, b, len);
    EnergyNonNegative(y, i, len);
    EnergyNonNegative(y, b, len);
    var si, sb := Prod(At(xcorr, i), At(xcorr, i)), Prod(At(xcorr, b), At(xcorr, b));
    var c := Prod(CORR_SCALE, CORR_SCALE);
    ScalePositive();
    NumIsScaled(At(xcorr, i));
    NumIsScaled(At(xcorr, b));
    ProdAssoc(c, si, db);
    ProdAssoc(c, sb, di);
    ScaledOrder(c, Prod(si, db), Prod(sb, di));
    CrossMultiply(si, di, sb, db);
  }

  lemma ScalePositive()
    ensures Prod(CORR_SCALE, CORR_SCALE) > 0.0
  {
  }

  /** One of the two running records: lag b with its numerator and energy, or the empty record. */
  ghost predicate Record(xcorr: seq<real>, y: seq<real>, len: nat, n: int, skip: int, b: int, num: real, den: real) {
    if NoneBut(xcorr, n, skip) then num == -1.0 && den == 0.0
    else BestBut(xcorr, y, len, n, skip, b) && num == Num(At(xcorr, b)) && den == 1.0 + Energy(y, b, len)
  }

  lemma EmptyRecordLoses(num: real, syy: real)
    requires syy > 0.0
    ensures Prod(num, 0.0) > Prod(-1.0, syy)
  {
  }

  /** Against either kind of record, the source's test says whether lag i becomes the better one. */
  lemma Beats(xcorr: seq<real>, y: seq<real>, len: nat, i: int, skip: int, b: int, num: real, den: real)
    requires Record(xcorr, y, len, i, skip, b, num, den)
    ensures var won := Prod(Num(At(xcorr, i)), den) > Prod(num, 1.0 + Energy(y, i, len));
      won <==> NoneBut(xcorr, i, skip) || Score(xcorr, y, len, i) > Score(xcorr, y, len, b)
  {
    hide Prod, Num, Energy, Score;
    EnergyNonNegative(y, i, len);
    if NoneBut(xcorr, i, skip) {
      EmptyRecordLoses(Num(At(xcorr, i)), 1.0 + Energy(y, i, len));
    } else {
      CompareScores(xcorr, y, len, i, b);
    }
  }

  // ----- how the records advance -----

  /** Both records, with the stand-in lags of the empty ones. */
  ghost predicate Records(xcorr: seq<real>, y: seq<real>, len: nat, n: int,
                          b0: int, n0: real, d0: real, b1: int, n1: real, d1: real) {
    && Record(xcorr, y, len, n, -1, b0, n0, d0)
    && (if NoneBut(xcorr, n, -1) then b0 == 0 && b1 == 1 && n1 == -1.0 && d1 == 0.0
        else Record(xcorr, y, len, n, b0, b1, n1, d1) && (NoneBut(xcorr, n, b0) ==> b1 == 0))
  }

  lemma RecordsAreRanked(xcorr: seq<real>, y: seq<real>, len: nat, n: int,
                         b0: int, n0: real, d0: real, b1: int, n1: real, d1: real)
    requires Records(xcorr, y, len, n, b0, n0, d0, b1, n1, d1)
    ensures Ranked(xcorr, y, len, n, b0, b1)
  {
    hide Score;
  }

  lemma NotACandidate(xcorr: seq<real>, y: seq<real>, len: nat, i: nat,
                      b0: int, n0: real, d0: real, b1: int, n1: real, d1: real)
    requires Records(xcorr, y, len, i, b0, n0, d0, b1, n1, d1) && !Candidate(xcorr, i)
    ensures Records(xcorr, y, len, i + 1, b0, n0, d0, b1, n1, d1)
  {
    hide Score, Num, Energy;
    SkipRecord(xcorr, y, len, i, -1, b0, n0, d0);
    SkipRecord(xcorr, y, len, i, b0, b1, n1, d1);
  }

  lemma SkipRecord(xcorr: seq<real>, y: seq<real>, len: nat, i: nat, skip: int, b: int, num: real, den: real)
    requires !Candidate(xcorr, i)
    ensures NoneBut(xcorr, i + 1, skip) == NoneBut(xcorr, i, skip)
    ensures BestBut(xcorr, y, len, i, skip, b) ==> BestBut(xcorr, y, len, i + 1, skip, b)
  {
    hide Score;
    if NoneBut(xcorr, i + 1, skip) {
      forall k | 0 <= k < i && k != skip ensures !Candidate(xcorr, k) {}
    }
  }

  /** The candidate loses to the second record. */
  lemma Loses(xcorr: seq<real>, y: seq<real>, len: nat, i: nat,
              b0: int, n0: real, d0: real, b1: int, n1: real, d1: real)
    requires Records(xcorr, y, len, i, b0, n0, d0, b1, n1, d1) && Candidate(xcorr, i)
    requires !NoneBut(xcorr, i, -1) && !NoneBut(xcorr, i, b0)
    requires Score(xcorr, y, len, i) <= Score(xcorr, y, len, b1)
    ensures Records(xcorr, y, len, i + 1, b0, n0, d0, b1, n1, d1)
  {
    hide Score, Num, Energy;
    assert BestBut(xcorr, y, len, i + 1, -1, b0);
    assert BestBut(xcorr, y, len, i + 1, b0, b1);
    assert Candidate(xcorr, b0) && Candidate(xcorr, b1);
  }

  /** The candidate takes second place. */
  lemma TakesSecond(xcorr: seq<real>, y: seq<real>, len: nat, i: nat,
                    b0: int, n0: real, d0: real, b1: int, n1: real, d1: real)
    requires Records(xcorr, y, len, i, b0, n0, d0, b1, n1, d1) && Candidate(xcorr, i)
    requires !NoneBut(xcorr, i, -1)
    requires NoneBut(xcorr, i, b0) || Score(xcorr, y, len, i) > Score(xcorr, y, len, b1)
    requires Score(xcorr, y, len, i) <= Score(xcorr, y, len, b0)
    ensures Records(xcorr, y, len, i + 1, b0, n0, d0, i, Num(At(xcorr, i)), 1.0 + Energy(y, i, len))
  {
    hide Score, Num, Energy;
    assert BestBut(xcorr, y, len, i + 1, -1, b0);
    assert BestBut(xcorr, y, len, i + 1, b0, i);
    assert Candidate(xcorr, b0) && Candidate(xcorr, i);
  }

  /** The candidate takes first place and the old best becomes second. */
  lemma TakesFirst(xcorr: seq<real>, y: seq<real>, len: nat, i: nat,
                   b0: int, n0: real, d0: real, b1: int, n1: real, d1: real)
    requires Records(xcorr, y, len, i, b0, n0, d0, b1, n1, d1) && Candidate(xcorr, i)
    requires NoneBut(xcorr, i, -1) || Score(xcorr, y, len, i) > Score(xcorr, y, len, b0)
    ensures Records(xcorr, y, len, i + 1, i, Num(At(xcorr, i)), 1.0 + Energy(y, i, len), b0, n0, d0)
  {
    hide Score, Num, Energy;
    assert BestBut(xcorr, y, len, i + 1, -1, i);
    assert Candidate(xcorr, i);
    if NoneBut(xcorr, i, -1) {
      forall k | 0 <= k < i + 1 && k != i ensures !Candidate(xcorr, k) {}
    } else {
      assert BestBut(xcorr, y, len, i + 1, i, b0);
      assert Candidate(xcorr, b0);
    }
  }

  lemma FirstBeatsSecond(xcorr: seq<real>, y: seq<real>, len: nat, i: nat,
                         b0: int, n0: real, d0: real, b1: int, n1: real, d1: real)
    requires Records(xcorr, y, len, i, b0, n0, d0, b1, n1, d1)
    requires !NoneBut(xcorr, i, -1) && !NoneBut(xcorr, i, b0)
    ensures Score(xcorr, y, len, b1) <= Score(xcorr, y, len, b0)
  {
    hide Score, Num, Energy;
  }

  lemma NoRecords(xcorr: seq<real>, y: seq<real>, len: nat)
    ensures Records(xcorr, y, len, 0, 0, -1.0, 0.0, 1, -1.0, 0.0)
  {
    hide Score, Num, Energy;
  }

  /** Best and second-best lag, compared without dividing; Syy slides along with the window. */
  method FindBestPitch(xcorr: array<real>, y: seq<real>, len: nat, maxPitch: nat, bestPitch: array<int>)
    requires maxPitch <= xcorr.Length && len + maxPitch <= |y| && bestPitch.Length == 2
    modifies bestPitch
    ensures Ranked(xcorr[..], y, len, maxPitch, bestPitch[0], bestPitch[1])
    ensures 0 <= bestPitch[0] && (bestPitch[0] < maxPitch || bestPitch[0] == 0)
    ensures 0 <= bestPitch[1]
  {
    hide Prod, Num, Energy, Score, Records, Ranked;
    ghost var c := xcorr[..];
    var num0, num1, den0, den1 := -1.0, -1.0, 0.0, 0.0;
    bestPitch[0] := 0;
    bestPitch[1] := 1;
    var Syy := OnePlusEnergy(y, len);
    NoRecords(c, y, len);
    var i := 0;
    while i < maxPitch
      invariant 0 <= i <= maxPitch && xcorr[..] == c
      invariant Syy == 1.0 + Energy(y, i, len)
      invariant Records(c, y, len, i, bestPitch[0], num0, den0, bestPitch[1], num1, den1)
      invariant 0 <= bestPitch[0] && (bestPitch[0] < maxPitch || bestPitch[0] == 0)
      invariant 0 <= bestPitch[1]
    {
      if xcorr[i] > 0.0 {
        var num := Num(xcorr[i]);
        ghost var b0, b1 := bestPitch[0], bestPitch[1];
        Decide(c, y, len, i, b0, num0, den0, b1, num1, den1);
        if Prod(num, den1) > Prod(num1, Syy) {
          if Prod(num, den0) > Prod(num0, Syy) {
            num1, den1 := num0, den0;
            bestPitch[1] := bestPitch[0];
            num0, den0 := num, Syy;
            bestPitch[0] := i;
          } else {
            num1, den1 := num, Syy;
            bestPitch[1] := i;
          }
        }
      } else {
        NotACandidate(c, y, len, i, bestPitch[0], num0, den0, bestPitch[1], num1, den1);
      }
      EnergySlides(y, i, len);
      EnergyNonNegative(y, i + 1, len);
      Syy := Syy + Prod(y[i + len], y[i + len]) - Prod(y[i], y[i]);
      Syy := if Syy < 1.0 then 1.0 else Syy;
      i := i + 1;
    }
    RecordsAreRanked(c, y, len, maxPitch, bestPitch[0], num0, den0, bestPitch[1], num1, den1);
  }

  /** What each outcome of the two tests does to the records. */
  lemma Decide(c: seq<real>, y: seq<real>, len: nat, i: nat,
               b0: int, n0: real, d0: real, b1: int, n1: real, d1: real)
    requires Records(c, y, len, i, b0, n0, d0, b1, n1, d1) && Candidate(c, i)
    ensures var num, syy := Num(At(c, i)), 1.0 + Energy(y, i, len);
      if Prod(num, d1) > Prod(n1, syy) then
        if Prod(num, d0) > Prod(n0, syy) then Records(c, y, len, i + 1, i, num, syy, b0, n0, d0)
        else Records(c, y, len, i + 1, b0, n0, d0, i, num, syy)
      else Records(c, y, len, i + 1, b0, n0, d0, b1, n1, d1)
  {
    hide Prod, Num, Energy, Score;
    Beats(c, y, len, i, -1, b0, n0, d0);
    EnergyNonNegative(y, i, len);
    if NoneBut(c, i, -1) {
      EmptyRecordLoses(Num(At(c, i)), 1.0 + Energy(y, i, len));
      TakesFirst(c, y, len, i, b0, n0, d0, b1, n1, d1);
    } else {
      Beats(c, y, len, i, b0, b1, n1, d1);
      if !NoneBut(c, i, b0) { FirstBeatsSecond(c, y, len, i, b0, n0, d0, b1, n1, d1); }
      if Score(c, y, len, i) > Score(c, y, len, b0) {
        TakesFirst(c, y, len, i, b0, n0, d0, b1, n1, d1);
      } else if NoneBut(c, i, b0) || Score(c, y, len, i) > Score(c, y, len, b1) {
        TakesSecond(c, y, len, i, b0, n0, d0, b1, n1, d1);
      } else {
        Loses(c, y, len, i, b0, n0, d0, b1, n1, d1);
      }
    }
  }

  method OnePlusEnergy(y: seq<real>, len: nat) returns (Syy: real)
    requires len <= |y|
    ensures Syy == 1.0 + Energy(y, 0, len)
  {
    hide Prod;
    Syy := 1.0;
    var j := 0;
    while j < len
      invariant 0 <= j <= len && Syy == 1.0 + Energy(y, 0, j)
    {
      Syy := Syy + Prod(y[j], y[j]);
      j := j + 1;
    }
  }
}
