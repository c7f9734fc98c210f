/** The planner: factoring a length into stages, as kf_factor does it in its factor buffer. */
module Planner {
  import opened Integers
  import opened FftPlan

  // ----- which lengths have a plan -----

  /** Lengths whose only prime factors are 2, 3 and 5. */
  predicate FiveSmooth(n: nat) {
    if n <= 1 then n == 1
    else if n % 2 == 0 then FiveSmooth(n / 2)
    else if n % 3 == 0 then FiveSmooth(n / 3)
    else if n % 5 == 0 then FiveSmooth(n / 5)
    else false
  }

  function IntPow(b: nat, e: nat): nat {
    if e == 0 then 1 else b * IntPow(b, e - 1)
  }

  lemma Doubled(n: nat)
    requires n >= 1
    ensures FiveSmooth(2 * n) == FiveSmooth(n)
  {
    assert (2 * n) % 2 == 0 && (2 * n) / 2 == n;
  }

  lemma OddTripled(n: nat)
    requires n % 2 == 1
    ensures FiveSmooth(3 * n) == FiveSmooth(n)
  {
    assert (3 * n) % 2 == 1 && (3 * n) % 3 == 0 && (3 * n) / 3 == n;
  }

  lemma CoprimeTimesFive(n: nat)
    requires n % 2 == 1 && n % 3 != 0
    ensures FiveSmooth(5 * n) == FiveSmooth(n)
  {
    assert (5 * n) % 2 == 1 && (5 * n) % 3 != 0 && (5 * n) % 5 == 0 && (5 * n) / 5 == n;
  }

  lemma {:induction false} TimesThree(n: nat)
    requires n >= 1
    ensures FiveSmooth(3 * n) == FiveSmooth(n)
  {
    hide FiveSmooth;
    if n % 2 == 0 {
      var h := n / 2;
      TimesThree(h);
      Doubled(h);
      Doubled(3 * h);
      assert 2 * (3 * h) == 3 * n;
    } else {
      OddTripled(n);
    }
  }

  lemma {:induction false} TimesFive(n: nat)
    requires n >= 1
    ensures FiveSmooth(5 * n) == FiveSmooth(n)
  {
    hide FiveSmooth;
    if n % 2 == 0 {
      var h := n / 2;
      TimesFive(h);
      Doubled(h);
      Doubled(5 * h);
      assert 2 * (5 * h) == 5 * n;
    } else if n % 3 == 0 {
      var h := n / 3;
      TimesFive(h);
      TimesThree(h);
      TimesThree(5 * h);
      assert 3 * (5 * h) == 5 * n;
    } else {
      CoprimeTimesFive(n);
    }
  }

  lemma {:induction false} SmoothProduct(a: nat, b: nat, c: nat)
    ensures IntPow(2, a) * (IntPow(3, b) * IntPow(5, c)) >= 1
    ensures FiveSmooth(IntPow(2, a) * (IntPow(3, b) * IntPow(5, c)))
    decreases a + b + c
  {
    var x, y, z := IntPow(2, a), IntPow(3, b), IntPow(5, c);
    if a > 0 {
      SmoothProduct(a - 1, b, c);
      MulAssocInt(2, IntPow(2, a - 1), y * z);
    } else if b > 0 {
      SmoothProduct(0, b - 1, c);
      MulAssocInt(3, IntPow(3, b - 1), z);
      TimesThree(IntPow(3, b - 1) * z);
    } else if c > 0 {
      SmoothProduct(0, 0, c - 1);
      TimesFive(IntPow(5, c - 1));
    }
  }

  lemma {:induction false} SmoothExponents(n: nat) returns (a: nat, b: nat, c: nat)
    requires FiveSmooth(n)
    ensures n == IntPow(2, a) * (IntPow(3, b) * IntPow(5, c))
  {
    if n == 1 {
      a, b, c := 0, 0, 0;
    } else if n % 2 == 0 {
      a, b, c := SmoothExponents(n / 2);
      MulAssocInt(2, IntPow(2, a), IntPow(3, b) * IntPow(5, c));
      a := a + 1;
    } else if n % 3 == 0 {
      a, b, c := SmoothExponents(n / 3);
      var x, y, z := IntPow(2, a), IntPow(3, b), IntPow(5, c);
      assert 3 * (x * (y * z)) == x * ((3 * y) * z) by { PullOut(3, x, y, z); }
      b := b + 1;
    } else {
      a, b, c := SmoothExponents(n / 5);
      var x, y, z := IntPow(2, a), IntPow(3, b), IntPow(5, c);
      assert 5 * (x * (y * z)) == x * (y * (5 * z)) by { PullOut(5, x, z, y); MulCommInt(y, z); MulCommInt(y, 5 * z); }
      c := c + 1;
    }
  }

  lemma PullOut(k: int, x: int, y: int, z: int)
    ensures k * (x * (y * z)) == x * ((k * y) * z)
  {
    MulAssocInt(k, y, z);
    MulAssocInt(k, x, y * z);
    MulAssocInt(x, k, y * z);
    MulCommInt(k, x);
  }

  /** The accepted lengths are exactly the products of powers of 2, 3 and 5. */
  lemma SmoothIff(n: nat)
    ensures FiveSmooth(n) <==> exists a: nat, b: nat, c: nat :: n == IntPow(2, a) * (IntPow(3, b) * IntPow(5, c))
  {
    if FiveSmooth(n) {
      var a, b, c := SmoothExponents(n);
    }
    if a: nat, b: nat, c: nat :| n == IntPow(2, a) * (IntPow(3, b) * IntPow(5, c)) {
      SmoothProduct(a, b, c);
    }
  }

  /** How many factors the search emits: fours first, then a two, threes and fives. */
  function FactorCount(n: nat): nat {
    if n <= 1 then 0
    else if n % 4 == 0 then 1 + FactorCount(n / 4)
    else if n % 2 == 0 then 1 + FactorCount(n / 2)
    else if n % 3 == 0 then 1 + FactorCount(n / 3)
    else if n % 5 == 0 then 1 + FactorCount(n / 5)
    else 0
  }

  /** Stages of the plan for n; length one still takes a single stage. */
  function StageCount(n: nat): nat {
    if n == 1 then 1 else FactorCount(n)
  }

  // ----- the factors found so far -----

  function Prod(r: seq<int>): int {
    if |r| == 0 then 1 else Prod(r[..|r| - 1]) * r[|r| - 1]
  }

  lemma ProdAppend(r: seq<int>, x: int)
    ensures Prod(r + [x]) == Prod(r) * x
  {
    assert (r + [x])[..|r|] == r;
  }

  lemma ProdPrefix(r: seq<int>, k: nat)
    requires k < |r|
    ensures Prod(r[..k + 1]) == Prod(r[..k]) * r[k]
  {
    assert r[..k + 1][..k] == r[..k];
  }

  lemma {:induction false} ProdPositive(r: seq<int>)
    requires forall e :: 0 <= e < |r| ==> r[e] >= 1
    ensures Prod(r) >= 1
  {
    if |r| > 0 {
      ProdPositive(r[..|r| - 1]);
      MulPositive(Prod(r[..|r| - 1]), r[|r| - 1]);
    }
  }

  lemma {:induction false} ProdUpdate(r: seq<int>, i: nat, x: int)
    requires i < |r|
    ensures Prod(r[i := x]) * r[i] == Prod(r) * x
  {
    var l := |r| - 1;
    if i == l {
      assert r[i := x][..l] == r[..l];
      MulAssocInt(Prod(r[..l]), x, r[l]);
      MulAssocInt(Prod(r[..l]), r[l], x);
      MulCommInt(x, r[l]);
    } else {
      ProdUpdate(r[..l], i, x);
      assert r[i := x][..l] == r[..l][i := x];
      Exchange(Prod(r[..l][i := x]), r[l], r[i]);
      Exchange(Prod(r[..l]), r[l], x);
    }
  }

  lemma Exchange(a: int, b: int, c: int)
    ensures (a * b) * c == (a * c) * b
  {
  }

  /** A two only ever sits first, or second behind a four. */
  ghost predicate TwosPlaced(r: seq<int>) {
    forall e :: 0 <= e < |r| && r[e] == 2 ==> e == 0 || (e == 1 && r[0] == 4)
  }

  /** What is known about the remaining cofactor n once candidate p is reached. */
  ghost predicate Tried(p: int, n: nat) {
    && (p == 2 ==> n % 4 != 0)
    && (p >= 3 && p != 4 ==> n % 2 != 0)
    && (p >= 5 ==> n % 3 != 0)
    && (p >= 7 ==> n % 5 != 0)
  }

  /** The factors so far, the cofactor left, and where the search stands. */
  ghost predicate Searching(n0: nat, n: nat, p: int, r: seq<int>) {
    && n0 >= 1 && n >= 1
    && n0 == Prod(r) * n
    && FiveSmooth(n0) == FiveSmooth(n)
    && TwosPlaced(r)
    && (forall e :: 0 <= e < |r| ==> 1 <= r[e] <= 5)
    && (forall e :: 0 <= e < |r| && r[e] == 1 ==> n0 == 1)
    && (p == 4 ==> forall e :: 0 <= e < |r| ==> r[e] == 4)
    && (if n0 == 1 then n == 1 && |r| <= 1 else FactorCount(n0) == |r| + FactorCount(n))
    && (n == 1 || ((p == 4 || p == 2 || p == 3 || p == 5) && Tried(p, n)
         && (p == 2 && |r| > 0 ==> n % 2 != 0)))
  }

  /** The inner search has found a divisor p: either a radix, or proof that n has none left. */
  ghost predicate Found(n: nat, p: int) {
    && p >= 1 && n % p == 0
    && (p <= 5 ==>
         || (p == 4)
         || (p == 2 && n % 4 != 0)
         || (p == 3 && n % 2 != 0)
         || (p == 5 && n % 2 != 0 && n % 3 != 0)
         || (p == 1 && n == 1))
    && (p > 5 ==> n > 1 && n % 2 != 0 && n % 3 != 0 && n % 5 != 0)
  }

  /** Recording a found radix keeps the search invariant. */
  lemma Record(n0: nat, n: nat, p0: int, p: int, r: seq<int>)
    requires Searching(n0, n, p0, r) && Found(n, p) && p <= 5
    requires n > 1 || |r| == 0
    requires n0 == 1 || n > 1
    requires p == 4 ==> p0 == 4
    requires p0 != 4 && p0 != 2 ==> p != 2
    requires p0 == 2 && |r| > 0 ==> p != 2
    ensures p == 2 && |r| > 1 ==> r[1] == 4
    ensures Searching(n0, n / p, p, if p == 2 && |r| > 1 then r[1 := 2] + [4] else r + [p])
  {
    DivSplit(n, p);
    MulAssocInt(Prod(r), p, n / p);
    ProdAppend(r, p);
    MulCommInt(p, n / p);
    if p == 2 && |r| > 1 {
      ProdUpdate(r, 1, 2);
      ProdAppend(r[1 := 2], 4);
    }
    NextCofactor(n, p);
  }

  lemma DividesThrough(n: nat, p: int, d: int)
    requires p >= 1 && d >= 1 && n % p == 0 && (n / p) % d == 0
    ensures n % d == 0
  {
    DivSplit(n, p);
    DivSplit(n / p, d);
    var e := (n / p) / d;
    assert n == (e * d) * p;
    MulAssocInt(e, d, p);
    MulCommInt(d, p);
    MulAssocInt(e, p, d);
    DivUnique(n, d, e * p, 0);
  }

  lemma NextCofactor(n: nat, p: int)
    requires n >= 1 && Found(n, p) && p <= 5
    ensures n / p >= 1 && FiveSmooth(n) == FiveSmooth(n / p)
    ensures n > 1 ==> FactorCount(n) == 1 + FactorCount(n / p)
    ensures n == 1 ==> n / p == 1
    ensures n / p == 1 || Tried(p, n / p)
    ensures p == 2 ==> (n / p) % 2 != 0
  {
    hide *;
    CofactorSmooth(n, p);
    CofactorTried(n, p);
    CofactorCount(n, p);
  }

  lemma CofactorCount(n: nat, p: int)
    requires n >= 1 && Found(n, p) && p <= 5
    ensures n > 1 ==> FactorCount(n) == 1 + FactorCount(n / p)
    ensures n == 1 ==> n / p == 1
  {
    hide FactorCount;
    OddNotFour(n);
    if p == 4 {
      CountFour(n);
    } else if p == 2 {
      CountTwo(n);
    } else if p == 3 {
      CountThree(n);
    } else if p == 5 {
      CountFive(n);
    }
  }

  lemma OddNotFour(n: nat)
    ensures n % 2 != 0 ==> n % 4 != 0
  {
    if n % 4 == 0 {
      DivSplit(n, 4);
      DivUnique(n, 2, 2 * (n / 4), 0);
    }
  }

  lemma CountFour(n: nat)
    requires n > 1 && n % 4 == 0
    ensures FactorCount(n) == 1 + FactorCount(n / 4)
  {
  }

  lemma CountTwo(n: nat)
    requires n > 1 && n % 4 != 0 && n % 2 == 0
    ensures FactorCount(n) == 1 + FactorCount(n / 2)
  {
  }

  lemma CountThree(n: nat)
    requires n > 1 && n % 4 != 0 && n % 2 != 0 && n % 3 == 0
    ensures FactorCount(n) == 1 + FactorCount(n / 3)
  {
  }

  lemma CountFive(n: nat)
    requires n > 1 && n % 4 != 0 && n % 2 != 0 && n % 3 != 0 && n % 5 == 0
    ensures FactorCount(n) == 1 + FactorCount(n / 5)
  {
  }

  lemma CofactorSmooth(n: nat, p: int)
    requires n >= 1 && Found(n, p) && p <= 5
    ensures n / p >= 1 && FiveSmooth(n) == FiveSmooth(n / p)
  {
    if p == 4 {
      assert n % 2 == 0 && (n / 2) % 2 == 0 && (n / 2) / 2 == n / 4;
    }
  }

  lemma CofactorTried(n: nat, p: int)
    requires n >= 1 && Found(n, p) && p <= 5
    ensures n / p == 1 || Tried(p, n / p)
    ensures p == 2 ==> (n / p) % 2 != 0
  {
    if p == 3 || p == 5 {
      CofactorParity(n, p);
    }
  }

  lemma CofactorParity(n: nat, p: int)
    requires Found(n, p) && (p == 3 || p == 5)
    ensures (n / p) % 2 != 0 && (p == 5 ==> (n / p) % 3 != 0)
  {
    if (n / p) % 2 == 0 { DividesThrough(n, p, 2); }
    if p == 5 && (n / p) % 3 == 0 { DividesThrough(n, p, 3); }
  }

  // ----- the factor buffer -----

  /** The 16-bit element type of the factor buffer. */
  function Int16(x: int): int {
    (x + 0x8000) % 0x10000 - 0x8000
  }

  /** p is a found divisor, or a candidate all of whose predecessors have failed. */
  ghost predicate Candidate(n: nat, p: int) {
    || Found(n, p)
    || (p >= 1 && n % p != 0 && Tried(p, n) && (p == 4 || p == 2 || (p >= 3 && p % 2 == 1 && p < n)))
  }

  function NextCandidate(p: int): int {
    match p
    case 4 => 2
    case 2 => 3
    case _ => p + 2
  }

  /** The candidate after p, or n itself once the square passes n. */
  function Next(n: nat, p: int): int {
    var q := NextCandidate(p);
    if q > 32000 || q * q > n then n else q
  }

  lemma Advance(n: nat, p: int)
    requires n >= 1 && Candidate(n, p) && p >= 1 && n % p != 0
    ensures Candidate(n, Next(n, p)) && 1 <= Next(n, p)
    ensures Next(n, p) != 4 && (Next(n, p) == 2 ==> p == 4)
  {
    if p == 4 {
      AdvanceFour(n);
    } else if p == 2 {
      AdvanceTwo(n);
    } else if p == 3 {
      AdvanceThree(n);
    } else {
      AdvanceOdd(n, p);
    }
  }

  lemma AdvanceFour(n: nat)
    requires n >= 1 && n % 4 != 0
    ensures Candidate(n, Next(n, 4)) && 1 <= Next(n, 4) && Next(n, 4) != 4
  {
    assert Next(n, 4) == if n < 4 then n else 2;
  }

  lemma AdvanceTwo(n: nat)
    requires n >= 1 && n % 2 != 0
    ensures Candidate(n, Next(n, 2)) && 1 <= Next(n, 2) && Next(n, 2) != 4 && Next(n, 2) != 2
  {
    assert Next(n, 2) == if n < 9 then n else 3;
  }

  lemma AdvanceThree(n: nat)
    requires n >= 1 && n % 2 != 0 && n % 3 != 0
    ensures Candidate(n, Next(n, 3)) && 1 <= Next(n, 3) && Next(n, 3) != 4 && Next(n, 3) != 2
  {
    assert Next(n, 3) == if n < 25 then n else 5;
  }

  lemma AdvanceOdd(n: nat, p: int)
    requires n >= 1 && p >= 5 && p % 2 == 1 && p < n && n % p != 0 && Tried(p, n)
    ensures Candidate(n, Next(n, p)) && 1 <= Next(n, p) && Next(n, p) != 4 && Next(n, p) != 2
  {
    hide Candidate;
    var q := p + 2;
    assert Tried(q, n);
    LargeCandidate(n, n);
    if Next(n, p) != n {
      SquareBelow(q, n);
      LargeCandidate(n, q);
    }
  }

  lemma SquareBelow(q: nat, n: nat)
    requires q >= 2 && q * q <= n
    ensures q < n
  {
  }

  lemma LargeCandidate(n: nat, q: nat)
    requires n > 5 && q > 5 && q % 2 == 1 && q <= n
    requires n % 2 != 0 && n % 3 != 0 && n % 5 != 0
    ensures Candidate(n, q)
  {
  }

  ghost function Remaining(n: nat, p: int): nat {
    if p == 4 then n + 2 else if p == 2 then n + 1 else if p < n then n - p else 0
  }

  lemma AdvanceShrinks(n: nat, p: int)
    requires n >= 1 && Candidate(n, p) && p >= 1 && n % p != 0
    ensures Remaining(n, Next(n, p)) < Remaining(n, p)
  {
    Advance(n, p);
    Shrinks(n, p, Next(n, p));
  }

  lemma Shrinks(n: nat, p: int, r: int)
    requires r != 4 && (r == 2 ==> p == 4) && p >= 2 && (p == 4 || p == 2 || p < n)
    requires r == n || r == NextCandidate(p)
    ensures Remaining(n, r) < Remaining(n, p)
  {
  }

  /** Finds the next factor of n: tries 4, 2, 3, 5, 7, ..., then n itself once the square passes n. */
  method NextFactor(n: nat, start: int) returns (p: int)
    requires n >= 1 && (start == 4 || (n > 1 && (start == 2 || start == 3 || start == 5)))
    requires start != 4 ==> Tried(start, n) && (start == 2 ==> n % 2 != 0)
    ensures Found(n, p)
    ensures p == 4 ==> start == 4
    ensures p == 2 ==> start == 4
  {
    hide FiveSmooth, FactorCount, Candidate, Remaining;
    p := start;
    StartIsCandidate(n, start);
    while n % p != 0
      invariant p >= 1 && Candidate(n, p)
      invariant p == 4 ==> start == 4
      invariant p == 2 ==> start == 4 || n % 2 != 0
      decreases Remaining(n, p)
    {
      AdvanceShrinks(n, p);
      Advance(n, p);
      var q := NextCandidate(p);
      if q > 32000 || q * q > n {
        p := n;
      } else {
        p := q;
      }
    }
    DividingCandidate(n, p);
  }

  lemma DividingCandidate(n: nat, p: int)
    requires p >= 1 && Candidate(n, p) && n % p == 0
    ensures Found(n, p)
  {
  }

  lemma StartIsCandidate(n: nat, start: int)
    requires n >= 1 && (start == 4 || (n > 1 && (start == 2 || start == 3 || start == 5)))
    requires start != 4 ==> Tried(start, n) && (start == 2 ==> n % 2 != 0)
    ensures Candidate(n, start)
  {
  }

  /** The even entries of the buffer hold the factors r. */
  ghost predicate Holds(buf: seq<int>, r: seq<int>) {
    2 * |r| <= |buf| && forall e :: 0 <= e < |r| ==> buf[2 * e] == r[e]
  }

  lemma SearchStart(n: nat)
    requires n >= 1
    ensures Searching(n, n, 4, []) && Sorted(4, [])
  {
    assert Tried(4, n);
  }

  /** A cofactor the search has exhausted is not smooth, so neither is the length. */
  lemma NotSmooth(n0: nat, n: nat, p0: int, p: int, r: seq<int>)
    requires Searching(n0, n, p0, r) && Found(n, p) && p > 5
    ensures !FiveSmooth(n0)
  {
  }

  /** A search that ends without a radix has recorded every factor it counts. */
  lemma RejectedCount(n0: nat, n: nat, p0: int, p: int, r: seq<int>)
    requires Searching(n0, n, p0, r) && Found(n, p) && p > 5
    ensures StageCount(n0) == |r|
  {
    hide FiveSmooth;
    OddNotFour(n);
  }

  /** A factor found when the buffer is full is one factor too many. */
  lemma NoRoom(n0: nat, n: nat, p0: int, p: int, r: seq<int>)
    requires Searching(n0, n, p0, r) && Found(n, p) && p <= 5 && n > 1
    ensures StageCount(n0) > |r|
  {
    hide FiveSmooth;
    NextCofactor(n, p);
  }

  // ----- the order of the recorded radices -----

  /** Radices stand in the order found: fours with at most one two in front, then threes, then fives. */
  ghost predicate Sorted(p: int, r: seq<int>) {
    && (p == 4 ==> forall e :: 0 <= e < |r| ==> r[e] == 4)
    && (p == 2 ==> forall e :: 0 <= e < |r| ==> r[e] == 4 || r[e] == 2)
    && (p == 3 ==> forall e :: 0 <= e < |r| ==> r[e] != 5)
    && (forall e, f :: 0 <= e < f < |r| && r[e] == 5 ==> r[f] == 5)
    && (forall e, f :: 0 <= e < f < |r| && r[e] == 3 ==> r[f] == 3 || r[f] == 5)
    && (forall f :: 0 < f < |r| && r[0] == 2 ==> r[f] == 3 || r[f] == 5)
  }

  lemma SortedStep(p0: int, p: int, r: seq<int>)
    requires Sorted(p0, r) && 1 <= p <= 5 && (p == 1 ==> r == [])
    requires (p == 4 || p == 2 ==> p0 == 4) && (p == 3 ==> p0 != 5)
    requires p0 == 4 || p0 == 2 || p0 == 3 || p0 == 5
    ensures Sorted(p, if p == 2 && |r| > 1 then r[1 := 2] + [4] else r + [p])
  {
  }

  /** The radix recorded first once the order is reversed, from the length alone. */
  function FirstRadix(n: nat): (p: nat)
    ensures n >= 1 ==> 1 <= p <= 5 && (p == 1 ==> n == 1)
  {
    if n == 1 then 1
    else if n % 5 == 0 then 5
    else if n % 3 == 0 then 3
    else if n == 2 || n == 8 then 2
    else 4
  }

  /** Radices that q does not divide have a product that q does not divide. */
  lemma {:induction false} NotAFactor(r: seq<int>, q: int)
    requires (q == 3 || q == 5) && forall e :: 0 <= e < |r| ==> 1 <= r[e] <= 5 && r[e] != q
    ensures Prod(r) % q != 0
  {
    if r != [] {
      var l := |r| - 1;
      NotAFactor(r[..l], q);
      PrimeStep(Prod(r[..l]), r[l], q);
    }
  }

  lemma PrimeStep(x: int, y: int, q: int)
    requires (q == 3 || q == 5) && x % q != 0 && 1 <= y <= 5 && y != q
    ensures (x * y) % q != 0
  {
  }

  lemma ALastFactor(r: seq<int>, n: nat)
    requires r != [] && n == Prod(r) && r[|r| - 1] >= 1
    ensures n % r[|r| - 1] == 0
  {
    var l := |r| - 1;
    DivUnique(n, r[l], Prod(r[..l]), 0);
  }

  /** The last radix found, which the reversal puts first, is the one the length alone tells. */
  lemma LastIsFirstRadix(n0: nat, p: int, r: seq<int>)
    requires Searching(n0, 1, p, r) && Sorted(p, r) && r != [] && Prod(r) == n0
    ensures r[|r| - 1] == FirstRadix(n0)
  {
    hide FiveSmooth, FactorCount, Prod;
    var l := |r| - 1;
    ALastFactor(r, n0);
    if n0 != 1 {
      if r[l] != 5 { NotAFactor(r, 5); }
      if r[l] != 3 && r[l] != 5 { NotAFactor(r, 3); }
      SmallProducts(r);
    }
  }

  /** Only the lists [2] and [4, 2] end in a two, and no list that ends in a four makes 2 or 8. */
  lemma SmallProducts(r: seq<int>)
    requires r != [] && TwosPlaced(r) && forall e :: 0 <= e < |r| ==> 2 <= r[e] <= 5
    requires forall f :: 0 < f < |r| && r[0] == 2 ==> r[f] == 3 || r[f] == 5
    ensures r[|r| - 1] == 2 ==> Prod(r) == 2 || Prod(r) == 8
    ensures r[|r| - 1] == 4 ==> Prod(r) != 2 && Prod(r) != 8
  {
    hide Prod;
    var l := |r| - 1;
    OneOrTwo(r);
    if l > 0 {
      AtLeastFirst(r[..l]);
      LastOut(r);
      if r[l] == 4 {
        assert Prod(r[..l]) * 4 >= 12;
      }
    }
  }

  lemma LastOut(r: seq<int>)
    requires r != []
    ensures Prod(r) == Prod(r[..|r| - 1]) * r[|r| - 1]
  {
  }

  lemma OneOrTwo(r: seq<int>)
    ensures |r| == 1 ==> Prod(r) == r[0]
    ensures |r| == 2 ==> Prod(r) == r[0] * r[1]
  {
    if |r| == 1 {
      ProdAppend([], r[0]);
      assert r == [] + [r[0]];
    } else if |r| == 2 {
      ProdAppend([], r[0]);
      ProdAppend([r[0]], r[1]);
      assert [] + [r[0]] == [r[0]] && r == [r[0]] + [r[1]];
    }
  }

  lemma {:induction false} AtLeastFirst(r: seq<int>)
    requires r != [] && forall e :: 0 <= e < |r| ==> r[e] >= 1
    ensures Prod(r) >= r[0]
  {
    hide Prod;
    OneOrTwo(r);
    if |r| > 1 {
      var l := |r| - 1;
      AtLeastFirst(r[..l]);
      LastOut(r);
      assert Prod(r[..l]) * r[l] >= Prod(r[..l]);
    }
  }

  /** With fewer than eight factors the first sub-length is small. */
  lemma {:induction false} ProdBounded(r: seq<int>)
    requires forall e :: 0 <= e < |r| ==> 1 <= r[e] <= 5
    ensures 1 <= Prod(r) <= IntPow(5, |r|)
  {
    if r != [] {
      var l := |r| - 1;
      ProdBounded(r[..l]);
      assert Prod(r[..l]) * r[l] <= IntPow(5, l) * 5;
      assert Prod(r[..l]) * r[l] >= 1;
    }
  }

  lemma PowersOfFive(k: nat)
    requires k <= 6
    ensures IntPow(5, k) <= 15625
  {
    assert IntPow(5, 0) == 1 && IntPow(5, 1) == 5 && IntPow(5, 2) == 25 && IntPow(5, 3) == 125;
    assert IntPow(5, 4) == 625 && IntPow(5, 5) == 3125 && IntPow(5, 6) == 15625;
  }

  lemma StartFor(n0: nat, n: nat, p: int, r: seq<int>)
    requires Searching(n0, n, p, r) && n > 1
    ensures p == 4 || p == 2 || p == 3 || p == 5
    ensures Tried(p, n) && (p == 2 && |r| > 0 ==> n % 2 != 0)
    ensures n0 > 1
  {
  }

  /** The plan the buffer describes once the factors are reversed and the lengths divided out. */
  ghost predicate Described(buf: seq<int>, r: seq<int>) {
    && 2 * |r| <= |buf|
    && forall i :: 0 <= i < |r| ==>
      && buf[2 * i] == r[|r| - 1 - i]
      && buf[2 * i + 1] == Int16(Prod(r[..|r| - 1 - i]))
  }

  lemma Finished(n0: nat, p: int, r: seq<int>)
    requires Searching(n0, 1, p, r) && |r| > 0
    ensures FiveSmooth(n0) && |r| == StageCount(n0) && Prod(r) == n0
  {
    assert Prod(r) * 1 == Prod(r);
  }

  lemma {:induction false} PrefixNotLonger(r: seq<int>, k: nat)
    requires k < |r| && forall e :: 0 <= e < |r| ==> 1 <= r[e]
    ensures 1 <= Prod(r[..k]) <= Prod(r[..|r| - 1])
    decreases |r| - k
  {
    ProdPositive(r[..k]);
    if k < |r| - 1 {
      PrefixNotLonger(r, k + 1);
      ProdPrefix(r, k);
      MulPositive(Prod(r[..k]), r[k]);
    }
  }

  lemma Fits(x: int)
    ensures 0 <= x <= 0x7FFF ==> Int16(x) == x
    ensures x > 0x7FFF ==> Int16(x) != x
  {
  }

  /** Entry i of the described plan is a well-formed stage once its length fits the buffer's type. */
  lemma StageDescribed(buf: seq<int>, n0: nat, p: int, r: seq<int>, i: nat)
    requires Searching(n0, 1, p, r) && |r| > 0 && Prod(r) == n0 && Described(buf, r) && i < |r|
    requires Prod(r[..|r| - 1]) <= 0x7FFF
    ensures StageOk(buf, i, n0)
    ensures SubLen(buf, i) == Prod(r[..|r| - 1 - i])
  {
    hide FiveSmooth, FactorCount, Int16;
    var e := |r| - 1 - i;
    PrefixNotLonger(r, e);
    Fits(Prod(r[..e]));
    ProdPrefix(r, e);
    MulCommInt(Prod(r[..e]), r[e]);
    if i > 0 {
      PrefixNotLonger(r, e + 1);
      Fits(Prod(r[..e + 1]));
      assert buf[2 * (i - 1) + 1] == Int16(Prod(r[..|r| - 1 - (i - 1)]));
    } else {
      assert r[..e + 1] == r;
    }
    if r[e] == 2 {
      TwoLengths(r, e);
    }
  }

  lemma TwoLengths(r: seq<int>, e: nat)
    requires e < |r| && (e == 0 || (e == 1 && r[0] == 4))
    ensures Prod(r[..e]) == 1 || Prod(r[..e]) == 4
  {
    if e == 1 {
      assert r[..1] == [] + [4];
      ProdAppend([], 4);
    }
  }

  lemma PlanDescribed(buf: seq<int>, n0: nat, p: int, r: seq<int>)
    requires Searching(n0, 1, p, r) && Sorted(p, r) && |r| > 0 && Prod(r) == n0 && Described(buf, r)
    ensures buf[0] == FirstRadix(n0)
    ensures IsPlan(buf, |r|, n0) <==> n0 / FirstRadix(n0) <= 0x7FFF
    ensures |r| < MAXFACTORS ==> n0 / FirstRadix(n0) <= 15625
  {
    hide FiveSmooth, FactorCount, Int16, Sorted;
    var l := |r| - 1;
    ProdPrefix(r, l);
    assert r[..l + 1] == r;
    LastIsFirstRadix(n0, p, r);
    DivUnique(n0, r[l], Prod(r[..l]), 0);
    assert buf[0] == r[l] && buf[1] == Int16(Prod(r[..l])) by {
      assert buf[2 * 0] == r[|r| - 1 - 0] && buf[2 * 0 + 1] == Int16(Prod(r[..|r| - 1 - 0]));
    }
    Fits(Prod(r[..l]));
    if |r| < MAXFACTORS {
      ProdBounded(r[..l]);
      PowersOfFive(l);
    }
    if n0 / buf[0] <= 0x7FFF {
      forall i | 0 <= i < |r| ensures StageOk(buf, i, n0) {
        StageDescribed(buf, n0, p, r, i);
      }
      StageDescribed(buf, n0, p, r, l);
      assert r[..0] == [];
    } else if IsPlan(buf, |r|, n0) {
      assert StageOk(buf, 0, n0);
      DivUnique(n0, r[l], SubLen(buf, 0), 0);
    }
  }

  /** How a length fares: factored, refused for another prime factor, or with more factors than the buffer
      has entries for, so that recording the ninth would write past its end. */
  datatype Verdict = Accepted | Rejected | Overrun

  /** Factors n0 into facbuf as p0, m0, p1, m1, ... It fails exactly on lengths with another prime factor, and
      needs a ninth entry exactly when the length has more than eight factors. The buffer then describes a
      plan exactly when the first sub-length, which the length alone tells, fits sixteen bits. */
  method KfFactor(n0: nat, facbuf: array<int>) returns (v: Verdict, ghost stages: nat)
    requires n0 >= 1 && facbuf.Length == 2 * MAXFACTORS
    modifies facbuf
    ensures v == if StageCount(n0) > MAXFACTORS then Overrun else if FiveSmooth(n0) then Accepted else Rejected
    ensures v == Accepted ==> stages == StageCount(n0) && facbuf[0] == FirstRadix(n0)
    ensures v == Accepted ==> (IsPlan(facbuf[..], stages, n0) <==> n0 / FirstRadix(n0) <= 0x7FFF)
    ensures v == Accepted && stages < MAXFACTORS ==> IsPlan(facbuf[..], stages, n0)
  {
    hide FiveSmooth, FactorCount, StageCount, Searching, Sorted, Prod, IsPlan, Int16, Described, FirstRadix;
    var count;
    ghost var p, r;
    v, count, p, r := FactorOut(n0, facbuf);
    if v != Accepted {
      return v, 0;
    }
    Reverse(facbuf, count, r);
    SearchFacts(n0, 1, p, r);
    DivideOut(n0, facbuf, count, r);
    PlanDescribed(facbuf[..], n0, p, r);
    return v, count;
  }

  /** The search loop: peels factors off n0 into the even entries of the buffer. */
  method FactorOut(n0: nat, facbuf: array<int>) returns (v: Verdict, count: nat, ghost p: int, ghost r: seq<int>)
    requires n0 >= 1 && facbuf.Length == 2 * MAXFACTORS
    modifies facbuf
    ensures v == if StageCount(n0) > MAXFACTORS then Overrun else if FiveSmooth(n0) then Accepted else Rejected
    ensures v == Accepted ==> 0 < count == |r| <= MAXFACTORS && Holds(facbuf[..], r) && Sorted(p, r)
    ensures v == Accepted ==> Searching(n0, 1, p, r) && Prod(r) == n0 && count == StageCount(n0)
  {
    hide FiveSmooth, FactorCount, StageCount, Searching, Sorted, Found, Tried, Prod;
    var n, q := n0, 4;
    count, r := 0, [];
    SearchStart(n0);
    while count == 0 || n > 1
      invariant count == |r| <= MAXFACTORS && n >= 1 && facbuf.Length == 2 * MAXFACTORS
      invariant Searching(n0, n, q, r) && Holds(facbuf[..], r) && Sorted(q, r)
      invariant count == 0 ==> n == n0 && q == 4
      decreases count == 0, n
    {
      if n > 1 { StartFor(n0, n, q, r); }
      ghost var q0 := q;
      q := NextFactor(n, q);
      if q > 5 {
        NotSmooth(n0, n, q0, q, r);
        RejectedCount(n0, n, q0, q, r);
        return Rejected, 0, 0, [];
      }
      if count == MAXFACTORS {
        NoRoom(n0, n, q0, q, r);
        return Overrun, 0, 0, [];
      }
      SearchFacts(n0, n, q0, r);
      Record(n0, n, q0, q, r);
      FoundFacts(n, q0, q);
      SortedStep(q0, q, r);
      DivisorShrinks(n, q);
      NextCofactor(n, q);
      n := n / q;
      facbuf[2 * count] := q;
      if q == 2 && count > 1 {
        facbuf[2 * count] := 4;
        facbuf[2] := 2;
      }
      ghost var next := if q == 2 && |r| > 1 then r[1 := 2] + [4] else r + [q];
      HoldsNext(facbuf[..], r, next, q);
      r := next;
      count := count + 1;
    }
    Finished(n0, q, r);
    v, p := Accepted, q;
  }

  /** A found radix fits the place the search has reached. */
  lemma FoundFacts(n: nat, p0: int, p: int)
    requires Found(n, p) && p <= 5 && n >= 1 && (p0 != 4 ==> Tried(p0, n)) && (p0 == 4 || p0 == 2 || p0 == 3 || p0 == 5)
    ensures 1 <= p <= 5 && (p == 3 ==> p0 != 5) && (p == 1 ==> n == 1)
  {
  }

  // ----- lengths at which a limit is met -----

  lemma ThreeMore(n: nat)
    requires n % 2 == 1
    ensures FiveSmooth(3 * n) == FiveSmooth(n) && FactorCount(3 * n) == 1 + FactorCount(n)
  {
    hide FiveSmooth, FactorCount;
    OddTripled(n);
    OddNotFour(3 * n);
    CountThree(3 * n);
  }

  lemma FiveMore(n: nat)
    requires n % 2 == 1 && n % 3 != 0
    ensures FiveSmooth(5 * n) == FiveSmooth(n) && FactorCount(5 * n) == 1 + FactorCount(n)
  {
    hide FiveSmooth, FactorCount;
    CoprimeTimesFive(n);
    OddNotFour(5 * n);
    CountFive(5 * n);
  }

  /** 3^8 is accepted and gets a plan of exactly as many stages as the buffers have entries. */
  lemma EightThrees()
    ensures FiveSmooth(6561) && StageCount(6561) == MAXFACTORS && FirstRadix(6561) == 3 && 6561 / 3 <= 0x7FFF
    ensures IsPlan([3, 2187, 3, 729, 3, 243, 3, 81, 3, 27, 3, 9, 3, 3, 3, 1], MAXFACTORS, 6561)
  {
    hide FiveSmooth, FactorCount, IsPlan;
    NoFactors();
    ThreeMore(1);
    ThreeMore(3);
    ThreeMore(9);
    ThreeMore(27);
    ThreeMore(81);
    ThreeMore(243);
    ThreeMore(729);
    ThreeMore(2187);
    EightStagePlan();
  }

  lemma NoFactors()
    ensures FiveSmooth(1) && FactorCount(1) == 0
  {
  }

  lemma EightStagePlan()
    ensures IsPlan([3, 2187, 3, 729, 3, 243, 3, 81, 3, 27, 3, 9, 3, 3, 3, 1], MAXFACTORS, 6561)
  {
    var plan := [3, 2187, 3, 729, 3, 243, 3, 81, 3, 27, 3, 9, 3, 3, 3, 1];
    forall i | 0 <= i < MAXFACTORS ensures StageOk(plan, i, 6561) {
      if i == 0 {} else if i == 1 {} else if i == 2 {} else if i == 3 {}
      else if i == 4 {} else if i == 5 {} else if i == 6 {} else {}
    }
  }

  /** 5^8 is accepted too, but its first sub-length does not fit the factor buffer. */
  lemma EightFives()
    ensures FiveSmooth(390625) && StageCount(390625) == MAXFACTORS
    ensures FirstRadix(390625) == 5 && 390625 / FirstRadix(390625) > 0x7FFF
  {
    hide FiveSmooth, FactorCount;
    NoFactors();
    FiveMore(1);
    FiveMore(5);
    FiveMore(25);
    FiveMore(125);
    FiveMore(625);
    FiveMore(3125);
    FiveMore(15625);
    FiveMore(78125);
  }

  /** 3^9 has a ninth factor. */
  lemma NineThrees()
    ensures FiveSmooth(19683) && StageCount(19683) > MAXFACTORS
  {
    hide FiveSmooth, FactorCount, IsPlan;
    EightThrees();
    ThreeMore(6561);
  }

  /** Divides the stage lengths out in the reversed order. */
  method DivideOut(n0: nat, facbuf: array<int>, count: nat, ghost r: seq<int>)
    requires count == |r| && 2 * count <= facbuf.Length && n0 == Prod(r)
    requires forall e :: 0 <= e < count ==> 1 <= r[e]
    requires forall e :: 0 <= e < count ==> facbuf[2 * e] == r[count - 1 - e]
    modifies facbuf
    ensures Described(facbuf[..], r)
  {
    hide Prod, Int16;
    var n: int := n0;
    assert r[..|r|] == r;
    var i := 0;
    while i < count
      invariant 0 <= i <= count
      invariant n == Prod(r[..count - i])
      invariant forall e :: 0 <= e < count ==> facbuf[2 * e] == r[count - 1 - e]
      invariant forall e :: 0 <= e < i ==> facbuf[2 * e + 1] == Int16(Prod(r[..count - 1 - e]))
    {
      ProdPrefix(r, count - 1 - i);
      DivUnique(n, r[count - 1 - i], Prod(r[..count - 1 - i]), 0);
      n := n / facbuf[2 * i];
      facbuf[2 * i + 1] := Int16(n);
      i := i + 1;
    }
    DescribedFrom(facbuf[..], r);
  }

  lemma DescribedFrom(buf: seq<int>, r: seq<int>)
    requires 2 * |r| <= |buf|
    requires forall e :: 0 <= e < |r| ==> buf[2 * e] == r[|r| - 1 - e]
    requires forall e :: 0 <= e < |r| ==> buf[2 * e + 1] == Int16(Prod(r[..|r| - 1 - e]))
    ensures Described(buf, r)
  {
  }

  lemma DivisorShrinks(n: nat, p: int)
    requires n >= 1 && Found(n, p)
    ensures n / p >= 0 && (n > 1 ==> n / p < n) && p >= 1
  {
    DivSplit(n, p);
    if p > 1 && n > 1 {
      assert n / p * p >= n / p * 2;
    }
  }

  lemma SearchFacts(n0: nat, n: nat, p: int, r: seq<int>)
    requires Searching(n0, n, p, r)
    ensures forall e :: 0 <= e < |r| ==> 1 <= r[e]
    ensures n0 == 1 ==> n == 1
  {
  }

  lemma HoldsNext(buf: seq<int>, r: seq<int>, next: seq<int>, p: int)
    requires |buf| >= 2 * |r| + 1 && |buf| % 2 == 0
    requires next == if p == 2 && |r| > 1 then r[1 := 2] + [4] else r + [p]
    requires buf[2 * |r|] == next[|r|]
    requires forall e :: 0 <= e < |r| ==> buf[2 * e] == next[e]
    ensures Holds(buf, next)
  {
  }

  /** Reverses the order of the factors in place. */
  method Reverse(facbuf: array<int>, count: nat, ghost r: seq<int>)
    requires count == |r| && 2 * count <= facbuf.Length && Holds(facbuf[..], r)
    modifies facbuf
    ensures forall e :: 0 <= e < count ==> facbuf[2 * e] == r[count - 1 - e]
  {
    var i := 0;
    while i < count / 2
      invariant 0 <= i <= count / 2
      invariant forall e :: 0 <= e < i ==> facbuf[2 * e] == r[count - 1 - e]
      invariant forall e :: count - i <= e < count ==> facbuf[2 * e] == r[count - 1 - e]
      invariant forall e :: i <= e < count - i ==> facbuf[2 * e] == r[e]
    {
      var j := count - i - 1;
      ghost var was := facbuf[..];
      assert facbuf[2 * i] == r[i] && facbuf[2 * j] == r[j];
      var tmp := facbuf[2 * i];
      facbuf[2 * i] := facbuf[2 * (count - i - 1)];
      facbuf[2 * (count - i - 1)] := tmp;
      assert facbuf[2 * i] == r[count - 1 - i] && facbuf[2 * j] == r[count - 1 - j];
      assert forall k :: 0 <= k < facbuf.Length && k != 2 * i && k != 2 * j ==> facbuf[k] == was[k];
      i := i + 1;
    }
  }
}
