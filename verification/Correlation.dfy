/** Correlation kernels: the register-rotating inner loop and its drivers, against the plain double loop. */
module Correlation {
  import opened RealSums

  /** The plain correlation: sum over j < len of x[j] * y[o + j]. */
  function Corr(x: seq<real>, y: seq<real>, o: int, len: nat): real {
    Sum(len, j => Prod(At(x, j), At(y, o + j)))
  }

  lemma CorrStep(x: seq<real>, y: seq<real>, o: int, j: nat)
    ensures Corr(x, y, o, j + 1) == Corr(x, y, o, j) + Prod(At(x, j), At(y, o + j))
  {
  }

  /** The four running sums hold four neighbouring correlations over the first j samples. */
  ghost predicate Accumulated(s: seq<real>, start: seq<real>, x: seq<real>, y: seq<real>, o: int, j: nat) {
    && |s| == 4 && |start| == 4
    && s[0] == start[0] + Corr(x, y, o, j)
    && s[1] == start[1] + Corr(x, y, o + 1, j)
    && s[2] == start[2] + Corr(x, y, o + 2, j)
    && s[3] == start[3] + Corr(x, y, o + 3, j)
  }

  lemma NothingAccumulated(s: seq<real>, x: seq<real>, y: seq<real>, o: int)
    requires |s| == 4
    ensures Accumulated(s, s, x, y, o, 0)
  {
  }

  /** Multiplies one sample into the four sums, one register each. */
  method Mac4(sum: array<real>, t: real, a: real, b: real, c: real, d: real,
              ghost start: seq<real>, ghost x: seq<real>, ghost y: seq<real>, ghost o: int, ghost j: nat)
    requires sum.Length == 4 && Accumulated(sum[..], start, x, y, o, j)
    requires t == At(x, j)
    requires a == At(y, o + j) && b == At(y, o + j + 1) && c == At(y, o + j + 2) && d == At(y, o + j + 3)
    modifies sum
    ensures Accumulated(sum[..], start, x, y, o, j + 1)
  {
    hide Corr, Prod;
    sum[0] := sum[0] + Prod(t, a);
    sum[1] := sum[1] + Prod(t, b);
    sum[2] := sum[2] + Prod(t, c);
    sum[3] := sum[3] + Prod(t, d);
    CorrStep(x, y, o, j);
    CorrStep(x, y, o + 1, j);
    CorrStep(x, y, o + 2, j);
    CorrStep(x, y, o + 3, j);
    assert o + 1 + j == o + j + 1 && o + 2 + j == o + j + 2 && o + 3 + j == o + j + 3;
  }

  /** Adds the correlations at lags o, o+1, o+2, o+3 to sum, loading each y sample once. */
  method XcorrKernel(x: seq<real>, y: seq<real>, o: nat, sum: array<real>, len: nat)
    requires 3 <= len <= |x| && o + len + 3 <= |y| && sum.Length == 4
    modifies sum
    ensures Accumulated(sum[..], old(sum[..]), x, y, o, len)
  {
    hide Accumulated;
    ghost var start := sum[..];
    NothingAccumulated(start, x, y, o);
    var xp, yp := 0, o;
    var y3 := 0.0;
    var y0 := y[yp];
    var y1 := y[yp + 1];
    var y2 := y[yp + 2];
    yp := yp + 3;
    var tmp;
    var j := 0;
    while j < len - 3
      invariant 0 <= j <= len && xp == j && yp == o + j + 3 && sum.Length == 4
      invariant y0 == y[o + j] && y1 == y[o + j + 1] && y2 == y[o + j + 2]
      invariant Accumulated(sum[..], start, x, y, o, j)
    {
      tmp := x[xp];
      y3 := y[yp];
      Mac4(sum, tmp, y0, y1, y2, y3, start, x, y, o, j);
      tmp := x[xp + 1];
      y0 := y[yp + 1];
      Mac4(sum, tmp, y1, y2, y3, y0, start, x, y, o, j + 1);
      tmp := x[xp + 2];
      y1 := y[yp + 2];
      Mac4(sum, tmp, y2, y3, y0, y1, start, x, y, o, j + 2);
      tmp := x[xp + 3];
      y2 := y[yp + 3];
      Mac4(sum, tmp, y3, y0, y1, y2, start, x, y, o, j + 3);
      xp, yp := xp + 4, yp + 4;
      j := j + 4;
    }
    var more := j < len;
    j := j + 1;
    if more {
      tmp := x[xp];
      y3 := y[yp];
      xp, yp := xp + 1, yp + 1;
      Mac4(sum, tmp, y0, y1, y2, y3, start, x, y, o, j - 1);
    }
    more := j < len;
    j := j + 1;
    if more {
      tmp := x[xp];
      y0 := y[yp];
      xp, yp := xp + 1, yp + 1;
      Mac4(sum, tmp, y1, y2, y3, y0, start, x, y, o, j - 1);
    }
    if j < len {
      tmp := x[xp];
      y1 := y[yp];
      Mac4(sum, tmp, y2, y3, y0, y1, start, x, y, o, j);
    }
  }

  method CeltInnerProd(x: seq<real>, xo: nat, y: seq<real>, yo: nat, N: nat) returns (xy: real)
    requires xo + N <= |x| && yo + N <= |y|
    ensures xy == Corr(x[xo..], y, yo, N)
  {
    hide Prod;
    xy := 0.0;
    var i := 0;
    while i < N
      invariant 0 <= i <= N && xy == Corr(x[xo..], y, yo, i)
    {
      CorrStep(x[xo..], y, yo, i);
      xy := xy + Prod(x[xo + i], y[yo + i]);
      i := i + 1;
    }
  }

  method DualInnerProd(x: seq<real>, xo: nat, y1: nat, y2: nat, N: nat) returns (xy1: real, xy2: real)
    requires xo + N <= |x| && y1 + N <= |x| && y2 + N <= |x|
    ensures xy1 == Corr(x[xo..], x, y1, N) && xy2 == Corr(x[xo..], x, y2, N)
  {
    hide Prod;
    xy1, xy2 := 0.0, 0.0;
    var i := 0;
    while i < N
      invariant 0 <= i <= N
      invariant xy1 == Corr(x[xo..], x, y1, i) && xy2 == Corr(x[xo..], x, y2, i)
    {
      CorrStep(x[xo..], x, y1, i);
      CorrStep(x[xo..], x, y2, i);
      xy1 := xy1 + Prod(x[xo + i], x[y1 + i]);
      xy2 := xy2 + Prod(x[xo + i], x[y2 + i]);
      i := i + 1;
    }
  }

  /** Correlations at lags 0 to maxPitch - 1: four lags a pass, the rest one by one. */
  method RnnPitchXcorr(x: seq<real>, y: seq<real>, xcorr: array<real>, len: nat, maxPitch: nat)
    requires maxPitch > 0 && (len >= 3 || maxPitch <= 3)
    requires len <= |x| && len + maxPitch - 1 <= |y| && maxPitch <= xcorr.Length
    modifies xcorr
    ensures forall i :: 0 <= i < maxPitch ==> xcorr[i] == Corr(x, y, i, len)
    ensures forall i :: maxPitch <= i < xcorr.Length ==> xcorr[i] == old(xcorr[i])
  {
    hide Corr;
    var i := 0;
    while i < maxPitch - 3
      invariant 0 <= i <= maxPitch
      invariant forall k :: 0 <= k < i ==> xcorr[k] == Corr(x, y, k, len)
      invariant forall k :: maxPitch <= k < xcorr.Length ==> xcorr[k] == old(xcorr[k])
    {
      var sum := new real[4](k => 0.0);
      XcorrKernel(x, y, i, sum, len);
      xcorr[i] := sum[0];
      xcorr[i + 1] := sum[1];
      xcorr[i + 2] := sum[2];
      xcorr[i + 3] := sum[3];
      i := i + 4;
    }
    while i < maxPitch
      invariant 0 <= i <= maxPitch
      invariant forall k :: 0 <= k < i ==> xcorr[k] == Corr(x, y, k, len)
      invariant forall k :: maxPitch <= k < xcorr.Length ==> xcorr[k] == old(xcorr[k])
    {
      var sum := CeltInnerProd(x, 0, y, i, len);
      assert x[0..] == x;
      xcorr[i] := sum;
      i := i + 1;
    }
  }

  // ----- windowed autocorrelation -----

  /** Sample t of the signal tapered at both ends by the first k window samples; the later write wins. */
  function Tapered(x: seq<real>, window: seq<real>, k: int, n: nat, t: int): real
    requires n <= |x| && 0 <= k <= n && k <= |window| && 0 <= t < n
  {
    if n - 1 - t < k && (t >= k || n - 1 - t >= t) then Prod(x[t], window[n - 1 - t])
    else if t < k then Prod(x[t], window[t])
    else x[t]
  }

  /** The signal rnn_autocorr correlates: x itself without overlap, else tapered at both ends. */
  function TaperedSignal(x: seq<real>, window: seq<real>, overlap: nat, n: nat): (y: seq<real>)
    requires n <= |x| && overlap <= n && overlap <= |window|
    ensures |y| == n && forall t :: 0 <= t < n ==> y[t] == Tapered(x, window, overlap, n, t)
  {
    seq(n, t requires 0 <= t < n => Tapered(x, window, overlap, n, t))
  }

  /** Tapering treats both ends alike: turning the signal around turns the tapered signal around, and the middle is
      left as it is. */
  lemma TaperSymmetric(x: seq<real>, y: seq<real>, window: seq<real>, k: nat, n: nat, t: nat)
    requires n == |x| == |y| && 2 * k <= n && k <= |window| && t < n && x[t] == y[n - 1 - t]
    ensures Tapered(x, window, k, n, t) == Tapered(y, window, k, n, n - 1 - t)
    ensures k <= t < n - k ==> Tapered(x, window, k, n, t) == x[t]
    ensures t < k ==> Tapered(x, window, k, n, t) == Prod(x[t], window[t])
  {
  }

  method Taper(x: seq<real>, window: seq<real>, overlap: nat, n: nat) returns (xx: seq<real>)
    requires n <= |x| && overlap <= n && overlap <= |window|
    ensures xx == TaperedSignal(x, window, overlap, n)
  {
    hide Prod;
    var buf := new real[n];
    var i := 0;
    while i < n
      invariant 0 <= i <= n
      invariant forall t :: 0 <= t < i ==> buf[t] == x[t]
    {
      buf[i] := x[i];
      i := i + 1;
    }
    i := 0;
    while i < overlap
      invariant 0 <= i <= overlap
      invariant forall t :: 0 <= t < n ==> buf[t] == Tapered(x, window, i, n, t)
    {
      buf[i] := Prod(x[i], window[i]);
      buf[n - i - 1] := Prod(x[n - i - 1], window[i]);
      i := i + 1;
    }
    xx := buf[..];
  }

  /** Full autocorrelation of the tapered signal at every lag up to `lag`. */
  method RnnAutocorr(x: seq<real>, ac: array<real>, window: seq<real>, overlap: nat, lag: nat, n: nat)
    requires 0 < n <= |x| && overlap <= n && overlap <= |window|
    requires lag <= n && (n - lag >= 3 || lag <= 2) && lag < ac.Length
    modifies ac
    ensures var y := TaperedSignal(x, window, overlap, n);
      forall k :: 0 <= k <= lag ==> ac[k] == Corr(y, y, k, n - k)
    ensures forall k :: lag < k < ac.Length ==> ac[k] == old(ac[k])
  {
    hide Corr, Tapered, Prod;
    var xptr := x[..n];
    if overlap != 0 {
      xptr := Taper(x, window, overlap, n);
    } else {
      NoTaper(x, window, n);
    }
    ghost var y := TaperedSignal(x, window, overlap, n);
    var fastN := n - lag;
    RnnPitchXcorr(xptr, xptr, ac, fastN, lag + 1);
    var k := 0;
    while k <= lag
      invariant 0 <= k <= lag + 1
      invariant forall t :: 0 <= t < k ==> ac[t] == Corr(y, y, t, n - t)
      invariant forall t :: k <= t <= lag ==> ac[t] == Corr(y, y, t, fastN)
      invariant forall t :: lag < t < ac.Length ==> ac[t] == old(ac[t])
    {
      var d := AutocorrTail(xptr, k, fastN, n);
      ac[k] := ac[k] + d;
      k := k + 1;
    }
  }

  /** The samples the fast part leaves out at lag k. */
  method AutocorrTail(x: seq<real>, k: nat, fastN: nat, n: nat) returns (d: real)
    requires n == |x| && k + fastN <= n
    ensures Corr(x, x, k, fastN) + d == Corr(x, x, k, n - k)
  {
    hide Prod, Corr;
    d := 0.0;
    var i := k + fastN;
    while i < n
      invariant k + fastN <= i <= n
      invariant Corr(x, x, k, fastN) + d == Corr(x, x, k, i - k)
    {
      CorrStep(x, x, k, i - k);
      ProdComm(x[i], x[i - k]);
      d := d + Prod(x[i], x[i - k]);
      i := i + 1;
    }
  }

  lemma NoTaper(x: seq<real>, window: seq<real>, n: nat)
    requires n <= |x|
    ensures TaperedSignal(x, window, 0, n) == x[..n]
  {
  }
}
