/** Moving average, RSI and swing trend over session closes (app/agents/quant_strategist.py). */
module Indicators {
  import opened BrokerModels
  import opened Rounding

  function Sum(xs: seq<real>): real {
    if xs == [] then 0.0 else Sum(xs[..|xs| - 1]) + xs[|xs| - 1]
  }

  function Mean(xs: seq<real>): real
    requires xs != []
  {
    Over(Sum(xs), |xs| as real)
  }

  function LastN(xs: seq<real>, n: nat): seq<real>
    requires n <= |xs|
  {
    xs[|xs| - n..]
  }

  function Sma(xs: seq<real>, n: int): Option<real> {
    if n <= 0 || |xs| < n then None else Some(Mean(LastN(xs, n)))
  }

  // ----- RSI -----

  /** Sum of the rises between neighbours. */
  function Gains(w: seq<real>): (g: real)
    ensures g >= 0.0
  {
    if |w| < 2 then 0.0
    else Gains(w[..|w| - 1]) + Max(0.0, w[|w| - 1] - w[|w| - 2])
  }

  /** Sum of the falls between neighbours. */
  function Losses(w: seq<real>): (l: real)
    ensures l >= 0.0
  {
    if |w| < 2 then 0.0
    else Losses(w[..|w| - 1]) + Max(0.0, w[|w| - 2] - w[|w| - 1])
  }

  /** Gains as a share of all movement, in percent; 50 when nothing moved. */
  function Strength(gains: real, losses: real): real {
    if gains + losses == 0.0 then 50.0 else Over(100.0 * gains, gains + losses)
  }

  function Rsi(closes: seq<real>, n: nat): Option<real> {
    if |closes| < n + 1 then None
    else Some(Strength(Gains(LastN(closes, n + 1)), Losses(LastN(closes, n + 1))))
  }

  /** The textbook form used by the source equals the share of gains. */
  lemma TextbookForm(g: real, l: real, n: nat)
    requires g >= 0.0 && l > 0.0 && n > 0
    ensures
      var gn, ln := Over(g, n as real), Over(l, n as real);
      ln > 0.0 && 1.0 + Over(gn, ln) > 0.0 && 100.0 - Over(100.0, 1.0 + Over(gn, ln)) == Strength(g, l)
  {
    var c := n as real;
    assert g / c >= 0.0 && l / c > 0.0;
    assert (g / c) / (l / c) == g / l;
    ShareIdentity(g, l);
  }

  lemma ShareIdentity(g: real, l: real)
    requires g >= 0.0 && l > 0.0
    ensures Over(g, l) >= 0.0
    ensures 100.0 - Over(100.0, 1.0 + Over(g, l)) == Over(100.0 * g, g + l)
  {
    var q, x := Over(g, l), Over(100.0 * g, g + l);
    OverTimes(g, l);
    OverTimes(100.0 * g, g + l);
    assert q * l == g && x * (g + l) == 100.0 * g;
    CancelFactor(x + x * q, 100.0 * q, l) by {
      assert (x + x * q) * l == x * l + x * (q * l);
      assert x * l + x * g == x * (g + l);
    }
    assert Times(100.0 - x, 1.0 + q) == 100.0;
    QuotientUnique(100.0 - x, 100.0, 1.0 + q);
  }

  lemma CancelFactor(x: real, y: real, d: real)
    requires d != 0.0 && x * d == y * d
    ensures x == y
  {
    assert (x - y) * d == 0.0;
  }

  /** The accumulating loop of the source. */
  method ComputeRsi(closes: seq<real>, n: nat) returns (r: Option<real>)
    ensures r == Rsi(closes, n)
  {
    if |closes| < n + 1 {
      return None;
    }
    var w := LastN(closes, n + 1);
    var gains, losses := 0.0, 0.0;
    var i := 1;
    while i < |w|
      invariant 1 <= i <= |w|
      invariant gains == Gains(w[..i]) && losses == Losses(w[..i])
    {
      assert w[..i + 1][..i] == w[..i];
      var delta := w[i] - w[i - 1];
      if delta >= 0.0 {
        gains := gains + delta;
      } else {
        losses := losses - delta;
      }
      i := i + 1;
    }
    assert w[..i] == w;
    if losses <= 0.0 {
      if gains > 0.0 { QuotientUnique(100.0, 100.0 * gains, gains); }
      return Some(if gains > 0.0 then 100.0 else 50.0);
    }
    TextbookForm(gains, losses, n);
    var rs := Over(Over(gains, n as real), Over(losses, n as real));
    return Some(100.0 - Over(100.0, 1.0 + rs));
  }

  lemma StrengthBounds(g: real, l: real)
    requires g >= 0.0 && l >= 0.0
    ensures 0.0 <= Strength(g, l) <= 100.0
    ensures Strength(l, g) == 100.0 - Strength(g, l)
  {
    if g + l > 0.0 {
      var t, x := g + l, Strength(g, l);
      OverTimes(100.0 * g, t);
      assert x * t == 100.0 * g;
      QuotientUnique(100.0 - x, 100.0 * l, t);
    }
  }

  lemma RsiInRange(closes: seq<real>, n: nat)
    requires n < |closes|
    ensures Rsi(closes, n).Some? && 0.0 <= Rsi(closes, n).value <= 100.0
  {
    StrengthBounds(Gains(LastN(closes, n + 1)), Losses(LastN(closes, n + 1)));
  }

  function Reverse(w: seq<real>): (r: seq<real>)
    ensures |r| == |w|
    ensures w != [] ==> r[0] == w[|w| - 1]
  {
    if w == [] then [] else [w[|w| - 1]] + Reverse(w[..|w| - 1])
  }

  lemma {:induction false} FromTheFront(a: real, w: seq<real>)
    requires w != []
    ensures Gains([a] + w) == Max(0.0, w[0] - a) + Gains(w)
    ensures Losses([a] + w) == Max(0.0, a - w[0]) + Losses(w)
    decreases |w|
  {
    var x := [a] + w;
    assert x[..|x| - 1] == [a] + w[..|w| - 1];
    if |w| > 1 {
      FromTheFront(a, w[..|w| - 1]);
    } else {
      assert Gains([a]) == 0.0 && Losses([a]) == 0.0;
    }
  }

  lemma {:induction false} ReversalSwaps(w: seq<real>)
    ensures Gains(Reverse(w)) == Losses(w)
    ensures Losses(Reverse(w)) == Gains(w)
    decreases |w|
  {
    if |w| >= 2 {
      ReversalSwaps(w[..|w| - 1]);
      FromTheFront(w[|w| - 1], Reverse(w[..|w| - 1]));
    }
  }

  /** Playing a window backwards mirrors its RSI around 50. */
  lemma RsiOfReversedWindow(w: seq<real>)
    requires w != []
    ensures Rsi(Reverse(w), |w| - 1).value == 100.0 - Rsi(w, |w| - 1).value
  {
    assert LastN(w, |w|) == w && LastN(Reverse(w), |w|) == Reverse(w);
    ReversalSwaps(w);
    StrengthBounds(Gains(w), Losses(w));
  }

  // ----- Averages -----

  predicate Between(lo: real, xs: seq<real>, hi: real) { forall i :: 0 <= i < |xs| ==> lo <= xs[i] <= hi }

  lemma {:induction false} SumBounds(xs: seq<real>, lo: real, hi: real)
    requires Between(lo, xs, hi)
    ensures Times(|xs| as real, lo) <= Sum(xs) <= Times(|xs| as real, hi)
    decreases |xs|
  {
    if xs != [] {
      var init := xs[..|xs| - 1];
      SumBounds(init, lo, hi);
      var n := |init| as real;
      assert Times(n + 1.0, lo) == Times(n, lo) + lo && Times(n + 1.0, hi) == Times(n, hi) + hi;
    }
  }

  /** An average lies between the extremes of its own window. */
  lemma SmaWithinWindow(xs: seq<real>, n: nat, lo: real, hi: real)
    requires 0 < n <= |xs| && Between(lo, LastN(xs, n), hi)
    ensures Sma(xs, n).Some? && lo <= Sma(xs, n).value <= hi
  {
    var w := LastN(xs, n);
    SumBounds(w, lo, hi);
    var c, m := n as real, Mean(w);
    OverTimes(Sum(w), c);
    assert Times(m, c) == Sum(w);
    assert Times(c, lo) == Times(lo, c) && Times(c, hi) == Times(hi, c);
  }

  // ----- Swing trend -----

  datatype Trend = Up | Down | Sideways

  function SlowWindow(n: nat): nat {
    if n >= 20 then 20 else if n / 2 > 8 then n / 2 else 8
  }

  function Classify(last: real, fast: real, slow: real, prior: real): Trend
    requires prior > 0.0
  {
    var drift := Over(fast, prior) - 1.0;
    var rising := drift >= 0.01 && fast >= slow * 0.995;
    if rising && last >= fast * 0.97 && last <= fast * 1.06 then Up
    else if last < fast * 0.98 && fast < slow then Down
    else Sideways
  }

  function SwingTrend(closes: seq<real>): Trend {
    if |closes| < 8 then Sideways
    else
      var slowN := SlowWindow(|closes|);
      var fast, slow := Sma(closes, 8), Sma(closes, slowN);
      if fast.None? || slow.None? || slow.value <= 0.0 || fast.value <= 0.0 then Sideways
      else
        var prior := closes[|closes| - slowN..|closes| - 8];
        if prior == [] || Mean(prior) <= 0.0 then Sideways
        else Classify(closes[|closes| - 1], fast.value, slow.value, Mean(prior))
  }

  /** Below eighteen closes the slow window is no longer than the fast one, so there is no prior
      stretch to compare with and every series is sideways. */
  lemma ShortSeriesIsSideways(closes: seq<real>)
    requires |closes| < 18
    ensures SwingTrend(closes) == Sideways
  {
  }

  // ----- Rescaling prices changes nothing -----

  function Scale(xs: seq<real>, k: real): seq<real> {
    seq(|xs|, i requires 0 <= i < |xs| => Times(xs[i], k))
  }

  lemma {:induction false} ScaledSums(xs: seq<real>, k: real)
    requires k > 0.0
    ensures Sum(Scale(xs, k)) == Times(Sum(xs), k)
    ensures Gains(Scale(xs, k)) == Times(Gains(xs), k)
    ensures Losses(Scale(xs, k)) == Times(Losses(xs), k)
    decreases |xs|
  {
    if xs != [] {
      var init := xs[..|xs| - 1];
      ScaledSums(init, k);
      assert Scale(xs, k)[..|xs| - 1] == Scale(init, k);
      Distribute(Sum(init), xs[|xs| - 1], k);
      if |xs| >= 2 {
        var a, b := xs[|xs| - 2], xs[|xs| - 1];
        ScaledRise(a, b, k);
        ScaledRise(b, a, k);
        Distribute(Gains(init), Max(0.0, b - a), k);
        Distribute(Losses(init), Max(0.0, a - b), k);
      }
    }
  }

  lemma ScaledRise(a: real, b: real, k: real)
    requires k > 0.0
    ensures Max(0.0, Times(b, k) - Times(a, k)) == Times(Max(0.0, b - a), k)
  {
    Distribute(b, a, k);
    ScaleOrder(0.0, b - a, k);
  }

  lemma ScaleOrder(x: real, y: real, k: real)
    requires k > 0.0
    ensures Times(x, k) <= Times(y, k) <==> x <= y
    ensures Times(x, k) < Times(y, k) <==> x < y
  {
  }

  lemma ScaledQuotient(x: real, y: real, k: real)
    requires k > 0.0 && y != 0.0
    ensures Times(y, k) != 0.0 && Over(Times(x, k), Times(y, k)) == Over(x, y)
  {
    assert (x * k) / (y * k) == x / y;
  }

  lemma ScaledMean(xs: seq<real>, k: real)
    requires k > 0.0 && xs != []
    ensures Mean(Scale(xs, k)) == Times(Mean(xs), k)
  {
    ScaledSums(xs, k);
    ScaledOver(Sum(xs), |xs| as real, k);
  }

  lemma ScaledOver(s: real, c: real, k: real)
    requires c > 0.0
    ensures Over(Times(s, k), c) == Times(Over(s, c), k)
  {
    OverTimes(s, c);
    var m := Over(s, c);
    assert (m * k) * c == (m * c) * k;
    QuotientUnique(Times(m, k), Times(s, k), c);
  }

  lemma ScaledStrength(g: real, l: real, k: real)
    requires k > 0.0
    ensures Strength(Times(g, k), Times(l, k)) == Strength(g, l)
  {
    Distribute(g, l, k);
    if g + l != 0.0 {
      ScaledQuotient(100.0 * g, g + l, k);
      assert Times(100.0 * g, k) == 100.0 * Times(g, k);
    }
  }

  /** RSI sees only relative moves. */
  lemma RsiScaleInvariant(closes: seq<real>, n: nat, k: real)
    requires k > 0.0
    ensures Rsi(Scale(closes, k), n) == Rsi(closes, n)
  {
    if n < |closes| {
      var w := LastN(closes, n + 1);
      assert LastN(Scale(closes, k), n + 1) == Scale(w, k);
      ScaledSums(w, k);
      ScaledStrength(Gains(w), Losses(w), k);
    }
  }

  lemma ClassifyScaled(last: real, fast: real, slow: real, prior: real, k: real)
    requires k > 0.0 && prior > 0.0
    ensures Times(prior, k) > 0.0
    ensures Classify(Times(last, k), Times(fast, k), Times(slow, k), Times(prior, k)) == Classify(last, fast, slow, prior)
  {
    ScaleOrder(0.0, prior, k);
    ScaledQuotient(fast, prior, k);
    ScaleOrder(slow * 0.995, fast, k);
    ScaleOrder(fast * 0.97, last, k);
    ScaleOrder(last, fast * 1.06, k);
    ScaleOrder(last, fast * 0.98, k);
    ScaleOrder(fast, slow, k);
    assert Times(slow * 0.995, k) == Times(slow, k) * 0.995;
    assert Times(fast * 0.97, k) == Times(fast, k) * 0.97;
    assert Times(fast * 1.06, k) == Times(fast, k) * 1.06;
    assert Times(fast * 0.98, k) == Times(fast, k) * 0.98;
  }

  lemma ScaledSma(xs: seq<real>, n: nat, k: real)
    requires k > 0.0 && 0 < n <= |xs|
    ensures Sma(Scale(xs, k), n) == Some(Times(Sma(xs, n).value, k))
  {
    assert LastN(Scale(xs, k), n) == Scale(LastN(xs, n), k);
    ScaledMean(LastN(xs, n), k);
  }

  /** So does the swing trend. */
  lemma TrendScaleInvariant(closes: seq<real>, k: real)
    requires k > 0.0
    ensures SwingTrend(Scale(closes, k)) == SwingTrend(closes)
  {
    if |closes| >= 8 {
      var n := SlowWindow(|closes|);
      ScaledSma(closes, 8, k);
      ScaledSma(closes, n, k);
      var fast, slow := Sma(closes, 8).value, Sma(closes, n).value;
      ScaleOrder(0.0, fast, k);
      ScaleOrder(0.0, slow, k);
      var prior := closes[|closes| - n..|closes| - 8];
      assert Scale(closes, k)[|closes| - n..|closes| - 8] == Scale(prior, k);
      if prior != [] {
        ScaledMean(prior, k);
        ScaleOrder(0.0, Mean(prior), k);
        if Mean(prior) > 0.0 {
          ClassifyScaled(closes[|closes| - 1], fast, slow, Mean(prior), k);
        }
      }
    }
  }

  // ----- When a trend is called -----

  /** Average of a stretch of closes. */
  function Avg(closes: seq<real>, from: nat, to: nat): real
    requires from < to <= |closes|
  {
    Over(Sum(closes[from..to]), (to - from) as real)
  }

  lemma RatioAtLeast(n: real, d: real, c: real)
    requires d > 0.0
    ensures Over(n, d) - 1.0 >= c <==> n >= Times(1.0 + c, d)
  {
    OverTimes(n, d);
    var q := Over(n, d);
    if q >= 1.0 + c { TimesMonotone(1.0 + c, q, d); } else { TimesMonotone(q, 1.0 + c, d); }
  }

  /** From eighteen closes on, against the stretch before the last eight (reaching back twenty closes,
      or half the series while it is shorter): an uptrend is an average of the last eight at least one
      percent above that stretch and at most half a percent under the slow average, with the last
      close between 3% under and 6% over it; a downtrend is anything else whose last close is more
      than 2% under a fast average that is under the slow one. */
  lemma TrendIff(closes: seq<real>)
    requires |closes| >= 18
    ensures
      var n := |closes|;
      var k := if n >= 20 then n - 20 else n - n / 2;
      var fast, slow, prior, last := Avg(closes, n - 8, n), Avg(closes, k, n), Avg(closes, k, n - 8), closes[n - 1];
      var positive := fast > 0.0 && slow > 0.0 && prior > 0.0;
      var up := fast >= 1.01 * prior && fast >= 0.995 * slow && 0.97 * fast <= last <= 1.06 * fast;
      && (SwingTrend(closes) == Up <==> positive && up)
      && (SwingTrend(closes) == Down <==> positive && !up && last < 0.98 * fast && fast < slow)
  {
    var n := |closes|;
    var k := if n >= 20 then n - 20 else n - n / 2;
    assert closes[k..n] == LastN(closes, n - k) && closes[n - 8..n] == LastN(closes, 8);
    var prior := Avg(closes, k, n - 8);
    if prior > 0.0 { RatioAtLeast(Avg(closes, n - 8, n), prior, 0.01); }
  }
}
