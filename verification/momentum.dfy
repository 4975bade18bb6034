/** Price momentum indicators: the relative strength index over a rolling window,
    and the year-to-date performance measured from the previous year's last close. */
module Momentum {

  import opened Wrappers
  import opened Floats

  /** `data.diff()` at index `i`: NaN (`None`) at the first index, else the change
      from the previous close. */
  function Delta(prices: seq<real>, i: nat): Option<real>
    requires i < |prices|
  {
    if i == 0 then None else Some(prices[i] - prices[i - 1])
  }

  /** `delta.where(delta > 0, 0)`: the rise, or 0 (a NaN delta fails the test and becomes 0). */
  function Gain(prices: seq<real>, i: nat): real
    requires i < |prices|
  {
    match Delta(prices, i)
    case Some(d) => if d > 0.0 then d else 0.0
    case None => 0.0
  }

  /** `-delta.where(delta < 0, 0)`: the fall as a positive amount, or 0. */
  function Loss(prices: seq<real>, i: nat): real
    requires i < |prices|
  {
    match Delta(prices, i)
    case Some(d) => if d < 0.0 then -d else 0.0
    case None => 0.0
  }

  function Gains(prices: seq<real>): (g: seq<real>)
    ensures |g| == |prices| && forall i | 0 <= i < |prices| :: g[i] == Gain(prices, i)
  {
    seq(|prices|, i requires 0 <= i < |prices| => Gain(prices, i))
  }

  function Losses(prices: seq<real>): (l: seq<real>)
    ensures |l| == |prices| && forall i | 0 <= i < |prices| :: l[i] == Loss(prices, i)
  {
    seq(|prices|, i requires 0 <= i < |prices| => Loss(prices, i))
  }

  /** Gains and losses split each price change: both are non-negative, never both
      positive, both 0 at the first index, and their difference is the change itself. */
  lemma GainLossSplit(prices: seq<real>, i: nat)
    requires i < |prices|
    ensures Gain(prices, i) >= 0.0 && Loss(prices, i) >= 0.0
    ensures !(Gain(prices, i) > 0.0 && Loss(prices, i) > 0.0)
    ensures i == 0 ==> Gain(prices, i) == 0.0 && Loss(prices, i) == 0.0
    ensures i > 0 ==> Gain(prices, i) - Loss(prices, i) == prices[i] - prices[i - 1]
  {
  }

  function Sum(s: seq<real>): real {
    if |s| == 0 then 0.0 else Sum(s[..|s| - 1]) + s[|s| - 1]
  }

  /** A sum peels off its first element as well as its last. */
  lemma {:induction false} SumFront(s: seq<real>)
    requires |s| > 0
    ensures Sum(s) == s[0] + Sum(s[1..])
    decreases |s|
  {
    if |s| > 1 {
      SumFront(s[..|s| - 1]);
      assert s[..|s| - 1][1..] == s[1..][..|s| - 2];
    }
  }

  /** The sum of a window that slides one step: add the entering value, drop the leaving one. */
  lemma SlideWindow(xs: seq<real>, lo: nat, hi: nat)
    requires lo <= hi < |xs|
    ensures Sum(xs[lo..hi + 1]) == Sum(xs[lo..hi]) + xs[hi]
    ensures lo < hi ==> Sum(xs[lo + 1..hi + 1]) == Sum(xs[lo..hi + 1]) - xs[lo]
  {
    assert xs[lo..hi + 1][..hi - lo] == xs[lo..hi];
    if lo < hi {
      SumFront(xs[lo..hi + 1]);
      assert xs[lo..hi + 1][1..] == xs[lo + 1..hi + 1];
    }
  }

  /** A sum of non-negative values is non-negative, and zero only when every value is. */
  lemma {:induction false} SumNonNegative(s: seq<real>)
    requires forall i | 0 <= i < |s| :: s[i] >= 0.0
    ensures Sum(s) >= 0.0
    ensures Sum(s) == 0.0 ==> forall i | 0 <= i < |s| :: s[i] == 0.0
    decreases |s|
  {
    if |s| > 0 {
      SumNonNegative(s[..|s| - 1]);
      assert forall i | 0 <= i < |s| - 1 :: s[..|s| - 1][i] == s[i];
    }
  }

  /** The mean of the `w` values ending at index `i`. */
  function WindowMean(xs: seq<real>, w: nat, i: nat): real
    requires 1 <= w && w - 1 <= i < |xs|
  {
    Sum(xs[i + 1 - w..i + 1]) / (w as real)
  }

  /** Start of the window of at most `w` values that ends just before index `i`. */
  function WindowStart(i: nat, w: nat): nat {
    if i >= w then i - w else 0
  }

  /** Moving the running window sum one step: the value at `i` enters and, once the window
      is full, the value `w` places back leaves. */
  lemma {:induction false} SlideStep(xs: seq<real>, w: nat, i: nat, total: real)
    requires w >= 1 && i < |xs|
    requires total == Sum(xs[WindowStart(i, w)..i])
    ensures total + xs[i] - (if i >= w then xs[i - w] else 0.0) == Sum(xs[WindowStart(i + 1, w)..i + 1])
  {
    SlideWindow(xs, WindowStart(i, w), i);
  }

  /** The sum of the (at most) `w` values ending at each index, computed with one running
      total that slides along the series. */
  method WindowSums(xs: seq<real>, w: nat) returns (sums: seq<real>)
    requires w >= 1
    ensures |sums| == |xs|
    ensures forall i | 0 <= i < |xs| :: sums[i] == Sum(xs[WindowStart(i + 1, w)..i + 1])
  {
    sums := [];
    var total := 0.0;
    var i := 0;
    while i < |xs|
      invariant 0 <= i <= |xs|
      invariant |sums| == i
      invariant forall j | 0 <= j < i :: sums[j] == Sum(xs[WindowStart(j + 1, w)..j + 1])
      invariant total == Sum(xs[WindowStart(i, w)..i])
    {
      SlideStep(xs, w, i, total);
      total := total + xs[i] - (if i >= w then xs[i - w] else 0.0);
      sums := sums + [total];
      i := i + 1;
    }
  }

  /** `rolling(window=w).mean()`: undefined for the first `w - 1` entries, then the mean of
      the last `w` values. */
  method RollingMean(xs: seq<real>, w: nat) returns (r: seq<Ext>)
    requires w >= 1
    ensures |r| == |xs|
    ensures forall i | 0 <= i < |xs| && i + 1 < w :: r[i] == NaN
    ensures forall i | w - 1 <= i < |xs| :: r[i] == Num(WindowMean(xs, w, i))
  {
    var sums := WindowSums(xs, w);
    r := seq(|xs|, i requires 0 <= i < |xs| => if i + 1 < w then NaN else Num(sums[i] / (w as real)));
  }

  /** `100 - 100 / (1 + avg_gain / avg_loss)` on two defined averages, in closed form. */
  function RsiValue(avgGain: real, avgLoss: real): Ext {
    if avgLoss != 0.0 then
      (if 1.0 + avgGain / avgLoss != 0.0 then Num(100.0 - 100.0 / (1.0 + avgGain / avgLoss)) else NegInf)
    else if avgGain == 0.0 then NaN
    else Num(100.0)
  }

  /** The RSI entry of two rolling averages: NaN while either is undefined. */
  function RsiOfMeans(avgGain: Ext, avgLoss: Ext): Ext {
    if avgGain.Num? && avgLoss.Num? then RsiValue(avgGain.v, avgLoss.v) else NaN
  }

  /** `100 - 100 / (1 + rs)` evaluated operation by operation on a relative strength `rs`. */
  function RsiOfRs(rs: Ext): Ext {
    Sub(Num(100.0), Div(Num(100.0), Add(Num(1.0), rs)))
  }

  /** Defined averages with losses: RS is finite, and so is every step after it unless
      `1 + RS` is zero, where `100 / 0` is an infinity and the RSI its negation. */
  lemma RsiWithLosses(g: real, l: real)
    requires l != 0.0
    ensures RsiValue(g, l) == RsiOfRs(Div(Num(g), Num(l)))
  {
    var rs := Div(Num(g), Num(l));
    assert rs == Num(g / l);
    var denominator := Add(Num(1.0), rs);
    assert denominator == Num(1.0 + g / l);
    if 1.0 + g / l != 0.0 {
      assert Div(Num(100.0), denominator) == Num(100.0 / (1.0 + g / l));
    } else {
      assert Div(Num(100.0), denominator) == PosInf;
      assert Sub(Num(100.0), PosInf) == NegInf;
    }
  }

  /** Defined averages without losses: a gain (or a fall) makes RS infinite and `100 / inf`
      zero, so the RSI is 100; no change at all makes RS `0 / 0`, NaN. */
  lemma RsiWithoutLosses(g: real)
    ensures RsiValue(g, 0.0) == RsiOfRs(Div(Num(g), Num(0.0)))
  {
    var rs := Div(Num(g), Num(0.0));
    if g == 0.0 {
      assert rs == NaN;
    } else {
      assert rs == Signed(g > 0.0);
      assert Add(Num(1.0), rs) == rs;
      assert Div(Num(100.0), rs) == Num(0.0);
    }
  }

  /** An undefined average makes RS, and hence the RSI, NaN. */
  lemma RsiUndefined(avgGain: Ext, avgLoss: Ext)
    requires avgGain.NaN? || avgLoss.NaN?
    ensures RsiOfRs(Div(avgGain, avgLoss)) == NaN
  {
    assert Div(avgGain, avgLoss) == NaN;
  }

  /** The closed form is what pandas computes operation by operation on defined or NaN averages. */
  lemma RsiOfMeansIsPandas(avgGain: Ext, avgLoss: Ext)
    requires avgGain.Num? || avgGain.NaN?
    requires avgLoss.Num? || avgLoss.NaN?
    ensures RsiOfMeans(avgGain, avgLoss)
         == Sub(Num(100.0), Div(Num(100.0), Add(Num(1.0), Div(avgGain, avgLoss))))
  {
    if avgGain.NaN? || avgLoss.NaN? {
      RsiUndefined(avgGain, avgLoss);
    } else if avgLoss.v != 0.0 {
      RsiWithLosses(avgGain.v, avgLoss.v);
    } else {
      RsiWithoutLosses(avgGain.v);
    }
  }

  /** On non-negative averages: with losses, RSI = 100 - 100 / (1 + RS) lies in [0, 100);
      without losses it is 100 after any gain and undefined after none. */
  lemma RsiValueRange(avgGain: real, avgLoss: real)
    requires avgGain >= 0.0 && avgLoss >= 0.0
    ensures avgLoss > 0.0 ==>
      RsiValue(avgGain, avgLoss) == Num(100.0 - 100.0 / (1.0 + avgGain / avgLoss))
      && 0.0 <= RsiValue(avgGain, avgLoss).v < 100.0
    ensures avgLoss == 0.0 && avgGain > 0.0 ==> RsiValue(avgGain, avgLoss) == Num(100.0)
    ensures avgLoss == 0.0 && avgGain == 0.0 ==> RsiValue(avgGain, avgLoss) == NaN
  {
    if avgLoss > 0.0 {
      var rs := avgGain / avgLoss;
      assert rs >= 0.0;
      assert 1.0 + rs >= 1.0;
      assert 0.0 < 100.0 / (1.0 + rs) <= 100.0;
    }
  }

  /** Every gain and every loss is non-negative. */
  lemma GainsLossesNonNegative(prices: seq<real>)
    ensures forall i | 0 <= i < |prices| :: Gains(prices)[i] >= 0.0 && Losses(prices)[i] >= 0.0
  {
    forall i | 0 <= i < |prices| ensures Gains(prices)[i] >= 0.0 && Losses(prices)[i] >= 0.0 {
      GainLossSplit(prices, i);
    }
  }

  /** The mean of a window of non-negative values is non-negative. */
  lemma WindowMeanNonNegative(xs: seq<real>, w: nat, i: nat)
    requires 1 <= w && w - 1 <= i < |xs|
    requires forall j | 0 <= j < |xs| :: xs[j] >= 0.0
    ensures WindowMean(xs, w, i) >= 0.0
  {
    var window := xs[i + 1 - w..i + 1];
    assert forall j | 0 <= j < |window| :: window[j] == xs[i + 1 - w + j];
    SumNonNegative(window);
    var total := Sum(window);
    assert total >= 0.0 && (w as real) > 0.0;
    assert total / (w as real) >= 0.0;
  }

  /** The window averages of gains and of losses are never negative. */
  lemma WindowMeansNonNegative(prices: seq<real>, window: nat, i: nat)
    requires 1 <= window && window - 1 <= i < |prices|
    ensures WindowMean(Gains(prices), window, i) >= 0.0
    ensures WindowMean(Losses(prices), window, i) >= 0.0
  {
    GainsLossesNonNegative(prices);
    WindowMeanNonNegative(Gains(prices), window, i);
    WindowMeanNonNegative(Losses(prices), window, i);
  }

  /** `calculate_rsi(data, window)`: one entry per price; the first `window - 1` entries are
      undefined; each later entry is the closed form of that window's average gain and
      loss, which is a number in [0, 100] unless the window saw no change at all. */
  method CalculateRsi(prices: seq<real>, window: nat) returns (rsi: seq<Ext>)
    requires window >= 1
    ensures |rsi| == |prices|
    ensures forall i | 0 <= i < |prices| && i + 1 < window :: rsi[i] == NaN
    ensures forall i | window - 1 <= i < |prices| ::
      rsi[i] == RsiValue(WindowMean(Gains(prices), window, i), WindowMean(Losses(prices), window, i))
    ensures forall i | window - 1 <= i < |prices| ::
      (rsi[i].Num? && 0.0 <= rsi[i].v <= 100.0)
      || (rsi[i].NaN? && WindowMean(Gains(prices), window, i) == 0.0 && WindowMean(Losses(prices), window, i) == 0.0)
  {
    var gains := Gains(prices);
    var losses := Losses(prices);
    var avgGain := RollingMean(gains, window);
    var avgLoss := RollingMean(losses, window);
    rsi := seq(|prices|, i requires 0 <= i < |prices| => RsiOfMeans(avgGain[i], avgLoss[i]));
    forall i | window - 1 <= i < |prices|
      ensures (rsi[i].Num? && 0.0 <= rsi[i].v <= 100.0)
           || (rsi[i].NaN? && WindowMean(gains, window, i) == 0.0 && WindowMean(losses, window, i) == 0.0)
    {
      WindowMeansNonNegative(prices, window, i);
      RsiValueRange(WindowMean(gains, window, i), WindowMean(losses, window, i));
    }
  }

  /** One day of price history: its calendar year and closing price. */
  datatype PricePoint = PricePoint(year: int, close: real)

  /** Position of the last of the first `n` entries dated in `year`, if any. */
  function LastIndexOfYear(hist: seq<PricePoint>, year: int, n: nat): (r: Option<nat>)
    requires n <= |hist|
    ensures r.None? <==> forall k | 0 <= k < n :: hist[k].year != year
    ensures r.Some? ==> r.value < n && hist[r.value].year == year
    ensures r.Some? ==> forall j | r.value < j < n :: hist[j].year != year
  {
    if n == 0 then None
    else if hist[n - 1].year == year then Some(n - 1)
    else LastIndexOfYear(hist, year, n - 1)
  }

  /** The last close dated in `year`, if the history has one. */
  function LastCloseOfYear(hist: seq<PricePoint>, year: int): (r: Option<real>)
    ensures r.None? <==> forall k | 0 <= k < |hist| :: hist[k].year != year
    ensures r.Some? ==> exists k | 0 <= k < |hist| ::
      && hist[k].year == year && hist[k].close == r.value
      && forall j | k < j < |hist| :: hist[j].year != year
  {
    match LastIndexOfYear(hist, year, |hist|)
    case None => None
    case Some(k) => Some(hist[k].close)
  }

  /** The YTD reference: the previous year's last close, or the first close of the history
      when it has none from that year (a listing of the current year). */
  function ReferencePrice(hist: seq<PricePoint>, currentYear: int): (ref: real)
    requires |hist| > 0
    ensures (forall k | 0 <= k < |hist| :: hist[k].year != currentYear - 1) ==> ref == hist[0].close
    ensures (exists k | 0 <= k < |hist| :: hist[k].year == currentYear - 1) ==>
      exists k | 0 <= k < |hist| ::
        && hist[k].year == currentYear - 1 && hist[k].close == ref
        && forall j | k < j < |hist| :: hist[j].year != currentYear - 1
  {
    match LastCloseOfYear(hist, currentYear - 1)
    case Some(c) => c
    case None => hist[0].close
  }

  /** `calculate_ytd_performance`: 0 for an empty history or when either price is missing
      or zero; otherwise the percent change of the current price from the reference. */
  function YtdPerformance(hist: seq<PricePoint>, currentYear: int, currentPrice: Option<real>): (r: real)
    ensures |hist| == 0 ==> r == 0.0
    ensures |hist| > 0 && currentPrice.Some? && currentPrice.value != 0.0 && ReferencePrice(hist, currentYear) != 0.0 ==>
      var ref := ReferencePrice(hist, currentYear);
      r * ref == (currentPrice.value - ref) * 100.0
    ensures currentPrice.None? || currentPrice == Some(0.0) ==> r == 0.0
    ensures |hist| > 0 && ReferencePrice(hist, currentYear) == 0.0 ==> r == 0.0
  {
    if |hist| == 0 then 0.0
    else
      var ref := ReferencePrice(hist, currentYear);
      match currentPrice
      case Some(cur) =>
        if cur != 0.0 && ref != 0.0 then (cur - ref) / ref * 100.0 else 0.0
      case None => 0.0
  }

  /** Against a positive reference, YTD has the sign of the price change, and the reference
      grown by YTD percent gives back the current price. */
  lemma YtdSign(hist: seq<PricePoint>, currentYear: int, cur: real)
    requires |hist| > 0 && cur != 0.0 && ReferencePrice(hist, currentYear) > 0.0
    ensures var ref := ReferencePrice(hist, currentYear);
            var ytd := YtdPerformance(hist, currentYear, Some(cur));
            && (ytd > 0.0 <==> cur > ref)
            && (ytd < 0.0 <==> cur < ref)
            && ref * (1.0 + ytd / 100.0) == cur
  {
    var ref := ReferencePrice(hist, currentYear);
    var ytd := YtdPerformance(hist, currentYear, Some(cur));
    assert ytd == (cur - ref) / ref * 100.0;
    assert ytd / 100.0 == (cur - ref) / ref;
  }

  /** A listing of the current year (no close from the previous year) is measured from its
      first close. */
  lemma YtdNewListing(hist: seq<PricePoint>, currentYear: int, cur: real)
    requires |hist| > 0 && cur != 0.0 && hist[0].close != 0.0
    requires forall k | 0 <= k < |hist| :: hist[k].year != currentYear - 1
    ensures YtdPerformance(hist, currentYear, Some(cur)) * hist[0].close == (cur - hist[0].close) * 100.0
  {
  }

  /** Otherwise it is measured from the close of the last entry of the previous year. */
  lemma YtdFromPreviousYearClose(hist: seq<PricePoint>, currentYear: int, cur: real, k: nat)
    requires k < |hist| && hist[k].year == currentYear - 1
    requires forall j | k < j < |hist| :: hist[j].year != currentYear - 1
    requires cur != 0.0 && hist[k].close != 0.0
    ensures YtdPerformance(hist, currentYear, Some(cur)) * hist[k].close == (cur - hist[k].close) * 100.0
  {
  }

  /** Both references on concrete histories: a listing of the current year, and a
      history reaching back into the previous year. */
  lemma YtdExamples()
    ensures YtdPerformance([PricePoint(2025, 50.0), PricePoint(2025, 55.0)], 2025, Some(60.0)) == 20.0
    ensures YtdPerformance([PricePoint(2024, 40.0), PricePoint(2024, 50.0), PricePoint(2025, 55.0)], 2025, Some(60.0)) == 20.0
  {
    YtdNewListing([PricePoint(2025, 50.0), PricePoint(2025, 55.0)], 2025, 60.0);
    YtdFromPreviousYearClose([PricePoint(2024, 40.0), PricePoint(2024, 50.0), PricePoint(2025, 55.0)], 2025, 60.0, 1);
  }
}
