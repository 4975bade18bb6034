/** The profitability tab: net margin, return on equity and return on invested
    capital, as a point-in-time headline graded by colour and as a history over
    the periods both the income statement and the balance sheet report. */
module Profitability {

  import opened Wrappers
  import opened Floats
  import opened Statements

  /** The company profile: field name to value, where a field may be stored as `None`. */
  type Info = map<string, Option<real>>

  /** `safe_get`: the stored value when the key is present and not `None`, whatever
      that value is (zero included); the default otherwise. */
  function SafeGet(data: Info, key: string, default: real): (r: real)
    ensures key in data && data[key].Some? ==> r == data[key].value
    ensures key !in data || data[key].None? ==> r == default
  {
    if key in data then data[key].GetOr(default) else default
  }

  /** A stored zero is returned as zero even when the default differs: `safe_get`
      tests for `None`, not for falsiness. */
  lemma SafeGetKeepsZero(data: Info, key: string, default: real)
    requires key in data && data[key] == Some(0.0)
    ensures SafeGet(data, key, default) == 0.0
  {
  }

  datatype Signal = Green | Orange | Red

  /** The colour name and emoji shown beside a headline figure. */
  function Badge(s: Signal): (string, string) {
    match s
    case Green => ("green", "🔥")
    case Orange => ("orange", "👍")
    case Red => ("red", "⚠️")
  }

  function Grade(s: Signal): nat {
    match s
    case Red => 0
    case Orange => 1
    case Green => 2
  }

  /** `couleur_seuil(v, high, low)`: strict comparisons, so a value equal to a
      threshold falls into the lower band. */
  function CouleurSeuil(v: real, high: real, low: real): (s: Signal)
    ensures s == Green <==> v > high
    ensures s == Orange <==> low < v <= high
    ensures s == Red <==> v <= high && v <= low
  {
    if v > high then Green else if v > low then Orange else Red
  }

  /** A higher figure never gets a worse colour. */
  lemma CouleurSeuilMonotone(v: real, w: real, high: real, low: real)
    requires v <= w
    ensures Grade(CouleurSeuil(v, high, low)) <= Grade(CouleurSeuil(w, high, low))
  {
  }

  /** What `couleur_seuil` returns: the colour name and emoji of the band the value falls in. */
  lemma CouleurSeuilBadge(v: real, high: real, low: real)
    ensures Badge(CouleurSeuil(v, high, low)) == ("green", "🔥") <==> v > high
    ensures Badge(CouleurSeuil(v, high, low)) == ("orange", "👍") <==> low < v <= high
    ensures Badge(CouleurSeuil(v, high, low)) == ("red", "⚠️") <==> v <= high && v <= low
  {
  }

  /** Invested capital from the profile: debt plus book value per share times shares
      outstanding, minus cash; a missing debt or cash counts as 0, a missing book
      value or share count as 1. */
  function InvestedCapital(info: Info): (ic: real)
    ensures var debt := SafeGet(info, "totalDebt", 0.0);
            var cash := SafeGet(info, "totalCash", 0.0);
            ic + cash - debt == SafeGet(info, "bookValue", 1.0) * SafeGet(info, "sharesOutstanding", 1.0)
  {
    var totalDebt := SafeGet(info, "totalDebt", 0.0);
    var totalCash := SafeGet(info, "totalCash", 0.0);
    var equity := SafeGet(info, "bookValue", 1.0) * SafeGet(info, "sharesOutstanding", 1.0);
    totalDebt + equity - totalCash
  }

  /** Point-in-time ROIC, guarded: 0 unless invested capital is positive, in which case
      ROIC times invested capital gives back NOPAT; the sign is never flipped. */
  function PointRoic(currentNopat: real, info: Info): (roic: real)
    ensures InvestedCapital(info) <= 0.0 ==> roic == 0.0
    ensures InvestedCapital(info) > 0.0 ==> roic * InvestedCapital(info) == currentNopat
    ensures roic > 0.0 <==> InvestedCapital(info) > 0.0 && currentNopat > 0.0
    ensures roic < 0.0 <==> InvestedCapital(info) > 0.0 && currentNopat < 0.0
  {
    var ic := InvestedCapital(info);
    if ic > 0.0 then currentNopat / ic else 0.0
  }

  /** The three headline figures and their colours. */
  datatype Headline = Headline(netMargin: real, roe: real, roic: real,
                               marginSignal: Signal, roeSignal: Signal, roicSignal: Signal)

  /** The headline row: profile margin and ROE (missing counts as 0) and the guarded
      ROIC, graded against 25%/10%, 20%/10% and 10%/6% respectively. */
  function Headlines(info: Info, currentNopat: real): (h: Headline)
    ensures h.netMargin == SafeGet(info, "profitMargins", 0.0)
    ensures h.roe == SafeGet(info, "returnOnEquity", 0.0)
    ensures h.roic == PointRoic(currentNopat, info)
    ensures InvestedCapital(info) <= 0.0 ==> h.roic == 0.0 && h.roicSignal == Red
    ensures h.marginSignal == Green <==> h.netMargin > 0.25
    ensures h.marginSignal == Red <==> h.netMargin <= 0.10
    ensures h.roeSignal == Green <==> h.roe > 0.20
    ensures h.roeSignal == Red <==> h.roe <= 0.10
    ensures h.roicSignal == Green <==> h.roic > 0.10
    ensures h.roicSignal == Red <==> h.roic <= 0.06
  {
    var netMargin := SafeGet(info, "profitMargins", 0.0);
    var roe := SafeGet(info, "returnOnEquity", 0.0);
    var roic := PointRoic(currentNopat, info);
    Headline(netMargin, roe, roic,
             CouleurSeuil(netMargin, 0.25, 0.10), CouleurSeuil(roe, 0.20, 0.10), CouleurSeuil(roic, 0.10, 0.06))
  }

  const NetIncomeRow: seq<string> := ["Net Income"]
  const RevenueRow: seq<string> := ["Total Revenue"]
  const EquityRow: seq<string> := ["Stockholders Equity"]
  const EbitRows: seq<string> := ["EBIT", "Pretax Income"]
  const DebtRow: seq<string> := ["Total Debt"]
  const CashRow: seq<string> := ["Cash And Cash Equivalents"]

  /** The line items the history reads, over the shared periods. */
  datatype Rows = Rows(netIncome: seq<real>, revenue: seq<real>, equity: seq<real>,
                       ebit: seq<real>, debt: seq<real>, cash: seq<real>)

  /** Each line item resolved on the statements restricted to `cols`: it spans exactly
      those periods and reads, per period, the value the statement reports for it, or
      the fixed fill (net income 0, revenue 1, equity 1, EBIT then pretax income then 0,
      debt 0, cash 0). */
  function ResolveRows(fin: Table, bs: Table, cols: seq<Period>): (r: Rows)
    requires fin.Valid() && bs.Valid() && Distinct(cols)
    requires forall k | 0 <= k < |cols| :: cols[k] in fin.columns && cols[k] in bs.columns
    ensures |r.netIncome| == |r.revenue| == |r.equity| == |r.ebit| == |r.debt| == |r.cash| == |cols|
    ensures forall k | 0 <= k < |cols| ::
      && r.netIncome[k] == Lookup(fin, NetIncomeRow, 0.0, cols[k])
      && r.revenue[k] == Lookup(fin, RevenueRow, 1.0, cols[k])
      && r.equity[k] == Lookup(bs, EquityRow, 1.0, cols[k])
      && r.ebit[k] == Lookup(fin, EbitRows, 0.0, cols[k])
      && r.debt[k] == Lookup(bs, DebtRow, 0.0, cols[k])
      && r.cash[k] == Lookup(bs, CashRow, 0.0, cols[k])
  {
    var f := Select(fin, cols);
    var b := Select(bs, cols);
    GetRowSelect(fin, cols, NetIncomeRow, 0.0);
    GetRowSelect(fin, cols, RevenueRow, 1.0);
    GetRowSelect(bs, cols, EquityRow, 1.0);
    GetRowSelect(fin, cols, EbitRows, 0.0);
    GetRowSelect(bs, cols, DebtRow, 0.0);
    GetRowSelect(bs, cols, CashRow, 0.0);
    Rows(GetRow(f, NetIncomeRow, 0.0), GetRow(f, RevenueRow, 1.0), GetRow(b, EquityRow, 1.0),
         GetRow(f, EbitRows, 0.0), GetRow(b, DebtRow, 0.0), GetRow(b, CashRow, 0.0))
  }

  /** `nopat_history.reindex(periods, fill_value=0)` at one period. */
  function Reindexed(nopatHistory: map<Period, real>, p: Period): (v: real)
    ensures p in nopatHistory ==> v == nopatHistory[p]
    ensures p !in nopatHistory ==> v == 0.0
  {
    if p in nopatHistory then nopatHistory[p] else 0.0
  }

  /** The table shown in the history expander, most recent period first. */
  datatype History = History(periods: seq<Period>, margin: seq<Ext>, roe: seq<Ext>, roic: seq<Ext>,
                             improving: bool)

  /** Whether the history is shown, reported unavailable (a statement is empty), or
      lost to the exception handler (no shared period to read the trend from). */
  datatype HistoryOutcome = NotAvailable | Failed | Shown(history: History)

  /** The ratios of one period, read straight from the two statements by label:
      margin = net income / revenue, ROE = net income / equity, and
      ROIC = reindexed NOPAT / (debt + equity - cash). */
  ghost predicate RatiosAt(fin: Table, bs: Table, nopatHistory: map<Period, real>, p: Period,
                           margin: Ext, roe: Ext, roic: Ext)
  {
    && fin.Valid() && bs.Valid() && p in fin.columns && p in bs.columns
    && var netIncome := Lookup(fin, NetIncomeRow, 0.0, p);
       var equity := Lookup(bs, EquityRow, 1.0, p);
       var investedCapital := Lookup(bs, DebtRow, 0.0, p) + equity - Lookup(bs, CashRow, 0.0, p);
       && margin == Ratio(netIncome, Lookup(fin, RevenueRow, 1.0, p))
       && roe == Ratio(netIncome, equity)
       && roic == Ratio(Reindexed(nopatHistory, p), investedCapital)
  }

  /** The three ratios of the `k`-th shared period, computed from the resolved rows. */
  function RowRatios(rows: Rows, nopatHistory: map<Period, real>, p: Period, k: nat): (Ext, Ext, Ext)
    requires k < |rows.netIncome| && k < |rows.revenue| && k < |rows.equity| && k < |rows.debt| && k < |rows.cash|
  {
    (Ratio(rows.netIncome[k], rows.revenue[k]),
     Ratio(rows.netIncome[k], rows.equity[k]),
     Ratio(Reindexed(nopatHistory, p), rows.debt[k] + rows.equity[k] - rows.cash[k]))
  }

  /** The ratios computed from the resolved rows at position `k` are those the statements
      define for the `k`-th shared period. */
  lemma RowRatiosAt(fin: Table, bs: Table, nopatHistory: map<Period, real>, cols: seq<Period>, k: nat)
    requires fin.Valid() && bs.Valid() && Distinct(cols) && k < |cols|
    requires forall j | 0 <= j < |cols| :: cols[j] in fin.columns && cols[j] in bs.columns
    ensures var rows := ResolveRows(fin, bs, cols);
            var (m, e, r) := RowRatios(rows, nopatHistory, cols[k], k);
            RatiosAt(fin, bs, nopatHistory, cols[k], m, e, r)
  {
  }

  /** The three historical series over the given shared periods, computed period by
      period and without an invested-capital guard. */
  method HistoricalRatios(fin: Table, bs: Table, nopatHistory: map<Period, real>, cols: seq<Period>)
    returns (margin: seq<Ext>, roe: seq<Ext>, roic: seq<Ext>)
    requires fin.Valid() && bs.Valid() && Distinct(cols)
    requires forall k | 0 <= k < |cols| :: cols[k] in fin.columns && cols[k] in bs.columns
    ensures |margin| == |roe| == |roic| == |cols|
    ensures forall k | 0 <= k < |cols| :: RatiosAt(fin, bs, nopatHistory, cols[k], margin[k], roe[k], roic[k])
  {
    var rows := ResolveRows(fin, bs, cols);
    margin, roe, roic := [], [], [];
    var k := 0;
    while k < |cols|
      invariant 0 <= k <= |cols|
      invariant |margin| == |roe| == |roic| == k
      invariant forall j | 0 <= j < k :: RatiosAt(fin, bs, nopatHistory, cols[j], margin[j], roe[j], roic[j])
    {
      var (m, e, r) := RowRatios(rows, nopatHistory, cols[k], k);
      RowRatiosAt(fin, bs, nopatHistory, cols, k);
      margin, roe, roic := margin + [m], roe + [e], roic + [r];
      k := k + 1;
    }
  }

  /** The history table: the first `min(5, n)` periods, and whether the ROIC of the first
      kept period is strictly above that of the last. */
  function Capped(cols: seq<Period>, margin: seq<Ext>, roe: seq<Ext>, roic: seq<Ext>): (h: History)
    requires 0 < |cols| == |margin| == |roe| == |roic|
    ensures 1 <= |h.periods| <= 5 && h.periods == cols[..Min(5, |cols|)]
    ensures |h.margin| == |h.roe| == |h.roic| == |h.periods|
    ensures forall k | 0 <= k < |h.periods| :: h.margin[k] == margin[k] && h.roe[k] == roe[k] && h.roic[k] == roic[k]
    ensures h.improving <==> Gt(h.roic[0], h.roic[|h.roic| - 1])
  {
    var n := Min(5, |cols|);
    History(cols[..n], margin[..n], roe[..n], roic[..n], Gt(roic[0], roic[n - 1]))
  }

  /** What the history expander shows: the first (at most five) periods both statements
      report, in income-statement order, each with the ratios the statements define for it,
      and the trend, improving iff the first ROIC is strictly above the last. */
  ghost predicate ShowsHistory(fin: Table, bs: Table, nopatHistory: map<Period, real>, h: History) {
    && fin.Valid() && bs.Valid()
    && var shared := SharedPeriods(fin.columns, bs.columns);
       && 1 <= |h.periods| <= 5
       && h.periods == shared[..Min(5, |shared|)]
       && |h.margin| == |h.roe| == |h.roic| == |h.periods|
       && (forall k | 0 <= k < |h.periods| :: RatiosAt(fin, bs, nopatHistory, h.periods[k], h.margin[k], h.roe[k], h.roic[k]))
       && (h.improving <==> Gt(h.roic[0], h.roic[|h.roic| - 1]))
  }

  /** Capping the ratios of all shared periods gives the history the expander shows. */
  lemma CappedShowsHistory(fin: Table, bs: Table, nopatHistory: map<Period, real>, cols: seq<Period>,
                           margin: seq<Ext>, roe: seq<Ext>, roic: seq<Ext>)
    requires fin.Valid() && bs.Valid() && cols == SharedPeriods(fin.columns, bs.columns)
    requires 0 < |cols| == |margin| == |roe| == |roic|
    requires forall k | 0 <= k < |cols| :: RatiosAt(fin, bs, nopatHistory, cols[k], margin[k], roe[k], roic[k])
    ensures ShowsHistory(fin, bs, nopatHistory, Capped(cols, margin, roe, roic))
  {
    var h := Capped(cols, margin, roe, roic);
    forall k | 0 <= k < |h.periods|
      ensures RatiosAt(fin, bs, nopatHistory, h.periods[k], h.margin[k], h.roe[k], h.roic[k])
    {
      assert h.periods[k] == cols[k];
      assert h.margin[k] == margin[k] && h.roe[k] == roe[k] && h.roic[k] == roic[k];
    }
  }

  /** The history expander: reported unavailable when a statement is empty, lost to the
      exception handler when there is no shared period to read the trend from, and
      otherwise shown. */
  method ProfitabilityHistory(fin: Table, bs: Table, nopatHistory: map<Period, real>) returns (o: HistoryOutcome)
    requires fin.Valid() && bs.Valid()
    ensures o.NotAvailable? <==> fin.IsEmpty() || bs.IsEmpty()
    ensures o.Failed? <==> !fin.IsEmpty() && !bs.IsEmpty() && SharedPeriods(fin.columns, bs.columns) == []
    ensures o.Shown? ==> ShowsHistory(fin, bs, nopatHistory, o.history)
  {
    if fin.IsEmpty() || bs.IsEmpty() {
      return NotAvailable;
    }
    var cols := SharedPeriods(fin.columns, bs.columns);
    var margin, roe, roic := HistoricalRatios(fin, bs, nopatHistory, cols);
    if cols == [] {
      return Failed;
    }
    CappedShowsHistory(fin, bs, nopatHistory, cols, margin, roe, roic);
    o := Shown(Capped(cols, margin, roe, roic));
  }

  /** A period whose invested capital (debt + equity - cash) is zero while its reindexed
      NOPAT is positive shows an infinite historical ROIC: unlike the headline figure, the
      history has no guard. */
  lemma HistoryHasNoGuard(fin: Table, bs: Table, nopatHistory: map<Period, real>, p: Period,
                          margin: Ext, roe: Ext, roic: Ext)
    requires fin.Valid() && bs.Valid() && p in fin.columns && p in bs.columns
    requires RatiosAt(fin, bs, nopatHistory, p, margin, roe, roic)
    requires Lookup(bs, DebtRow, 0.0, p) + Lookup(bs, EquityRow, 1.0, p) - Lookup(bs, CashRow, 0.0, p) == 0.0
    requires Reindexed(nopatHistory, p) > 0.0
    ensures roic == PosInf
  {
  }
}
