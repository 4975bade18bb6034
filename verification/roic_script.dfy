/** The standalone ROIC script: NOPAT from EBIT and the effective tax rate, invested
    capital as total assets minus current liabilities, and ROIC over the annual
    periods both statements report (at most five) and over the first four quarters. */
module RoicScript {

  import opened Wrappers
  import opened Floats
  import opened Statements

  const EbitNames: seq<string> := ["EBIT", "Operating Income", "OperatingIncome"]
  const TaxNames: seq<string> := ["Income Tax Expense", "IncomeTaxExpense", "Provision for Income Taxes"]
  const PretaxNames: seq<string> := ["Income Before Tax", "Pre-Tax Income"]
  const AssetNames: seq<string> := ["Total Assets", "Assets"]
  const LiabilityNames: seq<string> := ["Current Liabilities"]

  /** Effective tax rate of a period: tax over pretax income, with fills 0 and 1 and no clamping. */
  function TaxRateAt(fin: Table, p: Period): Ext
    requires fin.Valid() && p in fin.columns
  {
    Ratio(Lookup(fin, TaxNames, 0.0, p), Lookup(fin, PretaxNames, 1.0, p))
  }

  /** `ebit * (1 - tax / pretax)` on float64 values: finite whenever pretax income is
      nonzero; otherwise an infinite rate makes NOPAT an infinity (of the sign opposite
      to tax times EBIT), and NaN when EBIT or the tax is zero. */
  function NopatOf(ebit: real, tax: real, pretax: real): Ext {
    if pretax != 0.0 then Num(ebit * (1.0 - tax / pretax))
    else if tax == 0.0 || ebit == 0.0 then NaN
    else Signed((ebit > 0.0) == (tax < 0.0))
  }

  /** The closed form is what pandas computes operation by operation. */
  lemma NopatOfIsPandas(ebit: real, tax: real, pretax: real)
    ensures NopatOf(ebit, tax, pretax) == Mul(Num(ebit), Sub(Num(1.0), Div(Num(tax), Num(pretax))))
  {
  }

  /** NOPAT of a period: EBIT (fill 0) times one minus the effective tax rate. */
  function NopatAt(fin: Table, p: Period): Ext
    requires fin.Valid() && p in fin.columns
  {
    NopatOf(Lookup(fin, EbitNames, 0.0, p), Lookup(fin, TaxNames, 0.0, p), Lookup(fin, PretaxNames, 1.0, p))
  }

  /** Invested capital of a period: total assets (fill 1) minus current liabilities (fill 0). */
  function InvestedCapitalAt(bs: Table, p: Period): real
    requires bs.Valid() && p in bs.columns
  {
    Lookup(bs, AssetNames, 1.0, p) - Lookup(bs, LiabilityNames, 0.0, p)
  }

  /** ROIC of a period, with no guard on the invested capital. */
  function RoicAt(fin: Table, bs: Table, p: Period): Ext
    requires fin.Valid() && bs.Valid() && p in fin.columns && p in bs.columns
  {
    Div(NopatAt(fin, p), Num(InvestedCapitalAt(bs, p)))
  }

  /** With a nonzero pretax income, NOPAT is the finite EBIT x (1 - tax / pretax), whatever
      the rate comes to: a negative rate or one above 100% passes through unclamped. */
  lemma NopatClosedForm(fin: Table, p: Period)
    requires fin.Valid() && p in fin.columns
    requires Lookup(fin, PretaxNames, 1.0, p) != 0.0
    ensures NopatAt(fin, p) == Num(Lookup(fin, EbitNames, 0.0, p) *
                                   (1.0 - Lookup(fin, TaxNames, 0.0, p) / Lookup(fin, PretaxNames, 1.0, p)))
  {
  }

  /** Without a tax row the rate is 0 and NOPAT is EBIT itself (given a nonzero pretax income). */
  lemma NopatWithoutTaxRow(fin: Table, p: Period)
    requires fin.Valid() && p in fin.columns
    requires forall i | 0 <= i < |TaxNames| :: TaxNames[i] !in fin.rows
    requires Lookup(fin, PretaxNames, 1.0, p) != 0.0
    ensures NopatAt(fin, p) == Num(Lookup(fin, EbitNames, 0.0, p))
  {
    LookupAbsent(fin, TaxNames, 0.0, p);
    NopatClosedForm(fin, p);
    var ebit, pretax := Lookup(fin, EbitNames, 0.0, p), Lookup(fin, PretaxNames, 1.0, p);
    assert 0.0 / pretax == 0.0;
    assert ebit * (1.0 - 0.0 / pretax) == ebit;
  }

  /** Without a pretax row the tax amount itself is used as the rate (it is divided by the fill 1). */
  lemma TaxRateWithoutPretaxRow(fin: Table, p: Period)
    requires fin.Valid() && p in fin.columns
    requires forall i | 0 <= i < |PretaxNames| :: PretaxNames[i] !in fin.rows
    ensures TaxRateAt(fin, p) == Num(Lookup(fin, TaxNames, 0.0, p))
  {
    LookupAbsent(fin, PretaxNames, 1.0, p);
  }

  /** With finite NOPAT and nonzero invested capital, ROIC times invested capital is NOPAT. */
  lemma RoicClosedForm(fin: Table, bs: Table, p: Period)
    requires fin.Valid() && bs.Valid() && p in fin.columns && p in bs.columns
    requires Lookup(fin, PretaxNames, 1.0, p) != 0.0 && InvestedCapitalAt(bs, p) != 0.0
    ensures RoicAt(fin, bs, p).IsFinite() && NopatAt(fin, p).IsFinite()
    ensures RoicAt(fin, bs, p).v * InvestedCapitalAt(bs, p) == NopatAt(fin, p).v
  {
  }

  /** The vectorised ROIC of two statements over the same columns: at every column it
      is the per-period ROIC of that column's label. */
  function RoicSeries(fin: Table, bs: Table): (roic: seq<Ext>)
    requires fin.Valid() && bs.Valid() && fin.columns == bs.columns
    ensures |roic| == |fin.columns|
    ensures forall k | 0 <= k < |fin.columns| :: roic[k] == RoicAt(fin, bs, fin.columns[k])
  {
    var ebit := GetRow(fin, EbitNames, 0.0);
    var tax := GetRow(fin, TaxNames, 0.0);
    var pretax := GetRow(fin, PretaxNames, 1.0);
    var assets := GetRow(bs, AssetNames, 1.0);
    var liabilities := GetRow(bs, LiabilityNames, 0.0);
    GetRowAt(fin, EbitNames, 0.0);
    GetRowAt(fin, TaxNames, 0.0);
    GetRowAt(fin, PretaxNames, 1.0);
    GetRowAt(bs, AssetNames, 1.0);
    GetRowAt(bs, LiabilityNames, 0.0);
    seq(|fin.columns|, k requires 0 <= k < |fin.columns| =>
      Div(NopatOf(ebit[k], tax[k], pretax[k]), Num(assets[k] - liabilities[k])))
  }

  datatype AnnualReport = AnnualNotAvailable | AnnualShown(periods: seq<Period>, roic: seq<Ext>, improving: bool)

  datatype QuarterlyReport = QuarterlyNotAvailable | QuarterlyShown(periods: seq<Period>, roic: seq<Ext>)

  /** What the script prints: the annual section's report or the exception it raises, and
      the quarterly section's, or `None` when an earlier exception skipped it. */
  datatype Run = Run(annual: Result<AnnualReport, string>, quarterly: Option<Result<QuarterlyReport, string>>)

  /** ROIC over the first `min(limit, n)` of the given common periods, read per period
      from the full statements. */
  function WindowRoic(fin: Table, bs: Table, cols: seq<Period>, limit: nat): (roic: seq<Ext>)
    requires fin.Valid() && bs.Valid() && Distinct(cols)
    requires forall k | 0 <= k < |cols| :: cols[k] in fin.columns && cols[k] in bs.columns
    ensures |roic| == Min(limit, |cols|)
    ensures forall k | 0 <= k < |roic| :: roic[k] == RoicAt(fin, bs, cols[k])
  {
    var series := RoicSeries(Select(fin, cols), Select(bs, cols));
    var n := Min(limit, |cols|);
    assert forall k | 0 <= k < n :: series[k] == RoicAt(fin, bs, cols[k]) by {
      forall k | 0 <= k < n ensures series[k] == RoicAt(fin, bs, cols[k]) {
        SelectKeepsRoic(fin, bs, cols, cols[k]);
      }
    }
    series[..n]
  }

  /** The annual section: unavailable when a statement is empty; otherwise ROIC over the
      shared periods capped to the first five, improving iff the first value is strictly
      above the last; an `IndexError` when no period is shared. */
  function AnnualSection(fin: Table, bs: Table): (r: Result<AnnualReport, string>)
    requires fin.Valid() && bs.Valid()
    ensures r == Success(AnnualNotAvailable) <==> fin.IsEmpty() || bs.IsEmpty()
    ensures r.Failure? <==> !fin.IsEmpty() && !bs.IsEmpty() && SharedPeriods(fin.columns, bs.columns) == []
    ensures r.Failure? ==> r.error == "IndexError"
    ensures r.Success? && r.value.AnnualShown? ==>
      var a := r.value;
      var shared := SharedPeriods(fin.columns, bs.columns);
      && 1 <= |a.periods| <= 5
      && a.periods == shared[..Min(5, |shared|)]
      && |a.roic| == |a.periods|
      && (forall k | 0 <= k < |a.periods| ::
            a.periods[k] in fin.columns && a.periods[k] in bs.columns && a.roic[k] == RoicAt(fin, bs, a.periods[k]))
      && (a.improving <==> Gt(a.roic[0], a.roic[|a.roic| - 1]))
  {
    if fin.IsEmpty() || bs.IsEmpty() then Success(AnnualNotAvailable)
    else
      var cols := SharedPeriods(fin.columns, bs.columns);
      if cols == [] then Failure("IndexError")
      else
        var roic := WindowRoic(fin, bs, cols, 5);
        Success(AnnualShown(cols[..|roic|], roic, Gt(roic[0], roic[|roic| - 1])))
  }

  /** Every period of `cols` is a column of `t` (otherwise `t[cols]` raises `KeyError`). */
  predicate Covers(t: Table, cols: seq<Period>) {
    forall k | 0 <= k < |cols| :: cols[k] in t.columns
  }

  /** The quarterly section: unavailable when a quarterly statement is empty; otherwise ROIC
      over the first four income-statement quarters; a `KeyError` when the balance sheet
      lacks one of them, and a `NameError` when `get_row` was never defined. */
  function QuarterlySection(qfin: Table, qbs: Table, getRowDefined: bool): (r: Result<QuarterlyReport, string>)
    requires qfin.Valid() && qbs.Valid()
    ensures r == Success(QuarterlyNotAvailable) <==> qfin.IsEmpty() || qbs.IsEmpty()
    ensures r.Failure? <==>
      !qfin.IsEmpty() && !qbs.IsEmpty() && (!Covers(qbs, qfin.columns[..Min(4, |qfin.columns|)]) || !getRowDefined)
    ensures r.Failure? ==> r.error == if Covers(qbs, qfin.columns[..Min(4, |qfin.columns|)]) then "NameError" else "KeyError"
    ensures r.Success? && r.value.QuarterlyShown? ==>
      var q := r.value;
      && 1 <= |q.periods| <= 4
      && q.periods == qfin.columns[..Min(4, |qfin.columns|)]
      && |q.roic| == |q.periods|
      && (forall k | 0 <= k < |q.periods| ::
            q.periods[k] in qbs.columns && q.roic[k] == RoicAt(qfin, qbs, q.periods[k]))
  {
    if qfin.IsEmpty() || qbs.IsEmpty() then Success(QuarterlyNotAvailable)
    else
      var window := qfin.columns[..Min(4, |qfin.columns|)];
      if !Covers(qbs, window) then Failure("KeyError")
      else if !getRowDefined then Failure("NameError")
      else Success(QuarterlyShown(window, WindowRoic(qfin, qbs, window, 4)))
  }

  /** The script as written: one `try` around both sections, and `get_row` defined inside
      the annual branch. The quarterly section runs only when the annual one raised nothing,
      and it can call `get_row` only when the annual branch was entered. */
  function Script(fin: Table, bs: Table, qfin: Table, qbs: Table): (run: Run)
    requires fin.Valid() && bs.Valid() && qfin.Valid() && qbs.Valid()
    ensures run.annual == AnnualSection(fin, bs)
    ensures run.quarterly.None? <==> run.annual.Failure?
    ensures run.quarterly.Some? ==> run.quarterly.value == QuarterlySection(qfin, qbs, !fin.IsEmpty() && !bs.IsEmpty())
  {
    var annual := AnnualSection(fin, bs);
    if annual.Failure? then Run(annual, None)
    else Run(annual, Some(QuarterlySection(qfin, qbs, !fin.IsEmpty() && !bs.IsEmpty())))
  }

  /** The script as evidently intended: the quarterly section always runs, with `get_row`
      available, so its report depends on the quarterly statements alone. */
  function ScriptIntended(fin: Table, bs: Table, qfin: Table, qbs: Table): (run: Run)
    requires fin.Valid() && bs.Valid() && qfin.Valid() && qbs.Valid()
    ensures run.annual == AnnualSection(fin, bs)
    ensures run.quarterly.Some?
    ensures run.quarterly.value.Failure? <==>
      !qfin.IsEmpty() && !qbs.IsEmpty() && !Covers(qbs, qfin.columns[..Min(4, |qfin.columns|)])
  {
    Run(AnnualSection(fin, bs), Some(QuarterlySection(qfin, qbs, true)))
  }

  /** In the intended script the quarterly report does not depend on the annual statements. */
  lemma QuarterlyIndependentOfAnnual(fin: Table, bs: Table, fin': Table, bs': Table, qfin: Table, qbs: Table)
    requires fin.Valid() && bs.Valid() && fin'.Valid() && bs'.Valid() && qfin.Valid() && qbs.Valid()
    ensures ScriptIntended(fin, bs, qfin, qbs).quarterly == ScriptIntended(fin', bs', qfin, qbs).quarterly
  {
  }

  /** With no annual statements but a usable quarter, the script as written loses the
      quarterly section to a `NameError`, where the intended script reports it. */
  lemma QuarterlyLostWithoutAnnual()
    ensures var none := Table([], map[]);
            var qfin := Table([1], map["EBIT" := [5.0]]);
            var qbs := Table([1], map["Total Assets" := [10.0]]);
            && Script(none, none, qfin, qbs).quarterly == Some(Failure("NameError"))
            && ScriptIntended(none, none, qfin, qbs).quarterly.value.Success?
  {
    var none := Table([], map[]);
    var qfin := Table([1], map["EBIT" := [5.0]]);
    var qbs := Table([1], map["Total Assets" := [10.0]]);
    assert qfin.columns[..Min(4, |qfin.columns|)] == [1];
  }

  /** A period's EBIT of 100 taxed at 25% leaves a NOPAT of exactly 75. */
  lemma NopatExample()
    ensures NopatOf(100.0, 25.0, 100.0) == Num(75.0)
  {
  }

  /** Restricting both statements to common labels leaves each period's ROIC unchanged. */
  lemma SelectKeepsRoic(fin: Table, bs: Table, cols: seq<Period>, p: Period)
    requires fin.Valid() && bs.Valid() && Distinct(cols) && p in cols
    requires forall k | 0 <= k < |cols| :: cols[k] in fin.columns && cols[k] in bs.columns
    ensures RoicAt(Select(fin, cols), Select(bs, cols), p) == RoicAt(fin, bs, p)
  {
    LookupSelect(fin, cols, EbitNames, 0.0, p);
    LookupSelect(fin, cols, TaxNames, 0.0, p);
    LookupSelect(fin, cols, PretaxNames, 1.0, p);
    LookupSelect(bs, cols, AssetNames, 1.0, p);
    LookupSelect(bs, cols, LiabilityNames, 0.0, p);
  }
}
