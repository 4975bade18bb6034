# Financial dashboard indicators: a Dafny model

This project models the derivation layer of a stock-analysis dashboard, which turns fetched statements, price histories and profile fields into the figures the dashboard shows:

- **Gauge tier.** A value is graded good, mid or bad against a threshold pair, in the direction the metric's mode names (`higher_is_better`, `lower_is_better`, `range_optimal`). An unknown mode is an error.
- **Profitability tab.** The headline figures come from the company profile: net margin, ROE, and ROIC guarded against a non-positive invested capital. Each is coloured against strict thresholds. The five-year history divides the statements' line items period by period, over the periods both statements report.
- **Standalone ROIC script.**
  - It uses the prioritised line-item resolver `get_row`.
  - NOPAT is EBIT × (1 − tax / pretax income), and invested capital is total assets minus current liabilities.
  - It prints ROIC over the first five shared annual periods and over the first four quarters.
- **Momentum.** The RSI comes from a rolling mean of gains and losses. Year-to-date performance is measured from the previous year's last close.
- **Display labels.** A currency symbol and a French sector name, each looked up in a fixed table with fallbacks.

Modules:

- `Wrappers`: `Option` and `Result`.
- `Floats`: pandas float64 values with infinities and NaN made explicit, and IEEE `+ - * /` and `>` on them.
- `Statements`: statement tables keyed by period label and line-item name. It holds `df[cols]`, the period intersection, `get_row`, and a per-label reference lookup that `get_row` is proved against.
- `Gauge`, `Profitability`, `RoicScript`, `Momentum`, `Labels`: one module per source file of the core.

Finite values are exact `real`s. A pandas division is modelled operation by operation (see `Floats.Div`). Every closed form the model uses is proved equal to that operation-by-operation composition.

## Model

| member | source | states |
|---|---|---|
| Gauge.ParseMode | utils/Graphiques.py:33-58 | exactly the three mode strings are recognised, each as its own mode |
| Gauge.Classify | utils/Graphiques.py:33-55 | higher-is-better: bad iff v < t0, mid iff t0 ≤ v < t1, good iff v ≥ t0 and v ≥ t1. Lower-is-better swaps good and bad. Range-optimal: good iff t0 ≤ v ≤ t1, bad otherwise |
| Gauge.ClassifyFloat | utils/Graphiques.py:33-55 | a finite value gets its Classify tier; NaN fails every comparison and gets good, bad and mid in the three modes; +inf is good only when higher is better, −inf only when lower is better |
| Gauge.RangeOptimalMidIffNaN | utils/Graphiques.py:49-55 | the range-optimal mid tier is reached exactly by a NaN value |
| Gauge.GaugeColour | utils/Graphiques.py:26-58 | fails with "metric_mode inconnu" iff the mode is none of the three; otherwise returns the colour of the float value's tier, which is always a palette entry |
| Gauge.ColourInjective | utils/Graphiques.py:26-30 | the three tiers have pairwise distinct colours |
| Gauge.LowerMirrorsHigher | utils/Graphiques.py:33-47 | lower-is-better is higher-is-better with good and bad swapped and mid kept |
| Gauge.RangeOptimalNeverMid | utils/Graphiques.py:49-55 | the range-optimal mid branch is unreachable for a real value |
| Gauge.ClassifyMonotone | utils/Graphiques.py:33-47 | raising the value never lowers the higher-is-better tier and never raises the lower-is-better tier |
| Gauge.ClassifyExamples | utils/Graphiques.py:33-58 | 12% against [5%, 10%] is good (green), 7% is mid, 30 against [20, 35] lower-is-better is mid, and a misspelt mode is an error |
| Profitability.SafeGet | utils/Analyse_Financiere.py:17-20 | the stored value when the key is present and not None, the default otherwise |
| Profitability.SafeGetKeepsZero | utils/Analyse_Financiere.py:17-20 | a stored 0 comes back as 0, whatever the default |
| Profitability.CouleurSeuil | utils/Analyse_Financiere.py:22-26 | green iff v > high, orange iff low < v ≤ high, red iff v ≤ high and v ≤ low |
| Profitability.CouleurSeuilBadge | utils/Analyse_Financiere.py:22-26 | the returned pair is ("green", 🔥) iff v > high, ("orange", 👍) iff low < v ≤ high, ("red", ⚠️) iff v ≤ high and v ≤ low |
| Profitability.CouleurSeuilMonotone | utils/Analyse_Financiere.py:22-26 | a higher value never gets a worse colour |
| Profitability.InvestedCapital | utils/Analyse_Financiere.py:44-47 | invested capital + cash − debt = bookValue × sharesOutstanding, with defaults 0, 0, 1, 1 |
| Profitability.PointRoic | utils/Analyse_Financiere.py:48 | 0 when invested capital ≤ 0; otherwise ROIC × invested capital = NOPAT; ROIC is positive (negative) iff capital is positive and NOPAT is positive (negative) |
| Profitability.Headlines | utils/Analyse_Financiere.py:38-72 | margin and ROE are the profile fields with 0 for missing; ROIC is exactly the guarded point ROIC (0 and red when invested capital ≤ 0); the colour bands are 25%/10%, 20%/10% and 10%/6% with strict upper comparisons |
| Profitability.ResolveRows | utils/Analyse_Financiere.py:85-98 | each of the six line items spans exactly the shared periods and holds, per period label, the statement's value or the fixed fill (NI 0, revenue 1, equity 1, EBIT then pretax income then 0, debt 0, cash 0) |
| Profitability.Reindexed | utils/Analyse_Financiere.py:112 | the NOPAT of a period present in the history, 0 for an absent one |
| Profitability.RowRatiosAt | utils/Analyse_Financiere.py:103-113 | the three ratios computed from the resolved rows at a position are those the statements define for that period's label |
| Profitability.HistoricalRatios | utils/Analyse_Financiere.py:103-113 | per shared period: margin = NI / revenue, ROE = NI / equity, ROIC = reindexed NOPAT / (debt + equity − cash), as IEEE divisions read by label |
| Profitability.Capped | utils/Analyse_Financiere.py:127-148 | keeps the first min(5, n) periods and their ratios; improving iff the first ROIC is strictly above the last (false on NaN) |
| Profitability.CappedShowsHistory | utils/Analyse_Financiere.py:117-148 | capping the ratios of all shared periods shows the first ≤ 5 shared periods, each with the ratios the statements define for its label, and the first-vs-last ROIC trend |
| Profitability.ProfitabilityHistory | utils/Analyse_Financiere.py:83-154 | unavailable iff a statement is empty; lost to the handler iff none of the periods is shared; otherwise the shown history: the first ≤ 5 shared periods in income-statement order, the ratios of each read by label, and improving iff the first ROIC is strictly above the last |
| Profitability.HistoryHasNoGuard | utils/Analyse_Financiere.py:110-113 | in the history, a period whose debt + equity − cash is 0 and whose reindexed NOPAT is positive has ROIC +inf |
| Floats.Ratio | utils/Analyse_Financiere.py:103-113 | with a nonzero divisor the ratio is finite and ratio × divisor = dividend; with a zero divisor it is +inf, −inf or NaN as the dividend is positive, negative or zero |
| Floats.RatioIsDiv | utils/Analyse_Financiere.py:103-113 | the closed-form ratio is IEEE division of two finite values |
| Statements.SharedPeriods | test_dashboard.py:13 | p is kept iff it is in both column lists; no duplicates; income-statement order is preserved |
| Statements.Select | test_dashboard.py:14-15 | the restricted table has exactly the given columns and the same line items, and reads the same value at every kept label |
| Statements.Fill | test_dashboard.py:21 | n copies of the fill value |
| Statements.GetRow | test_dashboard.py:17-21 | the row of the first listed name the table holds, unchanged; else the fill series over the table's columns |
| Statements.GetRowAt | test_dashboard.py:17-21 | the resolved row read at each column equals the per-label reference lookup |
| Statements.LookupSelect | test_dashboard.py:14-20 | restricting the columns does not change any resolved value |
| Statements.GetRowSelect | test_dashboard.py:13-21 | `get_row` after `df[cols]` reads the original table's value (or the fill) at each kept label |
| Statements.LookupAbsent | test_dashboard.py:18-21 | when none of the names is held, the resolved value is the fill |
| RoicScript.NopatOfIsPandas | test_dashboard.py:26-27 | the closed-form NOPAT equals EBIT × (1 − tax / pretax) evaluated operation by operation |
| RoicScript.NopatClosedForm | test_dashboard.py:24-27 | with a nonzero pretax income, NOPAT is the finite EBIT × (1 − tax / pretax), with no clamping of the rate |
| RoicScript.NopatWithoutTaxRow | test_dashboard.py:24-27 | without a tax row and with a nonzero pretax income, NOPAT is EBIT |
| RoicScript.TaxRateWithoutPretaxRow | test_dashboard.py:25-26 | without a pretax row, the tax amount itself is the rate |
| RoicScript.RoicClosedForm | test_dashboard.py:30-34 | with finite NOPAT and nonzero invested capital, ROIC × (assets − liabilities) = NOPAT |
| RoicScript.RoicSeries | test_dashboard.py:24-34 | the elementwise series holds, at each column, the ROIC of that column's label |
| RoicScript.SelectKeepsRoic | test_dashboard.py:13-34 | restricting both statements to common labels leaves every period's ROIC unchanged |
| RoicScript.WindowRoic | test_dashboard.py:43 | ROIC of the first min(limit, n) periods, each read by label from the full statements |
| RoicScript.AnnualSection | test_dashboard.py:12-58 | unavailable iff a statement is empty; IndexError iff no period is shared; otherwise the first ≤ 5 shared periods, their ROIC, improving iff first > last |
| RoicScript.QuarterlySection | test_dashboard.py:64-90 | unavailable iff a quarterly statement is empty; KeyError when the balance sheet lacks one of the first four quarters; NameError when `get_row` is undefined; otherwise ROIC of those quarters |
| RoicScript.Script | test_dashboard.py:7-93 | the annual report as computed; the quarterly section is skipped iff the annual one raised, and runs with `get_row` defined only when the annual branch was entered |
| RoicScript.ScriptIntended | test_dashboard.py:60-90 | the quarterly section always runs and fails only on a missing quarter |
| RoicScript.QuarterlyIndependentOfAnnual | test_dashboard.py:60-90 | in the intended script the quarterly report does not depend on the annual statements |
| RoicScript.QuarterlyLostWithoutAnnual | test_dashboard.py:12-69 | with empty annual statements and a usable quarter, the script as written raises NameError where the intended one reports ROIC |
| RoicScript.NopatExample | test_dashboard.py:24-27 | EBIT 100, tax 25, pretax 100 gives NOPAT 75 |
| Momentum.Gains | utils/Indicateurs.py:22-26 | one entry per price, each the rise at that index or 0 |
| Momentum.Losses | utils/Indicateurs.py:22-28 | one entry per price, each the fall at that index as a positive amount or 0 |
| Momentum.GainLossSplit | utils/Indicateurs.py:22-28 | gain and loss are ≥ 0 and never both positive; both are 0 at index 0; gain − loss is the price change |
| Momentum.WindowSums | utils/Indicateurs.py:32-33 | each running-total entry is the sum of the last (at most) w values |
| Momentum.RollingMean | utils/Indicateurs.py:32-33 | the first w − 1 entries are NaN, each later one is the mean of the last w values |
| Momentum.WindowMeansNonNegative | utils/Indicateurs.py:26-33 | the rolling averages of gains and of losses are ≥ 0 |
| Momentum.RsiWithLosses | utils/Indicateurs.py:36-39 | with a nonzero average loss, the closed-form RSI equals the step-by-step IEEE evaluation, including −inf when 1 + RS is 0 |
| Momentum.RsiWithoutLosses | utils/Indicateurs.py:36-39 | with a zero average loss, the step-by-step evaluation gives 100 after any change and NaN after none, as the closed form does |
| Momentum.RsiUndefined | utils/Indicateurs.py:36-39 | an undefined average gives an undefined RSI |
| Momentum.RsiOfMeansIsPandas | utils/Indicateurs.py:36-39 | the closed-form RSI equals 100 − 100 / (1 + gain / loss) evaluated operation by operation, NaN in NaN out |
| Momentum.RsiValueRange | utils/Indicateurs.py:36-39 | with avg loss > 0, RSI = 100 − 100/(1 + RS) in [0, 100); with avg loss 0, 100 after a gain, NaN after none |
| Momentum.CalculateRsi | utils/Indicateurs.py:20-41 | same length as the prices; NaN before index w − 1; afterwards the RSI of that window's averages, a number in [0, 100] unless the window saw no change |
| Momentum.LastCloseOfYear | utils/Indicateurs.py:71-79 | None iff no entry is from that year; otherwise the close of the last entry from that year |
| Momentum.ReferencePrice | utils/Indicateurs.py:69-79 | the last previous-year close if any previous-year entry exists, else the first close |
| Momentum.YtdPerformance | utils/Indicateurs.py:66-86 | 0 for an empty history or a missing or zero price; otherwise YTD × ref = (cur − ref) × 100 |
| Momentum.YtdSign | utils/Indicateurs.py:82-84 | with ref > 0 and a nonzero current price, YTD is positive (negative) iff cur is above (below) ref, and ref × (1 + YTD/100) = cur |
| Momentum.YtdNewListing | utils/Indicateurs.py:73-84 | with no previous-year entry and nonzero prices, YTD × first close = (cur − first close) × 100 |
| Momentum.YtdFromPreviousYearClose | utils/Indicateurs.py:77-84 | when entry k is the last previous-year entry and prices are nonzero, YTD × close_k = (cur − close_k) × 100 |
| Momentum.YtdExamples | utils/Indicateurs.py:73-84 | on two concrete histories, a listing of the current year and one reaching into the previous year, YTD is 20% |
| Labels.CurrencySymbol | utils/Fonctions_Autre.py:17-31 | "AUD" for a missing or empty code, the listed symbol for a listed code, any other code unchanged |
| Labels.CurrencyTable | utils/Fonctions_Autre.py:21-31 | the seven listed codes give their symbols, CHF as itself; AUD and SEK are examples of unlisted codes passed through (the general rule is CurrencySymbol's) |
| Labels.CurrencySymbolIdempotent | utils/Fonctions_Autre.py:17-31 | looking up a returned symbol gives it back |
| Labels.TranslateSector | utils/Fonctions_Autre.py:36-54 | "Non défini" for a missing, empty or "Indéfini" sector, the French name of a listed sector, any other name unchanged |
| Labels.TranslateSectorIdempotent | utils/Fonctions_Autre.py:36-54 | translating a translation gives it back |

## Left out

- Rendering is not modelled: the plotly gauge figure (utils/Graphiques.py:60-84), the Streamlit widgets and styler gradient, percentage formatting, and the `strftime` relabelling of columns. The gauge's `title`, `min_val`, `max_val` and `suffix` only feed the figure.
- Data fetching and the clock are parameters. The statements, price history and profile come from the data provider. The current year from `datetime.date.today()` is the `currentYear` argument.
- `calculate_nopat` is not part of this model. Its `(current_nopat, nopat_history)` result is an input: a real and a map from period to real.
- Fetched data is finite. Statement cells and prices are `real`s; a NaN or infinity inside fetched data is not modelled. Only the NaNs and infinities the computation itself produces are.
- Float rounding and negative zero are not modelled. Finite arithmetic is exact.
- Statement columns are assumed distinct (`Table.Valid`), as the provider's report dates are; a table with duplicate period labels is left out.
- Periods are integer ordinals; which calendar year a period belongs to, for the column names, is not modelled.
- Gauge.Classify: the value is a finite real. A NaN or infinite value is covered by `Gauge.ClassifyFloat`, which `GaugeColour` uses: NaN is good, bad or mid according to the mode. The thresholds are finite reals; a NaN threshold is not modelled. Thresholds are a pair `(low, high)`. A thresholds list with fewer than two entries, which may raise `IndexError` in the source when the first comparison does not settle the tier, is not modelled.
- Momentum.CalculateRsi: requires a window of at least 1. A window of 0 or below, which pandas rejects or degenerates on, is not modelled.
- Momentum.YtdPerformance: the catch-all `except` returning 0.0 (utils/Indicateurs.py:88-90) only covers fetching failures, which are outside the model.
- Profitability.ProfitabilityHistory: of the exceptions the catch-all `except` (utils/Analyse_Financiere.py:153-154) can catch, only the `IndexError` from an empty shared-period list is modelled. The others come from the provider or from `calculate_nopat`.
- RoicScript.Script: of the exceptions the catch-all `except` (test_dashboard.py:92-93) can catch, only `IndexError`, `KeyError` and `NameError` are modelled. Printing and formatting are left out.
- Profitability.ResolveRows: the EBIT series (utils/Analyse_Financiere.py:96) is resolved as the source does, but the source never uses it afterwards.
- Labels: inputs are missing or string values. Python's falsiness of non-string values, such as `0`, is not modelled.

## Findings

| source | as written | input that shows it | evidently intended | confidence | as-written member | corrected member |
|---|---|---|---|---|---|---|
| test_dashboard.py:12-69 | `get_row` is defined inside the annual `if`, and both sections share one `try`. With empty annual statements the quarterly section raises `NameError`; an annual `IndexError` skips it too | empty annual statements; one quarter labelled 1 whose income statement holds EBIT 5 and whose balance sheet holds total assets 10 | the quarterly ROIC is reported from the quarterly statements alone | not executed | RoicScript.Script (exhibited by RoicScript.QuarterlyLostWithoutAnnual) | RoicScript.ScriptIntended (with RoicScript.QuarterlyIndependentOfAnnual) |
