/** Financial statements as the data provider hands them over: line items
    (rows, keyed by name) over reporting periods (columns, most recent first),
    together with the label-based operations the dashboards apply to them:
    column selection, the intersection of two tables' periods, and the
    prioritised line-item resolver `get_row`. */
module Statements {

  /** A reporting date, as a day ordinal. */
  type Period = int

  ghost predicate Distinct<T>(s: seq<T>) {
    forall i, j | 0 <= i < j < |s| :: s[i] != s[j]
  }

  /** A statement: every row holds one value per column. */
  datatype Table = Table(columns: seq<Period>, rows: map<string, seq<real>>) {

    ghost predicate Valid() {
      && Distinct(columns)
      && forall name | name in rows :: |rows[name]| == |columns|
    }

    /** pandas `DataFrame.empty`: no row or no column. */
    predicate IsEmpty() {
      |columns| == 0 || |rows| == 0
    }
  }

  /** Position of the first occurrence of `x` in `s`. */
  function IndexOf<T(==)>(s: seq<T>, x: T): (i: nat)
    requires x in s
    ensures i < |s| && s[i] == x
    ensures forall j | 0 <= j < i :: s[j] != x
  {
    if s[0] == x then 0 else 1 + IndexOf(s[1..], x)
  }

  /** `df.loc[name, p]`: the value a row holds for a period label. */
  function ValueAt(t: Table, name: string, p: Period): real
    requires t.Valid() && name in t.rows && p in t.columns
  {
    t.rows[name][IndexOf(t.columns, p)]
  }

  /** `df[cols]`: the table restricted and reordered to the given period labels. */
  function Select(t: Table, cols: seq<Period>): (r: Table)
    requires t.Valid() && Distinct(cols)
    requires forall k | 0 <= k < |cols| :: cols[k] in t.columns
    ensures r.Valid() && r.columns == cols && r.rows.Keys == t.rows.Keys
    ensures forall name, p | name in t.rows && p in cols :: ValueAt(r, name, p) == ValueAt(t, name, p)
  {
    var r := Table(cols, map name | name in t.rows ::
                     seq(|cols|, k requires 0 <= k < |cols| => t.rows[name][IndexOf(t.columns, cols[k])]));
    assert forall name, p | name in t.rows && p in cols ::
        ValueAt(r, name, p) == r.rows[name][IndexOf(cols, p)] == ValueAt(t, name, p);
    r
  }

  /** `[c for c in a if c in b]`: the periods of `a` that `b` also reports, in `a`'s order. */
  function SharedPeriods(a: seq<Period>, b: seq<Period>): (r: seq<Period>)
    requires Distinct(a)
    ensures forall p :: p in r <==> p in a && p in b
    ensures Distinct(r)
    ensures forall i, j | 0 <= i < j < |r| :: IndexOf(a, r[i]) < IndexOf(a, r[j])
  {
    if |a| == 0 then []
    else
      var rest := SharedPeriods(a[1..], b);
      assert forall p | p in rest :: p != a[0] && IndexOf(a, p) == 1 + IndexOf(a[1..], p);
      if a[0] in b then [a[0]] + rest else rest
  }

  /** `iloc[:, :n]` keeps the first `Min(n, |cols|)` columns. */
  function Min(a: nat, b: nat): nat {
    if a <= b then a else b
  }

  /** `pd.Series(fill, index=cols)` as a sequence of `n` values. */
  function Fill(fill: real, n: nat): (r: seq<real>)
    ensures |r| == n && forall k | 0 <= k < n :: r[k] == fill
  {
    seq(n, _ => fill)
  }

  /** `get_row(df, names, fill)`: the row of the first candidate name the table
      holds, unchanged, or else a constant `fill` series over the table's columns. */
  function GetRow(t: Table, names: seq<string>, fill: real): (r: seq<real>)
    requires t.Valid()
    ensures |r| == |t.columns|
    ensures forall i | 0 <= i < |names| && names[i] in t.rows && (forall j | 0 <= j < i :: names[j] !in t.rows) ::
              r == t.rows[names[i]]
    ensures (forall i | 0 <= i < |names| :: names[i] !in t.rows) ==> r == Fill(fill, |t.columns|)
  {
    if |names| == 0 then Fill(fill, |t.columns|)
    else if names[0] in t.rows then t.rows[names[0]]
    else
      var r := GetRow(t, names[1..], fill);
      assert forall i | 1 <= i < |names| :: names[i] == names[1..][i - 1];
      r
  }

  /** Reference meaning of a resolved line item at one period label: the value the
      first candidate the table holds reports for that period, or the fill value. */
  function Lookup(t: Table, names: seq<string>, fill: real, p: Period): real
    requires t.Valid() && p in t.columns
  {
    if |names| == 0 then fill
    else if names[0] in t.rows then ValueAt(t, names[0], p)
    else Lookup(t, names[1..], fill, p)
  }

  /** The resolved row, read at any of the table's columns, is the reference value
      for that column's period label. */
  lemma {:induction false} GetRowAt(t: Table, names: seq<string>, fill: real)
    requires t.Valid()
    ensures forall k | 0 <= k < |t.columns| :: GetRow(t, names, fill)[k] == Lookup(t, names, fill, t.columns[k])
    decreases |names|
  {
    if |names| == 0 {
    } else if names[0] in t.rows {
      forall k | 0 <= k < |t.columns|
        ensures GetRow(t, names, fill)[k] == Lookup(t, names, fill, t.columns[k])
      {
        assert IndexOf(t.columns, t.columns[k]) == k;
      }
    } else {
      GetRowAt(t, names[1..], fill);
    }
  }

  /** `df[cols]` keeps every resolved value: a line item looked up in the restricted
      table reads what the full table reports for the same period label. */
  lemma {:induction false} LookupSelect(t: Table, cols: seq<Period>, names: seq<string>, fill: real, p: Period)
    requires t.Valid() && Distinct(cols)
    requires forall k | 0 <= k < |cols| :: cols[k] in t.columns
    requires p in cols
    ensures Lookup(Select(t, cols), names, fill, p) == Lookup(t, names, fill, p)
    decreases |names|
  {
    if |names| > 0 && names[0] !in t.rows {
      LookupSelect(t, cols, names[1..], fill, p);
    }
  }

  /** Resolving a line item after `df[cols]` reads, at every kept period, the value the
      original table reports for that period's label (or the fill value). */
  lemma GetRowSelect(t: Table, cols: seq<Period>, names: seq<string>, fill: real)
    requires t.Valid() && Distinct(cols)
    requires forall k | 0 <= k < |cols| :: cols[k] in t.columns
    ensures forall k | 0 <= k < |cols| :: GetRow(Select(t, cols), names, fill)[k] == Lookup(t, names, fill, cols[k])
  {
    GetRowAt(Select(t, cols), names, fill);
    forall k | 0 <= k < |cols|
      ensures Lookup(Select(t, cols), names, fill, cols[k]) == Lookup(t, names, fill, cols[k])
    {
      LookupSelect(t, cols, names, fill, cols[k]);
    }
  }

  /** Lookup of a name list none of whose names the table holds gives the fill value. */
  lemma {:induction false} LookupAbsent(t: Table, names: seq<string>, fill: real, p: Period)
    requires t.Valid() && p in t.columns
    requires forall i | 0 <= i < |names| :: names[i] !in t.rows
    ensures Lookup(t, names, fill, p) == fill
    decreases |names|
  {
    if |names| > 0 {
      LookupAbsent(t, names[1..], fill, p);
    }
  }
}
