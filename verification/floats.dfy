/** The values a pandas float64 column can hold, with the non-finite ones made
    explicit. Finite values are exact reals; rounding is not modelled and
    negative zero is not distinguished from zero. */
module Floats {

  datatype Ext = Num(v: real) | PosInf | NegInf | NaN {
    predicate IsFinite() { Num? }
  }

  function Neg(x: Ext): Ext {
    match x
    case Num(a) => Num(-a)
    case PosInf => NegInf
    case NegInf => PosInf
    case NaN => NaN
  }

  /** IEEE addition: infinities absorb finite values, opposite infinities give NaN. */
  function Add(x: Ext, y: Ext): Ext {
    if x.NaN? || y.NaN? then NaN
    else if x.Num? && y.Num? then Num(x.v + y.v)
    else if x.Num? then y
    else if y.Num? then x
    else if x == y then x
    else NaN
  }

  function Sub(x: Ext, y: Ext): Ext {
    Add(x, Neg(y))
  }

  /** The infinity carrying the given sign. */
  function Signed(positive: bool): Ext {
    if positive then PosInf else NegInf
  }

  /** IEEE multiplication: zero times an infinity is NaN. */
  function Mul(x: Ext, y: Ext): Ext {
    if x.NaN? || y.NaN? then NaN
    else if x.Num? && y.Num? then Num(x.v * y.v)
    else if x.Num? then (if x.v == 0.0 then NaN else Signed((x.v > 0.0) == y.PosInf?))
    else if y.Num? then (if y.v == 0.0 then NaN else Signed((y.v > 0.0) == x.PosInf?))
    else Signed(x == y)
  }

  /** IEEE division: a nonzero finite value over zero is an infinity of its sign,
      zero over zero and infinity over infinity are NaN, finite over infinity is zero. */
  function Div(x: Ext, y: Ext): Ext {
    if x.NaN? || y.NaN? then NaN
    else if x.Num? && y.Num? then
      (if y.v != 0.0 then Num(x.v / y.v)
       else if x.v > 0.0 then PosInf
       else if x.v < 0.0 then NegInf
       else NaN)
    else if x.Num? then Num(0.0)
    else if y.Num? then (if y.v < 0.0 then Neg(x) else x)
    else NaN
  }

  /** Python's `x > y` on floats: false as soon as either side is NaN. */
  predicate Gt(x: Ext, y: Ext) {
    if x.NaN? || y.NaN? then false
    else if x.Num? && y.Num? then x.v > y.v
    else if x.PosInf? then !y.PosInf?
    else if y.NegInf? then !x.NegInf?
    else false
  }

  /** Python's `x <= y` on floats: false as soon as either side is NaN. */
  predicate Le(x: Ext, y: Ext) {
    !x.NaN? && !y.NaN? && !Gt(x, y)
  }

  /** Division of two finite values, the shape every ratio of the model takes: the
      quotient when the divisor is nonzero, otherwise an infinity of the dividend's
      sign, or NaN for zero over zero. */
  function Ratio(a: real, b: real): (r: Ext)
    ensures b != 0.0 ==> r.IsFinite() && r.v * b == a
    ensures b == 0.0 ==> !r.IsFinite() && (r.NaN? <==> a == 0.0)
    ensures r == PosInf <==> b == 0.0 && a > 0.0
    ensures r == NegInf <==> b == 0.0 && a < 0.0
  {
    if b != 0.0 then Num(a / b)
    else if a > 0.0 then PosInf
    else if a < 0.0 then NegInf
    else NaN
  }

  /** `Ratio` is IEEE division of the two values. */
  lemma RatioIsDiv(a: real, b: real)
    ensures Ratio(a, b) == Div(Num(a), Num(b))
  {
  }
}
