/**
 * Fluent numeric indicators: a NumericIndicator wraps a delegate indicator, and each of its
 * algebraic operators builds a new, uncached operation node over this indicator and an
 * operand; the value of a node at an index is recomputed from its operands at that index.
 * Numbers are exact integers here.
 */
module Numeric {
  import BarSeries

  /** The library's number type, modelled with exact arithmetic. */
  type Num = int

  /** The two-operand nodes (BinaryOperation). */
  datatype BinaryOperator = Sum | Difference | Product | Minimum | Maximum

  /** The one-operand nodes (UnaryOperation). */
  datatype UnaryOperator = Absolute

  /** An Indicator<Num>: something with a value at every index, on a bar series. */
  datatype Indicator =
      /**
       * An indicator defined outside this core (a close price, a volume, ...), with its own
       * warm-up, which a NumericIndicator wrapping it does not report.
       */
    | Source(series: BarSeries.FixedDateBarSeries, values: int -> Num, unstableBars: nat)
      /** ConstantIndicator: the same number at every index. */
    | Constant(series: BarSeries.FixedDateBarSeries, constant: Num)
    | Binary(op: BinaryOperator, left: Indicator, right: Indicator)
    | Unary(uop: UnaryOperator, operand: Indicator)
      /** A NumericIndicator passed where an Indicator is expected. */
    | Fluent(numeric: NumericIndicator)

  /** The decorator: its only field is the delegate. */
  datatype NumericIndicator = NumericIndicator(delegate: Indicator)

  /** Objects handed to contains and equals. */
  datatype Object =
    | Null
    | Self                                         // the receiver itself
    | NumObject(num: Num)
    | IndicatorObject(indicator: NumericIndicator) // another object of class NumericIndicator
    | OtherObject                                  // an object of any other class

  /** Num.min and Num.max keep the receiver on a tie. */
  function Combine(op: BinaryOperator, a: Num, b: Num): Num
  {
    match op
    case Sum => a + b
    case Difference => a - b
    case Product => a * b
    case Minimum => if a <= b then a else b
    case Maximum => if a >= b then a else b
  }

  /** getValue of any indicator: operation nodes recompute their operands at the same index. */
  function Value(ind: Indicator, index: int): Num
  {
    match ind
    case Source(_, values, _) => values(index)
    case Constant(_, c) => c
    case Binary(op, l, r) => Combine(op, Value(l, index), Value(r, index))
    case Unary(_, x) => var v := Value(x, index); if v < 0 then -v else v
    case Fluent(m) => Value(m.delegate, index)
  }

  /** getBarSeries of any indicator: an operation node reports its first operand's series. */
  function SeriesOf(ind: Indicator): BarSeries.FixedDateBarSeries
  {
    match ind
    case Source(s, _, _) => s
    case Constant(s, _) => s
    case Binary(_, l, _) => SeriesOf(l)
    case Unary(_, x) => SeriesOf(x)
    case Fluent(m) => SeriesOf(m.delegate)
  }

  // ---------------------------------------------------------------------------------
  // The indicator interface
  // ---------------------------------------------------------------------------------

  /** getValue: the delegate's value. */
  function GetValue(n: NumericIndicator, index: int): (r: Num)
    ensures r == Value(n.delegate, index)
  {
    Value(n.delegate, index)
  }

  /** getBarSeries: the delegate's series. */
  function GetBarSeries(n: NumericIndicator): (r: BarSeries.FixedDateBarSeries)
    ensures r == SeriesOf(n.delegate)
  {
    SeriesOf(n.delegate)
  }

  /** getUnstableBars: always 0, whatever warm-up the delegate needs. */
  function GetUnstableBars(n: NumericIndicator): (r: nat)
    ensures r == 0
  {
    0
  }

  /** of: wrapping an indicator changes none of its values, nor its series. */
  function Of(delegate: Indicator): (r: NumericIndicator)
    ensures forall i :: GetValue(r, i) == Value(delegate, i)
    ensures GetBarSeries(r) == SeriesOf(delegate)
  {
    NumericIndicator(delegate)
  }

  /** createConstant: a constant indicator on this indicator's series. */
  function CreateConstant(n: NumericIndicator, x: Num): (r: Indicator)
    ensures forall i, j :: Value(r, i) == Value(r, j) == x
    ensures SeriesOf(r) == GetBarSeries(n)
  {
    Constant(GetBarSeries(n), x)
  }

  // ---------------------------------------------------------------------------------
  // Algebraic composition
  // ---------------------------------------------------------------------------------

  /** A NumericIndicator used as an operand contributes its own values and its own series. */
  lemma FluentOperand(n: NumericIndicator)
    ensures forall i :: Value(Fluent(n), i) == GetValue(n, i)
    ensures SeriesOf(Fluent(n)) == GetBarSeries(n)
  {
  }

  function Plus(n: NumericIndicator, other: Indicator): (r: NumericIndicator)
    ensures forall i :: GetValue(r, i) == GetValue(n, i) + Value(other, i)
    ensures GetBarSeries(r) == GetBarSeries(n)
  {
    FluentOperand(n);
    Of(Binary(Sum, Fluent(n), other))
  }

  function PlusNumber(n: NumericIndicator, x: Num): (r: NumericIndicator)
    ensures forall i :: GetValue(r, i) == GetValue(n, i) + x
  {
    Plus(n, CreateConstant(n, x))
  }

  function Minus(n: NumericIndicator, other: Indicator): (r: NumericIndicator)
    ensures forall i :: GetValue(r, i) == GetValue(n, i) - Value(other, i)
    ensures GetBarSeries(r) == GetBarSeries(n)
  {
    FluentOperand(n);
    Of(Binary(Difference, Fluent(n), other))
  }

  function MinusNumber(n: NumericIndicator, x: Num): (r: NumericIndicator)
    ensures forall i :: GetValue(r, i) == GetValue(n, i) - x
  {
    Minus(n, CreateConstant(n, x))
  }

  function MultipliedBy(n: NumericIndicator, other: Indicator): (r: NumericIndicator)
    ensures forall i :: GetValue(r, i) == GetValue(n, i) * Value(other, i)
    ensures GetBarSeries(r) == GetBarSeries(n)
  {
    FluentOperand(n);
    Of(Binary(Product, Fluent(n), other))
  }

  function MultipliedByNumber(n: NumericIndicator, x: Num): (r: NumericIndicator)
    ensures forall i :: GetValue(r, i) == GetValue(n, i) * x
  {
    MultipliedBy(n, CreateConstant(n, x))
  }

  /** min: at every index, the smaller of the two values (this one on a tie). */
  function Min(n: NumericIndicator, other: Indicator): (r: NumericIndicator)
    ensures forall i :: GetValue(r, i) <= GetValue(n, i) && GetValue(r, i) <= Value(other, i)
    ensures forall i :: GetValue(r, i) == GetValue(n, i) || GetValue(r, i) == Value(other, i)
    ensures GetBarSeries(r) == GetBarSeries(n)
  {
    FluentOperand(n);
    Of(Binary(Minimum, Fluent(n), other))
  }

  function MinNumber(n: NumericIndicator, x: Num): (r: NumericIndicator)
    ensures forall i :: GetValue(r, i) <= GetValue(n, i) && GetValue(r, i) <= x
    ensures forall i :: GetValue(r, i) == GetValue(n, i) || GetValue(r, i) == x
  {
    Min(n, CreateConstant(n, x))
  }

  /** max: at every index, the greater of the two values (this one on a tie). */
  function Max(n: NumericIndicator, other: Indicator): (r: NumericIndicator)
    ensures forall i :: GetValue(r, i) >= GetValue(n, i) && GetValue(r, i) >= Value(other, i)
    ensures forall i :: GetValue(r, i) == GetValue(n, i) || GetValue(r, i) == Value(other, i)
    ensures GetBarSeries(r) == GetBarSeries(n)
  {
    FluentOperand(n);
    Of(Binary(Maximum, Fluent(n), other))
  }

  function MaxNumber(n: NumericIndicator, x: Num): (r: NumericIndicator)
    ensures forall i :: GetValue(r, i) >= GetValue(n, i) && GetValue(r, i) >= x
    ensures forall i :: GetValue(r, i) == GetValue(n, i) || GetValue(r, i) == x
  {
    Max(n, CreateConstant(n, x))
  }

  /** abs: at every index, the magnitude of this indicator's value. */
  function Abs(n: NumericIndicator): (r: NumericIndicator)
    ensures forall i :: GetValue(r, i) >= 0 && (GetValue(r, i) == GetValue(n, i) || GetValue(r, i) == -GetValue(n, i))
    ensures GetBarSeries(r) == GetBarSeries(n)
  {
    FluentOperand(n);
    Of(Unary(Absolute, Fluent(n)))
  }

  /** squared: this indicator multiplied by itself. */
  function Squared(n: NumericIndicator): (r: NumericIndicator)
    ensures forall i :: GetValue(r, i) == GetValue(n, i) * GetValue(n, i)
    ensures GetBarSeries(r) == GetBarSeries(n)
  {
    FluentOperand(n);
    MultipliedBy(n, Fluent(n))
  }

  /** Each number overload is the indicator overload applied to a constant on the same series. */
  lemma NumberOverloadsUseConstants(n: NumericIndicator, x: Num)
    ensures var c := Constant(GetBarSeries(n), x);
            PlusNumber(n, x) == Plus(n, c) && MinusNumber(n, x) == Minus(n, c) &&
            MultipliedByNumber(n, x) == MultipliedBy(n, c) &&
            MinNumber(n, x) == Min(n, c) && MaxNumber(n, x) == Max(n, c)
  {
  }

  // ---------------------------------------------------------------------------------
  // The read-only list view
  // ---------------------------------------------------------------------------------

  /** size: the bar count of the delegate's series. */
  function Size(n: NumericIndicator): (r: nat)
    ensures r == BarSeries.GetBarCount(GetBarSeries(n))
  {
    BarSeries.GetBarCount(SeriesOf(n.delegate))
  }

  /**
   * isEmpty: whether the delegate's series holds no bar, that is, whether size() is 0 and get
   * has no index to answer from the stored window.
   */
  function IsEmpty(n: NumericIndicator): (r: bool)
    ensures r <==> Size(n) == 0
    ensures r <==> GetBarSeries(n).bars == []
  {
    BarSeries.GetBarCount(SeriesOf(n.delegate)) == 0
  }

  /** get: the same value getValue gives. */
  function Get(n: NumericIndicator, index: int): (r: Num)
    ensures r == GetValue(n, index)
  {
    Value(n.delegate, index)
  }

  /** contains: scans the indices 0 .. size() - 1 for the number; anything but a number is not contained. */
  method Contains(n: NumericIndicator, o: Object) returns (found: bool)
    ensures found <==> o.NumObject? && exists i :: 0 <= i < Size(n) && Get(n, i) == o.num
  {
    if o.NumObject? {
      var num := o.num;
      var i := 0;
      while i < Size(n)
        invariant 0 <= i <= Size(n)
        invariant forall j :: 0 <= j < i ==> Get(n, j) != num
      {
        if Get(n, i) == num {
          return true;
        }
        i := i + 1;
      }
    }
    return false;
  }

  // ---------------------------------------------------------------------------------
  // Latest-value ordering and equality
  // ---------------------------------------------------------------------------------

  /** The value at the end index of the indicator's own series. */
  function LatestValue(n: NumericIndicator): Num
    requires BarSeries.Indexable(GetBarSeries(n))
  {
    GetValue(n, BarSeries.GetEndIndex(GetBarSeries(n)))
  }

  /** compareTo: the sign of the comparison of the two latest values (Num.compareTo gives -1, 0 or 1). */
  function CompareTo(n: NumericIndicator, other: NumericIndicator): (r: int)
    requires BarSeries.Indexable(GetBarSeries(n)) && BarSeries.Indexable(GetBarSeries(other))
    ensures -1 <= r <= 1
    ensures r < 0 <==> LatestValue(n) < LatestValue(other)
    ensures r == 0 <==> LatestValue(n) == LatestValue(other)
    ensures r > 0 <==> LatestValue(n) > LatestValue(other)
  {
    var thisValue := GetValue(n, BarSeries.GetEndIndex(GetBarSeries(n)));
    var otherValue := GetValue(other, BarSeries.GetEndIndex(GetBarSeries(other)));
    if thisValue < otherValue then -1 else if thisValue == otherValue then 0 else 1
  }

  /** equals: the same object, or another NumericIndicator whose latest value compares equal. */
  function Equals(n: NumericIndicator, obj: Object): (r: bool)
    requires obj.IndicatorObject? ==>
               BarSeries.Indexable(GetBarSeries(n)) && BarSeries.Indexable(GetBarSeries(obj.indicator))
    ensures r <==> obj.Self? || (obj.IndicatorObject? && LatestValue(n) == LatestValue(obj.indicator))
  {
    match obj
    case Self => true
    case IndicatorObject(that) => CompareTo(n, that) == 0
    case _ => false
  }

  /**
   * equals answers identity, null, numbers and foreign classes on any series, even an empty
   * one, without reading an end index.
   */
  lemma EqualsWithoutComparison(n: NumericIndicator, x: Num)
    ensures Equals(n, Self)
    ensures !Equals(n, Null) && !Equals(n, OtherObject) && !Equals(n, NumObject(x))
  {
  }

  /** compareTo is antisymmetric, so equals between two NumericIndicators is symmetric. */
  lemma CompareToAntisymmetric(a: NumericIndicator, b: NumericIndicator)
    requires BarSeries.Indexable(GetBarSeries(a)) && BarSeries.Indexable(GetBarSeries(b))
    ensures CompareTo(a, b) == -CompareTo(b, a)
    ensures Equals(a, IndicatorObject(b)) == Equals(b, IndicatorObject(a))
  {
  }
}
