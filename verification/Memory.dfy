/** Memory quantities in binary units and their conversion to Java heap sizes, in exact arithmetic. */
module Memory {
  import opened Wrappers

  datatype BinaryMultiple = Kibi | Mebi | Gibi | Tebi | Pebi | Exbi

  function Exponent(unit: BinaryMultiple): int {
    match unit
    case Kibi => 1
    case Mebi => 2
    case Gibi => 3
    case Tebi => 4
    case Pebi => 5
    case Exbi => 6
  }

  datatype Quantity = Quantity(value: real, unit: BinaryMultiple)

  datatype Error = CannotScaleDownMemoryUnit

  /** `v * 1024^d`, by repeated multiplication or division. */
  function Scaled(v: real, d: int): real
    decreases if d < 0 then -d else d
  {
    if d == 0 then v else if d > 0 then Scaled(v * 1024.0, d - 1) else Scaled(v / 1024.0, d + 1)
  }

  function ScaleTo(q: Quantity, unit: BinaryMultiple): Quantity {
    Quantity(Scaled(q.value, Exponent(q.unit) - Exponent(unit)), unit)
  }

  /** What a quantity denotes, in bytes. */
  function Amount(q: Quantity): real {
    Scaled(q.value, Exponent(q.unit))
  }

  const KIB := 1024.0
  const MIB := 1024.0 * 1024.0

  lemma {:induction false} ScaledTimes(v: real, d: int)
    ensures Scaled(v * 1024.0, d) == Scaled(v, d) * 1024.0
    decreases if d < 0 then -d else d
  {
    if d > 0 {
      ScaledTimes(v * 1024.0, d - 1);
    } else if d < 0 {
      ScaledTimes(v / 1024.0, d + 1);
    }
  }

  lemma ScaledStep(v: real, d: int)
    ensures Scaled(v, d + 1) == Scaled(v, d) * 1024.0
  {
    if d >= 0 {
      ScaledTimes(v, d);
    } else {
      ScaledTimes(v / 1024.0, d + 1);
    }
  }

  lemma {:induction false} ScaledTwice(v: real, d: int, e: int)
    ensures Scaled(Scaled(v, d), e) == Scaled(v, d + e)
    decreases if e < 0 then -e else e
  {
    if e > 0 {
      ScaledStep(v, d);
      ScaledTwice(v, d + 1, e - 1);
    } else if e < 0 {
      ScaledStep(v, d - 1);
      ScaledTwice(v, d - 1, e + 1);
    }
  }

  lemma {:induction false} ScaledAdd(v: real, w: real, d: int)
    ensures Scaled(v + w, d) == Scaled(v, d) + Scaled(w, d)
    decreases if d < 0 then -d else d
  {
    if d > 0 {
      ScaledAdd(v * 1024.0, w * 1024.0, d - 1);
    } else if d < 0 {
      ScaledAdd(v / 1024.0, w / 1024.0, d + 1);
    }
  }

  lemma {:induction false} ScaledOrder(v: real, w: real, d: int)
    ensures v < w <==> Scaled(v, d) < Scaled(w, d)
    decreases if d < 0 then -d else d
  {
    if d > 0 {
      ScaledOrder(v * 1024.0, w * 1024.0, d - 1);
    } else if d < 0 {
      ScaledOrder(v / 1024.0, w / 1024.0, d + 1);
    }
  }

  lemma {:induction false} ScaledZero(d: int)
    ensures Scaled(0.0, d) == 0.0
    decreases if d < 0 then -d else d
  {
    if d > 0 {
      ScaledZero(d - 1);
    } else if d < 0 {
      ScaledZero(d + 1);
    }
  }

  lemma {:induction false} ScaledGrows(v: real, d: nat)
    requires v >= 0.0
    ensures Scaled(v, d) >= v
    decreases d
  {
    if d > 0 {
      ScaledGrows(v * 1024.0, d - 1);
    }
  }

  /** Changing the unit does not change the amount. */
  lemma ScalingKeepsAmount(q: Quantity, unit: BinaryMultiple)
    ensures Amount(ScaleTo(q, unit)) == Amount(q)
  {
    ScaledTwice(q.value, Exponent(q.unit) - Exponent(unit), Exponent(unit));
  }

  /** Quantities are compared in the smallest unit. */
  predicate Less(a: Quantity, b: Quantity) {
    ScaleTo(a, Kibi).value < ScaleTo(b, Kibi).value
  }

  predicate Equal(a: Quantity, b: Quantity) {
    ScaleTo(a, Kibi).value == ScaleTo(b, Kibi).value
  }

  lemma KibiAmount(v: real)
    ensures Amount(Quantity(v, Kibi)) == v * 1024.0
  {
    assert Scaled(v, 1) == Scaled(v * 1024.0, 0);
  }

  /** The comparisons of quantities are those of their amounts, whatever the units. */
  lemma OrderIsByAmount(a: Quantity, b: Quantity)
    ensures Less(a, b) <==> Amount(a) < Amount(b)
    ensures Equal(a, b) <==> Amount(a) == Amount(b)
  {
    ScalingKeepsAmount(a, Kibi);
    ScalingKeepsAmount(b, Kibi);
    KibiAmount(ScaleTo(a, Kibi).value);
    KibiAmount(ScaleTo(b, Kibi).value);
  }

  // ----- Java heap sizes -----

  function ScaleToAtMostGb(q: Quantity): Quantity {
    if Exponent(q.unit) <= Exponent(Gibi) then q else ScaleTo(q, Gibi)
  }

  function ScaleDownUnit(q: Quantity): (r: Result<Quantity, Error>)
    ensures r.Err? <==> q.unit == Kibi
    ensures r.Ok? ==> Exponent(r.value.unit) == Exponent(q.unit) - 1 && r.value == ScaleTo(q, r.value.unit)
  {
    match q.unit
    case Kibi => Err(CannotScaleDownMemoryUnit)
    case Mebi => Ok(ScaleTo(q, Kibi))
    case Gibi => Ok(ScaleTo(q, Mebi))
    case Tebi => Ok(ScaleTo(q, Gibi))
    case Pebi => Ok(ScaleTo(q, Tebi))
    case Exbi => Ok(ScaleTo(q, Pebi))
  }

  function EnsureNoZero(q: Quantity): Result<Quantity, Error>
    decreases Exponent(q.unit)
  {
    if q.value < 1.0 then
      var smaller :- ScaleDownUnit(q);
      EnsureNoZero(smaller)
    else Ok(q)
  }

  function Trunc(x: real): int {
    if x >= 0.0 then x.Floor else -((-x).Floor)
  }

  /** The fractional part, with the sign of `x`. */
  function Fract(x: real): (r: real)
    ensures -1.0 < r < 1.0 && x - r == (x - r).Floor as real
    ensures (x >= 0.0 ==> r >= 0.0) && (x <= 0.0 ==> r <= 0.0)
  {
    x - Trunc(x) as real
  }

  function EnsureInteger(q: Quantity, tolerated: Quantity): Result<Quantity, Error>
    decreases Exponent(q.unit)
  {
    if Less(Quantity(Fract(q.value), q.unit), tolerated) then Ok(Quantity(q.value.Floor as real, q.unit))
    else
      var smaller :- ScaleDownUnit(q);
      EnsureInteger(smaller, tolerated)
  }

  /** The number and the unit that are printed. */
  function FormatForJava(q: Quantity): Result<(int, BinaryMultiple), Error> {
    var nonZero :- EnsureNoZero(ScaleToAtMostGb(q));
    var m :- EnsureInteger(nonZero, Quantity(20.0, Mebi));
    Ok((m.value.Floor, m.unit))
  }

  /** The search for a non-zero number succeeds exactly from 1 KiB on and keeps the amount. */
  lemma {:induction false} NoZeroFromOneKib(q: Quantity)
    ensures EnsureNoZero(q).Ok? <==> Amount(q) >= KIB
    ensures EnsureNoZero(q).Ok? ==>
              && EnsureNoZero(q).value.value >= 1.0 && Amount(EnsureNoZero(q).value) == Amount(q)
              && Exponent(EnsureNoZero(q).value.unit) <= Exponent(q.unit)
    decreases Exponent(q.unit)
  {
    if q.value >= 1.0 {
      AmountFromOneKib(q);
    } else if q.unit == Kibi {
      KibiAmount(q.value);
    } else {
      var smaller := ScaleDownUnit(q).value;
      ScalingKeepsAmount(q, smaller.unit);
      NoZeroFromOneKib(smaller);
    }
  }

  lemma AmountFromOneKib(q: Quantity)
    requires q.value >= 1.0
    ensures Amount(q) >= KIB
  {
    ScaledGrows(q.value * 1024.0, Exponent(q.unit) - 1);
  }

  /** What is lost by rounding towards zero in a unit. */
  function LossAt(q: Quantity, unit: BinaryMultiple): Quantity {
    Quantity(Fract(ScaleTo(q, unit).value), unit)
  }

  /**
   * The search takes the largest unit, from the given one down, in which the fraction is smaller
   * than tolerated, and rounds down in it; it fails exactly if there is none.
   */
  lemma {:induction false} IntegerInLargestUnit(q: Quantity, tolerated: Quantity)
    ensures EnsureInteger(q, tolerated).Ok? <==>
            exists u :: Exponent(u) <= Exponent(q.unit) && Less(LossAt(q, u), tolerated)
    ensures EnsureInteger(q, tolerated).Ok? ==>
              var u := EnsureInteger(q, tolerated).value.unit;
              && Exponent(u) <= Exponent(q.unit) && Less(LossAt(q, u), tolerated)
              && EnsureInteger(q, tolerated).value.value == ScaleTo(q, u).value.Floor as real
              && forall larger :: Exponent(u) < Exponent(larger) <= Exponent(q.unit) ==> !Less(LossAt(q, larger), tolerated)
    decreases Exponent(q.unit)
  {
    if !Less(LossAt(q, q.unit), tolerated) {
      forall u | Exponent(u) == Exponent(q.unit)
        ensures u == q.unit
      {
      }
      if q.unit != Kibi {
        var smaller := ScaleDownUnit(q).value;
        IntegerInLargestUnit(smaller, tolerated);
        forall u
          ensures LossAt(smaller, u) == LossAt(q, u) && ScaleTo(smaller, u) == ScaleTo(q, u)
        {
          ScaledTwice(q.value, Exponent(q.unit) - Exponent(smaller.unit), Exponent(smaller.unit) - Exponent(u));
        }
      }
    } else {
      assert LossAt(q, q.unit) == Quantity(Fract(q.value), q.unit);
    }
  }

  lemma FloorLoss(q: Quantity)
    requires q.value >= 0.0
    ensures Amount(Quantity(q.value.Floor as real, q.unit)) + Amount(Quantity(Fract(q.value), q.unit)) == Amount(q)
    ensures Amount(Quantity(Fract(q.value), q.unit)) >= 0.0
  {
    ScaledAdd(q.value.Floor as real, Fract(q.value), Exponent(q.unit));
    ScaleKeepsSign(Fract(q.value), Exponent(q.unit));
  }

  /**
   * For non-negative quantities and a tolerance of at least 1 KiB, making a quantity integral never
   * fails and loses less than the tolerance.
   */
  lemma IntegerLosesLessThanTolerated(q: Quantity, tolerated: Quantity)
    requires q.value >= 0.0 && Amount(tolerated) >= KIB
    ensures EnsureInteger(q, tolerated).Ok?
    ensures var r := EnsureInteger(q, tolerated).value; Amount(r) <= Amount(q) < Amount(r) + Amount(tolerated)
  {
    IntegerInLargestUnit(q, tolerated);
    KibiLossIsTolerated(q, tolerated);
    var u := EnsureInteger(q, tolerated).value.unit;
    ScalingKeepsAmount(q, u);
    OrderIsByAmount(LossAt(q, u), tolerated);
    ScaleKeepsSign(q.value, Exponent(q.unit) - Exponent(u));
    FloorLoss(ScaleTo(q, u));
  }

  lemma ScaleKeepsSign(v: real, d: int)
    requires v >= 0.0
    ensures Scaled(v, d) >= 0.0
  {
    ScaledZero(d);
    ScaledOrder(v, 0.0, d);
  }

  /** In KiB, less than one KiB is lost. */
  lemma KibiLossIsTolerated(q: Quantity, tolerated: Quantity)
    requires q.value >= 0.0 && Amount(tolerated) >= KIB
    ensures Less(LossAt(q, Kibi), tolerated)
  {
    KibiAmount(LossAt(q, Kibi).value);
    OrderIsByAmount(LossAt(q, Kibi), tolerated);
    ScaleKeepsSign(q.value, Exponent(q.unit) - Exponent(Kibi));
  }

  /**
   * Formatting fails exactly below 1 KiB. Otherwise the result is a natural number of at least 1 in
   * k, m or g that denotes at most the input and more than the input minus 20 MiB.
   */
  lemma JavaHeapIsCloseFromBelow(q: Quantity)
    ensures FormatForJava(q).Ok? <==> Amount(q) >= KIB
    ensures FormatForJava(q).Ok? ==>
              var (n, unit) := FormatForJava(q).value;
              && n >= 1 && unit in {Kibi, Mebi, Gibi}
              && Amount(Quantity(n as real, unit)) <= Amount(q) < Amount(Quantity(n as real, unit)) + 20.0 * MIB
  {
    var atMostGb := ScaleToAtMostGb(q);
    ScalingKeepsAmount(q, Gibi);
    NoZeroFromOneKib(atMostGb);
    if Amount(q) >= KIB {
      var nonZero := EnsureNoZero(atMostGb).value;
      var tolerated := Quantity(20.0, Mebi);
      MebiAmount(20.0);
      IntegerLosesLessThanTolerated(nonZero, tolerated);
      IntegerInLargestUnit(nonZero, tolerated);
      var m := EnsureInteger(nonZero, tolerated).value;
      ScaledGrows(nonZero.value, Exponent(nonZero.unit) - Exponent(m.unit));
      assert m.value == m.value.Floor as real;
    }
  }

  /** What is lost in a unit if only a whole number of it is kept. */
  function Loss(q: Quantity, unit: BinaryMultiple): real {
    Amount(q) - Amount(Quantity(ScaleTo(q, unit).value.Floor as real, unit))
  }

  lemma LossByFloor(q: Quantity, unit: BinaryMultiple)
    requires q.value >= 0.0
    ensures Less(LossAt(q, unit), Quantity(20.0, Mebi)) <==> Loss(q, unit) < 20.0 * MIB
  {
    ScalingKeepsAmount(q, unit);
    ScaleKeepsSign(q.value, Exponent(q.unit) - Exponent(unit));
    FloorLoss(ScaleTo(q, unit));
    OrderIsByAmount(LossAt(q, unit), Quantity(20.0, Mebi));
    MebiAmount(20.0);
  }

  /** The search for a non-zero number takes the largest unit in which it is at least 1. */
  lemma {:induction false} NoZeroInLargestUnit(q: Quantity)
    requires EnsureNoZero(q).Ok?
    ensures var r := EnsureNoZero(q).value;
            && Exponent(r.unit) <= Exponent(q.unit) && r == ScaleTo(q, r.unit)
            && forall larger :: Exponent(r.unit) < Exponent(larger) <= Exponent(q.unit) ==> ScaleTo(q, larger).value < 1.0
    decreases Exponent(q.unit)
  {
    if q.value < 1.0 {
      var smaller := ScaleDownUnit(q).value;
      NoZeroInLargestUnit(smaller);
      forall u
        ensures ScaleTo(smaller, u) == ScaleTo(q, u)
      {
        ScaledTwice(q.value, Exponent(q.unit) - Exponent(smaller.unit), Exponent(smaller.unit) - Exponent(u));
      }
      assert forall u :: Exponent(u) == Exponent(q.unit) ==> u == q.unit;
    }
  }

  /** Units from that of the input down, but at most GiB. */
  predicate IsCandidate(q: Quantity, unit: BinaryMultiple) {
    unit in {Kibi, Mebi, Gibi} && Exponent(unit) <= Exponent(q.unit)
  }

  lemma AtMostGbScales(q: Quantity, unit: BinaryMultiple)
    ensures ScaleTo(ScaleToAtMostGb(q), unit) == ScaleTo(q, unit)
    ensures Exponent(unit) <= Exponent(ScaleToAtMostGb(q).unit) <==> IsCandidate(q, unit)
  {
    if Exponent(q.unit) > Exponent(Gibi) {
      RescaledScales(q, Gibi, unit);
    }
  }

  /**
   * The unit that is printed is the largest of k, m and g, from that of the input down, in which the
   * number is at least 1 and less than 20 MiB are lost; the number is the whole part in that unit.
   */
  lemma JavaHeapUnitIsLargest(q: Quantity)
    requires FormatForJava(q).Ok?
    ensures var (n, unit) := FormatForJava(q).value;
            && IsCandidate(q, unit) && n == ScaleTo(q, unit).value.Floor
            && ScaleTo(q, unit).value >= 1.0 && Loss(q, unit) < 20.0 * MIB
            && forall larger :: IsCandidate(q, larger) && Exponent(larger) > Exponent(unit) ==>
                 ScaleTo(q, larger).value < 1.0 || Loss(q, larger) >= 20.0 * MIB
  {
    JavaHeapIsCloseFromBelow(q);
    var (start, tolerated) := (ScaleToAtMostGb(q), Quantity(20.0, Mebi));
    var nonZero := EnsureNoZero(start).value;
    var unit := FormatForJava(q).value.1;
    NoZeroFromOneKib(start);
    NoZeroInLargestUnit(start);
    IntegerInLargestUnit(nonZero, tolerated);
    NonNegative(q);
    forall u
      ensures Exponent(u) <= Exponent(start.unit) <==> IsCandidate(q, u)
      ensures ScaleTo(nonZero, u) == ScaleTo(start, u) == ScaleTo(q, u)
      ensures Less(LossAt(nonZero, u), tolerated) <==> Loss(q, u) < 20.0 * MIB
    {
      AtMostGbScales(q, u);
      RescaledScales(start, nonZero.unit, u);
      LossByFloor(q, u);
    }
    ScaledGrows(nonZero.value, Exponent(nonZero.unit) - Exponent(unit));
  }

  lemma RescaledScales(q: Quantity, unit: BinaryMultiple, u: BinaryMultiple)
    ensures ScaleTo(ScaleTo(q, unit), u) == ScaleTo(q, u)
  {
    ScaledTwice(q.value, Exponent(q.unit) - Exponent(unit), Exponent(unit) - Exponent(u));
  }

  lemma NonNegative(q: Quantity)
    requires Amount(q) >= 0.0
    ensures q.value >= 0.0
  {
    ScaledZero(Exponent(q.unit));
    ScaledOrder(q.value, 0.0, Exponent(q.unit));
  }

  lemma MebiAmount(v: real)
    ensures Amount(Quantity(v, Mebi)) == v * MIB
  {
    assert Scaled(v, 2) == Scaled(v * 1024.0, 1) == Scaled(v * 1024.0 * 1024.0, 0);
  }

  // ----- Sums -----

  function Add(a: Quantity, b: Quantity): Quantity {
    Quantity(a.value + ScaleTo(b, a.unit).value, a.unit)
  }

  function Sub(a: Quantity, b: Quantity): Quantity {
    Quantity(a.value - ScaleTo(b, a.unit).value, a.unit)
  }

  function FoldAdd(start: Quantity, qs: seq<Quantity>): Quantity
    decreases |qs|
  {
    if qs == [] then start else FoldAdd(Add(start, qs[0]), qs[1..])
  }

  function Sum(qs: seq<Quantity>): Quantity {
    FoldAdd(Quantity(0.0, Kibi), qs)
  }

  function TotalAmount(qs: seq<Quantity>): real {
    if qs == [] then 0.0 else Amount(qs[0]) + TotalAmount(qs[1..])
  }

  /** Addition and subtraction denote those of the amounts, and undo each other. */
  lemma AddAndSubAmounts(a: Quantity, b: Quantity)
    ensures Amount(Add(a, b)) == Amount(a) + Amount(b)
    ensures Amount(Sub(a, b)) == Amount(a) - Amount(b)
    ensures Sub(Add(a, b), b) == a
  {
    ScalingKeepsAmount(b, a.unit);
    var x := ScaleTo(b, a.unit).value;
    ScaledAdd(a.value, x, Exponent(a.unit));
    ScaledAdd(a.value - x, x, Exponent(a.unit));
  }

  /** A quantity that is changed in place and keeps its unit. */
  class QuantityCell {
    var current: Quantity

    constructor (q: Quantity)
      ensures current == q
    {
      current := q;
    }

    method AddAssign(rhs: Quantity)
      modifies this
      ensures current.unit == old(current).unit
      ensures Amount(current) == Amount(old(current)) + Amount(rhs)
    {
      AddAndSubAmounts(current, rhs);
      current := current.(value := current.value + ScaleTo(rhs, current.unit).value);
    }

    method SubAssign(rhs: Quantity)
      modifies this
      ensures current.unit == old(current).unit
      ensures Amount(current) == Amount(old(current)) - Amount(rhs)
    {
      AddAndSubAmounts(current, rhs);
      current := current.(value := current.value - ScaleTo(rhs, current.unit).value);
    }
  }

  lemma {:induction false} FoldAddAmount(start: Quantity, qs: seq<Quantity>)
    ensures Amount(FoldAdd(start, qs)) == Amount(start) + TotalAmount(qs)
    ensures FoldAdd(start, qs).unit == start.unit
    decreases |qs|
  {
    if qs != [] {
      AddAndSubAmounts(start, qs[0]);
      FoldAddAmount(Add(start, qs[0]), qs[1..]);
    }
  }

  lemma {:induction false} TotalAmountWithout(qs: seq<Quantity>, i: nat)
    requires i < |qs|
    ensures TotalAmount(qs) == Amount(qs[i]) + TotalAmount(qs[..i] + qs[i + 1..])
  {
    if i == 0 {
      assert qs[..0] + qs[1..] == qs[1..];
    } else {
      TotalAmountWithout(qs[1..], i - 1);
      assert (qs[..i] + qs[i + 1..])[1..] == qs[1..][..i - 1] + qs[1..][i..];
    }
  }

  /** The first element of one list stands somewhere in every permutation of it. */
  lemma Occurrence(qs: seq<Quantity>, rs: seq<Quantity>) returns (i: nat)
    requires multiset(qs) == multiset(rs) && qs != []
    ensures i < |rs| && rs[i] == qs[0] && multiset(qs[1..]) == multiset(rs[..i] + rs[i + 1..])
  {
    assert qs[0] in multiset(rs);
    i :| 0 <= i < |rs| && rs[i] == qs[0];
    var rest := rs[..i] + rs[i + 1..];
    assert qs == [qs[0]] + qs[1..];
    assert rs == rs[..i] + [rs[i]] + rs[i + 1..];
    assert multiset(rs) == multiset(rest) + multiset{qs[0]};
    assert multiset(qs) == multiset(qs[1..]) + multiset{qs[0]};
    assert multiset(qs) - multiset{qs[0]} == multiset(qs[1..]);
  }

  lemma {:induction false} TotalAmountIgnoresOrder(qs: seq<Quantity>, rs: seq<Quantity>)
    requires multiset(qs) == multiset(rs)
    ensures TotalAmount(qs) == TotalAmount(rs)
    decreases |qs|
  {
    if qs == [] {
      assert |multiset(rs)| == |rs|;
    } else {
      var i := Occurrence(qs, rs);
      TotalAmountWithout(rs, i);
      TotalAmountIgnoresOrder(qs[1..], rs[..i] + rs[i + 1..]);
    }
  }

  /** A sum denotes the total of its parts; the order of the parts does not matter. */
  lemma SumDenotesTotal(qs: seq<Quantity>, rs: seq<Quantity>)
    requires multiset(qs) == multiset(rs)
    ensures Amount(Sum(qs)) == TotalAmount(qs)
    ensures Sum(qs) == Sum(rs)
  {
    FoldAddAmount(Quantity(0.0, Kibi), qs);
    FoldAddAmount(Quantity(0.0, Kibi), rs);
    TotalAmountIgnoresOrder(qs, rs);
    KibiAmount(Sum(qs).value);
    KibiAmount(Sum(rs).value);
  }

  function Ceil(x: real): int {
    -((-x).Floor)
  }

  /** The number of MiB of a log volume. */
  function LogVolumeSizeLimit(maxLogFilesSizes: seq<Quantity>): int {
    Ceil(ScaleTo(Sum(maxLogFilesSizes), Mebi).value * 3.0)
  }

  /** The limit is the least whole number of MiB that is at least three times the total. */
  lemma LogVolumeLimitIsLeast(qs: seq<Quantity>, n: int)
    ensures n >= LogVolumeSizeLimit(qs) <==> Amount(Quantity(n as real, Mebi)) >= 3.0 * TotalAmount(qs)
  {
    SumDenotesTotal(qs, qs);
    ScalingKeepsAmount(Sum(qs), Mebi);
    var x := ScaleTo(Sum(qs), Mebi).value;
    MebiAmount(x);
    MebiAmount(n as real);
    CeilIsLeast(x * 3.0, n);
  }

  lemma CeilIsLeast(x: real, n: int)
    ensures n >= Ceil(x) <==> n as real >= x
  {
  }
}
