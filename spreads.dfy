/** The spread strategies that option.cc's main builds by adding option payoff curves. */
module Spreads {
  import opened Curves
  import opened Options

  lemma PricesOfThree(p0: Point, p1: Point, p2: Point)
    ensures Prices([p0, p1, p2]) == {p0.price, p1.price, p2.price}
  {
    PricesOfCons(p2, []);
    assert [p1, p2] == [p1] + [p2];
    PricesOfCons(p1, [p2]);
    assert [p0, p1, p2] == [p0] + [p1, p2];
    PricesOfCons(p0, [p1, p2]);
  }

  lemma PricesOfFour(p0: Point, p1: Point, p2: Point, p3: Point)
    ensures Prices([p0, p1, p2, p3]) == {p0.price, p1.price, p2.price, p3.price}
  {
    PricesOfThree(p1, p2, p3);
    assert [p0, p1, p2, p3] == [p0] + [p1, p2, p3];
    PricesOfCons(p0, [p1, p2, p3]);
  }

  /** A strategy of two options: its curve is the increasing list of turning points at
      0, both strikes and RangeMax, each carrying the two options' summed intrinsic value. */
  lemma TwoLegs(o1: Option, o2: Option, c: seq<Point>)
    requires 0.0 < GetStrikePrice(o1) < RangeMax && 0.0 < GetStrikePrice(o2) < RangeMax
    requires Increasing(c)
    requires Prices(c) == {0.0, GetStrikePrice(o1), GetStrikePrice(o2), RangeMax}
    requires forall k :: 0 <= k < |c| ==>
      c[k].value == IntrinsicValue(o1, c[k].price) + IntrinsicValue(o2, c[k].price)
    ensures Sum(GetReturnCurve(o1), GetReturnCurve(o2)) == Ok(ReturnCurve(c))
  {
    var a, b := GetReturnCurve(o1), GetReturnCurve(o2);
    PricesOfThree(a.points[0], a.points[1], a.points[2]);
    PricesOfThree(b.points[0], b.points[1], b.points[2]);
    forall k | 0 <= k < |c| ensures SumAt(a.points, b.points, c[k]) {
      assert c[k].price in Prices(c);
      ReturnCurveIsPayoff(o1, c[k].price);
      ReturnCurveIsPayoff(o2, c[k].price);
    }
    SumIsUnique(a, b, c);
  }

  /** Bull spread: long a call struck at 30, short a call struck at 35. */
  lemma BullSpread()
    ensures Sum(GetReturnCurve(Option(Call, Long, Europe, 90, 3000, -1, -1)),
                GetReturnCurve(Option(Call, Short, Europe, 90, 3500, -1, -1)))
         == Ok(ReturnCurve([Point(0.0, 0.0), Point(30.0, 0.0), Point(35.0, 5.0), Point(10000.0, 5.0)]))
  {
    var c := [Point(0.0, 0.0), Point(30.0, 0.0), Point(35.0, 5.0), Point(10000.0, 5.0)];
    PricesOfFour(c[0], c[1], c[2], c[3]);
    TwoLegs(Option(Call, Long, Europe, 90, 3000, -1, -1), Option(Call, Short, Europe, 90, 3500, -1, -1), c);
  }

  /** Bear spread: long a put struck at 35, short a put struck at 30. */
  lemma BearSpread()
    ensures Sum(GetReturnCurve(Option(Put, Long, Europe, 90, 3500, -1, -1)),
                GetReturnCurve(Option(Put, Short, Europe, 90, 3000, -1, -1)))
         == Ok(ReturnCurve([Point(0.0, 5.0), Point(30.0, 5.0), Point(35.0, 0.0), Point(10000.0, 0.0)]))
  {
    var c := [Point(0.0, 5.0), Point(30.0, 5.0), Point(35.0, 0.0), Point(10000.0, 0.0)];
    PricesOfFour(c[0], c[1], c[2], c[3]);
    TwoLegs(Option(Put, Long, Europe, 90, 3500, -1, -1), Option(Put, Short, Europe, 90, 3000, -1, -1), c);
  }

  /** Adding one more option to a strategy spanning [0, RangeMax] adds that option's
      intrinsic value at every price of the range. */
  lemma AddLeg(acc: ReturnCurve, o: Option, price: real)
    requires Valid(acc.points) && First(acc.points) == 0.0 && Last(acc.points) == RangeMax
    requires 0.0 < GetStrikePrice(o) < RangeMax && 0.0 <= price <= RangeMax
    ensures ValueAt(acc.points, price).Ok?
    ensures ValueAt(Plus(acc, GetReturnCurve(o)).points, price)
         == Ok(ValueAt(acc.points, price).value + IntrinsicValue(o, price))
  {
    Superposition(acc, GetReturnCurve(o), price);
    ReturnCurveIsPayoff(o, price);
  }

  /** Four options added left to right, as main adds the butterfly's legs. */
  function FourLegs(o1: Option, o2: Option, o3: Option, o4: Option): ReturnCurve
    requires forall o | o in [o1, o2, o3, o4] :: 0.0 < GetStrikePrice(o) < RangeMax
  {
    Plus(Plus(Plus(GetReturnCurve(o1), GetReturnCurve(o2)), GetReturnCurve(o3)), GetReturnCurve(o4))
  }

  /** The curve of four options is the sum of their intrinsic values over [0, RangeMax]. */
  lemma FourLegsPayoff(o1: Option, o2: Option, o3: Option, o4: Option, price: real)
    requires forall o | o in [o1, o2, o3, o4] :: 0.0 < GetStrikePrice(o) < RangeMax
    requires 0.0 <= price <= RangeMax
    ensures ValueAt(FourLegs(o1, o2, o3, o4).points, price)
         == Ok(IntrinsicValue(o1, price) + IntrinsicValue(o2, price)
               + IntrinsicValue(o3, price) + IntrinsicValue(o4, price))
  {
    var c1, c2, c3 := GetReturnCurve(o1), GetReturnCurve(o2), GetReturnCurve(o3);
    ReturnCurveIsPayoff(o1, price);
    AddLeg(c1, o2, price);
    AddLeg(Plus(c1, c2), o3, price);
    AddLeg(Plus(Plus(c1, c2), c3), o4, price);
  }

  /** A butterfly centred on `center` cents with wings `width` cents away: long calls at
      both wings, two short calls at the centre. */
  function Butterfly(center: int, width: int): ReturnCurve
    requires 0 < width < center && center + width < 1000000
  {
    var low, high := Option(Call, Long, Europe, 90, center - width, -1, -1), Option(Call, Long, Europe, 90, center + width, -1, -1);
    var mid := Option(Call, Short, Europe, 90, center, -1, -1);
    assert forall o | o in [low, high, mid, mid] :: 0.0 < GetStrikePrice(o) < RangeMax;
    FourLegs(low, high, mid, mid)
  }

  /** A butterfly pays nothing up to its lower wing and from its upper wing on, and its
      full wing width at its centre. */
  lemma ButterflyShape(center: int, width: int)
    requires 0 < width < center && center + width < 1000000
    ensures ValueAt(Butterfly(center, width).points, 0.0) == Ok(0.0)
    ensures ValueAt(Butterfly(center, width).points, (center - width) as real / 100.0) == Ok(0.0)
    ensures ValueAt(Butterfly(center, width).points, center as real / 100.0) == Ok(width as real / 100.0)
    ensures ValueAt(Butterfly(center, width).points, (center + width) as real / 100.0) == Ok(0.0)
    ensures ValueAt(Butterfly(center, width).points, RangeMax) == Ok(0.0)
  {
    var low, high := Option(Call, Long, Europe, 90, center - width, -1, -1), Option(Call, Long, Europe, 90, center + width, -1, -1);
    var mid := Option(Call, Short, Europe, 90, center, -1, -1);
    assert forall o | o in [low, high, mid, mid] :: 0.0 < GetStrikePrice(o) < RangeMax;
    FourLegsPayoff(low, high, mid, mid, 0.0);
    FourLegsPayoff(low, high, mid, mid, (center - width) as real / 100.0);
    FourLegsPayoff(low, high, mid, mid, center as real / 100.0);
    FourLegsPayoff(low, high, mid, mid, (center + width) as real / 100.0);
    FourLegsPayoff(low, high, mid, mid, RangeMax);
  }

  /** The butterfly of main (wings at 55 and 65, centre at 60): 0 at 0, 55, 65 and 10000,
      and 5 at 60. */
  lemma ButterflyInMain()
    ensures ValueAt(Butterfly(6000, 500).points, 0.0) == Ok(0.0)
    ensures ValueAt(Butterfly(6000, 500).points, 55.0) == Ok(0.0)
    ensures ValueAt(Butterfly(6000, 500).points, 60.0) == Ok(5.0)
    ensures ValueAt(Butterfly(6000, 500).points, 65.0) == Ok(0.0)
    ensures ValueAt(Butterfly(6000, 500).points, 10000.0) == Ok(0.0)
  {
    ButterflyShape(6000, 500);
  }
}
