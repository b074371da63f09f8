/** Single option contracts (the Option class template of option.cc): strike,
    intrinsic value, no-arbitrage bounds on the premium, and the payoff curve at expiry. */
module Options {
  import opened Curves

  datatype OptionType = Call | Put
  datatype BuySide = Long | Short
  datatype OptionClass = America | Europe

  /** The template arguments of one Option instantiation: the due date in days, the
      strike price and the underlying asset's current price in cents, and the
      continuously compounded risk-free rate in percent. */
  datatype Option = Option(
    kind: OptionType, side: BuySide, style: OptionClass,
    dueDays: int, strikeCents: int, assetCents: int, ratePercent: int)

  /** The upper end of the price range every payoff curve covers. */
  const RangeMax: real := 10000.0

  /** The strike in currency units. */
  function GetStrikePrice(o: Option): (k: real)
    ensures k * 100.0 == o.strikeCents as real
  {
    o.strikeCents as real / 100.0
  }

  /** The underlying asset's current price in currency units. */
  function AssetPrice(o: Option): real
  {
    o.assetCents as real / 100.0
  }

  /** Exercising now pays off: a call when the price is above the strike, a put when
      it is below. */
  predicate InTheMoney(o: Option, price: real)
  {
    match o.kind
    case Call => price > GetStrikePrice(o)
    case Put => price < GetStrikePrice(o)
  }

  function Max(x: real, y: real): real
  {
    if x >= y then x else y
  }

  function Min(x: real, y: real): real
  {
    if x <= y then x else y
  }

  /** The payoff of exercising at `price`: never negative for the holder, never positive
      for the writer, and zero exactly when the option is not in the money. */
  function IntrinsicValue(o: Option, price: real): (r: real)
    ensures o.side == Long ==> r >= 0.0
    ensures o.side == Short ==> r <= 0.0
    ensures r != 0.0 <==> InTheMoney(o, price)
  {
    match (o.kind, o.side)
    case (Call, Long) => Max(price - GetStrikePrice(o), 0.0)
    case (Call, Short) => -Max(price - GetStrikePrice(o), 0.0)
    case (Put, Long) => Max(GetStrikePrice(o) - price, 0.0)
    case (Put, Short) => -Max(GetStrikePrice(o) - price, 0.0)
  }

  /** The writer's payoff is the holder's, negated. */
  lemma ShortIsNegatedLong(o: Option, price: real)
    ensures IntrinsicValue(o.(side := Short), price) == -IntrinsicValue(o.(side := Long), price)
  {
  }

  /** Parity at exercise: a long call less a long put on the same strike pays the price
      less the strike. */
  lemma CallPutParity(o: Option, price: real)
    ensures IntrinsicValue(o.(kind := Call, side := Long), price)
          - IntrinsicValue(o.(kind := Put, side := Long), price) == price - GetStrikePrice(o)
  {
  }

  /** The exponent -(rate / 100) * days / 360 of the continuous discount factor. */
  function DiscountExponent(o: Option): real
  {
    -(o.ratePercent as real / 100.0) * o.dueDays as real / 360.0
  }

  /** PriceUpperBond as the source writes it; `exp` stands for the exponential function.
      For a put it is capped by the asset price, which is what lets it cross the lower
      bound. */
  function PriceUpperBoundAsWritten(o: Option, exp: real -> real): (r: real)
    ensures o.kind == Call ==> r == AssetPrice(o)
    ensures o.kind == Put ==> r <= AssetPrice(o)
    ensures o.kind == Put && o.style == America ==> r <= GetStrikePrice(o)
    ensures o.kind == Put && o.style == America ==> r == AssetPrice(o) || r == GetStrikePrice(o)
  {
    match o.kind
    case Call => AssetPrice(o)
    case Put =>
      match o.style
      case America => Min(AssetPrice(o), GetStrikePrice(o))
      case Europe => Min(AssetPrice(o), GetStrikePrice(o) * exp(DiscountExponent(o)))
  }

  /** The no-arbitrage upper bound on the premium: the asset price for a call, the strike
      for an American put, the discounted strike for a European put: a put's largest
      payoff (at price 0), discounted when it can only be exercised at expiry. It agrees
      with the code for calls and is never below the code's bound. */
  function PriceUpperBound(o: Option, exp: real -> real): (r: real)
    ensures o.kind == Call ==> r == PriceUpperBoundAsWritten(o, exp)
    ensures r >= PriceUpperBoundAsWritten(o, exp)
    ensures o.kind == Put && o.style == America && o.strikeCents >= 0 ==>
      r == IntrinsicValue(o.(side := Long), 0.0)
    ensures o.kind == Put && o.style == Europe && o.strikeCents >= 0 ==>
      r == IntrinsicValue(o.(side := Long), 0.0) * exp(DiscountExponent(o))
  {
    match o.kind
    case Call => AssetPrice(o)
    case Put =>
      match o.style
      case America => GetStrikePrice(o)
      case Europe => GetStrikePrice(o) * exp(DiscountExponent(o))
  }

  /** The no-arbitrage lower bound on the premium: never negative, and for an American
      put the value of exercising it now. */
  function PriceLowerBound(o: Option, exp: real -> real): (r: real)
    ensures r >= 0.0
    ensures o.kind == Put && o.style == America ==> r == IntrinsicValue(o.(side := Long), AssetPrice(o))
  {
    match o.kind
    case Call => Max(AssetPrice(o) - GetStrikePrice(o) * exp(DiscountExponent(o)), 0.0)
    case Put =>
      match o.style
      case America => Max(GetStrikePrice(o) - AssetPrice(o), 0.0)
      case Europe => Max(GetStrikePrice(o) * exp(DiscountExponent(o)) - AssetPrice(o), 0.0)
  }

  /** For an American put the bounds as written cross (upper below lower) exactly when
      the asset trades below half the strike. */
  lemma AsWrittenPutBoundsCross(o: Option, exp: real -> real)
    requires o.kind == Put && o.style == America && o.assetCents >= 0 && o.strikeCents >= 0
    ensures PriceUpperBoundAsWritten(o, exp) < PriceLowerBound(o, exp)
        <==> 2 * o.assetCents < o.strikeCents
  {
  }

  /** For a European put with a positive discount factor the bounds as written cross
      exactly when the asset trades below half the discounted strike. */
  lemma AsWrittenEuropeanPutBoundsCross(o: Option, exp: real -> real)
    requires o.kind == Put && o.style == Europe && o.assetCents >= 0 && o.strikeCents >= 0
    requires exp(DiscountExponent(o)) > 0.0
    ensures PriceUpperBoundAsWritten(o, exp) < PriceLowerBound(o, exp)
        <==> 2.0 * AssetPrice(o) < GetStrikePrice(o) * exp(DiscountExponent(o))
  {
  }

  /** The instance behind the finding: an American put struck at 100.00 on an asset at
      10.00 gets an upper bound of 10 and a lower bound of 90. */
  lemma AsWrittenPutBoundsCrossExample(exp: real -> real)
    ensures var o := Option(Put, Long, America, 30, 10000, 1000, 10);
      PriceUpperBoundAsWritten(o, exp) == 10.0 && PriceLowerBound(o, exp) == 90.0
  {
  }

  /** The single-option figures of main: a call struck at 18.00 is worth nothing at 11.00
      and 3 at 21.00, and the American put on the same terms is bounded above by 18. */
  lemma SingleOptionsInMain(exp: real -> real)
    ensures var o := Option(Call, Long, America, 30, 1800, 2000, 10);
      GetStrikePrice(o) == 18.0 && IntrinsicValue(o, 11.0) == 0.0 && IntrinsicValue(o, 21.0) == 3.0
    ensures var o := Option(Put, Long, America, 30, 1800, 2000, 10);
      PriceUpperBoundAsWritten(o, exp) == 18.0 && PriceUpperBound(o, exp) == 18.0
  {
  }

  /** With non-negative prices and a positive discount factor, the corrected bounds never
      cross. */
  lemma BoundsOrdered(o: Option, exp: real -> real)
    requires o.assetCents >= 0 && o.strikeCents >= 0 && exp(DiscountExponent(o)) > 0.0
    ensures PriceLowerBound(o, exp) <= PriceUpperBound(o, exp)
  {
    var k, e := GetStrikePrice(o), exp(DiscountExponent(o));
    assert k * e >= 0.0;
  }

  /** The call bounds are the same as written and corrected, so for a call the code's own
      bounds never cross. */
  lemma AsWrittenCallBoundsOrdered(o: Option, exp: real -> real)
    requires o.kind == Call && o.assetCents >= 0 && o.strikeCents >= 0
    requires exp(DiscountExponent(o)) > 0.0
    ensures PriceLowerBound(o, exp) <= PriceUpperBoundAsWritten(o, exp)
  {
    BoundsOrdered(o, exp);
  }

  /** The payoff at expiry as a three-point curve over [0, RangeMax]: flat at 0 on the
      side where the option expires worthless, a slope of +-1 on the other side. */
  function GetReturnCurve(o: Option): (c: ReturnCurve)
    ensures |c.points| == 3 && First(c.points) == 0.0 && Last(c.points) == RangeMax
    ensures c.points[1] == Point(GetStrikePrice(o), 0.0)
    ensures 0.0 < GetStrikePrice(o) < RangeMax ==> Valid(c.points)
  {
    var k := GetStrikePrice(o);
    match (o.kind, o.side)
    case (Call, Long) => ReturnCurve([Point(0.0, 0.0), Point(k, 0.0), Point(RangeMax, RangeMax - k)])
    case (Call, Short) => ReturnCurve([Point(0.0, 0.0), Point(k, 0.0), Point(RangeMax, -RangeMax + k)])
    case (Put, Long) => ReturnCurve([Point(0.0, k), Point(k, 0.0), Point(RangeMax, 0.0)])
    case (Put, Short) => ReturnCurve([Point(0.0, -k), Point(k, 0.0), Point(RangeMax, 0.0)])
  }

  /** Up to the strike the curve follows its first segment. */
  lemma PayoffBelowStrike(o: Option, price: real)
    requires 0.0 < GetStrikePrice(o) < RangeMax && 0.0 <= price <= GetStrikePrice(o)
    ensures ValueAt(GetReturnCurve(o).points, price) == Ok(IntrinsicValue(o, price))
  {
    var pts := GetReturnCurve(o).points;
    ValueAtSegment(pts, 0, price);
    var slope := if o.kind == Call then 0.0 else if o.side == Long then -1.0 else 1.0;
    InterpolateOnLine(pts[0], pts[1], slope, price);
  }

  /** From the strike on the curve follows its second segment. */
  lemma PayoffAboveStrike(o: Option, price: real)
    requires 0.0 < GetStrikePrice(o) < RangeMax && GetStrikePrice(o) <= price <= RangeMax
    ensures ValueAt(GetReturnCurve(o).points, price) == Ok(IntrinsicValue(o, price))
  {
    var pts := GetReturnCurve(o).points;
    ValueAtSegment(pts, 1, price);
    var slope := if o.kind == Put then 0.0 else if o.side == Long then 1.0 else -1.0;
    InterpolateOnLine(pts[1], pts[2], slope, price);
  }

  /** The return curve IS the intrinsic value as a function of the price at expiry: it is
      defined exactly on [0, RangeMax] and agrees with IntrinsicValue everywhere there. */
  lemma ReturnCurveIsPayoff(o: Option, price: real)
    requires 0.0 < GetStrikePrice(o) < RangeMax
    ensures ValueAt(GetReturnCurve(o).points, price).Ok? <==> 0.0 <= price <= RangeMax
    ensures 0.0 <= price <= RangeMax ==>
      ValueAt(GetReturnCurve(o).points, price).value == IntrinsicValue(o, price)
  {
    ValueAtDomain(GetReturnCurve(o).points, price);
    if 0.0 <= price <= GetStrikePrice(o) {
      PayoffBelowStrike(o, price);
    } else if GetStrikePrice(o) <= price <= RangeMax {
      PayoffAboveStrike(o, price);
    }
  }

  /** Every option's curve spans [0, RangeMax], so any two of them can be added. */
  lemma ReturnCurvesShareEnds(o1: Option, o2: Option)
    ensures SameEnds(GetReturnCurve(o1).points, GetReturnCurve(o2).points)
  {
  }
}
