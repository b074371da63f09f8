# Option payoff curves in Dafny

This project models the core of `option.cc`. That file holds two kinds of code: a
piecewise-linear profit/loss curve (`ReturnCurve`) and the option contracts (`Option`)
that produce such curves. The model is split into three modules:

- `Curves` (`curve.dfy`) covers the return curve. A curve is a list of turning points
  `(price, value)`. `EvaluateReturnAtPrice` scans for the first pair of neighbouring turning
  points around a price and interpolates between them. `operator+` merges two curves with
  two cursors. Both are imperative methods with loops. Each is proved equal to a
  specification function (`ValueAt`, `Sum`), and the lemmas state what those functions
  mean:
  - the domain of evaluation;
  - evaluation is exact at turning points and linear between them;
  - the merged prices are the sorted union of both inputs;
  - superposition, commutativity and associativity of `+`;
  - the sum is the unique curve with these properties.
- `Options` (`option.dfy`) covers one option. Each `Option` template instantiation
  becomes a datatype value: its kind, side and style, its due date in days, its strike and
  asset price in cents, and its rate in percent. `GetStrikePrice`, `IntrinsicValue`,
  `GetReturnCurve` and the premium bounds are functions.
- `Spreads` (`spreads.dfy`) covers the strategies that `main` builds by adding option
  curves: the bull spread, the bear spread and the butterfly.

The source's `float` becomes `real`, so the arithmetic is exact. A failed `assert` and the
`runtime_error` thrown by evaluation become the `Err` side of a `Result`:
`EndpointMismatch` for the first and `OutsideRange` for the second. The exponential
function in the premium bounds is a parameter `exp: real -> real`.

## Model

| member | source | states |
|---|---|---|
| Curves.EvaluateReturnAtPrice | option.cc:83-96 | the index loop returns exactly `ValueAt`: the interpolation on the first pair of neighbouring turning points around the price, or `OutsideRange` when no pair encloses it |
| Curves.ValueAtDomain | option.cc:83-95 | on a valid curve, evaluation succeeds if and only if `first <= price <= last`; every failure is `OutsideRange` |
| Curves.ValueAtSegment | option.cc:84-93 | when turning points `k` and `k+1` enclose the price, evaluation returns the linear interpolation between them |
| Curves.ValueAtTurningPoint | option.cc:84-93 | evaluating at a turning point's price returns exactly that point's value |
| Curves.Add | option.cc:30-73 | the two-cursor merge with its two leftover loops returns exactly `Sum`: `EndpointMismatch` when the first or last prices differ, otherwise the merged curve |
| Curves.MergeRound | option.cc:40-63 | one round of the merge emits the point `Emit` describes and advances the cursors as `Step` does: both on a shared price, otherwise only the cursor at the lower price |
| Curves.AppendRest | option.cc:65-70 | a leftover loop appends exactly the rest of the list, unchanged |
| Curves.CursorsFinishTogether | option.cc:38-64 | when the curves share their last price, a round of the merge loop moves one cursor off its list exactly when it moves the other off its list |
| Curves.LeftoversEmpty | option.cc:38-70 | with shared ends, the merge loop started from the beginning (or from any cursors that are both done or both not done) leaves both cursors at the end of their lists, so the leftover loops append nothing |
| Curves.MergeFromCorrect | option.cc:37-70 | from any cursor pair that is both done or both not done, the merge succeeds with strictly increasing prices, the union of the remaining input prices, and at each price the value of one curve plus the other's value there |
| Curves.SumCorrect | option.cc:30-73 | on valid curves, the sum exists if and only if both share first and last price. It is then a valid curve with those ends, its prices are the union of the input prices, and each point's value is one input's value plus the other's value at that price |
| Curves.SumKeepsTurningPoints | option.cc:40-63 | a price of `a` reappears in `a + b` with `b`'s value at that price added; where `b` also turns at that price, the added value is `b`'s own |
| Curves.Superposition | option.cc:30-96 | evaluating `a + b` at a price succeeds exactly where evaluating `a` (and `b`) does, and returns the sum of both evaluations |
| Curves.Plus | option.cc:30-73 | the sum of two valid curves with shared ends, which is itself valid with the same ends |
| Curves.SumCommutes | option.cc:30-73 | `a + b == b + a`, including which error is reported |
| Curves.SumAssociates | option.cc:30-73 | `(a + b) + c == a + (b + c)` for valid curves with shared ends |
| Curves.SumIsUnique | option.cc:30-73 | any increasing list over the union of prices whose values are pointwise sums is exactly the result of `a + b` |
| Options.GetStrikePrice | option.cc:107 | the strike in currency units is the strike in cents divided by 100 |
| Options.IntrinsicValue | option.cc:109-123 | long positions are worth at least 0 and short ones at most 0; the value is non-zero if and only if the option is in the money (so 0 at the strike) |
| Options.ShortIsNegatedLong | option.cc:109-123 | the short payoff is the long payoff negated |
| Options.CallPutParity | option.cc:109-123 | a long call minus a long put on the same strike pays `price - K` |
| Options.SingleOptionsInMain | option.cc:185-192 | the strike 18, the intrinsic values 0 at 11 and 3 at 21, and the put upper bound 18 of main |
| Options.PriceUpperBoundAsWritten | option.cc:125-138 | the upper bound as the code computes it: the asset price for a call; for an American put the smaller of the asset price and the strike (it is one of the two and exceeds neither); for a European put never above the asset price |
| Options.PriceUpperBound | option.cc:125-138 | the corrected upper bound: the same as the code's for a call, never below the code's bound, and for a put its largest payoff (the long put's value at price 0), discounted for a European put |
| Options.PriceLowerBound | option.cc:140-158 | the lower bound is never negative, and for an American put it equals the value of exercising the put now |
| Options.AsWrittenCallBoundsOrdered | option.cc:125-148 | for a call, the code's bounds never cross (non-negative prices, positive discount factor) |
| Options.AsWrittenEuropeanPutBoundsCross | option.cc:133-135 | for a European put, the bounds as written cross exactly when the asset price is below half the discounted strike |
| Options.AsWrittenPutBoundsCross | option.cc:129-132 | for an American put the as-written upper bound falls below the lower bound exactly when the asset price is below half the strike |
| Options.AsWrittenPutBoundsCrossExample | option.cc:129-132 | the American put with strike 100.00 and asset 10.00 gets an upper bound of 10 and a lower bound of 90 |
| Options.BoundsOrdered | option.cc:125-158 | with the corrected put upper bound, the lower bound never exceeds the upper bound (non-negative prices, positive discount factor) |
| Options.GetReturnCurve | option.cc:160-181 | three turning points at 0, K and 10000 with value 0 at the strike; the points are strictly increasing when `0 < K < 10000` |
| Options.ReturnCurveIsPayoff | option.cc:160-181 | the curve is defined exactly on `[0, 10000]` and equals `IntrinsicValue` there, so its end values are `0` and `±(10000 - K)` for a call, and `±K` and `0` for a put |
| Options.ReturnCurvesShareEnds | option.cc:160-181 | any two option curves have the same first and last price, so `+` accepts them |
| Spreads.TwoLegs | option.cc:30-73 | the sum of two option curves is the increasing list over `{0, K1, K2, 10000}` carrying the summed intrinsic values |
| Spreads.BullSpread | option.cc:201-210 | long call at 30 plus short call at 35 is `0@0 0@30 5@35 5@10000` |
| Spreads.BearSpread | option.cc:212-221 | long put at 35 plus short put at 30 is `5@0 5@30 0@35 0@10000` |
| Spreads.AddLeg | option.cc:234-235 | adding one option's curve to a strategy over `[0, 10000]` adds that option's intrinsic value at every price |
| Spreads.FourLegsPayoff | option.cc:234-235 | four option curves added left to right evaluate to the sum of the four intrinsic values |
| Spreads.ButterflyShape | option.cc:223-237 | a butterfly pays 0 at 0, at both wings and at 10000, and the wing width at its centre |
| Spreads.ButterflyInMain | option.cc:223-237 | the butterfly of main has value 0 at 0, 55, 65 and 10000, and 5 at 60 |

## Left out

- `ReturnCurve::Print` and `main` write to the console. The figures that `main` prints
  are stated as lemmas instead.
- The unused `Date` struct.
- `interest_rate.cc`, `cross_hedge.cc`, `forward_and_future_price.cc` and
  `interest_future.cc` are not part of this model. They hold floating-point formulas
  (`log`, `exp`, `sqrt`, a Newton-Raphson loop) with no structure to verify.
- Floating-point rounding. Reals are exact, so float ties and rounding in interpolation are
  not captured.
- The exponential function is a parameter `exp`. The exp-based premium bounds are stated
  only in terms of whatever `exp` returns.
- The curve constructor stores any list without checking it. Curves whose prices are not
  strictly increasing are outside the model: `ValueAt`, `Sum`, `EvaluateReturnAtPrice` and
  `Add` require increasing prices. On such input the source may divide by zero or merge
  out of order.
- The source's `assert` is modelled as always enabled. A build with `NDEBUG` would merge
  mismatched curves anyway; that behaviour is not modelled.
- A curve with no turning points makes the source read past the end of its vector, which is
  undefined behaviour. The model returns `EndpointMismatch` from `+` and `OutsideRange`
  from evaluation instead.
- `Curves.MergeRound` and `Curves.AppendRest` are the loop body and the leftover loops of
  the single `operator+`, split into methods of their own.
- Curves.SumCorrect: the characterisation of `+` assumes valid curves (at least two
  turning points). A one-point curve merged with itself is covered by `Sum` and `Add`, but
  not by the lemma.
- Spreads.ButterflyShape: states the butterfly's values at its five characteristic prices,
  not its exact list of turning points.

## Findings

| source | as written | input that shows it | evidently intended | confidence | as-written member | corrected member |
|---|---|---|---|---|---|---|
| option.cc:129-135 | the put premium upper bound is `min(AP, SP) / 100` for an American put and `min(AP / 100, SP / 100 * exp(-rT))` for a European put | American put, strike 10000 cents, asset 1000 cents: upper bound 10, lower bound 90 | the strike `K` for an American put and the discounted strike `K * exp(-rT)` for a European put, the no-arbitrage bounds, which never fall below the lower bound | high, not executed | Options.PriceUpperBoundAsWritten, Options.AsWrittenPutBoundsCrossExample, Options.AsWrittenEuropeanPutBoundsCross | Options.PriceUpperBound, Options.BoundsOrdered |
