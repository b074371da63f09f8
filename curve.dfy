/** Piecewise-linear profit/loss curves (the ReturnCurve class of option.cc).
    A curve is a list of turning points (price, value); between two neighbouring
    turning points the curve is the straight line through them. */
module Curves {

  /** The two ways the curve operations of option.cc can fail. */
  datatype Error =
    | OutsideRange      // EvaluateReturnAtPrice throws "Evaluation is outside the range"
    | EndpointMismatch  // operator+ fails its assertion on the first or last price

  datatype Result<+T> = Ok(value: T) | Err(error: Error) {
    predicate IsFailure() { Err? }
    function PropagateFailure<U>(): Result<U>
      requires Err?
    {
      Err(error)
    }
    function Extract(): T
      requires Ok?
    {
      value
    }
  }

  /** One turning point: the position's return `value` when the underlying trades at `price`. */
  datatype Point = Point(price: real, value: real)

  /** A return curve owns its turning points; nothing changes them after construction. */
  datatype ReturnCurve = ReturnCurve(points: seq<Point>)

  /** Turning-point prices strictly increase (no duplicates). */
  predicate Increasing(pts: seq<Point>)
  {
    forall k, l :: 0 <= k < l < |pts| ==> pts[k].price < pts[l].price
  }

  /** A well-formed curve: at least two turning points, strictly increasing prices. */
  predicate Valid(pts: seq<Point>)
  {
    |pts| >= 2 && Increasing(pts)
  }

  function First(pts: seq<Point>): real
    requires |pts| > 0
  {
    pts[0].price
  }

  function Last(pts: seq<Point>): real
    requires |pts| > 0
  {
    pts[|pts| - 1].price
  }

  /** The set of turning-point prices. */
  function Prices(pts: seq<Point>): set<real>
  {
    set k | 0 <= k < |pts| :: pts[k].price
  }

  /** The straight line through `lo` and `hi`, taken at `price`. */
  function Interpolate(lo: Point, hi: Point, price: real): real
    requires lo.price < hi.price
  {
    lo.value + (hi.value - lo.value) * (price - lo.price) / (hi.price - lo.price)
  }

  /** The value of a curve at `price`: the line through the FIRST pair of neighbouring
      turning points that encloses `price`, or OutsideRange when no pair does. */
  function ValueAt(pts: seq<Point>, price: real): Result<real>
    requires Increasing(pts)
    decreases |pts|
  {
    if |pts| < 2 then Err(OutsideRange)
    else if pts[0].price <= price && pts[1].price >= price then Ok(Interpolate(pts[0], pts[1], price))
    else ValueAt(pts[1..], price)
  }

  /** EvaluateReturnAtPrice: scan the neighbouring pairs in order and interpolate on
      the first one that encloses `price`. */
  method EvaluateReturnAtPrice(curve: ReturnCurve, price: real) returns (r: Result<real>)
    requires Increasing(curve.points)
    ensures r == ValueAt(curve.points, price)
  {
    var pts := curve.points;
    var i := 0;
    while i + 1 < |pts|
      invariant i <= |pts|
      invariant ValueAt(pts[i..], price) == ValueAt(pts, price)
    {
      if pts[i].price <= price && pts[i + 1].price >= price {
        return Ok(Interpolate(pts[i], pts[i + 1], price));
      }
      assert pts[i..][1..] == pts[i + 1..];
      i := i + 1;
    }
    return Err(OutsideRange);
  }

  // ---------------------------------------------------------------------------
  // What evaluation means on a well-formed curve

  /** Evaluation succeeds exactly on the closed interval between the first and the
      last turning price, and fails with OutsideRange everywhere else. */
  lemma {:induction false} ValueAtDomain(pts: seq<Point>, price: real)
    requires Valid(pts)
    ensures ValueAt(pts, price).Ok? <==> First(pts) <= price <= Last(pts)
    ensures ValueAt(pts, price).Err? ==> ValueAt(pts, price).error == OutsideRange
    decreases |pts|
  {
    if !(pts[0].price <= price && pts[1].price >= price) && |pts| > 2 {
      ValueAtDomain(pts[1..], price);
    }
  }

  /** On ANY pair of neighbouring turning points that encloses `price`, the value is
      the line through that pair: taking the first enclosing pair loses nothing. */
  lemma {:induction false} ValueAtSegment(pts: seq<Point>, k: nat, price: real)
    requires Increasing(pts) && k + 1 < |pts|
    requires pts[k].price <= price <= pts[k + 1].price
    ensures ValueAt(pts, price) == Ok(Interpolate(pts[k], pts[k + 1], price))
    decreases |pts|
  {
    if pts[0].price <= price && pts[1].price >= price {
      if k > 0 {
        assert k == 1 && price == pts[1].price;
        InterpolateAtEnds(pts[0], pts[1]);
        InterpolateAtEnds(pts[1], pts[2]);
      }
    } else {
      ValueAtSegment(pts[1..], k - 1, price);
    }
  }

  /** At a turning price the curve returns that turning point's value exactly. */
  lemma ValueAtTurningPoint(pts: seq<Point>, k: nat)
    requires Valid(pts) && k < |pts|
    ensures ValueAt(pts, pts[k].price) == Ok(pts[k].value)
  {
    if k + 1 < |pts| {
      ValueAtSegment(pts, k, pts[k].price);
      InterpolateAtEnds(pts[k], pts[k + 1]);
    } else {
      ValueAtSegment(pts, k - 1, pts[k].price);
      InterpolateAtEnds(pts[k - 1], pts[k]);
    }
  }

  lemma InterpolateAtEnds(lo: Point, hi: Point)
    requires lo.price < hi.price
    ensures Interpolate(lo, hi, lo.price) == lo.value
    ensures Interpolate(lo, hi, hi.price) == hi.value
  {
  }

  // ---------------------------------------------------------------------------
  // operator+: merging two curves with two cursors

  /** Both lists are non-empty and agree on their first and on their last price:
      the two assertions at the start of operator+. */
  predicate SameEnds(a: seq<Point>, b: seq<Point>)
  {
    |a| > 0 && |b| > 0 && First(a) == First(b) && Last(a) == Last(b)
  }

  /** Where the two cursors go after one round of the merge loop. */
  function Step(a: seq<Point>, b: seq<Point>, i: nat, j: nat): (nat, nat)
    requires i < |a| && j < |b|
  {
    if a[i].price == b[j].price then (i + 1, j + 1)
    else if a[i].price < b[j].price then (i + 1, j)
    else (i, j + 1)
  }

  /** The turning point one round of the merge loop appends: at a shared price the sum
      of both values, otherwise the lower point's value plus the other curve's value at
      that price (which fails if that price is outside the other curve). */
  function Emit(a: seq<Point>, b: seq<Point>, i: nat, j: nat): Result<Point>
    requires Increasing(a) && Increasing(b) && i < |a| && j < |b|
  {
    if a[i].price == b[j].price then Ok(Point(a[i].price, a[i].value + b[j].value))
    else if a[i].price < b[j].price then
      var v :- ValueAt(b, a[i].price);
      Ok(Point(a[i].price, a[i].value + v))
    else
      var v :- ValueAt(a, b[j].price);
      Ok(Point(b[j].price, b[j].value + v))
  }

  /** The points the merge appends from cursors (i, j) on: one point per round while
      both cursors are inside their lists, then whatever is left of either list. */
  function MergeFrom(a: seq<Point>, b: seq<Point>, i: nat, j: nat): Result<seq<Point>>
    requires Increasing(a) && Increasing(b) && i <= |a| && j <= |b|
    decreases |a| - i + |b| - j
  {
    if i < |a| && j < |b| then
      var q := Emit(a, b, i, j);
      if q.Err? then Err(q.error)
      else Prepend([q.value], MergeFrom(a, b, Step(a, b, i, j).0, Step(a, b, i, j).1))
    else
      Ok(a[i..] + b[j..])
  }

  /** The curve `a + b`, or the reason operator+ fails. */
  function Sum(a: ReturnCurve, b: ReturnCurve): Result<ReturnCurve>
    requires Increasing(a.points) && Increasing(b.points)
  {
    if !SameEnds(a.points, b.points) then Err(EndpointMismatch)
    else
      var merged :- MergeFrom(a.points, b.points, 0, 0);
      Ok(ReturnCurve(merged))
  }

  /** `out` followed by the outcome `r` of the rest of the merge. */
  function Prepend(out: seq<Point>, r: Result<seq<Point>>): Result<seq<Point>>
  {
    if r.Ok? then Ok(out + r.value) else r
  }

  lemma PrependTwice(out: seq<Point>, more: seq<Point>, r: Result<seq<Point>>)
    ensures Prepend(out, Prepend(more, r)) == Prepend(out + more, r)
  {
    if r.Ok? {
      assert out + (more + r.value) == out + more + r.value;
    }
  }

  /** One round of the merge loop: the point it appends (or the failure of evaluating
      the other curve) and where the two cursors go next. */
  method MergeRound(a: ReturnCurve, b: ReturnCurve, i: nat, j: nat) returns (q: Result<Point>, i': nat, j': nat)
    requires Increasing(a.points) && Increasing(b.points) && i < |a.points| && j < |b.points|
    ensures q == Emit(a.points, b.points, i, j)
    ensures (i', j') == Step(a.points, b.points, i, j)
  {
    var x, y := a.points, b.points;
    if x[i].price == y[j].price {
      q := Ok(Point(x[i].price, x[i].value + y[j].value));
      i', j' := i + 1, j + 1;
    } else if x[i].price < y[j].price {
      var v := EvaluateReturnAtPrice(b, x[i].price);
      q := if v.Err? then Err(v.error) else Ok(Point(x[i].price, x[i].value + v.value));
      i', j' := i + 1, j;
    } else {
      var v := EvaluateReturnAtPrice(a, y[j].price);
      q := if v.Err? then Err(v.error) else Ok(Point(y[j].price, y[j].value + v.value));
      i', j' := i, j + 1;
    }
  }

  /** Append `pts[i..]` to `out` one point at a time. */
  method AppendRest(out: seq<Point>, pts: seq<Point>, i: nat) returns (r: seq<Point>)
    requires i <= |pts|
    ensures r == out + pts[i..]
  {
    r := out;
    var k := i;
    while k < |pts|
      invariant i <= k <= |pts|
      invariant r == out + pts[i..k]
    {
      r := r + [pts[k]];
      k := k + 1;
    }
  }

  /** operator+: two cursors sweep both lists by ascending price; the leftovers of
      either list are appended unchanged. */
  method Add(a: ReturnCurve, b: ReturnCurve) returns (r: Result<ReturnCurve>)
    requires Increasing(a.points) && Increasing(b.points)
    ensures r == Sum(a, b)
  {
    var x, y := a.points, b.points;
    if !SameEnds(x, y) {
      return Err(EndpointMismatch);
    }
    var out: seq<Point> := [];
    var i: nat, j: nat := 0, 0;
    ghost var whole := MergeFrom(x, y, 0, 0);
    assert Sum(a, b) == if whole.Ok? then Ok(ReturnCurve(whole.value)) else Err(whole.error);
    assert whole.Ok? ==> out + whole.value == whole.value;
    while i < |x| && j < |y|
      invariant i <= |x| && j <= |y|
      invariant whole == Prepend(out, MergeFrom(x, y, i, j))
      decreases |x| - i + |y| - j
    {
      var q, i', j' := MergeRound(a, b, i, j);
      if q.Err? {
        return Err(q.error);
      }
      PrependTwice(out, [q.value], MergeFrom(x, y, i', j'));
      out := out + [q.value];
      i, j := i', j';
    }
    assert whole == Ok(out + (x[i..] + y[j..]));
    assert out + (x[i..] + y[j..]) == out + x[i..] + y[j..];
    out := AppendRest(out, x, i);
    out := AppendRest(out, y, j);
    return Ok(ReturnCurve(out));
  }

  /** With shared last prices, one round of the merge loop moves one cursor off its list
      exactly when it moves the other off; LeftoversEmpty draws the conclusion for the
      whole loop. */
  lemma CursorsFinishTogether(a: seq<Point>, b: seq<Point>, i: nat, j: nat)
    requires Increasing(a) && Increasing(b) && SameEnds(a, b)
    requires i < |a| && j < |b|
    ensures Step(a, b, i, j).0 == |a| <==> Step(a, b, i, j).1 == |b|
  {
  }

  /** Where the merge loop leaves its two cursors when started at `i` and `j`: it stops
      as soon as one of them has run off its list. */
  function MergeEnd(a: seq<Point>, b: seq<Point>, i: nat, j: nat): (ends: (nat, nat))
    requires i <= |a| && j <= |b|
    ensures ends.0 <= |a| && ends.1 <= |b|
    ensures ends.0 == |a| || ends.1 == |b|
    decreases |a| - i + |b| - j
  {
    if i < |a| && j < |b| then MergeEnd(a, b, Step(a, b, i, j).0, Step(a, b, i, j).1)
    else (i, j)
  }

  /** From cursors that are both done or both not done (in particular from the start),
      the merge loop runs both cursors to the end of their lists, so the leftover loops
      find nothing to append. */
  lemma {:induction false} LeftoversEmpty(a: seq<Point>, b: seq<Point>, i: nat, j: nat)
    requires Increasing(a) && Increasing(b) && SameEnds(a, b)
    requires i <= |a| && j <= |b| && (i == |a| <==> j == |b|)
    ensures MergeEnd(a, b, i, j) == (|a|, |b|)
    decreases |a| - i + |b| - j
  {
    if i < |a| && j < |b| {
      CursorsFinishTogether(a, b, i, j);
      LeftoversEmpty(a, b, Step(a, b, i, j).0, Step(a, b, i, j).1);
    }
  }

  // ---------------------------------------------------------------------------
  // What the sum means: the merge of two well-formed curves with shared ends

  /** `q` carries the sum of the values of `a` and `b` at its price. */
  predicate SumAt(a: seq<Point>, b: seq<Point>, q: Point)
    requires Increasing(a) && Increasing(b)
  {
    ValueAt(a, q.price).Ok? && ValueAt(b, q.price).Ok? &&
    q.value == ValueAt(a, q.price).value + ValueAt(b, q.price).value
  }

  lemma PricesOfSuffix(pts: seq<Point>, i: nat)
    requires i < |pts|
    ensures Prices(pts[i..]) == {pts[i].price} + Prices(pts[i + 1..])
  {
    var s, t := pts[i..], pts[i + 1..];
    forall x | x in Prices(s) ensures x in {pts[i].price} + Prices(t) {
      var k :| 0 <= k < |s| && s[k].price == x;
      if k > 0 { assert t[k - 1] == s[k]; }
    }
    forall x | x in Prices(t) ensures x in Prices(s) {
      var k :| 0 <= k < |t| && t[k].price == x;
      assert s[k + 1] == t[k];
    }
    assert s[0] == pts[i];
  }

  lemma PricesOfCons(q: Point, rest: seq<Point>)
    ensures Prices([q] + rest) == {q.price} + Prices(rest)
  {
    var s := [q] + rest;
    assert s[1..] == rest;
    PricesOfSuffix(s, 0);
  }

  /** Every price of a well-formed list lies between its first and its last price. */
  lemma PricesWithinEnds(pts: seq<Point>)
    requires Increasing(pts) && |pts| > 0
    ensures forall x :: x in Prices(pts) ==> First(pts) <= x <= Last(pts)
  {
    forall x | x in Prices(pts) ensures First(pts) <= x <= Last(pts) {
      var k :| 0 <= k < |pts| && pts[k].price == x;
      assert k == 0 || pts[0].price < pts[k].price;
      assert k == |pts| - 1 || pts[k].price < pts[|pts| - 1].price;
    }
  }

  /** Every price of `pts[i..]` exceeds `bound` when each point from `i` on does. */
  lemma PricesAbove(pts: seq<Point>, i: nat, bound: real)
    requires i <= |pts|
    requires forall k :: i <= k < |pts| ==> pts[k].price > bound
    ensures forall x :: x in Prices(pts[i..]) ==> x > bound
  {
    forall x | x in Prices(pts[i..]) ensures x > bound {
      var k :| 0 <= k < |pts[i..]| && pts[i..][k].price == x;
      assert pts[i..][k] == pts[i + k];
    }
  }

  /** Putting a point in front of a list whose prices all exceed its own keeps it increasing. */
  lemma ConsIncreasing(q: Point, rest: seq<Point>)
    requires Increasing(rest)
    requires forall x :: x in Prices(rest) ==> x > q.price
    ensures Increasing([q] + rest)
  {
    var s := [q] + rest;
    forall k, l | 0 <= k < l < |s| ensures s[k].price < s[l].price {
      assert s[l] == rest[l - 1];
      assert rest[l - 1].price in Prices(rest);
      if k > 0 { assert s[k] == rest[k - 1]; }
    }
  }

  /** Every point of `m` carries the sum of the values of `a` and `b` at its price. */
  predicate PointwiseSum(m: seq<Point>, a: seq<Point>, b: seq<Point>)
    requires Increasing(a) && Increasing(b)
  {
    forall k :: 0 <= k < |m| ==> SumAt(a, b, m[k])
  }

  /** One round of the merge on well-formed curves with shared ends: evaluating the
      other curve cannot fail, and the point appended carries the sum of both values. */
  lemma EmitCorrect(a: seq<Point>, b: seq<Point>, i: nat, j: nat)
    requires Valid(a) && Valid(b) && SameEnds(a, b) && i < |a| && j < |b|
    ensures Emit(a, b, i, j).Ok?
    ensures SumAt(a, b, Emit(a, b, i, j).value)
    ensures Emit(a, b, i, j).value.price == if a[i].price <= b[j].price then a[i].price else b[j].price
  {
    assert i == 0 || a[0].price < a[i].price;
    assert i == |a| - 1 || a[i].price < a[|a| - 1].price;
    assert j == 0 || b[0].price < b[j].price;
    assert j == |b| - 1 || b[j].price < b[|b| - 1].price;
    ValueAtDomain(a, b[j].price);
    ValueAtDomain(b, a[i].price);
    ValueAtTurningPoint(a, i);
    ValueAtTurningPoint(b, j);
  }

  /** The prices still ahead of the cursors after a round are those ahead of them
      before it, less the price just appended, and all of them exceed it. */
  lemma StepPrices(a: seq<Point>, b: seq<Point>, i: nat, j: nat, price: real)
    requires Increasing(a) && Increasing(b) && i < |a| && j < |b|
    requires price == if a[i].price <= b[j].price then a[i].price else b[j].price
    ensures {price} + Prices(a[Step(a, b, i, j).0..]) + Prices(b[Step(a, b, i, j).1..])
         == Prices(a[i..]) + Prices(b[j..])
    ensures forall x :: x in Prices(a[Step(a, b, i, j).0..]) + Prices(b[Step(a, b, i, j).1..]) ==> x > price
  {
    var (i', j') := Step(a, b, i, j);
    PricesOfSuffix(a, i);
    PricesOfSuffix(b, j);
    PricesAbove(a, i', price);
    PricesAbove(b, j', price);
  }

  /** The merge from cursors (i, j) never fails, yields a strictly increasing list whose
      prices are exactly those left in either list, and gives each of its points the sum
      of the two curves' values at its price. */
  lemma {:induction false} MergeFromCorrect(a: seq<Point>, b: seq<Point>, i: nat, j: nat)
    requires Valid(a) && Valid(b) && SameEnds(a, b)
    requires i <= |a| && j <= |b| && (i == |a| <==> j == |b|)
    ensures var m := MergeFrom(a, b, i, j);
      m.Ok? && Increasing(m.value) && PointwiseSum(m.value, a, b) &&
      Prices(m.value) == Prices(a[i..]) + Prices(b[j..])
    decreases |a| - i + |b| - j
  {
    if i < |a| && j < |b| {
      var (i', j') := Step(a, b, i, j);
      CursorsFinishTogether(a, b, i, j);
      MergeFromCorrect(a, b, i', j');
      EmitCorrect(a, b, i, j);
      var q, rest := Emit(a, b, i, j).value, MergeFrom(a, b, i', j').value;
      StepPrices(a, b, i, j, q.price);
      PricesOfCons(q, rest);
      ConsIncreasing(q, rest);
      assert MergeFrom(a, b, i, j) == Ok([q] + rest);
      assert forall k :: 0 < k < |[q] + rest| ==> ([q] + rest)[k] == rest[k - 1];
    } else {
      assert a[i..] + b[j..] == [];
    }
  }

  /** operator+ on well-formed curves fails exactly when their end prices differ; when
      it succeeds, the sum is a well-formed curve over the same interval whose turning
      prices are the union of both curves' turning prices, and each of its turning
      points carries the sum of both curves' values at that price. */
  lemma SumCorrect(a: ReturnCurve, b: ReturnCurve)
    requires Valid(a.points) && Valid(b.points)
    ensures Sum(a, b).Ok? <==> SameEnds(a.points, b.points)
    ensures Sum(a, b).Err? ==> Sum(a, b).error == EndpointMismatch
    ensures Sum(a, b).Ok? ==>
      var c := Sum(a, b).value.points;
      Valid(c) && First(c) == First(a.points) && Last(c) == Last(a.points) &&
      Prices(c) == Prices(a.points) + Prices(b.points) &&
      PointwiseSum(c, a.points, b.points)
  {
    if SameEnds(a.points, b.points) {
      var x, y := a.points, b.points;
      MergeFromCorrect(x, y, 0, 0);
      assert x[0..] == x && y[0..] == y;
      var c := Sum(a, b).value.points;
      PricesWithinEnds(x);
      PricesWithinEnds(y);
      assert First(x) in Prices(c) && Last(x) in Prices(c);
      assert First(x) < Last(x);
      var k :| 0 <= k < |c| && c[k].price == First(x);
      var l :| 0 <= l < |c| && c[l].price == Last(x);
      assert k != l;
      PricesWithinEnds(c);
      assert c[0].price in Prices(c) && c[|c| - 1].price in Prices(c);
    }
  }

  /** Each turning point of `a` reappears in `a + b` at its price, with `b`'s value at that
      price added: `b`'s own value where `b` turns at the same price, the interpolated
      value elsewhere. */
  lemma SumKeepsTurningPoints(a: ReturnCurve, b: ReturnCurve, m: nat)
    requires Valid(a.points) && Valid(b.points) && SameEnds(a.points, b.points) && m < |a.points|
    ensures Sum(a, b).Ok? && ValueAt(b.points, a.points[m].price).Ok?
    ensures Point(a.points[m].price, a.points[m].value + ValueAt(b.points, a.points[m].price).value)
            in Sum(a, b).value.points
    ensures forall l :: 0 <= l < |b.points| && b.points[l].price == a.points[m].price ==>
      Point(a.points[m].price, a.points[m].value + b.points[l].value) in Sum(a, b).value.points
  {
    SumCorrect(a, b);
    var c, price := Sum(a, b).value.points, a.points[m].price;
    assert price in Prices(a.points);
    var k :| 0 <= k < |c| && c[k].price == price;
    assert SumAt(a.points, b.points, c[k]);
    ValueAtTurningPoint(a.points, m);
    forall l | 0 <= l < |b.points| && b.points[l].price == price
      ensures Point(price, a.points[m].value + b.points[l].value) in c
    {
      ValueAtTurningPoint(b.points, l);
    }
  }

  /** Locate the neighbouring pair of turning points with pts[k] <= price < pts[k+1]. */
  lemma FindSegment(pts: seq<Point>, price: real) returns (k: nat)
    requires Valid(pts) && First(pts) <= price < Last(pts)
    ensures k + 1 < |pts| && pts[k].price <= price < pts[k + 1].price
  {
    k := 0;
    while pts[k + 1].price <= price
      invariant k + 1 < |pts| && pts[k].price <= price
      decreases |pts| - k
    {
      k := k + 1;
    }
  }

  /** Two points on the line of slope `slope` interpolate to that line. */
  lemma InterpolateOnLine(lo: Point, hi: Point, slope: real, price: real)
    requires lo.price < hi.price && hi.value - lo.value == slope * (hi.price - lo.price)
    ensures Interpolate(lo, hi, price) == lo.value + slope * (price - lo.price)
  {
    var d := hi.price - lo.price;
    assert slope * d * (price - lo.price) / d == slope * (price - lo.price);
  }

  lemma InterpolateSplit(x: real, y: real, u0: real, u1: real, w0: real, w1: real, price: real)
    requires x < y
    ensures Interpolate(Point(x, u0 + w0), Point(y, u1 + w1), price)
         == Interpolate(Point(x, u0), Point(y, u1), price) + Interpolate(Point(x, w0), Point(y, w1), price)
  {
    var t := (price - x) / (y - x);
    assert (u1 - u0) * (price - x) / (y - x) == (u1 - u0) * t;
    assert (w1 - w0) * (price - x) / (y - x) == (w1 - w0) * t;
    assert ((u1 + w1) - (u0 + w0)) * (price - x) / (y - x) == ((u1 + w1) - (u0 + w0)) * t;
  }

  /** A straight line, re-sampled at two prices x < y, is the same straight line. */
  lemma InterpolateResample(lo: Point, hi: Point, x: real, y: real, price: real)
    requires lo.price < hi.price && x < y
    ensures Interpolate(Point(x, Interpolate(lo, hi, x)), Point(y, Interpolate(lo, hi, y)), price)
         == Interpolate(lo, hi, price)
  {
    var slope := (hi.value - lo.value) / (hi.price - lo.price);
    forall t: real ensures Interpolate(lo, hi, t) == lo.value + slope * (t - lo.price) {
      assert (hi.value - lo.value) * (t - lo.price) / (hi.price - lo.price) == slope * (t - lo.price);
    }
    var fx, fy := Interpolate(lo, hi, x), Interpolate(lo, hi, y);
    assert fy - fx == slope * (y - x);
    calc {
      Interpolate(Point(x, fx), Point(y, fy), price);
      fx + (fy - fx) * (price - x) / (y - x);
      fx + slope * (y - x) * (price - x) / (y - x);
      { assert slope * (y - x) * (price - x) / (y - x) == slope * (price - x); }
      fx + slope * (price - x);
      lo.value + slope * (price - lo.price);
    }
  }

  /** Between two prices x < y of its interval that enclose none of its turning prices,
      a well-formed curve is the straight line through its values at x and at y. */
  lemma StraightBetween(pts: seq<Point>, x: real, y: real, price: real)
    requires Valid(pts) && First(pts) <= x < y <= Last(pts) && x <= price <= y
    requires forall m :: 0 <= m < |pts| ==> pts[m].price <= x || pts[m].price >= y
    ensures ValueAt(pts, x).Ok? && ValueAt(pts, y).Ok?
    ensures ValueAt(pts, price) ==
      Ok(Interpolate(Point(x, ValueAt(pts, x).value), Point(y, ValueAt(pts, y).value), price))
  {
    var m := FindSegment(pts, x);
    ValueAtSegment(pts, m, x);
    ValueAtSegment(pts, m, y);
    ValueAtSegment(pts, m, price);
    InterpolateResample(pts[m], pts[m + 1], x, y, price);
  }

  /** No turning price of `pts` lies strictly inside a segment of `c` when every turning
      price of `pts` is one of `c`. */
  lemma NoTurningPriceInside(c: seq<Point>, k: nat, pts: seq<Point>)
    requires Increasing(c) && k + 1 < |c| && Prices(pts) <= Prices(c)
    ensures forall m :: 0 <= m < |pts| ==> pts[m].price <= c[k].price || pts[m].price >= c[k + 1].price
  {
    forall m | 0 <= m < |pts| ensures pts[m].price <= c[k].price || pts[m].price >= c[k + 1].price {
      assert pts[m].price in Prices(pts);
      var l :| 0 <= l < |c| && c[l].price == pts[m].price;
      assert l <= k || l >= k + 1;
    }
  }

  /** Over a segment of `c`, a curve on the same interval whose turning prices all
      belong to `c` follows the straight line through its values at the segment's ends. */
  lemma StraightOnSegment(x: seq<Point>, c: seq<Point>, k: nat, price: real)
    requires Valid(x) && Valid(c) && First(c) == First(x) && Last(c) == Last(x)
    requires Prices(x) <= Prices(c)
    requires k + 1 < |c| && c[k].price <= price <= c[k + 1].price
    ensures ValueAt(x, c[k].price).Ok? && ValueAt(x, c[k + 1].price).Ok?
    ensures ValueAt(x, price) == Ok(Interpolate(
      Point(c[k].price, ValueAt(x, c[k].price).value),
      Point(c[k + 1].price, ValueAt(x, c[k + 1].price).value), price))
  {
    assert k == 0 || c[0].price < c[k].price;
    assert k + 1 == |c| - 1 || c[k + 1].price < c[|c| - 1].price;
    NoTurningPriceInside(c, k, x);
    StraightBetween(x, c[k].price, c[k + 1].price, price);
  }

  /** Inside one segment of the sum, the sum's straight line is the sum of the two
      straight lines the operands follow there. */
  lemma SumOnSegment(x: seq<Point>, y: seq<Point>, c: seq<Point>, k: nat, price: real)
    requires Valid(x) && Valid(y) && Valid(c) && PointwiseSum(c, x, y)
    requires First(c) == First(x) == First(y) && Last(c) == Last(x) == Last(y)
    requires Prices(x) <= Prices(c) && Prices(y) <= Prices(c)
    requires k + 1 < |c| && c[k].price <= price <= c[k + 1].price
    ensures ValueAt(x, price).Ok? && ValueAt(y, price).Ok? && ValueAt(c, price).Ok?
    ensures ValueAt(c, price).value == ValueAt(x, price).value + ValueAt(y, price).value
  {
    var lo, hi := c[k], c[k + 1];
    ValueAtSegment(c, k, price);
    assert SumAt(x, y, lo) && SumAt(x, y, hi);
    StraightOnSegment(x, c, k, price);
    StraightOnSegment(y, c, k, price);
    var ax0, ax1 := ValueAt(x, lo.price).value, ValueAt(x, hi.price).value;
    var ay0, ay1 := ValueAt(y, lo.price).value, ValueAt(y, hi.price).value;
    assert lo == Point(lo.price, ax0 + ay0) && hi == Point(hi.price, ax1 + ay1);
    InterpolateSplit(lo.price, hi.price, ax0, ax1, ay0, ay1, price);
  }

  /** Superposition: the sum of two curves with shared ends, evaluated at any price,
      is the sum of the two curves evaluated there; outside the shared interval all
      three evaluations fail. */
  lemma Superposition(a: ReturnCurve, b: ReturnCurve, price: real)
    requires Valid(a.points) && Valid(b.points) && SameEnds(a.points, b.points)
    ensures Sum(a, b).Ok?
    ensures var c := Sum(a, b).value.points;
      Increasing(c) &&
      (ValueAt(c, price).Ok? <==> ValueAt(a.points, price).Ok?) &&
      (ValueAt(c, price).Ok? <==> ValueAt(b.points, price).Ok?) &&
      (ValueAt(c, price).Ok? ==>
         ValueAt(c, price).value == ValueAt(a.points, price).value + ValueAt(b.points, price).value)
  {
    SumCorrect(a, b);
    var x, y, c := a.points, b.points, Sum(a, b).value.points;
    ValueAtDomain(x, price);
    ValueAtDomain(y, price);
    ValueAtDomain(c, price);
    if First(c) <= price <= Last(c) {
      var k: nat;
      if price == Last(c) {
        k := |c| - 2;
      } else {
        k := FindSegment(c, price);
      }
      SumOnSegment(x, y, c, k, price);
    }
  }

  // ---------------------------------------------------------------------------
  // Algebra of the sum

  lemma {:induction false} MergeFromSwap(a: seq<Point>, b: seq<Point>, i: nat, j: nat)
    requires Increasing(a) && Increasing(b) && i <= |a| && j <= |b|
    ensures MergeFrom(a, b, i, j) == MergeFrom(b, a, j, i)
    decreases |a| - i + |b| - j
  {
    if i < |a| && j < |b| {
      assert Emit(a, b, i, j) == Emit(b, a, j, i);
      MergeFromSwap(a, b, Step(a, b, i, j).0, Step(a, b, i, j).1);
    } else if i == |a| {
      assert a[i..] + b[j..] == b[j..] == b[j..] + a[i..];
    } else {
      assert a[i..] + b[j..] == a[i..] == b[j..] + a[i..];
    }
  }

  /** operator+ on well-formed curves with shared ends, where it cannot fail. */
  function Plus(a: ReturnCurve, b: ReturnCurve): (c: ReturnCurve)
    requires Valid(a.points) && Valid(b.points) && SameEnds(a.points, b.points)
    ensures Sum(a, b) == Ok(c)
    ensures Valid(c.points) && First(c.points) == First(a.points) && Last(c.points) == Last(a.points)
  {
    SumCorrect(a, b);
    Sum(a, b).value
  }

  /** operator+ is commutative: `a + b` and `b + a` have the same turning points, and
      fail together. */
  lemma SumCommutes(a: ReturnCurve, b: ReturnCurve)
    requires Increasing(a.points) && Increasing(b.points)
    ensures Sum(a, b) == Sum(b, a)
  {
    MergeFromSwap(a.points, b.points, 0, 0);
  }

  lemma PricesEmpty(pts: seq<Point>)
    ensures Prices(pts) == {} <==> |pts| == 0
  {
    if |pts| > 0 {
      assert pts[0].price in Prices(pts);
    }
  }

  /** Two strictly increasing lists with the same set of prices list the same prices. */
  lemma {:induction false} SamePricesSameOrder(c: seq<Point>, d: seq<Point>)
    requires Increasing(c) && Increasing(d) && Prices(c) == Prices(d)
    ensures |c| == |d| && forall k :: 0 <= k < |c| ==> c[k].price == d[k].price
    decreases |c|
  {
    PricesEmpty(c);
    PricesEmpty(d);
    if |c| > 0 {
      assert c[0].price in Prices(d);
      assert |d| > 0;
      assert d[0].price in Prices(c);
      PricesWithinEnds(c);
      PricesWithinEnds(d);
      assert c[0].price == d[0].price;
      PricesOfSuffix(c, 0);
      PricesOfSuffix(d, 0);
      PricesAbove(c, 1, c[0].price);
      PricesAbove(d, 1, d[0].price);
      assert Prices(c[1..]) == Prices(c) - {c[0].price};
      assert Prices(d[1..]) == Prices(d) - {d[0].price};
      SamePricesSameOrder(c[1..], d[1..]);
      forall k | 0 < k < |c| ensures c[k].price == d[k].price {
        assert c[1..][k - 1] == c[k] && d[1..][k - 1] == d[k];
      }
    }
  }

  /** At a turning price of `(a + b) + c`, that curve carries the sum of the three
      operands' values. */
  lemma SumOfThreeAt(a: ReturnCurve, b: ReturnCurve, c: ReturnCurve, ab: ReturnCurve, q: Point)
    requires Valid(a.points) && Valid(b.points) && Valid(c.points) && Valid(ab.points)
    requires SameEnds(a.points, b.points) && Sum(a, b) == Ok(ab)
    requires SumAt(ab.points, c.points, q)
    ensures ValueAt(a.points, q.price).Ok? && ValueAt(b.points, q.price).Ok?
    ensures q.value == ValueAt(a.points, q.price).value + ValueAt(b.points, q.price).value
                       + ValueAt(c.points, q.price).value
  {
    Superposition(a, b, q.price);
  }

  /** operator+ is associative on well-formed curves with shared ends: `(a + b) + c`
      and `a + (b + c)` have the same turning points. */
  lemma SumAssociates(a: ReturnCurve, b: ReturnCurve, c: ReturnCurve)
    requires Valid(a.points) && Valid(b.points) && Valid(c.points)
    requires SameEnds(a.points, b.points) && SameEnds(b.points, c.points)
    ensures Sum(a, b).Ok? && Valid(Sum(a, b).value.points)
    ensures Sum(b, c).Ok? && Valid(Sum(b, c).value.points)
    ensures Sum(Sum(a, b).value, c) == Sum(a, Sum(b, c).value)
    ensures Sum(a, Sum(b, c).value).Ok?
  {
    SumCorrect(a, b);
    SumCorrect(b, c);
    var ab, bc := Sum(a, b).value, Sum(b, c).value;
    SumCorrect(ab, c);
    SumCorrect(a, bc);
    var left, right := Sum(ab, c).value.points, Sum(a, bc).value.points;
    assert Prices(left) == Prices(right);
    SamePricesSameOrder(left, right);
    forall k | 0 <= k < |left| ensures left[k] == right[k] {
      assert SumAt(ab.points, c.points, left[k]);
      assert SumAt(a.points, bc.points, right[k]);
      SumOfThreeAt(a, b, c, ab, left[k]);
      SumCommutes(a, bc);
      SumCommutes(b, c);
      SumCommutes(c, b);
      Superposition(b, c, right[k].price);
    }
    assert left == right;
  }

  /** The sum is the ONLY strictly increasing list whose prices are the union of both
      curves' turning prices and whose points carry the summed values. */
  lemma SumIsUnique(a: ReturnCurve, b: ReturnCurve, c: seq<Point>)
    requires Valid(a.points) && Valid(b.points) && SameEnds(a.points, b.points)
    requires Increasing(c) && Prices(c) == Prices(a.points) + Prices(b.points)
    requires PointwiseSum(c, a.points, b.points)
    ensures Sum(a, b) == Ok(ReturnCurve(c))
  {
    SumCorrect(a, b);
    var m := Sum(a, b).value.points;
    SamePricesSameOrder(m, c);
    forall k | 0 <= k < |m| ensures m[k] == c[k] {
      assert SumAt(a.points, b.points, m[k]) && SumAt(a.points, b.points, c[k]);
    }
    assert m == c;
  }
}
