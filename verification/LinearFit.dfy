/** `LinearFitSlope`: the slope of the line through the centre of mass of some points that fits them best. */
module LinearFit {
  import opened Wrappers

  datatype Packet = Packet(arrivalTime: real, smoothedDelay: real)

  function SumX(ps: seq<Packet>): real {
    if ps == [] then 0.0 else SumX(ps[..|ps| - 1]) + ps[|ps| - 1].arrivalTime
  }

  function SumY(ps: seq<Packet>): real {
    if ps == [] then 0.0 else SumY(ps[..|ps| - 1]) + ps[|ps| - 1].smoothedDelay
  }

  /** The quotient; that of 0 and 0 is not a number and is not used. */
  function Average(sum: real, n: nat): real {
    if n == 0 then 0.0 else sum / (n as real)
  }

  function AvgX(ps: seq<Packet>): real {
    Average(SumX(ps), |ps|)
  }

  function AvgY(ps: seq<Packet>): real {
    Average(SumY(ps), |ps|)
  }

  function Times(k: real, a: real): real {
    k * a
  }

  /** Product and squares of the distances of a point from a centre. */
  function Product(p: Packet, x: real, y: real): real {
    Times(p.arrivalTime - x, p.smoothedDelay - y)
  }

  function SquareX(p: Packet, x: real): real {
    Times(p.arrivalTime - x, p.arrivalTime - x)
  }

  function SquareY(p: Packet, y: real): real {
    Times(p.smoothedDelay - y, p.smoothedDelay - y)
  }

  /** The squared distance, in y, from the line through (x, y) with slope k. */
  function Deviation(p: Packet, x: real, y: real, k: real): real {
    var r := p.smoothedDelay - y - Times(k, p.arrivalTime - x);
    Times(r, r)
  }

  function Products(ps: seq<Packet>, x: real, y: real): real {
    if ps == [] then 0.0 else Products(ps[..|ps| - 1], x, y) + Product(ps[|ps| - 1], x, y)
  }

  function SquaresX(ps: seq<Packet>, x: real): real {
    if ps == [] then 0.0 else SquaresX(ps[..|ps| - 1], x) + SquareX(ps[|ps| - 1], x)
  }

  function SquaresY(ps: seq<Packet>, y: real): real {
    if ps == [] then 0.0 else SquaresY(ps[..|ps| - 1], y) + SquareY(ps[|ps| - 1], y)
  }

  function Residual(ps: seq<Packet>, x: real, y: real, k: real): real {
    if ps == [] then 0.0 else Residual(ps[..|ps| - 1], x, y, k) + Deviation(ps[|ps| - 1], x, y, k)
  }

  ghost predicate SameArrival(ps: seq<Packet>) {
    forall i, j :: 0 <= i < |ps| && 0 <= j < |ps| ==> ps[i].arrivalTime == ps[j].arrivalTime
  }

  /** The slope that `LinearFitSlope` computes in its two loops. */
  function Slope(ps: seq<Packet>): Option<real> {
    var d := SquaresX(ps, AvgX(ps));
    if d == 0.0 then None else Some(Products(ps, AvgX(ps), AvgY(ps)) / d)
  }

  // ---------- arithmetic ----------

  lemma TimesPositive(a: real, b: real)
    requires a > 0.0 && b > 0.0
    ensures Times(a, b) > 0.0
  {
  }

  lemma TimesSigns(a: real, b: real)
    ensures Times(-a, -b) == Times(a, b) && Times(0.0, a) == 0.0 && Times(a, 0.0) == 0.0
  {
  }

  lemma Square(d: real)
    ensures Times(d, d) >= 0.0 && (Times(d, d) == 0.0 <==> d == 0.0)
  {
    hide Times;
    TimesSigns(d, d);
    if d > 0.0 {
      TimesPositive(d, d);
    } else if d < 0.0 {
      TimesPositive(-d, -d);
    }
  }

  lemma Quotient(n: real, x: real)
    requires n != 0.0
    ensures Times(n, x) / n == x && Times(x, n) / n == x
  {
  }

  // ---------- when there is a slope ----------

  lemma SquareXFacts(p: Packet, x: real)
    ensures SquareX(p, x) >= 0.0 && (SquareX(p, x) == 0.0 <==> p.arrivalTime == x)
  {
    hide Times;
    Square(p.arrivalTime - x);
  }

  ghost predicate AllAt(ps: seq<Packet>, x: real) {
    forall i {:trigger ps[i]} :: 0 <= i < |ps| ==> ps[i].arrivalTime == x
  }

  lemma {:induction false} SquaresNonNegative(ps: seq<Packet>, x: real)
    ensures SquaresX(ps, x) >= 0.0
    ensures SquaresX(ps, x) == 0.0 <==> AllAt(ps, x)
  {
    if ps != [] {
      hide AllAt, SquareX;
      SquaresNonNegative(ps[..|ps| - 1], x);
      SquareXFacts(ps[|ps| - 1], x);
    }
  }

  lemma {:induction false} SumOfSame(ps: seq<Packet>, x: real)
    requires AllAt(ps, x)
    ensures SumX(ps) == Times(|ps| as real, x)
  {
    if ps != [] {
      hide AllAt;
      SumOfSame(ps[..|ps| - 1], x);
    }
  }

  /** There is no slope exactly if all packets arrived at the same time, or there is none. */
  lemma NoneExactly(ps: seq<Packet>)
    ensures Slope(ps).None? <==> SameArrival(ps)
  {
    hide Times, SquaresX, SumX;
    SquaresNonNegative(ps, AvgX(ps));
    if ps != [] && SameArrival(ps) {
      SumOfSame(ps, ps[0].arrivalTime);
      Quotient(|ps| as real, ps[0].arrivalTime);
    }
  }

  // ---------- the best slope ----------

  lemma DeviationIsQuadratic(p: Packet, x: real, y: real, k: real)
    ensures Deviation(p, x, y, k)
         == SquareY(p, y) - 2.0 * Times(k, Product(p, x, y)) + Times(k, Times(k, SquareX(p, x)))
  {
  }

  /** The residual is a quadratic function of the slope. */
  lemma {:induction false} ResidualIsQuadratic(ps: seq<Packet>, x: real, y: real, k: real)
    ensures Residual(ps, x, y, k)
         == SquaresY(ps, y) - 2.0 * Times(k, Products(ps, x, y)) + Times(k, Times(k, SquaresX(ps, x)))
  {
    if ps != [] {
      hide Times, Product, SquareX, SquareY, Deviation;
      var init, p := ps[..|ps| - 1], ps[|ps| - 1];
      ResidualIsQuadratic(init, x, y, k);
      DeviationIsQuadratic(p, x, y, k);
    }
  }

  lemma Parabola(d: real, p: real, k: real, q: real)
    requires d > 0.0 && k == p / d
    ensures Times(k, Times(k, d)) - 2.0 * Times(k, p) <= Times(q, Times(q, d)) - 2.0 * Times(q, p)
    ensures q != k ==> Times(k, Times(k, d)) - 2.0 * Times(k, p) < Times(q, Times(q, d)) - 2.0 * Times(q, p)
  {
    hide Times;
    var e := q - k;
    TimesQuotient(p, d);
    Expand(d, p, k, e);
    Square(e);
    TimesSigns(d, d);
    if e != 0.0 {
      TimesPositive(d, Times(e, e));
    }
  }

  lemma TimesQuotient(p: real, d: real)
    requires d != 0.0
    ensures Times(p / d, d) == p
  {
  }

  lemma Expand(d: real, p: real, k: real, e: real)
    requires Times(k, d) == p
    ensures Times(k + e, Times(k + e, d)) - 2.0 * Times(k + e, p)
         == Times(k, Times(k, d)) - 2.0 * Times(k, p) + Times(d, Times(e, e))
  {
    assert (k + e) * ((k + e) * d) == k * (k * d) + 2.0 * (e * (k * d)) + d * (e * e);
    assert (k + e) * p == k * p + e * p;
  }

  /** The slope fits better than every other slope of a line through the centre of mass. */
  lemma SlopeIsBest(ps: seq<Packet>, q: real)
    requires Slope(ps).Some?
    ensures var x, y, k := AvgX(ps), AvgY(ps), Slope(ps).value;
      Residual(ps, x, y, k) <= Residual(ps, x, y, q) && (q != k ==> Residual(ps, x, y, k) < Residual(ps, x, y, q))
  {
    hide Times, Products, SquaresX, SquaresY, Residual, AvgX, AvgY;
    var x, y, k := AvgX(ps), AvgY(ps), Slope(ps).value;
    ResidualIsQuadratic(ps, x, y, k);
    ResidualIsQuadratic(ps, x, y, q);
    SquaresNonNegative(ps, x);
    Parabola(SquaresX(ps, x), Products(ps, x, y), k, q);
  }

  // ---------- the best line ----------

  /** The sum of the squared distances, in y, from the line y = a + b x. */
  function LineResidual(ps: seq<Packet>, a: real, b: real): real {
    if ps == [] then 0.0
    else
      var p := ps[|ps| - 1];
      var r := p.smoothedDelay - a - Times(b, p.arrivalTime);
      LineResidual(ps[..|ps| - 1], a, b) + Times(r, r)
  }

  /** The sum of the distances, in y, from the line through (x, y) with slope b. */
  function Offsets(ps: seq<Packet>, x: real, y: real, b: real): real {
    if ps == [] then 0.0
    else
      var p := ps[|ps| - 1];
      Offsets(ps[..|ps| - 1], x, y, b) + (p.smoothedDelay - y - Times(b, p.arrivalTime - x))
  }

  lemma {:induction false} OffsetsAre(ps: seq<Packet>, x: real, y: real, b: real)
    ensures Offsets(ps, x, y, b)
         == SumY(ps) - Times(|ps| as real, y) - Times(b, SumX(ps) - Times(|ps| as real, x))
  {
    if ps != [] {
      var n, p := |ps| - 1, ps[|ps| - 1];
      OffsetsAre(ps[..n], x, y, b);
      OneOffset(n as real, x, y, b, SumX(ps[..n]), p.arrivalTime);
    } else {
      TimesSigns(0.0, y);
      TimesSigns(0.0, x);
      TimesSigns(0.0, b);
    }
  }

  lemma OneOffset(n: real, x: real, y: real, b: real, s: real, t: real)
    ensures Times(n + 1.0, y) == Times(n, y) + y
    ensures Times(b, s + t - Times(n + 1.0, x)) == Times(b, s - Times(n, x)) + Times(b, t - x)
  {
  }

  /** Around the centre of mass the distances add up to nothing. */
  lemma OffsetsVanish(ps: seq<Packet>, b: real)
    requires ps != []
    ensures Offsets(ps, AvgX(ps), AvgY(ps), b) == 0.0
  {
    OffsetsAre(ps, AvgX(ps), AvgY(ps), b);
    hide SumX, SumY, Offsets;
    TimesQuotient(SumX(ps), |ps| as real);
    TimesQuotient(SumY(ps), |ps| as real);
    Commuted(AvgX(ps), |ps| as real);
    Commuted(AvgY(ps), |ps| as real);
    TimesSigns(0.0, b);
  }

  lemma Commuted(a: real, b: real)
    ensures Times(a, b) == Times(b, a)
  {
  }

  lemma ShiftedSquare(r: real, c: real)
    ensures Times(r - c, r - c) == Times(r, r) - 2.0 * Times(c, r) + Times(c, c)
  {
  }

  lemma ShiftedPoint(p: Packet, a: real, b: real, x: real, y: real, c: real)
    requires c == a - y + Times(b, x)
    ensures p.smoothedDelay - a - Times(b, p.arrivalTime) == p.smoothedDelay - y - Times(b, p.arrivalTime - x) - c
  {
  }

  lemma TimesSum(c: real, r: real, s: real, n: real, d: real)
    ensures Times(c, r + s) == Times(c, r) + Times(c, s) && Times(n + 1.0, d) == Times(n, d) + d
  {
  }

  /** A line that lies `c` above another one with the same slope. */
  lemma {:induction false} ShiftedLine(ps: seq<Packet>, a: real, b: real, x: real, y: real, c: real)
    requires c == a - y + Times(b, x)
    ensures LineResidual(ps, a, b)
         == Residual(ps, x, y, b) - 2.0 * Times(c, Offsets(ps, x, y, b)) + Times(|ps| as real, Times(c, c))
  {
    if ps == [] {
      TimesSigns(c, c);
      TimesSigns(0.0, Times(c, c));
    } else {
      var n, p := |ps| - 1, ps[|ps| - 1];
      var r := p.smoothedDelay - y - Times(b, p.arrivalTime - x);
      ShiftedLine(ps[..n], a, b, x, y, c);
      ShiftedPoint(p, a, b, x, y, c);
      ShiftedSquare(r, c);
      TimesSum(c, Offsets(ps[..n], x, y, b), r, n as real, Times(c, c));
      hide Times;
    }
  }

  /** Of all lines the one through the centre of mass with the slope fits best, and no other does as well. */
  lemma FitIsBest(ps: seq<Packet>, a: real, b: real)
    requires Slope(ps).Some?
    ensures var k := Slope(ps).value;
      var best := AvgY(ps) - Times(k, AvgX(ps));
      && LineResidual(ps, best, k) <= LineResidual(ps, a, b)
      && (a != best || b != k ==> LineResidual(ps, best, k) < LineResidual(ps, a, b))
  {
    var x, y, k := AvgX(ps), AvgY(ps), Slope(ps).value;
    var c := a - y + Times(b, x);
    assert ps != [] by { SquaresNonNegative(ps, x); }
    ShiftedLine(ps, a, b, x, y, c);
    ShiftedLine(ps, y - Times(k, x), k, x, y, 0.0);
    OffsetsVanish(ps, b);
    OffsetsVanish(ps, k);
    SlopeIsBest(ps, b);
    hide Times, LineResidual, Residual, Offsets, Slope, AvgX, AvgY;
    TimesSigns(0.0, c);
    TimesSigns(|ps| as real, 0.0);
    Square(c);
    if c != 0.0 { TimesPositive(|ps| as real, Times(c, c)); } else { TimesSigns(0.0, |ps| as real); }
  }

  // ---------- points on a line ----------

  ghost predicate OnLine(ps: seq<Packet>, a: real, b: real) {
    forall i {:trigger ps[i]} :: 0 <= i < |ps| ==> ps[i].smoothedDelay == a + b * ps[i].arrivalTime
  }

  lemma {:induction false} SumOnLine(ps: seq<Packet>, a: real, b: real)
    requires OnLine(ps, a, b)
    ensures SumY(ps) == Times(|ps| as real, a) + Times(b, SumX(ps))
  {
    if ps != [] {
      var n := |ps| - 1;
      SumOnLine(ps[..n], a, b);
    }
  }

  lemma ProductOnLine(p: Packet, a: real, b: real, x: real, y: real)
    requires p.smoothedDelay == a + Times(b, p.arrivalTime) && y == a + Times(b, x)
    ensures Product(p, x, y) == Times(b, SquareX(p, x))
  {
    var t := p.arrivalTime;
    assert p.smoothedDelay - y == b * (t - x);
  }

  lemma {:induction false} ProductsOnLine(ps: seq<Packet>, a: real, b: real, x: real, y: real)
    requires OnLine(ps, a, b) && y == a + Times(b, x)
    ensures Products(ps, x, y) == Times(b, SquaresX(ps, x))
  {
    if ps != [] {
      hide OnLine, Times, Product, SquareX;
      var init, p := ps[..|ps| - 1], ps[|ps| - 1];
      ProductsOnLine(init, a, b, x, y);
      ProductOnLine(p, a, b, x, y);
    } else {
      assert Times(b, 0.0) == 0.0;
    }
  }

  lemma CentreOnLine(n: real, a: real, b: real, s: real)
    requires n > 0.0
    ensures (Times(n, a) + Times(b, s)) / n == a + Times(b, s / n)
  {
    assert n * (s / n) == s;
    assert n * (a + b * (s / n)) == n * a + b * (n * (s / n));
  }

  /** Points on a line have the slope of that line. */
  lemma SlopeOfLine(ps: seq<Packet>, a: real, b: real)
    requires OnLine(ps, a, b) && !SameArrival(ps)
    ensures Slope(ps) == Some(b)
  {
    assert ps != [];
    hide OnLine, Times, Products, SquaresX, SumX, SumY, SameArrival;
    NoneExactly(ps);
    SumOnLine(ps, a, b);
    CentreOnLine(|ps| as real, a, b, SumX(ps));
    ProductsOnLine(ps, a, b, AvgX(ps), AvgY(ps));
    Quotient(SquaresX(ps, AvgX(ps)), b);
  }

  method LinearFitSlope(ps: seq<Packet>) returns (slope: Option<real>)
    ensures slope == Slope(ps)
  {
    hide Product, SquareX;
    var sumX, sumY := 0.0, 0.0;
    var i := 0;
    while i < |ps|
      invariant 0 <= i <= |ps| && sumX == SumX(ps[..i]) && sumY == SumY(ps[..i])
    {
      assert ps[..i + 1][..i] == ps[..i];
      sumX := sumX + ps[i].arrivalTime;
      sumY := sumY + ps[i].smoothedDelay;
      i := i + 1;
    }
    assert ps[..i] == ps;
    var xAvg, yAvg := Average(sumX, |ps|), Average(sumY, |ps|);
    var numerator, denominator := 0.0, 0.0;
    i := 0;
    while i < |ps|
      invariant 0 <= i <= |ps| && numerator == Products(ps[..i], xAvg, yAvg) && denominator == SquaresX(ps[..i], xAvg)
    {
      assert ps[..i + 1][..i] == ps[..i];
      numerator := numerator + Product(ps[i], xAvg, yAvg);
      denominator := denominator + SquareX(ps[i], xAvg);
      i := i + 1;
    }
    assert ps[..i] == ps;
    if denominator == 0.0 {
      return None;
    }
    return Some(numerator / denominator);
  }
}
