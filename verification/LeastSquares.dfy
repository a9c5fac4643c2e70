/** The line fitted through a plant's own early and final strengths, over exact reals. */
module LeastSquares {
  import opened Numbers

  datatype HistoricalPair = HistoricalPair(ageDays: int, early: real, final: real)

  /** One sample: early strength x, final strength y. */
  datatype Sample = Sample(x: real, y: real)

  datatype RegressionFit = RegressionFit(slope: real, intercept: real, count: nat, rSquared: real)

  const TINY: real := 0.000001
  const MIN_PAIRS: nat := 3
  const SUPPORTED_AGES: set<int> := {3, 7, 14}

  function SumX(s: seq<Sample>): real { if s == [] then 0.0 else SumX(s[..|s| - 1]) + s[|s| - 1].x }
  function SumY(s: seq<Sample>): real { if s == [] then 0.0 else SumY(s[..|s| - 1]) + s[|s| - 1].y }
  function SumXY(s: seq<Sample>): real { if s == [] then 0.0 else SumXY(s[..|s| - 1]) + s[|s| - 1].x * s[|s| - 1].y }
  function SumXX(s: seq<Sample>): real { if s == [] then 0.0 else SumXX(s[..|s| - 1]) + s[|s| - 1].x * s[|s| - 1].x }
  function SumYY(s: seq<Sample>): real { if s == [] then 0.0 else SumYY(s[..|s| - 1]) + s[|s| - 1].y * s[|s| - 1].y }

  /** n times a sum of products, less the product of the sums. */
  function Spread(n: real, sumUV: real, sumU: real, sumV: real): real { n * sumUV - sumU * sumV }

  function Denom(s: seq<Sample>): real { Spread(|s| as real, SumXX(s), SumX(s), SumX(s)) }
  function DenomY(s: seq<Sample>): real { Spread(|s| as real, SumYY(s), SumY(s), SumY(s)) }
  function Cross(s: seq<Sample>): real { Spread(|s| as real, SumXY(s), SumX(s), SumY(s)) }

  function Intercept(n: real, sumX: real, sumY: real, slope: real): real
    requires n != 0.0
  {
    (sumY - slope * sumX) / n
  }

  function Share(cross: real, denom: real, denomY: real): real
    requires denom != 0.0 && denomY != 0.0
  {
    ProductNotZero(denom, denomY);
    cross * cross / (denom * denomY)
  }

  lemma ProductNotZero(x: real, y: real)
    requires x != 0.0 && y != 0.0
    ensures x * y != 0.0
  {}

  predicate Fits(s: seq<Sample>) {
    |s| >= MIN_PAIRS && !(Abs(Denom(s)) < TINY)
  }

  function Fit(s: seq<Sample>): RegressionFit
    requires Fits(s)
  {
    var slope := Cross(s) / Denom(s);
    RegressionFit(slope, Intercept(|s| as real, SumX(s), SumY(s), slope), |s|, if DenomY(s) > TINY then Share(Cross(s), Denom(s), DenomY(s)) else 0.0)
  }

  /** The samples of one age, in order. */
  function OfAge(pairs: seq<HistoricalPair>, age: int): seq<Sample> {
    if pairs == [] then []
    else
      var p := pairs[|pairs| - 1];
      OfAge(pairs[..|pairs| - 1], age) + (if p.ageDays == age then [Sample(p.early, p.final)] else [])
  }

  method Sums(s: seq<Sample>) returns (sumX: real, sumY: real, sumXY: real, sumXX: real, sumYY: real)
    ensures sumX == SumX(s) && sumY == SumY(s) && sumXY == SumXY(s) && sumXX == SumXX(s) && sumYY == SumYY(s)
  {
    sumX, sumY, sumXY, sumXX, sumYY := 0.0, 0.0, 0.0, 0.0, 0.0;
    for i := 0 to |s|
      invariant sumX == SumX(s[..i]) && sumY == SumY(s[..i]) && sumXY == SumXY(s[..i])
      invariant sumXX == SumXX(s[..i]) && sumYY == SumYY(s[..i])
    {
      assert s[..i + 1][..i] == s[..i];
      sumX, sumY := sumX + s[i].x, sumY + s[i].y;
      sumXY, sumXX, sumYY := sumXY + s[i].x * s[i].y, sumXX + s[i].x * s[i].x, sumYY + s[i].y * s[i].y;
    }
    assert s[..|s|] == s;
  }

  method FitOne(s: seq<Sample>) returns (fits: bool, fit: RegressionFit)
    ensures fits == Fits(s)
    ensures fits ==> fit == Fit(s)
  {
    hide SumX, SumY, SumXX, SumYY, SumXY, Spread, Intercept, Share;
    fits, fit := false, RegressionFit(0.0, 0.0, 0, 0.0);
    if |s| < MIN_PAIRS { return; }
    var sumX, sumY, sumXY, sumXX, sumYY := Sums(s);
    var n := |s| as real;
    var denom, cross, denomY := Spread(n, sumXX, sumX, sumX), Spread(n, sumXY, sumX, sumY), Spread(n, sumYY, sumY, sumY);
    if Abs(denom) < TINY { return; }
    var slope := cross / denom;
    var rSquared := if denomY > TINY then Share(cross, denom, denomY) else 0.0;
    return true, RegressionFit(slope, Intercept(n, sumX, sumY, slope), |s|, rSquared);
  }

  method GroupByAge(pairs: seq<HistoricalPair>) returns (byAge: map<int, seq<Sample>>)
    ensures byAge.Keys <= SUPPORTED_AGES
    ensures forall age :: age in SUPPORTED_AGES ==> OfAge(pairs, age) == (if age in byAge then byAge[age] else [])
  {
    byAge := map[];
    for i := 0 to |pairs|
      invariant byAge.Keys <= SUPPORTED_AGES
      invariant forall age :: age in SUPPORTED_AGES ==> OfAge(pairs[..i], age) == (if age in byAge then byAge[age] else [])
    {
      var p := pairs[i];
      forall age ensures OfAge(pairs[..i + 1], age) == (if p.ageDays == age then OfAge(pairs[..i], age) + [Sample(p.early, p.final)] else OfAge(pairs[..i], age)) {
        OneMorePair(pairs, i, age);
      }
      hide OfAge;
      if p.ageDays in SUPPORTED_AGES {
        var samples := if p.ageDays in byAge then byAge[p.ageDays] else [];
        byAge := byAge[p.ageDays := samples + [Sample(p.early, p.final)]];
      }
    }
    assert pairs[..|pairs|] == pairs;
  }

  lemma OneMorePair(pairs: seq<HistoricalPair>, i: nat, age: int)
    requires i < |pairs|
    ensures OfAge(pairs[..i + 1], age)
            == (if pairs[i].ageDays == age then OfAge(pairs[..i], age) + [Sample(pairs[i].early, pairs[i].final)] else OfAge(pairs[..i], age))
  {
    assert pairs[..i + 1][..i] == pairs[..i];
    assert OfAge(pairs[..i], age) + [] == OfAge(pairs[..i], age);
  }

  /** The samples of an age are the early and final strengths of its pairs, as many as there are. */
  lemma {:induction false} OfAgeIs(pairs: seq<HistoricalPair>, age: int)
    ensures forall s :: s in OfAge(pairs, age) <==> exists i :: 0 <= i < |pairs| && pairs[i].ageDays == age && pairs[i].early == s.x && pairs[i].final == s.y
    ensures |OfAge(pairs, age)| == |set i | 0 <= i < |pairs| && pairs[i].ageDays == age|
  {
    if pairs != [] {
      var n := |pairs| - 1;
      var before := pairs[..n];
      OfAgeIs(before, age);
      assert forall i :: 0 <= i < n ==> before[i] == pairs[i];
      var all, some := set i | 0 <= i < |pairs| && pairs[i].ageDays == age, set i | 0 <= i < |before| && before[i].ageDays == age;
      assert all == some + (if pairs[n].ageDays == age then {n} else {});
    }
  }

  lemma FitsIs(s: seq<Sample>)
    ensures Fits(s) <==> |s| >= 3 && Abs(Denom(s)) >= 0.000001
  {}

  /** Exactly the supported ages with three pairs or more and enough spread get a line, each fitted to its own pairs. */
  method FitRegressionsByAge(pairs: seq<HistoricalPair>) returns (fits: map<int, RegressionFit>)
    ensures forall age :: age in fits <==> age in SUPPORTED_AGES && Fits(OfAge(pairs, age))
    ensures forall age :: age in fits ==> fits[age] == Fit(OfAge(pairs, age))
    ensures forall age :: age in fits <==>
              age in {3, 7, 14} && |OfAge(pairs, age)| >= 3 && Abs(Denom(OfAge(pairs, age))) >= 0.000001
  {
    forall age { FitsIs(OfAge(pairs, age)); }
    hide Fits, Fit, OfAge;
    var byAge := GroupByAge(pairs);
    fits := map[];
    var ages := byAge.Keys;
    while ages != {}
      invariant ages <= byAge.Keys
      invariant forall age :: age in fits <==> age in byAge.Keys - ages && Fits(byAge[age])
      invariant forall age :: age in fits ==> fits[age] == Fit(byAge[age])
      decreases ages
    {
      var age :| age in ages;
      ages := ages - {age};
      var ok, fit := FitOne(byAge[age]);
      if ok { fits := fits[age := fit]; }
    }
    NothingToFit();
  }

  lemma NothingToFit()
    ensures !Fits([])
  {}

  // ---- What the line is ------------------------------------------------------------------

  function Square(x: real): real { x * x }

  lemma PositiveSquare(x: real)
    requires x > 0.0
    ensures Square(x) > 0.0
  {
    PositiveProduct(x, x, Square(x));
  }

  lemma PositiveProduct(x: real, y: real, product: real)
    requires x > 0.0 && y > 0.0 && product == x * y
    ensures product > 0.0
  {}

  lemma SameSquare(x: real, y: real)
    requires y == -x
    ensures Square(x) == Square(y)
  {}

  lemma SquareNotNegative(x: real)
    ensures Square(x) >= 0.0 && (Square(x) == 0.0 <==> x == 0.0)
  {
    assert Square(0.0) == 0.0;
    hide Square;
    if x > 0.0 {
      PositiveSquare(x);
    } else if x < 0.0 {
      PositiveSquare(-x);
      SameSquare(x, -x);
    }
  }

  /** The squared error of the line y = a x + b. */
  function SquaredError(s: seq<Sample>, a: real, b: real): (e: real)
    ensures e >= 0.0
  {
    if s == [] then 0.0
    else
      var last := s[|s| - 1];
      SquareNotNegative(last.y - a * last.x - b);
      SquaredError(s[..|s| - 1], a, b) + Square(last.y - a * last.x - b)
  }

  function Expanded(n: real, sx: real, sy: real, sxy: real, sxx: real, syy: real, a: real, b: real): real {
    syy - 2.0 * a * sxy - 2.0 * b * sy + a * a * sxx + 2.0 * a * b * sx + n * b * b
  }

  lemma OneMoreSample(n: real, sx: real, sy: real, sxy: real, sxx: real, syy: real, a: real, b: real, x: real, y: real,
                      sxy': real, sxx': real, syy': real)
    requires sxy' == sxy + x * y && sxx' == sxx + x * x && syy' == syy + y * y
    ensures Expanded(n + 1.0, sx + x, sy + y, sxy', sxx', syy', a, b)
            == Expanded(n, sx, sy, sxy, sxx, syy, a, b) + Square(y - a * x - b)
  {}

  lemma SumsOfOneMore(s: seq<Sample>)
    requires s != []
    ensures var before, x, y := s[..|s| - 1], s[|s| - 1].x, s[|s| - 1].y;
            && SumX(s) == SumX(before) + x && SumY(s) == SumY(before) + y
            && SumXY(s) == SumXY(before) + x * y && SumXX(s) == SumXX(before) + x * x && SumYY(s) == SumYY(before) + y * y
  {}

  function Expansion(s: seq<Sample>, a: real, b: real): real {
    Expanded(|s| as real, SumX(s), SumY(s), SumXY(s), SumXX(s), SumYY(s), a, b)
  }

  lemma ExpansionOfOneMore(s: seq<Sample>, a: real, b: real)
    requires s != []
    ensures Expansion(s, a, b) == Expansion(s[..|s| - 1], a, b) + Square(s[|s| - 1].y - a * s[|s| - 1].x - b)
  {
    var before, x, y := s[..|s| - 1], s[|s| - 1].x, s[|s| - 1].y;
    SumsOfOneMore(s);
    hide Expanded, Square, SumX, SumY, SumXY, SumXX, SumYY;
    OneMoreSample(|before| as real, SumX(before), SumY(before), SumXY(before), SumXX(before), SumYY(before), a, b, x, y,
                  SumXY(s), SumXX(s), SumYY(s));
    assert |s| as real == |before| as real + 1.0;
  }

  lemma {:induction false} ErrorBySums(s: seq<Sample>, a: real, b: real)
    ensures SquaredError(s, a, b) == Expansion(s, a, b)
  {
    hide Square;
    if s != [] {
      hide Expansion;
      ErrorBySums(s[..|s| - 1], a, b);
      ExpansionOfOneMore(s, a, b);
    } else {
      assert Expanded(0.0, 0.0, 0.0, 0.0, 0.0, 0.0, a, b) == 0.0;
    }
  }

  /** How far the line passes the centre of the samples, n times over. */
  function Off(s: seq<Sample>, a: real, b: real): real {
    SumY(s) - a * SumX(s) - |s| as real * b
  }

  function SlopeCost(a: real, cross: real, denom: real): real { a * a * denom - 2.0 * a * cross }

  lemma ErrorSplit(n: real, sx: real, sy: real, sxy: real, sxx: real, syy: real, a: real, b: real,
                   off: real, denomY: real, cross: real, denom: real)
    requires off == sy - a * sx - n * b && denomY == Spread(n, syy, sy, sy) && cross == Spread(n, sxy, sx, sy) && denom == Spread(n, sxx, sx, sx)
    ensures n * Expanded(n, sx, sy, sxy, sxx, syy, a, b) == Square(off) + denomY + SlopeCost(a, cross, denom)
  {}

  /** n times the error: what missing the centre costs, and what the slope costs, apart. */
  lemma ErrorTimesCount(s: seq<Sample>, a: real, b: real)
    ensures |s| as real * SquaredError(s, a, b) == Square(Off(s, a, b)) + DenomY(s) + SlopeCost(a, Cross(s), Denom(s))
  {
    hide SquaredError, Expanded, Square, SlopeCost, Spread, SumX, SumY, SumXY, SumXX, SumYY;
    ErrorBySums(s, a, b);
    ErrorSplit(|s| as real, SumX(s), SumY(s), SumXY(s), SumXX(s), SumYY(s), a, b, Off(s, a, b), DenomY(s), Cross(s), Denom(s));
  }

  function Swapped(s: seq<Sample>): seq<Sample> {
    if s == [] then [] else Swapped(s[..|s| - 1]) + [Sample(s[|s| - 1].y, s[|s| - 1].x)]
  }

  lemma {:induction false} SwappedSums(s: seq<Sample>)
    ensures |Swapped(s)| == |s| && SumY(Swapped(s)) == SumX(s) && SumYY(Swapped(s)) == SumXX(s)
  {
    if s != [] {
      SwappedSums(s[..|s| - 1]);
      assert Swapped(s)[..|s| - 1] == Swapped(s[..|s| - 1]);
    }
  }

  /** A sum of squared deviations is never negative (Cauchy and Schwarz). */
  lemma DenomsNotNegative(s: seq<Sample>)
    requires |s| > 0
    ensures Denom(s) >= 0.0 && DenomY(s) >= 0.0
  {
    DenomYNotNegative(s);
    SwappedSums(s);
    DenomYNotNegative(Swapped(s));
  }

  lemma DenomYNotNegative(s: seq<Sample>)
    requires |s| > 0
    ensures DenomY(s) >= 0.0
  {
    var n := |s| as real;
    var mean := SumY(s) / n;
    ErrorTimesCount(s, 0.0, mean);
    TimesQuotient(SumY(s), n);
    assert Off(s, 0.0, mean) == 0.0;
    hide SquaredError, SumX, SumY, SumXX, SumYY, SumXY, DenomY;
    assert n * SquaredError(s, 0.0, mean) >= 0.0;
  }

  lemma TimesQuotient(p: real, n: real)
    requires n != 0.0
    ensures n * (p / n) == p
  {}

  /** The variation along y that the slope explains. */
  function Explained(cross: real, denom: real): real
    requires denom != 0.0
  {
    cross * cross / denom
  }

  function Missed(a: real, slope: real, denom: real): real { Square(a - slope) * denom }

  lemma CompletedSquare(a: real, cross: real, denom: real)
    requires denom > 0.0
    ensures SlopeCost(a, cross, denom) == Missed(a, cross / denom, denom) - Explained(cross, denom)
  {
    var q := cross / denom;
    assert cross == q * denom;
    assert cross * cross / denom == q * cross;
    assert q * cross == q * q * denom;
  }

  lemma FitIsCentred(s: seq<Sample>)
    requires Fits(s)
    ensures Off(s, Fit(s).slope, Fit(s).intercept) == 0.0
    ensures forall b :: Off(s, Fit(s).slope, b) == 0.0 ==> b == Fit(s).intercept
  {
    hide Off, Intercept, Spread, Share, SumX, SumY, SumXX, SumYY, SumXY, Denom, DenomY, Cross;
    forall b ensures Off(s, Fit(s).slope, b) == 0.0 <==> b == Fit(s).intercept { OffZero(s, Fit(s).slope, b); }
  }

  lemma OffZero(s: seq<Sample>, slope: real, b: real)
    requires |s| > 0
    ensures Off(s, slope, b) == 0.0 <==> b == Intercept(|s| as real, SumX(s), SumY(s), slope)
  {
    hide Intercept, SumX, SumY;
    Centred(|s| as real, SumX(s), SumY(s), slope, b);
  }

  lemma Centred(n: real, sumX: real, sumY: real, slope: real, b: real)
    requires n > 0.0
    ensures sumY - slope * sumX - n * b == 0.0 <==> b == Intercept(n, sumX, sumY, slope)
  {
    var rest := sumY - slope * sumX;
    TimesQuotient(rest, n);
    if rest == n * b { CancelFactor(b, rest / n, n); }
  }

  /** The error of any line against the fitted one. */
  lemma ErrorAgainstFit(s: seq<Sample>, a: real, b: real)
    requires Fits(s)
    ensures Denom(s) > 0.0
    ensures var f, n := Fit(s), |s| as real;
            && n * SquaredError(s, a, b) == n * SquaredError(s, f.slope, f.intercept) + Square(Off(s, a, b)) + Missed(a, f.slope, Denom(s))
            && n * SquaredError(s, f.slope, f.intercept) == DenomY(s) - Explained(Cross(s), Denom(s))
  {
    DenomsNotNegative(s);
    FitIsCentred(s);
    var f := Fit(s);
    assert Missed(f.slope, f.slope, Denom(s)) == 0.0 && Square(Off(s, f.slope, f.intercept)) == 0.0;
    hide SquaredError, SumX, SumY, SumXX, SumYY, SumXY, DenomY, Cross, Denom, Off, SlopeCost, Explained, Missed, Square;
    ErrorTimesCount(s, a, b);
    ErrorTimesCount(s, f.slope, f.intercept);
    CompletedSquare(a, Cross(s), Denom(s));
    CompletedSquare(f.slope, Cross(s), Denom(s));
  }

  // ---- Main results ----------------------------------------------------------------------

  /** The fitted line has the least squared error of all lines, and it is the only one that has. */
  lemma FitMinimises(s: seq<Sample>, a: real, b: real)
    requires Fits(s)
    ensures var f := Fit(s);
            && SquaredError(s, f.slope, f.intercept) <= SquaredError(s, a, b)
            && (SquaredError(s, a, b) == SquaredError(s, f.slope, f.intercept) <==> a == f.slope && b == f.intercept)
  {
    ErrorAgainstFit(s, a, b);
    FitIsCentred(s);
    var f, n := Fit(s), |s| as real;
    hide SquaredError, SumX, SumY, SumXX, SumYY, SumXY, DenomY, Cross, Denom, Off, Explained, Square, Fit;
    SquareNotNegative(Off(s, a, b));
    MissedNotNegative(a, f.slope, Denom(s));
    CancelCount(n, SquaredError(s, a, b), SquaredError(s, f.slope, f.intercept), Square(Off(s, a, b)) + Missed(a, f.slope, Denom(s)));
  }

  lemma MissedNotNegative(a: real, slope: real, denom: real)
    requires denom > 0.0
    ensures Missed(a, slope, denom) >= 0.0 && (Missed(a, slope, denom) == 0.0 <==> a == slope)
  {
    SquareNotNegative(a - slope);
  }

  lemma CancelCount(n: real, x: real, y: real, extra: real)
    requires n > 0.0 && extra >= 0.0 && n * x == n * y + extra
    ensures y <= x && (x == y <==> extra == 0.0)
  {
    assert n * (x - y) == extra;
  }

  /** rSquared is a share, and it is exactly the share of the variation the line explains. */
  lemma RSquaredExplains(s: seq<Sample>)
    requires Fits(s)
    ensures var f := Fit(s);
            && 0.0 <= f.rSquared <= 1.0
            && (DenomY(s) > TINY ==> |s| as real * SquaredError(s, f.slope, f.intercept) == DenomY(s) * (1.0 - f.rSquared))
  {
    var f := Fit(s);
    ErrorAgainstFit(s, f.slope, f.intercept);
    if DenomY(s) > TINY {
      assert f.rSquared == Share(Cross(s), Denom(s), DenomY(s));
      hide SquaredError, SumX, SumY, SumXX, SumYY, SumXY, DenomY, Cross, Denom, Off, Explained, Square, Fit, Share;
      ShareOfVariation(Cross(s), Denom(s), DenomY(s));
      assert |s| as real * SquaredError(s, f.slope, f.intercept) >= 0.0;
      ShareIsShare(f.rSquared, DenomY(s), Explained(Cross(s), Denom(s)));
    }
  }

  lemma ShareIsShare(share: real, e: real, explained: real)
    requires e > 0.0 && share * e == explained && 0.0 <= explained <= e
    ensures 0.0 <= share <= 1.0 && e * (1.0 - share) == e - explained
  {}

  lemma ShareOfVariation(cross: real, denom: real, denomY: real)
    requires denom > 0.0 && denomY > 0.0
    ensures Share(cross, denom, denomY) * denomY == Explained(cross, denom) && Explained(cross, denom) >= 0.0
  {
    var q := Share(cross, denom, denomY);
    ProductNotZero(denom, denomY);
    SquareNotNegative(cross);
    TimesQuotient(cross * cross, denom * denomY);
    assert (q * denomY) * denom == cross * cross;
    TimesQuotient(cross * cross, denom);
    CancelFactor(q * denomY, Explained(cross, denom), denom);
  }

  lemma CancelFactor(x: real, y: real, d: real)
    requires d > 0.0 && x * d == d * y
    ensures x == y
  {
    assert (x - y) * d == 0.0;
  }
}
