/**
 Outlier detection: `_detect_anomalies` (component_library/work/data_analyzer.py), over the reals.
 `sqrt` is the square root; a cell that cannot be read as a number is `None`.
 */
module Anomalies {
  import opened Common

  datatype Column = Column(name: string, numeric: bool, cells: seq<Option<real>>)

  datatype Finding = Finding(row: nat, column: string, value: real, zScore: real)

  type Root = real -> real

  ghost predicate IsRoot(sqrt: Root) {
    forall x: real :: x >= 0.0 ==> sqrt(x) >= 0.0 && sqrt(x) * sqrt(x) == x
  }

  const THRESHOLD := 1.3

  // ----- mean and deviation -----

  function Numbers(cells: seq<Option<real>>): seq<real> {
    if cells == [] then []
    else Numbers(cells[..|cells| - 1])
         + match cells[|cells| - 1]
           case None => []
           case Some(v) => [v]
  }

  function Sum(s: seq<real>): real {
    if s == [] then 0.0 else Sum(s[..|s| - 1]) + s[|s| - 1]
  }

  function Square(x: real): real {
    x * x
  }

  function SumBy(s: seq<real>, f: real -> real): real {
    if s == [] then 0.0 else SumBy(s[..|s| - 1], f) + f(s[|s| - 1])
  }

  /** The squared distance from the average. */
  function SquaredFrom(average: real): real -> real {
    v => Square(v - average)
  }

  function Average(s: seq<real>): real {
    if s == [] then 0.0 else Sum(s) / |s| as real
  }

  /** The population variance. */
  function Variance(s: seq<real>): real {
    if s == [] then 0.0 else SumBy(s, SquaredFrom(Average(s))) / |s| as real
  }

  /** The signed distance from a centre. */
  function From(centre: real): real -> real {
    v => v - centre
  }

  lemma {:induction false} SumFrom(s: seq<real>, centre: real)
    ensures SumBy(s, From(centre)) == Sum(s) - |s| as real * centre
  {
    if s != [] {
      SumFrom(s[..|s| - 1], centre);
    }
  }

  /** The average is the one number from which the signed distances cancel. */
  lemma DeviationsCancelIff(s: seq<real>, centre: real)
    requires s != []
    ensures SumBy(s, From(centre)) == 0.0 <==> centre == Average(s)
  {
    SumFrom(s, centre);
    var n := |s| as real;
    assert n > 0.0;
    assert Average(s) * n == Sum(s);
    if n * centre == Sum(s) {
      assert n * (centre - Average(s)) == 0.0;
    }
  }

  lemma NumbersLast(a: seq<Option<real>>, cell: Option<real>)
    ensures Numbers(a + [cell]) == Numbers(a) + if cell.Some? then [cell.value] else []
  {
    assert (a + [cell])[..|a|] == a;
  }

  /** The numbers of two parts of a column are those of the parts, in order. */
  lemma {:induction false} NumbersOfParts(a: seq<Option<real>>, b: seq<Option<real>>, cell: Option<real>)
    ensures Numbers(a + b) == Numbers(a) + Numbers(b)
    ensures Numbers([cell]) == if cell.Some? then [cell.value] else []
    decreases |b|
  {
    NumbersLast([], cell);
    assert [] + [cell] == [cell];
    if b == [] {
      AppendNothing(a);
    } else {
      var front, last := b[..|b| - 1], b[|b| - 1];
      NumbersOfParts(a, front, cell);
      AppendFront(a, b);
      NumbersLast(a + front, last);
      NumbersLast(front, last);
      assert front + [last] == b;
    }
  }

  lemma {:induction false} SumOfSquaresFrom(s: seq<real>, centre: real)
    ensures SumBy(s, SquaredFrom(centre)) == SumBy(s, SquaredFrom(0.0)) - 2.0 * centre * Sum(s) + |s| as real * (centre * centre)
  {
    if s != [] {
      var front, last := s[..|s| - 1], s[|s| - 1];
      SumOfSquaresFrom(front, centre);
      SquareOfDifference(last, centre);
      SquareOfDifference(last, 0.0);
      TimesSum(2.0 * centre, Sum(front), last);
      OneMore(|front|, centre * centre);
    }
  }

  lemma SquareOfDifference(x: real, y: real)
    ensures Square(x - y) == Square(x) - 2.0 * y * x + y * y
  {
  }

  lemma TimesSum(x: real, y: real, z: real)
    ensures x * (y + z) == x * y + x * z
  {
  }

  lemma OneMore(n: nat, x: real)
    ensures (n + 1) as real * x == n as real * x + x
  {
    assert (n + 1) as real == n as real + 1.0;
  }

  function Abs(x: real): real {
    if x < 0.0 then -x else x
  }

  function ZScore(value: real, average: real, deviation: real): real {
    if deviation == 0.0 then 0.0 else Abs(value - average) / deviation
  }

  function ScoreFrom(average: real, deviation: real): real -> real {
    v => ZScore(v, average, deviation)
  }

  // ----- the scan without a limit -----

  function Flagged(name: string, row: nat, cell: Option<real>, score: real -> real): seq<Finding> {
    if cell.Some? && score(cell.value) >= THRESHOLD then [Finding(row, name, cell.value, score(cell.value))] else []
  }

  function FindingsIn(name: string, cells: seq<Option<real>>, score: real -> real): seq<Finding> {
    if cells == [] then []
    else FindingsIn(name, cells[..|cells| - 1], score) + Flagged(name, |cells|, cells[|cells| - 1], score)
  }

  /** A column counts when it is numeric and has at least three numbers, with a deviation. */
  predicate Scanned(c: Column, sqrt: Root) {
    c.numeric && |Numbers(c.cells)| >= 3 && sqrt(Variance(Numbers(c.cells))) != 0.0
  }

  function ColumnFindings(c: Column, sqrt: Root): seq<Finding> {
    if Scanned(c, sqrt) then
      FindingsIn(c.name, c.cells, ScoreFrom(Average(Numbers(c.cells)), sqrt(Variance(Numbers(c.cells)))))
    else []
  }

  function Scan(columns: seq<Column>, sqrt: Root): seq<Finding> {
    if columns == [] then []
    else Scan(columns[..|columns| - 1], sqrt) + ColumnFindings(columns[|columns| - 1], sqrt)
  }

  lemma {:induction false} FindingsGrow(name: string, cells: seq<Option<real>>, score: real -> real, i: nat)
    requires i <= |cells|
    ensures FindingsIn(name, cells[..i], score) <= FindingsIn(name, cells, score)
  {
    if i < |cells| {
      assert cells[..|cells| - 1][..i] == cells[..i];
      FindingsGrow(name, cells[..|cells| - 1], score, i);
    } else {
      assert cells[..i] == cells;
    }
  }

  lemma {:induction false} ScanGrows(columns: seq<Column>, sqrt: Root, k: nat)
    requires k <= |columns|
    ensures Scan(columns[..k], sqrt) <= Scan(columns, sqrt)
  {
    if k < |columns| {
      assert columns[..|columns| - 1][..k] == columns[..k];
      ScanGrows(columns[..|columns| - 1], sqrt, k);
    } else {
      assert columns[..k] == columns;
    }
  }

  // ----- the scan as it is -----

  /** At least one finding is returned when there is one, whatever the limit. */
  function Bound(maxAnomalies: int): nat {
    if maxAnomalies < 1 then 1 else maxAnomalies
  }

  function FirstFew(findings: seq<Finding>, bound: nat): seq<Finding> {
    if |findings| <= bound then findings else findings[..bound]
  }

  /** Full: the limit has been reached, so what is there is the answer. */
  predicate Full(found: seq<Finding>, maxAnomalies: int) {
    found != [] && |found| >= maxAnomalies
  }

  lemma FullIsFirstFew(found: seq<Finding>, all: seq<Finding>, maxAnomalies: int)
    requires found <= all && |found| == Bound(maxAnomalies)
    ensures found == FirstFew(all, Bound(maxAnomalies))
  {
  }

  method ScanColumn(name: string, cells: seq<Option<real>>, score: real -> real, maxAnomalies: int, found0: seq<Finding>)
      returns (found: seq<Finding>, stop: bool)
    requires !Full(found0, maxAnomalies)
    ensures stop ==> found <= found0 + FindingsIn(name, cells, score) && |found| == Bound(maxAnomalies)
    ensures !stop ==> found == found0 + FindingsIn(name, cells, score) && !Full(found, maxAnomalies)
  {
    found := found0;
    for i := 0 to |cells|
      invariant found == found0 + FindingsIn(name, cells[..i], score)
      invariant !Full(found, maxAnomalies)
    {
      assert cells[..i + 1][..i] == cells[..i];
      if cells[i].Some? {
        var z := score(cells[i].value);
        if z >= THRESHOLD {
          found := found + [Finding(i + 1, name, cells[i].value, z)];
          assert found == found0 + FindingsIn(name, cells[..i + 1], score);
          if |found| >= maxAnomalies {
            FindingsGrow(name, cells, score, i + 1);
            return found, true;
          }
        }
      }
    }
    assert cells[..|cells|] == cells;
    stop := false;
  }

  /** The result is the beginning of the unlimited scan. */
  method DetectAnomalies(columns: seq<Column>, maxAnomalies: int, sqrt: Root) returns (anomalies: seq<Finding>)
    ensures anomalies == FirstFew(Scan(columns, sqrt), Bound(maxAnomalies))
  {
    anomalies := [];
    for k := 0 to |columns|
      invariant anomalies == Scan(columns[..k], sqrt) && !Full(anomalies, maxAnomalies)
    {
      assert columns[..k + 1][..k] == columns[..k];
      var c := columns[k];
      var numbers := Numbers(c.cells);
      if !c.numeric || |numbers| < 3 {
        continue;
      }
      var average, deviation := Average(numbers), sqrt(Variance(numbers));
      if deviation == 0.0 {
        continue;
      }
      var stop;
      anomalies, stop := ScanColumn(c.name, c.cells, ScoreFrom(average, deviation), maxAnomalies, anomalies);
      if stop {
        assert anomalies <= Scan(columns[..k + 1], sqrt);
        ScanGrows(columns, sqrt, k + 1);
        FullIsFirstFew(anomalies, Scan(columns, sqrt), maxAnomalies);
        return;
      }
    }
    assert columns[..|columns|] == columns;
  }

  // ----- what is flagged, and how much can be -----

  lemma SquareOfAbs(x: real)
    ensures Square(Abs(x)) == Square(x) && Abs(x) >= 0.0
  {
  }

  lemma ProductIsNotNegative(x: real, y: real)
    requires x >= 0.0 && y >= 0.0
    ensures x * y >= 0.0
  {
  }

  lemma ProductIsPositive(x: real, y: real)
    requires x > 0.0 && y > 0.0
    ensures x * y > 0.0
  {
  }

  lemma SquareGrows(x: real, y: real)
    requires 0.0 <= x && 0.0 <= y
    ensures x >= y <==> Square(x) >= Square(y)
  {
    if x >= y {
      ProductIsNotNegative(x - y, x);
      ProductIsNotNegative(x - y, y);
    } else {
      ProductIsNotNegative(y - x, x);
      ProductIsPositive(y - x, y);
    }
  }

  lemma SquareOfProduct(x: real, y: real)
    ensures Square(x * y) == Square(x) * Square(y)
  {
    assert x * y * (x * y) == x * x * (y * y);
  }

  lemma TimesGrows(x: real, y: real, d: real)
    requires d > 0.0
    ensures x >= y <==> x * d >= y * d
  {
    assert (x - y) * d == x * d - y * d;
    if x >= y {
      ProductIsNotNegative(x - y, d);
    } else {
      ProductIsPositive(y - x, d);
      assert (y - x) * d == -((x - y) * d);
    }
  }

  lemma QuotientAtLeast(x: real, d: real, t: real)
    requires d > 0.0
    ensures x / d >= t <==> x >= t * d
  {
    var q := x / d;
    assert q * d == x;
    TimesGrows(q, t, d);
  }

  /** A distance is at least `t` deviations exactly when its square is at least `t * t` variances. */
  lemma ScoreIff(distance: real, deviation: real, t: real)
    requires deviation > 0.0 && distance >= 0.0 && t >= 0.0
    ensures distance / deviation >= t <==> Square(distance) >= Square(t) * Square(deviation)
  {
    ProductIsNotNegative(t, deviation);
    QuotientAtLeast(distance, deviation, t);
    SquareGrows(distance, t * deviation);
    SquareOfProduct(t, deviation);
  }

  /** A value is an outlier if and only if its squared distance is at least 1.69 variances. */
  lemma OutlierIff(value: real, average: real, deviation: real)
    requires deviation > 0.0
    ensures ZScore(value, average, deviation) >= THRESHOLD <==> Square(value - average) >= 1.69 * Square(deviation)
  {
    ScoreIff(Abs(value - average), deviation, THRESHOLD);
    SquareOfAbs(value - average);
    assert Square(THRESHOLD) == 1.69;
  }

  lemma {:induction false} SumIsNotNegative(s: seq<real>, f: real -> real)
    requires forall v :: f(v) >= 0.0
    ensures SumBy(s, f) >= 0.0
  {
    if s != [] {
      SumIsNotNegative(s[..|s| - 1], f);
    }
  }

  lemma SquaresAreNotNegative(average: real)
    ensures forall v :: SquaredFrom(average)(v) >= 0.0
  {
    forall v ensures SquaredFrom(average)(v) >= 0.0 {
      SquareOfAbs(v - average);
      ProductIsNotNegative(Abs(v - average), Abs(v - average));
    }
  }

  lemma VarianceIsNotNegative(s: seq<real>)
    ensures Variance(s) >= 0.0
  {
    SquaresAreNotNegative(Average(s));
    SumIsNotNegative(s, SquaredFrom(Average(s)));
  }

  /** Exactly the outlying cells are reported, each under its own row. */
  lemma {:induction false} FindingsAreExact(name: string, cells: seq<Option<real>>, score: real -> real, f: Finding)
    ensures f in FindingsIn(name, cells, score)
            <==> && 0 < f.row <= |cells| && f.column == name && cells[f.row - 1] == Some(f.value)
                 && f.zScore == score(f.value) && f.zScore >= THRESHOLD
  {
    if cells != [] {
      FindingsAreExact(name, cells[..|cells| - 1], score, f);
    }
  }

  lemma {:induction false} SumIsZeroIff(s: seq<real>, f: real -> real)
    requires forall v :: f(v) >= 0.0
    ensures SumBy(s, f) == 0.0 <==> forall i :: 0 <= i < |s| ==> f(s[i]) == 0.0
  {
    if s != [] {
      var front := s[..|s| - 1];
      SumIsZeroIff(front, f);
      SumIsNotNegative(front, f);
      assert forall i :: 0 <= i < |front| ==> front[i] == s[i];
    }
  }

  lemma SquareIsZeroIff(x: real)
    ensures Square(x) == 0.0 <==> x == 0.0
  {
    if x > 0.0 {
      ProductOfPositives(x, x, Square(x));
    } else if x < 0.0 {
      ProductOfPositives(-x, -x, Square(x));
    }
  }

  lemma VarianceIsZeroIff(s: seq<real>)
    ensures Variance(s) == 0.0 <==> forall i :: 0 <= i < |s| ==> s[i] == Average(s)
  {
    var average := Average(s);
    SquaresAreNotNegative(average);
    SumIsZeroIff(s, SquaredFrom(average));
    forall i | 0 <= i < |s| ensures SquaredFrom(average)(s[i]) == 0.0 <==> s[i] == average {
      SquareIsZeroIff(s[i] - average);
    }
    if s != [] {
      VarianceTimesCount(s);
    }
  }

  /**
   A finding is reported for a column if and only if the column is numeric with at least three
   numbers that are not all equal to their average, and the cell's squared distance from the
   average is at least 1.69 times the variance.
   */
  lemma ReportedIff(c: Column, sqrt: Root, row: nat, value: real)
    requires IsRoot(sqrt)
    ensures var numbers := Numbers(c.cells);
            (exists f :: f in ColumnFindings(c, sqrt) && f.row == row && f.value == value)
            <==> && c.numeric && |numbers| >= 3 && (exists i :: 0 <= i < |numbers| && numbers[i] != Average(numbers))
                 && 0 < row <= |c.cells| && c.cells[row - 1] == Some(value)
                 && Square(value - Average(numbers)) >= 1.69 * Variance(numbers)
  {
    var numbers := Numbers(c.cells);
    var average, variance := Average(numbers), Variance(numbers);
    VarianceIsNotNegative(numbers);
    VarianceIsZeroIff(numbers);
    SquareIsZeroIff(sqrt(variance));
    if Scanned(c, sqrt) {
      RootIsPositive(sqrt, variance);
      OutlierIff(value, average, sqrt(variance));
      var score := ScoreFrom(average, sqrt(variance));
      FindingsAreExact(c.name, c.cells, score, Finding(row, c.name, value, score(value)));
      forall f | f in ColumnFindings(c, sqrt) && f.row == row && f.value == value
        ensures f == Finding(row, c.name, value, score(value))
      {
        FindingsAreExact(c.name, c.cells, score, f);
      }
    }
  }

  /** `count` times the price. */
  function Times(count: nat, price: real): real {
    if count == 0 then 0.0 else Times(count - 1, price) + price
  }

  lemma {:induction false} TimesIsProduct(count: nat, price: real)
    ensures Times(count, price) == count as real * price
  {
    if count > 0 {
      TimesIsProduct(count - 1, price);
      assert (count - 1) as real * price + price == ((count - 1) as real + 1.0) * price;
      assert (count - 1) as real + 1.0 == count as real;
    }
  }

  lemma NumbersSnoc(cells: seq<Option<real>>, f: real -> real)
    requires cells != []
    ensures var front, last := cells[..|cells| - 1], cells[|cells| - 1];
            SumBy(Numbers(cells), f) == SumBy(Numbers(front), f) + if last.Some? then f(last.value) else 0.0
  {
    var front, last := cells[..|cells| - 1], cells[|cells| - 1];
    if last.Some? {
      assert Numbers(cells)[..|Numbers(front)|] == Numbers(front);
    } else {
      assert Numbers(cells) == Numbers(front);
    }
  }

  /** Every finding takes its share of the sum. */
  lemma {:induction false} FindingsCost(name: string, cells: seq<Option<real>>, score: real -> real, f: real -> real, price: real)
    requires forall v :: f(v) >= 0.0
    requires forall v :: score(v) >= THRESHOLD ==> price <= f(v)
    ensures Times(|FindingsIn(name, cells, score)|, price) <= SumBy(Numbers(cells), f)
  {
    if cells != [] {
      var front, last := cells[..|cells| - 1], cells[|cells| - 1];
      FindingsCost(name, front, score, f, price);
      NumbersSnoc(cells, f);
      var count := |FindingsIn(name, front, score)|;
      if Flagged(name, |cells|, last, score) != [] {
        assert |FindingsIn(name, cells, score)| == count + 1;
      } else {
        assert |FindingsIn(name, cells, score)| == count;
      }
    }
  }

  lemma SharesFit(flagged: real, n: real, variance: real)
    requires variance > 0.0 && flagged * (1.69 * variance) <= n * variance
    ensures flagged * 1.69 <= n
  {
    assert flagged * (1.69 * variance) == flagged * 1.69 * variance;
    if flagged * 1.69 > n {
      ProductIsPositive(flagged * 1.69 - n, variance);
    }
  }

  lemma TimesFit(flagged: nat, n: real, variance: real, total: real)
    requires variance > 0.0 && total == n * variance && Times(flagged, 1.69 * variance) <= total
    ensures flagged as real * 1.69 <= n
  {
    TimesIsProduct(flagged, 1.69 * variance);
    SharesFit(flagged as real, n, variance);
  }

  lemma VarianceTimesCount(s: seq<real>)
    requires s != []
    ensures SumBy(s, SquaredFrom(Average(s))) == |s| as real * Variance(s)
  {
    var total, n := SumBy(s, SquaredFrom(Average(s))), |s| as real;
    assert total / n * n == total;
  }

  /** The variance is the mean of the squares less the square of the mean. */
  lemma VarianceIsMeanSquare(s: seq<real>)
    requires s != []
    ensures |s| as real * Variance(s) == SumBy(s, SquaredFrom(0.0)) - |s| as real * (Average(s) * Average(s))
  {
    VarianceTimesCount(s);
    SumOfSquaresFrom(s, Average(s));
    SumIsAverage(s);
    MeanSquare(|s| as real, Average(s), Sum(s), SumBy(s, SquaredFrom(0.0)), |s| as real * Variance(s));
  }

  lemma MeanSquare(n: real, average: real, sum: real, squares: real, total: real)
    requires sum == average * n
    requires total == squares - 2.0 * average * sum + n * (average * average)
    ensures total == squares - n * (average * average)
  {
    TwiceProduct(average, n, sum);
  }

  lemma SumIsAverage(s: seq<real>)
    requires s != []
    ensures Sum(s) == Average(s) * |s| as real
  {
    var n := |s| as real;
    assert Sum(s) / n * n == Sum(s);
  }

  lemma TwiceProduct(average: real, n: real, sum: real)
    requires sum == average * n
    ensures 2.0 * average * sum == 2.0 * (n * (average * average))
  {
    assert average * (average * n) == n * (average * average);
  }

  lemma OutliersAreFar(average: real, deviation: real, variance: real)
    requires deviation > 0.0 && deviation * deviation == variance
    ensures forall v :: ScoreFrom(average, deviation)(v) >= THRESHOLD ==> 1.69 * variance <= SquaredFrom(average)(v)
  {
    forall v | ScoreFrom(average, deviation)(v) >= THRESHOLD ensures 1.69 * variance <= SquaredFrom(average)(v) {
      OutlierIff(v, average, deviation);
    }
  }

  lemma ProductOfPositives(x: real, y: real, product: real)
    requires x > 0.0 && y > 0.0 && x * y == product
    ensures product > 0.0
  {
  }

  lemma RootIsPositive(sqrt: Root, variance: real)
    requires IsRoot(sqrt) && variance >= 0.0 && sqrt(variance) != 0.0
    ensures sqrt(variance) > 0.0 && sqrt(variance) * sqrt(variance) == variance && variance > 0.0
  {
    ProductOfPositives(sqrt(variance), sqrt(variance), variance);
  }

  lemma FlaggedCost(name: string, cells: seq<Option<real>>, average: real, deviation: real, variance: real)
    requires deviation > 0.0 && deviation * deviation == variance
    ensures Times(|FindingsIn(name, cells, ScoreFrom(average, deviation))|, 1.69 * variance)
            <= SumBy(Numbers(cells), SquaredFrom(average))
  {
    SquaresAreNotNegative(average);
    OutliersAreFar(average, deviation, variance);
    FindingsCost(name, cells, ScoreFrom(average, deviation), SquaredFrom(average), 1.69 * variance);
  }

  /** Chebyshev's bound for one column: at most n / 1.69 of its n numbers are flagged. */
  lemma ColumnBound(c: Column, sqrt: Root)
    requires IsRoot(sqrt)
    ensures |ColumnFindings(c, sqrt)| as real * 1.69 <= |Numbers(c.cells)| as real
  {
    if Scanned(c, sqrt) {
      var numbers := Numbers(c.cells);
      var average, variance := Average(numbers), Variance(numbers);
      VarianceIsNotNegative(numbers);
      RootIsPositive(sqrt, variance);
      FlaggedCost(c.name, c.cells, average, sqrt(variance), variance);
      VarianceTimesCount(numbers);
      TimesFit(|ColumnFindings(c, sqrt)|, |numbers| as real, variance, SumBy(numbers, SquaredFrom(average)));
    }
  }

  function CountNumbers(columns: seq<Column>): nat {
    if columns == [] then 0
    else CountNumbers(columns[..|columns| - 1]) + |Numbers(columns[|columns| - 1].cells)|
  }

  /** Over the whole table at most n / 1.69 of its n numbers are flagged, limit or not. */
  lemma {:induction false} TableBound(columns: seq<Column>, sqrt: Root)
    requires IsRoot(sqrt)
    ensures |Scan(columns, sqrt)| as real * 1.69 <= CountNumbers(columns) as real
  {
    if columns != [] {
      TableBound(columns[..|columns| - 1], sqrt);
      ColumnBound(columns[|columns| - 1], sqrt);
    }
  }
}
