/** The furnace plate optimizer: the rows of the accepted table become the
    items of a 0/1 knapsack with a weight capacity and a thickness limit, the
    heaviest load that respects both is chosen, and the chosen rows and their
    totals are reported (app.py lines 14-43). */
module Optimizer {
  import opened BinaryProgram
  import opened Table
  import opened Furnace

  /** One row of the plate table: its "Plate Weight" cell (metric tons) and
      its "Plate Thickness" cell (millimetres), fractions included. */
  datatype Plate = Plate(weight: real, thickness: real)

  /** The two columns the optimizer reads. */
  datatype Field = Weight | Thickness

  function Cell(p: Plate, f: Field): real {
    match f
    case Weight => p.weight
    case Thickness => p.thickness
  }

  /** `[df.loc[i, column] for i in df.index]`: one coefficient per row. */
  function Column(plates: seq<Plate>, f: Field): (r: seq<real>)
    ensures |r| == |plates|
    ensures forall i :: 0 <= i < |plates| ==> r[i] == Cell(plates[i], f)
  {
    seq(|plates|, i requires 0 <= i < |plates| => Cell(plates[i], f))
  }

  /** `selected[column].sum()`: 0 for rows that hold no plate, and never
      negative when no cell of the column is. */
  function Total(plates: seq<Plate>, f: Field): (t: real)
    ensures |plates| == 0 ==> t == 0.0
    ensures (forall i :: 0 <= i < |plates| ==> Cell(plates[i], f) >= 0.0) ==> t >= 0.0
  {
    if |plates| == 0 then 0.0 else Cell(plates[0], f) + Total(plates[1..], f)
  }

  /** The sum over two runs of rows is the sum of their sums. */
  lemma {:induction false} TotalAppend(a: seq<Plate>, b: seq<Plate>, f: Field)
    ensures Total(a + b, f) == Total(a, f) + Total(b, f)
  {
    if |a| > 0 {
      assert (a + b)[1..] == a[1..] + b;
      TotalAppend(a[1..], b, f);
    } else {
      assert a + b == b;
    }
  }

  /** `lpSum(x[i] * weight_i) <= capacity`: one coefficient per row, the
      row's weight, bounded by the capacity. */
  function WeightLimit(plates: seq<Plate>, capacity: real): (c: Constraint)
    ensures |c.coeffs| == |plates| && c.bound == capacity
    ensures forall i :: 0 <= i < |plates| ==> c.coeffs[i] == plates[i].weight
  {
    AtMost(Column(plates, Weight), capacity)
  }

  /** `lpSum(x[i] * thickness_i) <= max_thickness`: one coefficient per row,
      the row's thickness, bounded by the thickness limit. */
  function ThicknessLimit(plates: seq<Plate>, maxThickness: real): (c: Constraint)
    ensures |c.coeffs| == |plates| && c.bound == maxThickness
    ensures forall i :: 0 <= i < |plates| ==> c.coeffs[i] == plates[i].thickness
  {
    AtMost(Column(plates, Thickness), maxThickness)
  }

  /** The constraints of the furnace problem, in the order they are added:
      two constraints over one variable per row, the first bounded by the
      capacity and the second by the thickness limit. */
  function Limits(plates: seq<Plate>, capacity: real, maxThickness: real): (cs: seq<Constraint>)
    ensures |cs| == 2 && Shaped(|plates|, cs)
    ensures cs[0].bound == capacity && cs[1].bound == maxThickness
  {
    [WeightLimit(plates, capacity), ThicknessLimit(plates, maxThickness)]
  }

  /** The rows `chosen` keeps fit the furnace: their total weight is within
      the capacity and their total thickness within the thickness limit. */
  predicate Fits(plates: seq<Plate>, chosen: seq<bool>, capacity: real, maxThickness: real)
    requires |chosen| == |plates|
  {
    var load := Select(plates, chosen);
    Total(load, Weight) <= capacity && Total(load, Thickness) <= maxThickness
  }

  /** `chosen` picks one decision per row, fits the furnace, and no other
      fitting choice of rows weighs more. */
  ghost predicate IsBestLoad(plates: seq<Plate>, chosen: seq<bool>, capacity: real, maxThickness: real) {
    && |chosen| == |plates|
    && Fits(plates, chosen, capacity, maxThickness)
    && forall y :: |y| == |plates| && Fits(plates, y, capacity, maxThickness) ==>
         Total(Select(plates, y), Weight) <= Total(Select(plates, chosen), Weight)
  }

  /** A best load fits, and weighs at least as much as any load that fits. */
  lemma BestLoadBeats(plates: seq<Plate>, x: seq<bool>, capacity: real, maxThickness: real, y: seq<bool>)
    requires IsBestLoad(plates, x, capacity, maxThickness)
    requires |y| == |plates| && Fits(plates, y, capacity, maxThickness)
    ensures |x| == |plates| && Fits(plates, x, capacity, maxThickness)
    ensures Total(Select(plates, y), Weight) <= Total(Select(plates, x), Weight)
  {
  }

  /** The linear expression over a column, evaluated at a decision vector,
      is the column's total over the rows the vector keeps. */
  lemma {:induction false} ExpressionIsTotal(plates: seq<Plate>, f: Field, x: seq<bool>)
    requires |x| == |plates|
    ensures Dot(Column(plates, f), x) == Total(Select(plates, x), f)
  {
    if |plates| > 0 {
      assert Column(plates, f)[1..] == Column(plates[1..], f);
      ExpressionIsTotal(plates[1..], f, x[1..]);
      var rest := Select(plates[1..], x[1..]);
      if x[0] {
        assert Select(plates, x) == [plates[0]] + rest;
        assert ([plates[0]] + rest)[1..] == rest;
      } else {
        assert Select(plates, x) == rest;
      }
    }
  }

  /** The formulated problem means what the furnace needs: an assignment is
      feasible exactly when the chosen rows fit, and the objective is their
      total weight. */
  lemma LimitsMeaning(plates: seq<Plate>, capacity: real, maxThickness: real, x: seq<bool>)
    requires |x| == |plates|
    ensures Shaped(|x|, Limits(plates, capacity, maxThickness))
    ensures Holds(Limits(plates, capacity, maxThickness), x) <==> Fits(plates, x, capacity, maxThickness)
    ensures Dot(Column(plates, Weight), x) == Total(Select(plates, x), Weight)
  {
    ExpressionIsTotal(plates, Weight, x);
    ExpressionIsTotal(plates, Thickness, x);
    var cs := Limits(plates, capacity, maxThickness);
    assert Dot(cs[0].coeffs, x) == Total(Select(plates, x), Weight);
    assert Dot(cs[1].coeffs, x) == Total(Select(plates, x), Thickness);
  }

  /** Solving the furnace problem exactly gives the best load: with limits
      that are not negative it always succeeds, the load fits, and no fitting
      load weighs more. */
  lemma SearchLoadsBest(plates: seq<Plate>, capacity: real, maxThickness: real)
    requires capacity >= 0.0 && maxThickness >= 0.0
    ensures Shaped(|plates|, Limits(plates, capacity, maxThickness))
    ensures Search(Column(plates, Weight), Limits(plates, capacity, maxThickness)).Some?
    ensures IsBestLoad(plates, Search(Column(plates, Weight), Limits(plates, capacity, maxThickness)).value,
                       capacity, maxThickness)
  {
    var obj, cs := Column(plates, Weight), Limits(plates, capacity, maxThickness);
    NoneSetHolds(|plates|, cs);
    SearchIsExact(obj, cs);
    var x := Search(obj, cs).value;
    LimitsMeaning(plates, capacity, maxThickness, x);
    forall y | |y| == |plates| && Fits(plates, y, capacity, maxThickness)
      ensures Total(Select(plates, y), Weight) <= Total(Select(plates, x), Weight)
    {
      LimitsMeaning(plates, capacity, maxThickness, y);
    }
  }

  /** A table without rows is solved with the empty decision vector, and
      filtering with that empty list selects no column, so the sum of
      "Plate Weight" has no column to read. */
  lemma EmptyTable(columns: seq<string>, capacity: real, maxThickness: real)
    requires capacity >= 0.0 && maxThickness >= 0.0
    ensures Search(Column([], Weight), Limits([], capacity, maxThickness)) == Some([])
    ensures WeightColumn !in MaskColumns(columns, [])
  {
    SearchLoadsBest([], capacity, maxThickness);
  }

  /** Choosing no row gives an empty selection whose totals are 0: what a
      table with rows reports when no plate fits. */
  lemma {:induction false} NothingChosen(plates: seq<Plate>)
    ensures Select(plates, NoneSet(|plates|)) == []
    ensures Total(Select(plates, NoneSet(|plates|)), Weight) == 0.0
    ensures Total(Select(plates, NoneSet(|plates|)), Thickness) == 0.0
  {
    if |plates| > 0 {
      assert NoneSet(|plates|)[1..] == NoneSet(|plates| - 1);
      NothingChosen(plates[1..]);
    }
  }

  /** The totals of a one-row table under either decision. */
  lemma OnePlateTotals(p: Plate, b: bool)
    ensures Total(Select([p], [b]), Weight) == (if b then p.weight else 0.0)
    ensures Total(Select([p], [b]), Thickness) == (if b then p.thickness else 0.0)
  {
    assert Select([p], [b]) == (if b then [p] else []);
  }

  /** The best load of a one-row table whose plate is over the capacity
      leaves the plate out. */
  lemma OverweightBest(p: Plate, x: seq<bool>, capacity: real, maxThickness: real)
    requires IsBestLoad([p], x, capacity, maxThickness) && p.weight > capacity
    ensures x == [false]
  {
    assert x == [x[0]];
    OnePlateTotals(p, x[0]);
  }

  /** A single plate heavier than the capacity is left out. */
  lemma OverweightPlateLeftOut(p: Plate, capacity: real, maxThickness: real)
    requires capacity >= 0.0 && maxThickness >= 0.0 && p.weight > capacity
    ensures Search(Column([p], Weight), Limits([p], capacity, maxThickness)) == Some([false])
  {
    SearchLoadsBest([p], capacity, maxThickness);
    OverweightBest(p, Search(Column([p], Weight), Limits([p], capacity, maxThickness)).value, capacity, maxThickness);
  }

  /** The best load of a one-row table whose plate has positive weight and
      fits both limits takes the plate. */
  lemma FittingBest(p: Plate, x: seq<bool>, capacity: real, maxThickness: real)
    requires IsBestLoad([p], x, capacity, maxThickness)
    requires 0.0 < p.weight <= capacity && p.thickness <= maxThickness
    ensures x == [true]
  {
    OnePlateTotals(p, true);
    BestLoadBeats([p], x, capacity, maxThickness, [true]);
    assert x == [x[0]];
    OnePlateTotals(p, x[0]);
  }

  /** A single plate of positive weight within both limits is loaded. */
  lemma FittingPlateLoaded(p: Plate, capacity: real, maxThickness: real)
    requires 0.0 < p.weight <= capacity && 0.0 <= p.thickness <= maxThickness
    ensures Search(Column([p], Weight), Limits([p], capacity, maxThickness)) == Some([true])
  {
    SearchLoadsBest([p], capacity, maxThickness);
    FittingBest(p, Search(Column([p], Weight), Limits([p], capacity, maxThickness)).value, capacity, maxThickness);
  }

  /** A plate of 1.5 tons and 10.5 mm fits the first furnace and is loaded. */
  lemma FractionalPlateLoaded()
    ensures Search(Column([Plate(1.5, 10.5)], Weight),
                   Limits([Plate(1.5, 10.5)], Capacity(Furnace1) as real, MaxThickness(Capacity(Furnace1)) as real))
            == Some([true])
  {
    ChoicesMatchLabels();
    FittingPlateLoaded(Plate(1.5, 10.5), 100.0, 350.0);
  }

  /** A linear expression in three variables, written out. */
  lemma DotOfThree(a: seq<real>, x: seq<bool>)
    requires |a| == 3 && |x| == 3
    ensures Dot(a, x) == (if x[0] then a[0] else 0.0) + (if x[1] then a[1] else 0.0) + (if x[2] then a[2] else 0.0)
  {
    assert Dot(a, x) == (if x[0] then a[0] else 0.0) + Dot(a[1..], x[1..]);
    assert Dot(a[1..], x[1..]) == (if x[1] then a[1] else 0.0) + Dot(a[2..], x[2..]) by {
      assert a[1..][1..] == a[2..] && x[1..][1..] == x[2..];
    }
    assert Dot(a[2..], x[2..]) == (if x[2] then a[2] else 0.0) + Dot(a[3..], x[3..]) by {
      assert a[2..][1..] == a[3..] && x[2..][1..] == x[3..];
    }
  }

  /** Plates of 60.5, 50.25 and 39.5 tons, each 100 mm thick. */
  const ThreePlates := [Plate(60.5, 100.0), Plate(50.25, 100.0), Plate(39.5, 100.0)]

  lemma ThreePlateTotals(x: seq<bool>)
    requires |x| == 3
    ensures Total(Select(ThreePlates, x), Weight) == (if x[0] then 60.5 else 0.0) + (if x[1] then 50.25 else 0.0) + (if x[2] then 39.5 else 0.0)
    ensures Total(Select(ThreePlates, x), Thickness) == (if x[0] then 100.0 else 0.0) + (if x[1] then 100.0 else 0.0) + (if x[2] then 100.0 else 0.0)
  {
    ExpressionIsTotal(ThreePlates, Weight, x);
    ExpressionIsTotal(ThreePlates, Thickness, x);
    DotOfThree(Column(ThreePlates, Weight), x);
    DotOfThree(Column(ThreePlates, Thickness), x);
  }

  /** Under limits of 100 tons and 250 mm the first and the third of the
      three plates are loaded, 100 tons and 200 mm in all: 60.5 + 50.25 is
      over the capacity, all three are over both limits, and 50.25 + 39.5
      is lighter. */
  lemma ThreePlateExample()
    ensures Search(Column(ThreePlates, Weight), Limits(ThreePlates, 100.0, 250.0)) == Some([true, false, true])
  {
    SearchLoadsBest(ThreePlates, 100.0, 250.0);
    var x := Search(Column(ThreePlates, Weight), Limits(ThreePlates, 100.0, 250.0)).value;
    ThreeBestLoad(x);
  }

  lemma ThreeBestLoad(x: seq<bool>)
    requires IsBestLoad(ThreePlates, x, 100.0, 250.0)
    ensures x == [true, false, true]
  {
    FirstAndThirdFit();
    BestLoadBeats(ThreePlates, x, 100.0, 250.0, [true, false, true]);
    ThreeHeavyFit(x);
  }

  lemma FirstAndThirdFit()
    ensures Fits(ThreePlates, [true, false, true], 100.0, 250.0)
    ensures Total(Select(ThreePlates, [true, false, true]), Weight) == 100.0
  {
    ThreePlateTotals([true, false, true]);
  }

  /** The only choice of the three plates that fits and reaches 100 tons. */
  lemma ThreeHeavyFit(x: seq<bool>)
    requires |x| == 3
    ensures Fits(ThreePlates, x, 100.0, 250.0) && Total(Select(ThreePlates, x), Weight) >= 100.0
            <==> x == [true, false, true]
  {
    ThreePlateTotals(x);
    assert x == [x[0], x[1], x[2]];
  }

  /** What the page ends up showing for an uploaded table: a refusal, the
      `KeyError` that a column lookup raises, or the optimized load. */
  datatype Outcome =
    | MissingColumns
    | KeyError(column: string)
    | Optimized(chosen: seq<bool>, selected: Frame<Plate>, totalWeight: real, totalThickness: real)

  /** Run once "Optimize" is pressed on an accepted table (app.py lines
      23-43): derive the limits from the furnace label, formulate and solve
      the problem, keep the rows whose variable is set, relabel them
      0, 1, ..., and total the two columns. A table without rows gives an
      empty key, which selects no column, and the first sum raises. */
  method Optimize(df: Frame<Plate>, furnace: string) returns (outcome: Outcome)
    requires df.Valid() && HasPlateColumns(df.columns)
    ensures !outcome.MissingColumns?
    ensures outcome.KeyError? <==> |df.rows| == 0
    ensures outcome.KeyError? ==> outcome.column == WeightColumn
    ensures outcome.Optimized? ==>
              && IsBestLoad(df.rows, outcome.chosen, Capacity(furnace) as real, MaxThickness(Capacity(furnace)) as real)
              && fresh(outcome.selected) && outcome.selected.Valid()
              && outcome.selected.columns == df.columns
              && outcome.selected.rows == Select(df.rows, outcome.chosen)
              && outcome.selected.index == Range(|outcome.selected.rows|)
              && outcome.totalWeight == Total(outcome.selected.rows, Weight)
              && outcome.totalThickness == Total(outcome.selected.rows, Thickness)
  {
    var tons := Capacity(furnace);
    var capacity := tons as real;
    var maxThickness := MaxThickness(tons) as real;
    var plates := df.rows;

    var prob := new Problem(|plates|);
    prob.SetObjective(Column(plates, Weight));
    prob.AddConstraint(WeightLimit(plates, capacity));
    prob.AddConstraint(ThicknessLimit(plates, maxThickness));
    assert prob.constraints == Limits(plates, capacity, maxThickness);
    NoneSetHolds(|plates|, prob.constraints);

    var status := prob.Solve();
    assert status == Optimal;
    var chosen := prob.values;
    forall y | |y| == |plates|
      ensures Holds(prob.constraints, y) <==> Fits(plates, y, capacity, maxThickness)
      ensures Dot(prob.objective, y) == Total(Select(plates, y), Weight)
    {
      LimitsMeaning(plates, capacity, maxThickness, y);
    }

    var selected := df.Filter(chosen);
    selected.ResetIndex();
    MaskKeepsPlateColumns(df.columns, chosen);
    if WeightColumn !in selected.columns {
      outcome := KeyError(WeightColumn);
    } else {
      assert ThicknessColumn in selected.columns;
      var totalWeight := Total(selected.rows, Weight);
      var totalThickness := Total(selected.rows, Thickness);
      outcome := Optimized(chosen, selected, totalWeight, totalThickness);
    }
  }

  /** An uploaded table with "Optimize" pressed (app.py lines 14-43): strip
      the header names, refuse a table without both plate columns, and
      otherwise optimize the load for the chosen furnace. */
  method Run(df: Frame<Plate>, furnace: string) returns (outcome: Outcome)
    requires df.Valid()
    modifies df`columns
    ensures df.Valid() && df.columns == Normalized(old(df.columns))
    ensures outcome.MissingColumns? <==> !HasPlateColumns(df.columns)
    ensures outcome.KeyError? <==> HasPlateColumns(df.columns) && |df.rows| == 0
    ensures outcome.KeyError? ==> outcome.column == WeightColumn
    ensures outcome.Optimized? ==>
              && IsBestLoad(df.rows, outcome.chosen, Capacity(furnace) as real, MaxThickness(Capacity(furnace)) as real)
              && fresh(outcome.selected) && outcome.selected.Valid()
              && outcome.selected.columns == df.columns
              && outcome.selected.rows == Select(df.rows, outcome.chosen)
              && outcome.selected.index == Range(|outcome.selected.rows|)
              && outcome.totalWeight == Total(outcome.selected.rows, Weight)
              && outcome.totalThickness == Total(outcome.selected.rows, Thickness)
  {
    df.StripColumnNames();
    if !HasPlateColumns(df.columns) {
      outcome := MissingColumns;
    } else {
      outcome := Optimize(df, furnace);
    }
  }
}
