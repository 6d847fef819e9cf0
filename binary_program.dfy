/** A maximisation problem over binary decision variables with linear
    "at most" constraints: the problem object the optimizer builds with
    `prob += ...` (app.py lines 28-36) and solves (app.py line 38). The
    solving library is replaced by an exhaustive include/exclude search that
    is proved to return a feasible assignment of largest objective value. */
module BinaryProgram {

  datatype Option<T> = None | Some(value: T)

  /** `coeffs[0] * x[0] + ... + coeffs[n-1] * x[n-1] <= bound`. */
  datatype Constraint = AtMost(coeffs: seq<real>, bound: real)

  /** The solve status; the optimizer never inspects it. */
  datatype Status = Optimal | Infeasible

  /** Every constraint has one coefficient per decision variable. */
  predicate Shaped(n: nat, cs: seq<Constraint>) {
    forall i :: 0 <= i < |cs| ==> |cs[i].coeffs| == n
  }

  /** The value of a linear expression at a 0/1 assignment (`lpSum`):
      never negative when no coefficient is. */
  function Dot(a: seq<real>, x: seq<bool>): (r: real)
    requires |a| == |x|
    ensures (forall i :: 0 <= i < |a| ==> a[i] >= 0.0) ==> r >= 0.0
  {
    if |a| == 0 then 0.0 else (if x[0] then a[0] else 0.0) + Dot(a[1..], x[1..])
  }

  /** The assignment satisfies every constraint. */
  predicate Holds(cs: seq<Constraint>, x: seq<bool>)
    requires Shaped(|x|, cs)
  {
    forall i :: 0 <= i < |cs| ==> Dot(cs[i].coeffs, x) <= cs[i].bound
  }

  /** `x` is feasible and no feasible assignment has a larger objective. */
  ghost predicate IsOptimal(obj: seq<real>, cs: seq<Constraint>, x: seq<bool>)
    requires Shaped(|obj|, cs)
  {
    && |x| == |obj|
    && Holds(cs, x)
    && forall y :: |y| == |obj| && Holds(cs, y) ==> Dot(obj, y) <= Dot(obj, x)
  }

  /** The assignment that sets no variable. */
  function NoneSet(n: nat): (x: seq<bool>)
    ensures |x| == n && forall i :: 0 <= i < n ==> !x[i]
  {
    seq(n, _ => false)
  }

  /** A linear expression is zero when no variable is set. */
  lemma {:induction false} DotNoneSet(a: seq<real>)
    ensures Dot(a, NoneSet(|a|)) == 0.0
  {
    if |a| > 0 {
      assert NoneSet(|a|)[1..] == NoneSet(|a| - 1);
      DotNoneSet(a[1..]);
    }
  }

  /** Setting no variable satisfies every constraint whose bound is not
      negative, so such a problem is never infeasible. */
  lemma NoneSetHolds(n: nat, cs: seq<Constraint>)
    requires Shaped(n, cs)
    requires forall i :: 0 <= i < |cs| ==> cs[i].bound >= 0.0
    ensures Holds(cs, NoneSet(n))
  {
    forall i | 0 <= i < |cs| ensures Dot(cs[i].coeffs, NoneSet(n)) == 0.0 {
      DotNoneSet(cs[i].coeffs);
    }
  }

  /** Splitting off the first variable of a linear expression. */
  lemma DotCons(a: seq<real>, b: bool, y: seq<bool>)
    requires |a| == |y| + 1
    ensures Dot(a, [b] + y) == (if b then a[0] else 0.0) + Dot(a[1..], y)
  {
    assert ([b] + y)[1..] == y;
  }

  /** The constraints on the remaining variables once the first variable is
      fixed to `b`: its coefficient leaves each expression and, when it is
      set, is charged against the bound. */
  function Fix(cs: seq<Constraint>, b: bool): (r: seq<Constraint>)
    requires forall i :: 0 <= i < |cs| ==> |cs[i].coeffs| > 0
    ensures |r| == |cs|
    ensures forall i :: 0 <= i < |cs| ==>
              r[i] == AtMost(cs[i].coeffs[1..], cs[i].bound - (if b then cs[i].coeffs[0] else 0.0))
  {
    seq(|cs|, i requires 0 <= i < |cs| =>
      AtMost(cs[i].coeffs[1..], cs[i].bound - (if b then cs[i].coeffs[0] else 0.0)))
  }

  /** An assignment starting with `b` is feasible exactly when its remaining
      variables are feasible for the fixed constraints. */
  lemma FixHolds(cs: seq<Constraint>, b: bool, y: seq<bool>)
    requires Shaped(|y| + 1, cs)
    ensures Shaped(|y|, Fix(cs, b))
    ensures Holds(cs, [b] + y) <==> Holds(Fix(cs, b), y)
  {
    forall i | 0 <= i < |cs|
      ensures Dot(cs[i].coeffs, [b] + y) == (if b then cs[i].coeffs[0] else 0.0) + Dot(cs[i].coeffs[1..], y)
    {
      DotCons(cs[i].coeffs, b, y);
    }
  }

  /** Exhaustive search: for the first variable try both values, solve the
      rest, keep the better (leaving the variable unset on a tie). `None`
      when no assignment is feasible. */
  function Search(obj: seq<real>, cs: seq<Constraint>): (r: Option<seq<bool>>)
    requires Shaped(|obj|, cs)
    ensures r.Some? ==> |r.value| == |obj| && Holds(cs, r.value)
    decreases |obj|
  {
    if |obj| == 0 then
      if Holds(cs, []) then Some([]) else None
    else
      var unset := Search(obj[1..], Fix(cs, false));
      var taken := Search(obj[1..], Fix(cs, true));
      if taken.Some? && (unset.None? || Dot(obj[1..], unset.value) < obj[0] + Dot(obj[1..], taken.value)) then
        FixHolds(cs, true, taken.value);
        Some([true] + taken.value)
      else if unset.Some? then
        FixHolds(cs, false, unset.value);
        Some([false] + unset.value)
      else
        None
  }

  /** Every feasible assignment is found: the search succeeds and its
      result's objective is at least that of the feasible assignment. */
  lemma {:induction false} SearchBeats(obj: seq<real>, cs: seq<Constraint>, y: seq<bool>)
    requires Shaped(|obj|, cs) && |y| == |obj| && Holds(cs, y)
    ensures Search(obj, cs).Some?
    ensures Dot(obj, y) <= Dot(obj, Search(obj, cs).value)
  {
    if |obj| == 0 {
      assert y == [];
    } else {
      var rest := y[1..];
      assert y == [y[0]] + rest;
      FixHolds(cs, y[0], rest);
      SearchBeats(obj[1..], Fix(cs, y[0]), rest);
      DotCons(obj, y[0], rest);
      var unset := Search(obj[1..], Fix(cs, false));
      var taken := Search(obj[1..], Fix(cs, true));
      if taken.Some? {
        DotCons(obj, true, taken.value);
      }
      if unset.Some? {
        DotCons(obj, false, unset.value);
      }
    }
  }

  /** The search is an exact solver: it returns an optimal assignment, and
      it fails only when no assignment is feasible. */
  lemma SearchIsExact(obj: seq<real>, cs: seq<Constraint>)
    requires Shaped(|obj|, cs)
    ensures Search(obj, cs).Some? ==> IsOptimal(obj, cs, Search(obj, cs).value)
    ensures Search(obj, cs).None? ==> forall y :: |y| == |obj| ==> !Holds(cs, y)
  {
    forall y | |y| == |obj| && Holds(cs, y)
      ensures Search(obj, cs).Some? && Dot(obj, y) <= Dot(obj, Search(obj, cs).value)
    {
      SearchBeats(obj, cs, y);
    }
  }

  /** The problem object: one binary variable per row, an objective to
      maximise and the constraints added so far; `values` holds the
      variables' values once solved (all unset before, which reads the
      same as PuLP's `None` under the test `varValue == 1`). */
  class Problem {
    const size: nat
    var objective: seq<real>
    var constraints: seq<Constraint>
    var values: seq<bool>

    ghost predicate Valid()
      reads this
    {
      |objective| == size && |values| == size && Shaped(size, constraints)
    }

    /** `LpProblem(..., LpMaximize)` with `size` binary variables: no
        objective terms and no constraints yet. */
    constructor (size: nat)
      ensures Valid() && this.size == size
      ensures objective == seq(size, _ => 0.0) && constraints == [] && values == NoneSet(size)
    {
      this.size := size;
      objective := seq(size, _ => 0.0);
      constraints := [];
      values := NoneSet(size);
    }

    /** `prob += expression`: the expression becomes the objective. */
    method SetObjective(coeffs: seq<real>)
      requires Valid() && |coeffs| == size
      modifies this`objective
      ensures Valid() && objective == coeffs
    {
      objective := coeffs;
    }

    /** `prob += expression <= bound`: the constraint is appended. */
    method AddConstraint(c: Constraint)
      requires Valid() && |c.coeffs| == size
      modifies this`constraints
      ensures Valid() && constraints == old(constraints) + [c]
    {
      constraints := constraints + [c];
    }

    /** `prob.solve()`: on `Optimal` the values are an optimal feasible
        assignment; `Infeasible` only when no assignment is feasible. On
        that branch the model leaves the values as they were, where the
        library would still report some values; the branch cannot arise for
        the furnace limits, which are never negative (`NoneSetHolds`). */
    method Solve() returns (status: Status)
      requires Valid()
      modifies this`values
      ensures Valid()
      ensures status == Optimal ==> IsOptimal(objective, constraints, values)
      ensures status == Infeasible ==>
                values == old(values) && forall y :: |y| == size ==> !Holds(constraints, y)
    {
      var r := Search(objective, constraints);
      SearchIsExact(objective, constraints);
      if r.Some? {
        values := r.value;
        status := Optimal;
      } else {
        status := Infeasible;
      }
    }
  }
}
