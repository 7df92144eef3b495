/** The optimization problem the script assembles: a minimisation problem
    object whose objective is set once and to which the constraint loop adds
    one named constraint per merged row. */
module Model {
  import opened Rows
  import opened Decimal
  import opened Merge
  import opened Objective
  import opened EchelonConstraints
  import opened Variables

  datatype Sense = Minimize | Maximize

  /** The problem object the script builds up with `problem += ...`. */
  class Problem {
    const name: string
    const sense: Sense
    var objective: LinearExpr
    var objectiveName: string
    var constraints: seq<Constraint>

    /** The problem object refuses two constraints with one name. */
    ghost predicate Valid()
      reads this
    {
      DistinctNames(constraints)
    }

    constructor (name: string, sense: Sense)
      ensures this.name == name && this.sense == sense
      ensures objective == map[] && objectiveName == "" && constraints == []
      ensures Valid()
    {
      this.name := name;
      this.sense := sense;
      objective := map[];
      objectiveName := "";
      constraints := [];
    }

    /** `problem += (expression, name)`: sets the objective. */
    method SetObjective(e: LinearExpr, title: string)
      requires Valid()
      modifies this
      ensures Valid()
      ensures objective == e && objectiveName == title
      ensures constraints == old(constraints)
    {
      objective := e;
      objectiveName := title;
    }

    /** `problem += constraint, name`: appends a constraint whose name is new. */
    method AddConstraint(c: Constraint)
      requires Valid()
      requires forall i :: 0 <= i < |constraints| ==> constraints[i].name != c.name
      modifies this
      ensures Valid()
      ensures constraints == old(constraints) + [c]
      ensures objective == old(objective) && objectiveName == old(objectiveName)
    {
      constraints := constraints + [c];
    }
  }

  /** Order quantities `q` that respect every variable's bounds and every constraint. */
  predicate Feasible(vars: map<Key, OrderVariable>, cs: seq<Constraint>, q: Key -> real)
  {
    && (forall k :: k in vars ==> q(k) >= vars[k].lowBound)
    && (forall k :: k in vars && vars[k].upBound.Some? ==> q(k) <= vars[k].upBound.value)
    && AllHold(cs, q)
  }

  /** Builds the problem from the merged rows: the variable dict, the summed
      objective, then one constraint per row chosen by the row's echelon. */
  method BuildModel(rows: seq<JoinedRow>) returns (problem: Problem, vars: map<Key, OrderVariable>)
    requires Distinct(RowKeys(rows))
    ensures fresh(problem) && problem.Valid()
    ensures problem.name == "Advanced_Inventory_Optimization" && problem.sense == Minimize
    ensures vars == VariableDict(RowKeys(rows))
    ensures problem.objective == ObjectiveExpr(rows)
    ensures problem.objectiveName == "Total Cost and Waste Minimization"
    ensures problem.constraints == Constraints(rows)
  {
    problem := new Problem("Advanced_Inventory_Optimization", Minimize);
    vars := VariableDict(RowKeys(rows));
    problem.SetObjective(ObjectiveExpr(rows), "Total Cost and Waste Minimization");
    for i := 0 to |rows|
      invariant problem.Valid()
      invariant problem.constraints == Constraints(rows[..i])
      invariant problem.objective == ObjectiveExpr(rows)
      invariant problem.objectiveName == "Total Cost and Waste Minimization"
    {
      var row := rows[i];
      var key := RowKey(row);
      ConstraintNameFresh(rows, i);
      ConstraintsSnoc(rows, i);
      ConstraintForByEchelon(row);
      if row.echelon == 1 {
        problem.AddConstraint(AtLeast("High_Echelon_Supply_" + IntToString(row.productId) + "_"
                                      + IntToString(row.locationId), key, 1.2 * row.totalSold));
      } else {
        problem.AddConstraint(AtLeast("Demand_Fulfillment_" + IntToString(row.productId) + "_"
                                      + IntToString(row.locationId), key, row.totalSold));
      }
    }
    assert rows[..|rows|] == rows;
  }

  /** The whole model-building part of the script: merge the two inputs,
      then build the problem from the merged rows. */
  method PrepareProblem(sales: seq<SalesRow>, costs: seq<CostRow>)
    returns (problem: Problem, vars: map<Key, OrderVariable>)
    requires Distinct(SalesKeys(sales)) && Distinct(CostKeys(costs))
    ensures fresh(problem) && problem.Valid()
    ensures problem.name == "Advanced_Inventory_Optimization" && problem.sense == Minimize
    ensures vars == VariableDict(RowKeys(InnerMerge(sales, costs)))
    ensures problem.objective == ObjectiveExpr(InnerMerge(sales, costs))
    ensures problem.objectiveName == "Total Cost and Waste Minimization"
    ensures problem.constraints == Constraints(InnerMerge(sales, costs))
  {
    var data := InnerMerge(sales, costs);
    InnerMergeDistinct(sales, costs);
    problem, vars := BuildModel(data);
  }

  /** The objective and the constraints mention only keys that have a variable,
      and every variable occurs in the objective. */
  lemma ModelReferencesOnlyVariables(rows: seq<JoinedRow>)
    ensures ObjectiveExpr(rows).Keys == VariableDict(RowKeys(rows)).Keys
    ensures forall c :: c in Constraints(rows) ==> c.key in VariableDict(RowKeys(rows))
  {
    ObjectiveExprCoefficients(rows);
    VariableDictShape(RowKeys(rows));
    forall c | c in Constraints(rows) ensures c.key in VariableDict(RowKeys(rows)) {
      var i :| 0 <= i < |rows| && Constraints(rows)[i] == c;
      assert RowKeys(rows)[i] == c.key;
    }
  }

  /** The built problem is always feasible: ordering, for each key, the
      largest bound a row puts on it meets all bounds and constraints. */
  lemma ModelFeasible(rows: seq<JoinedRow>)
    ensures Feasible(VariableDict(RowKeys(rows)), Constraints(rows), k => LargestBound(rows, k))
  {
    LargestBoundFeasible(rows);
    VariableDictShape(RowKeys(rows));
  }

  /** Every feasible point orders nothing negative, and at least 120% of demand
      for upstream rows and at least demand for the others. */
  lemma FeasibleQuantities(rows: seq<JoinedRow>, q: Key -> real, i: nat)
    requires Feasible(VariableDict(RowKeys(rows)), Constraints(rows), q)
    requires i < |rows|
    ensures q(RowKey(rows[i])) >= 0.0
    ensures rows[i].echelon == 1 ==> q(RowKey(rows[i])) >= 1.2 * rows[i].totalSold
    ensures rows[i].echelon != 1 ==> q(RowKey(rows[i])) >= rows[i].totalSold
  {
    VariableDictShape(RowKeys(rows));
    assert RowKeys(rows)[i] == RowKey(rows[i]);
    ConstraintsHoldIff(rows, q);
  }

  /** An upstream row whose shelf life covers its lead time: bound 120 and
      coefficient 2.5, so ordering 120 costs 300. */
  lemma ExampleShelfLifeCoversLeadTime()
    ensures var r := JoinedRow(1, 1, 100.0, 5, 1.0, 2.0, 3, 1);
      && ConstraintFor(r) == AtLeast("High_Echelon_Supply_1_1", Key(1, 1), 120.0)
      && WastePenalty(r) == 0.0
      && Coefficient(r) == 2.5
      && ObjectiveValue([r], k => 120.0) == 300.0
  {
  }

  /** The same row with shelf life 2 and lead time 5: a penalty of 0.3 per
      unit, coefficient 2.8, so ordering 120 costs 336. */
  lemma ExampleShelfLifeShortfall()
    ensures var r := JoinedRow(1, 1, 100.0, 2, 1.0, 2.0, 5, 1);
      && ConstraintFor(r) == AtLeast("High_Echelon_Supply_1_1", Key(1, 1), 120.0)
      && WastePenalty(r) == 0.3
      && Coefficient(r) == 2.8
      && ObjectiveValue([r], k => 120.0) == 336.0
  {
  }
}
