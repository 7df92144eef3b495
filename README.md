# Inventory optimization: the linear-program builder

This project models the model-building part of a multi-echelon inventory
optimization script. The script reads a sales aggregate (total units sold
and shelf life per product and location) and a cost table (holding cost,
ordering cost, lead time and echelon per product and location). It
inner-merges the two on `(product_id, location_id)` and turns every merged
row into part of a linear program:

- one continuous, non-negative order-quantity variable keyed by the pair;
- a term of the minimised objective: ordering cost plus half the holding
  cost per unit, plus a waste penalty of 0.1 per unit per day by which the
  shelf life falls short of the lead time;
- one lower-bound constraint. It is 120% of the trailing demand for echelon 1
  (the upstream tier) and the demand itself for every other echelon. It is
  named `High_Echelon_Supply_<product>_<location>` or
  `Demand_Fulfillment_<product>_<location>`.

Modules:

- `Rows` (rows.dfy) holds the three record shapes and the key.
- `Merge` (merge.dfy) is the inner merge.
- `Objective` (objective.dfy) holds the coefficient rule, the objective as a
  linear expression and its value at given order quantities.
- `Decimal` (decimal.dfy) renders the integer ids in constraint names.
- `EchelonConstraints` (constraints.dfy) holds the bound rule, the names and
  the constraint list.
- `Variables` (variables.dfy) is the variable dict.
- `Model` (model.dfy) is the problem object. Its constraint loop
  (`BuildModel`) is a method that appends to the object's constraint
  sequence, the way `problem += ...` does in the script.

Modelling choices:

- Costs and demand are `real`. Day counts and the echelon are `int`.
- The ids are assumed to be integers. The queries join them against `id`
  columns, but nothing in the script fixes their type.
- A name renders an id as Python's `str` renders an integer.
- Order quantities are given as a total function `Key -> real`.
- The script as written unpacks `(product, location)` from `iterrows()`.
  That yields the frame's integer index, not the key pair. The model uses the
  intended key, `(row.product_id, row.location_id)`, which is how the
  variable dict's key list is built.
- The model follows the code: an empty input gives an empty problem, and
  the script raises no error for negative costs or demand. Where a
  property needs non-negative costs, it is a hypothesis of that lemma.
- Unique keys are a precondition where the code relies on them. The cost
  side of the merge must have unique keys. The model builder needs unique
  merged keys. The sales side has unique keys in the program itself,
  because its query groups by `product_id, location_id`
  (InventoryOptimization.py:18). `PrepareProblem` requires this. The solver
  library refuses two constraints with the same name, so `Problem.AddConstraint` requires a fresh name. `BuildModel`
  discharges that requirement by proving that names are injective in the
  key.

## Model

| member | source | states |
|---|---|---|
| `Merge.FindCost` | InventoryOptimization.py:31 | the key lookup of the merge: a found cost row is in the input and carries the key; nothing is found exactly when no cost row carries the key |
| `Merge.FindCostUnique` | InventoryOptimization.py:31 | with unique cost keys, the lookup of a cost row's key returns that very row |
| `Merge.InnerMerge` | InventoryOptimization.py:31 | the merge yields at most one row per sales row |
| `Merge.InnerMergeSound` | InventoryOptimization.py:31 | every merged row combines a sales row and a cost row with the same key: the demand columns come from the sales match, the cost columns from the cost match |
| `Merge.InnerMergeComplete` | InventoryOptimization.py:31 | every sales row and cost row sharing a key yield their combined row in the output |
| `Merge.InnerMergeKeys` | InventoryOptimization.py:31 | the merged key set is exactly the intersection of the sales key set and the cost key set (inner-join semantics) |
| `Merge.InnerMergeDistinct` | InventoryOptimization.py:31 | unique sales keys and unique cost keys give unique merged keys |
| `Merge.InnerMergeConcat` | InventoryOptimization.py:31 | merging distributes over splitting the sales rows, so merged rows keep the sales order |
| `Variables.VariableDictShape` | InventoryOptimization.py:39-42 | the variable dict's keyspace equals the set of row keys; every entry is a continuous variable for its own key with lower bound 0 and no upper bound |
| `Variables.VariableDictSize` | InventoryOptimization.py:39-42 | the dict has at most one variable per row, and exactly one per row if and only if the row keys are unique (duplicates collapse) |
| `Objective.Min` | InventoryOptimization.py:49 | Python's `min` of two integers: a lower bound of both that equals one of them |
| `Objective.RowCostLinear` | InventoryOptimization.py:47-49 | each row's three-part objective term equals its per-unit coefficient times the order quantity |
| `Objective.WastePenaltyVanishes` | InventoryOptimization.py:49 | when shelf life covers lead time, the waste term is exactly 0 and the coefficient is ordering cost plus half the holding cost |
| `Objective.ShortfallPenalty` | InventoryOptimization.py:47-49 | when shelf life is short of lead time, the penalty is 0.1 per day of shortfall and positive; the coefficient is strictly above that of the same row with no shortfall |
| `Objective.CoefficientNonNegative` | InventoryOptimization.py:47-49 | the waste term is never negative, so non-negative costs give a non-negative coefficient |
| `Objective.ObjectiveAdditive` | InventoryOptimization.py:45-51 | the objective of two concatenated row lists is the sum of their objectives |
| `Objective.ObjectiveNonNegative` | InventoryOptimization.py:45-51 | non-negative costs and non-negative quantities give a non-negative objective |
| `Objective.ObjectiveExprCoefficients` | InventoryOptimization.py:45-51 | the summed objective expression mentions exactly the row keys; each key's coefficient is the sum of the coefficients of the rows carrying it |
| `Objective.ObjectiveExprOfDistinct` | InventoryOptimization.py:45-51 | with unique keys, each variable's objective coefficient is its own row's coefficient |
| `Objective.ObjectiveExprValue` | InventoryOptimization.py:45-51 | with unique keys, the summed linear expression evaluated at any quantities equals the objective value there |
| `Decimal.NatToString` | InventoryOptimization.py:59 | the decimal rendering of a natural number is non-empty and all digits, with no leading zero for a positive number |
| `Decimal.IntToString` | InventoryOptimization.py:59 | `str` of an integer is non-empty, starts with `-` exactly for negatives and is all digits after that sign (all digits for a non-negative number), has no leading zero for a non-zero number, and has no underscore |
| `Decimal.NatToStringRoundTrip` | InventoryOptimization.py:59 | reading the rendered digits back gives the number |
| `Decimal.IntToStringInjective` | InventoryOptimization.py:59-62 | distinct integers render as distinct strings |
| `EchelonConstraints.LowerBoundByEchelon` | InventoryOptimization.py:57-62 | echelon 1 gets bound 1.2 × total sold and every other echelon gets total sold; for non-zero demand no row gets both; for non-negative demand the bound is at least the demand |
| `EchelonConstraints.ConstraintForByEchelon` | InventoryOptimization.py:57-62 | each branch of the echelon test in the loop builds exactly the row's constraint: the prefixed name, the row's key and its bound |
| `EchelonConstraints.ConstraintNamePrefix` | InventoryOptimization.py:59-62 | a name starts with `High_Echelon_Supply_` exactly for echelon 1 and with `Demand_Fulfillment_` exactly otherwise |
| `EchelonConstraints.ConstraintNameInjective` | InventoryOptimization.py:59-62 | equal constraint names imply equal keys and the same echelon class |
| `EchelonConstraints.ConstraintNamesDistinct` | InventoryOptimization.py:56-62 | unique row keys give pairwise distinct constraint names |
| `EchelonConstraints.ConstraintNameFresh` | InventoryOptimization.py:56-62 | with unique keys, each row's constraint name is new among the constraints the loop added before it |
| `EchelonConstraints.ConstraintsSnoc` | InventoryOptimization.py:56-62 | one more row adds exactly that row's constraint at the end, in row order |
| `EchelonConstraints.ConstraintsHoldIff` | InventoryOptimization.py:56-62 | the constraints hold if and only if every row's quantity reaches its bound: at least 120% of demand upstream, at least demand elsewhere |
| `EchelonConstraints.LargestBoundFeasible` | InventoryOptimization.py:56-62 | ordering each key's largest row bound, and at least 0, satisfies every constraint |
| `Model.Problem.constructor` | InventoryOptimization.py:36 | a new problem has the given name and sense, an empty objective, an empty objective name and no constraints |
| `Model.Problem.SetObjective` | InventoryOptimization.py:45-53 | `problem += (expr, name)` sets the objective and its name and leaves the constraints unchanged |
| `Model.Problem.AddConstraint` | InventoryOptimization.py:59-62 | `problem += constraint, name` appends the constraint, keeps names unique and leaves the objective unchanged |
| `Model.BuildModel` | InventoryOptimization.py:36-62 | builds a minimisation problem named `Advanced_Inventory_Optimization` with the variable dict of the row keys, the summed objective and exactly one constraint per row in row order, with no duplicate constraint name |
| `Model.PrepareProblem` | InventoryOptimization.py:31-62 | merging then building gives the same problem, over the merged rows |
| `Model.ModelReferencesOnlyVariables` | InventoryOptimization.py:39-62 | the objective's keys equal the variable keys and every constraint's key has a variable, so no lookup of a variable can fail |
| `Model.ModelFeasible` | InventoryOptimization.py:39-62 | the assembled problem always has a feasible point: variable lower bounds and all constraints are met |
| `Model.FeasibleQuantities` | InventoryOptimization.py:41-62 | at any feasible point each row orders a non-negative quantity, at least 120% of demand upstream and at least demand elsewhere |
| `Model.ExampleShelfLifeCoversLeadTime` | InventoryOptimization.py:47-59 | an echelon-1 row with demand 100, shelf life 5 and lead time 3 gets constraint `High_Echelon_Supply_1_1` with bound 120, waste term 0 and coefficient 2.5; ordering 120 costs 300 |
| `Model.ExampleShelfLifeShortfall` | InventoryOptimization.py:47-59 | the same row with shelf life 2 and lead time 5 gets waste term 0.3 and coefficient 2.8; ordering 120 costs 336 |

## Left out

- Database connections and the two SQL queries (InventoryOptimization.py:5-28) are I/O against external engines. The grouping and summing happen in the database. The sales rows and cost rows are inputs of the model.
- Merge.InnerMerge: requires unique cost keys. With a repeated cost key, pandas emits one merged row per matching pair, and that cartesian product is not modelled.
- Model.BuildModel: requires unique merged keys. With a repeated key, the variable dict would collapse the duplicates (`VariableDictSize` shows this). The two constraints would share a name when the two rows share an echelon class, which a merge with unique cost keys always gives, and the solver library refuses a repeated name.
- The solver library's error on a duplicate constraint name is not modelled as an error path. It is a precondition of `Problem.AddConstraint`, and the builder proves it always holds.
- `problem.solve()` (InventoryOptimization.py:65) calls the external CBC solver and is not modelled. No optimality of any solution is claimed. `ModelFeasible` only shows that a feasible point exists.
- Printing of the solved quantities (InventoryOptimization.py:68-69) is output only and is not modelled.
- Python floating point is not modelled. Coefficients, bounds and the objective are exact `real`s, so rounding of 0.5, 0.1 and 1.2 is not captured.
- The `iterrows()` unpacking at InventoryOptimization.py:50 and 56 is not modelled. As written it binds the frame's integer index to `(product, location)`, which fails at run time for a non-empty frame. The intended key pair is modelled instead.
- A new problem starts with an empty objective, not with no objective at all. The library's unset objective (`None`) is not distinguished from an empty sum, which is what an empty frame sets.
- The solver library's variable names (`OrderQuantity_...`) are not modelled, and neither is its replacement of characters such as `-` and spaces by `_` in names. Variables are identified by their key, and constraint names are modelled as the f-string builds them.
- The objective is kept as a coefficient per key, and a row whose coefficient is 0 keeps an entry with coefficient 0. The solver library may drop such a zero term from its expression, so the key-set statements of `ObjectiveExprCoefficients` and `ModelReferencesOnlyVariables` describe the model's map, not the library's expression; no objective value differs. The library may also reject non-finite factors; the model has no non-finite values.
- EchelonConstraints.ConstraintNameInjective: holds only because ids are taken to be integers. With string ids containing `_`, two keys can give one name: product `A_B` at location `C` and product `A` at location `B_C` both give `Demand_Fulfillment_A_B_C`. The solver library would then refuse the second constraint, and that case is not modelled.
- Decimal.IntToString: renders an id as an integer. Row access through `iterrows()` on a frame that mixes integer and float columns yields float values, so an id would render as `1.0`, not `1`. The names in `ExampleShelfLifeCoversLeadTime` and `ExampleShelfLifeShortfall` are the integer rendering only.
