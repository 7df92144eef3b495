/** The objective of the linear program: for every merged row, ordering
    cost plus half the holding cost per unit ordered, plus a waste penalty
    per unit when the product's shelf life is shorter than its lead time. */
module Objective {
  import opened Rows

  /** A linear expression over the order variables, as a coefficient per key. */
  type LinearExpr = map<Key, real>

  /** Python's `min` on two integers. */
  function Min(a: int, b: int): (m: int)
    ensures m <= a && m <= b && (m == a || m == b)
  {
    if a <= b then a else b
  }

  /** The per-unit waste penalty, `-0.1 * min(shelf_life_days - lead_time_days, 0)`. */
  function WastePenalty(r: JoinedRow): real
  {
    -0.1 * (Min(r.shelfLifeDays - r.leadTimeDays, 0) as real)
  }

  /** The row's term of the objective sum for an order quantity `x`, written
      as the three products the script adds up. */
  function RowCost(r: JoinedRow, x: real): real
  {
    x * r.orderingCost
    + 0.5 * x * r.holdingCost
    - 0.1 * (Min(r.shelfLifeDays - r.leadTimeDays, 0) as real) * x
  }

  /** The per-unit cost coefficient of the row's order variable. */
  function Coefficient(r: JoinedRow): real
  {
    r.orderingCost + 0.5 * r.holdingCost + WastePenalty(r)
  }

  /** The row's term is linear in the order quantity, with slope `Coefficient(r)`. */
  lemma RowCostLinear(r: JoinedRow, x: real)
    ensures RowCost(r, x) == Coefficient(r) * x
  {
  }

  /** No penalty, and no bonus, when the shelf life covers the lead time. */
  lemma WastePenaltyVanishes(r: JoinedRow)
    requires r.shelfLifeDays >= r.leadTimeDays
    ensures WastePenalty(r) == 0.0
    ensures Coefficient(r) == r.orderingCost + 0.5 * r.holdingCost
  {
  }

  /** A shelf-life shortfall costs 0.1 per unit per day of shortfall, so the
      row costs strictly more than the same row with the shortfall removed. */
  lemma ShortfallPenalty(r: JoinedRow)
    requires r.shelfLifeDays < r.leadTimeDays
    ensures WastePenalty(r) == 0.1 * ((r.leadTimeDays - r.shelfLifeDays) as real) > 0.0
    ensures Coefficient(r) == r.orderingCost + 0.5 * r.holdingCost
                              + 0.1 * ((r.leadTimeDays - r.shelfLifeDays) as real)
    ensures Coefficient(r) > Coefficient(r.(shelfLifeDays := r.leadTimeDays))
  {
  }

  /** With non-negative costs no row has a negative per-unit coefficient. */
  lemma CoefficientNonNegative(r: JoinedRow)
    requires r.orderingCost >= 0.0 && r.holdingCost >= 0.0
    ensures WastePenalty(r) >= 0.0
    ensures Coefficient(r) >= r.orderingCost + 0.5 * r.holdingCost >= 0.0
  {
  }

  /** The value of the objective at the order quantities `q`. */
  function ObjectiveValue(rows: seq<JoinedRow>, q: Key -> real): real
  {
    if rows == [] then 0.0
    else RowCost(rows[0], q(RowKey(rows[0]))) + ObjectiveValue(rows[1..], q)
  }

  /** The objective over two row lists put together is the sum of the two objectives. */
  lemma {:induction false} ObjectiveAdditive(a: seq<JoinedRow>, b: seq<JoinedRow>, q: Key -> real)
    ensures ObjectiveValue(a + b, q) == ObjectiveValue(a, q) + ObjectiveValue(b, q)
  {
    if a == [] {
      assert a + b == b;
    } else {
      assert (a + b)[0] == a[0];
      assert (a + b)[1..] == a[1..] + b;
      ObjectiveAdditive(a[1..], b, q);
    }
  }

  /** Non-negative costs and non-negative order quantities give a
      non-negative objective. */
  lemma {:induction false} ObjectiveNonNegative(rows: seq<JoinedRow>, q: Key -> real)
    requires forall i :: 0 <= i < |rows| ==> rows[i].orderingCost >= 0.0 && rows[i].holdingCost >= 0.0
    requires forall i :: 0 <= i < |rows| ==> q(RowKey(rows[i])) >= 0.0
    ensures ObjectiveValue(rows, q) >= 0.0
  {
    if rows != [] {
      var r := rows[0];
      var x := q(RowKey(r));
      CoefficientNonNegative(r);
      RowCostLinear(r, x);
      assert Coefficient(r) * x >= 0.0;
      assert forall i :: 0 <= i < |rows| - 1 ==> rows[1..][i] == rows[i + 1];
      ObjectiveNonNegative(rows[1..], q);
    }
  }

  /** Adding the term `c * q[k]` to a linear expression, as the sum in
      the objective does for each row. */
  function AddTerm(e: LinearExpr, k: Key, c: real): LinearExpr
  {
    e[k := (if k in e then e[k] else 0.0) + c]
  }

  /** The objective as the linear expression the script sums up: one term per row. */
  function ObjectiveExpr(rows: seq<JoinedRow>): LinearExpr
  {
    if rows == [] then map[]
    else AddTerm(ObjectiveExpr(rows[1..]), RowKey(rows[0]), Coefficient(rows[0]))
  }

  /** The sum of the coefficients of the rows that carry key `k`. */
  function KeyCoefficient(rows: seq<JoinedRow>, k: Key): real
  {
    if rows == [] then 0.0
    else (if RowKey(rows[0]) == k then Coefficient(rows[0]) else 0.0) + KeyCoefficient(rows[1..], k)
  }

  /** The objective mentions exactly the row keys, and the coefficient of a
      key collects the coefficients of all rows with that key. */
  lemma {:induction false} ObjectiveExprCoefficients(rows: seq<JoinedRow>)
    ensures forall k :: k in ObjectiveExpr(rows) <==> k in RowKeys(rows)
    ensures forall k :: k in ObjectiveExpr(rows) ==> ObjectiveExpr(rows)[k] == KeyCoefficient(rows, k)
  {
    if rows != [] {
      ObjectiveExprCoefficients(rows[1..]);
      assert RowKeys(rows) == [RowKey(rows[0])] + RowKeys(rows[1..]);
      if RowKey(rows[0]) !in RowKeys(rows[1..]) {
        KeyCoefficientAbsent(rows[1..], RowKey(rows[0]));
      }
    }
  }

  /** A key no row carries has coefficient zero. */
  lemma {:induction false} KeyCoefficientAbsent(rows: seq<JoinedRow>, k: Key)
    requires k !in RowKeys(rows)
    ensures KeyCoefficient(rows, k) == 0.0
  {
    if rows != [] {
      assert RowKeys(rows) == [RowKey(rows[0])] + RowKeys(rows[1..]);
      KeyCoefficientAbsent(rows[1..], k);
    }
  }

  /** With unique keys, each variable's coefficient in the objective is its
      own row's coefficient. */
  lemma {:induction false} ObjectiveExprOfDistinct(rows: seq<JoinedRow>, i: nat)
    requires Distinct(RowKeys(rows))
    requires i < |rows|
    ensures RowKey(rows[i]) in ObjectiveExpr(rows)
    ensures ObjectiveExpr(rows)[RowKey(rows[i])] == Coefficient(rows[i])
  {
    ObjectiveExprCoefficients(rows);
    assert RowKeys(rows)[i] == RowKey(rows[i]);
    assert RowKeys(rows) == [RowKey(rows[0])] + RowKeys(rows[1..]);
    DistinctCons(RowKeys(rows));
    if i == 0 {
      KeyCoefficientAbsent(rows[1..], RowKey(rows[0]));
    } else {
      assert RowKeys(rows[1..])[i - 1] == RowKey(rows[i]);
      ObjectiveExprOfDistinct(rows[1..], i - 1);
      ObjectiveExprCoefficients(rows[1..]);
      assert RowKey(rows[0]) != RowKey(rows[i]) by {
        assert RowKeys(rows)[0] != RowKeys(rows)[i];
      }
    }
  }

  /** The value of a linear expression at `q`, summed over the keys `ks`. */
  function ExprValue(e: LinearExpr, ks: seq<Key>, q: Key -> real): real
  {
    if ks == [] then 0.0
    else (if ks[0] in e then e[ks[0]] else 0.0) * q(ks[0]) + ExprValue(e, ks[1..], q)
  }

  /** Changing the coefficient of a key that is not summed over changes nothing. */
  lemma {:induction false} ExprValueFrame(e: LinearExpr, ks: seq<Key>, q: Key -> real, k: Key, c: real)
    requires k !in ks
    ensures ExprValue(e[k := c], ks, q) == ExprValue(e, ks, q)
  {
    if ks != [] {
      ExprValueFrame(e, ks[1..], q, k, c);
    }
  }

  /** With unique keys, the summed expression evaluated at `q` is the
      objective value at `q`. */
  lemma {:induction false} ObjectiveExprValue(rows: seq<JoinedRow>, q: Key -> real)
    requires Distinct(RowKeys(rows))
    ensures ExprValue(ObjectiveExpr(rows), RowKeys(rows), q) == ObjectiveValue(rows, q)
  {
    if rows != [] {
      var r, rest := rows[0], rows[1..];
      var k, e := RowKey(r), ObjectiveExpr(rest);
      assert RowKeys(rows) == [k] + RowKeys(rest);
      DistinctCons(RowKeys(rows));
      ObjectiveExprCoefficients(rest);
      assert k !in e;
      assert ObjectiveExpr(rows) == e[k := Coefficient(r)];
      ExprValueFrame(e, RowKeys(rest), q, k, Coefficient(r));
      ObjectiveExprValue(rest, q);
      RowCostLinear(r, q(k));
    }
  }
}
