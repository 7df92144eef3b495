/** The multi-echelon constraints: one lower bound on every row's order
    quantity, 20% above trailing demand for the upstream tier (echelon 1)
    and equal to it for every other tier, each named after its tier and key. */
module EchelonConstraints {
  import opened Rows
  import opened Decimal

  /** The two constraint rules the echelon number selects between. */
  datatype EchelonClass = HighEchelon | LowerEchelon

  function ClassOf(echelon: int): EchelonClass
  {
    if echelon == 1 then HighEchelon else LowerEchelon
  }

  function NamePrefix(c: EchelonClass): string
  {
    match c
    case HighEchelon => "High_Echelon_Supply_"
    case LowerEchelon => "Demand_Fulfillment_"
  }

  /** `q[key] >= bound`, tagged with a name. */
  datatype Constraint = AtLeast(name: string, key: Key, bound: real)

  /** The least order quantity the row's constraint admits. */
  function LowerBound(r: JoinedRow): real
  {
    match ClassOf(r.echelon)
    case HighEchelon => 1.2 * r.totalSold
    case LowerEchelon => r.totalSold
  }

  /** The constraint name: the tier's prefix, then product and location. */
  function ConstraintName(r: JoinedRow): string
  {
    NamePrefix(ClassOf(r.echelon)) + IntToString(r.productId) + "_" + IntToString(r.locationId)
  }

  function ConstraintFor(r: JoinedRow): Constraint
  {
    AtLeast(ConstraintName(r), RowKey(r), LowerBound(r))
  }

  /** The constraints the loop adds, one per row, in row order. */
  function Constraints(rows: seq<JoinedRow>): (cs: seq<Constraint>)
  {
    seq(|rows|, i requires 0 <= i < |rows| => ConstraintFor(rows[i]))
  }

  predicate Holds(c: Constraint, q: Key -> real)
  {
    q(c.key) >= c.bound
  }

  predicate AllHold(cs: seq<Constraint>, q: Key -> real)
  {
    forall i :: 0 <= i < |cs| ==> Holds(cs[i], q)
  }

  /** No two constraints share a name. */
  predicate DistinctNames(cs: seq<Constraint>)
  {
    forall i, j :: 0 <= i < j < |cs| ==> cs[i].name != cs[j].name
  }

  /** Echelon 1 gets the 20% buffer and every other echelon gets plain
      demand; when demand is not zero the two bounds differ, so no row gets both. */
  lemma LowerBoundByEchelon(r: JoinedRow)
    ensures r.echelon == 1 ==> LowerBound(r) == 1.2 * r.totalSold
    ensures r.echelon != 1 ==> LowerBound(r) == r.totalSold
    ensures r.totalSold != 0.0 ==> (LowerBound(r) == 1.2 * r.totalSold <==> r.echelon == 1)
    ensures r.totalSold != 0.0 ==> (LowerBound(r) == r.totalSold <==> r.echelon != 1)
    ensures r.totalSold >= 0.0 ==> LowerBound(r) >= r.totalSold
  {
  }

  /** The name starts with the upstream prefix exactly for echelon 1 and with
      the demand prefix exactly for the other echelons. */
  lemma ConstraintNamePrefix(r: JoinedRow)
    ensures "High_Echelon_Supply_" <= ConstraintName(r) <==> r.echelon == 1
    ensures "Demand_Fulfillment_" <= ConstraintName(r) <==> r.echelon != 1
  {
    var n := ConstraintName(r);
    if r.echelon == 1 {
      assert n[0] == 'H';
      assert !("Demand_Fulfillment_" <= n) by {
        assert "Demand_Fulfillment_"[0] == 'D';
      }
    } else {
      assert n[0] == 'D';
      assert !("High_Echelon_Supply_" <= n) by {
        assert "High_Echelon_Supply_"[0] == 'H';
      }
    }
  }

  /** Two strings without an underscore, each followed by one and the same
      separator, split the same way. */
  lemma SplitAtUnderscore(a: string, b: string, c: string, d: string)
    requires '_' !in a && '_' !in c
    requires a + "_" + b == c + "_" + d
    ensures a == c && b == d
  {
    var s := a + "_" + b;
    assert s == c + "_" + d;
    assert s[|a|] == '_' && s[|c|] == '_';
    assert forall k :: 0 <= k < |a| ==> s[k] == a[k] && s[k] != '_';
    assert forall k :: 0 <= k < |c| ==> s[k] == c[k] && s[k] != '_';
    assert |a| == |c|;
    assert a == s[..|a|] == c;
    assert b == s[|a| + 1..] == d;
  }

  /** A constraint name determines the row's key and its tier. */
  lemma ConstraintNameInjective(r1: JoinedRow, r2: JoinedRow)
    ensures ConstraintName(r1) == ConstraintName(r2) ==>
      RowKey(r1) == RowKey(r2) && ClassOf(r1.echelon) == ClassOf(r2.echelon)
  {
    if ConstraintName(r1) == ConstraintName(r2) {
      ConstraintNamePrefix(r1);
      ConstraintNamePrefix(r2);
      var p := NamePrefix(ClassOf(r1.echelon));
      assert NamePrefix(ClassOf(r2.echelon)) == p;
      var n := ConstraintName(r1);
      var rest1 := IntToString(r1.productId) + "_" + IntToString(r1.locationId);
      var rest2 := IntToString(r2.productId) + "_" + IntToString(r2.locationId);
      assert n == p + rest1 && n == p + rest2;
      assert rest1 == n[|p|..] == rest2;
      SplitAtUnderscore(IntToString(r1.productId), IntToString(r1.locationId),
                        IntToString(r2.productId), IntToString(r2.locationId));
      IntToStringInjective(r1.productId, r2.productId);
      IntToStringInjective(r1.locationId, r2.locationId);
    }
  }

  /** Unique row keys give uniquely named constraints. */
  lemma ConstraintNamesDistinct(rows: seq<JoinedRow>)
    requires Distinct(RowKeys(rows))
    ensures DistinctNames(Constraints(rows))
  {
    var cs := Constraints(rows);
    forall i, j | 0 <= i < j < |cs| ensures cs[i].name != cs[j].name {
      ConstraintNameInjective(rows[i], rows[j]);
      assert RowKeys(rows)[i] != RowKeys(rows)[j];
    }
  }

  /** The constraint of a row, spelled out per branch of the echelon test. */
  lemma ConstraintForByEchelon(r: JoinedRow)
    ensures r.echelon == 1 ==> (ConstraintFor(r) ==
      AtLeast("High_Echelon_Supply_" + IntToString(r.productId) + "_" + IntToString(r.locationId),
              RowKey(r), 1.2 * r.totalSold))
    ensures r.echelon != 1 ==> (ConstraintFor(r) ==
      AtLeast("Demand_Fulfillment_" + IntToString(r.productId) + "_" + IntToString(r.locationId),
              RowKey(r), r.totalSold))
  {
  }

  /** Taking one more row adds that row's constraint at the end. */
  lemma ConstraintsSnoc(rows: seq<JoinedRow>, i: nat)
    requires i < |rows|
    ensures Constraints(rows[..i + 1]) == Constraints(rows[..i]) + [ConstraintFor(rows[i])]
  {
  }

  /** With unique keys, a row's constraint name differs from the names of
      all constraints of the rows before it. */
  lemma ConstraintNameFresh(rows: seq<JoinedRow>, i: nat)
    requires Distinct(RowKeys(rows))
    requires i < |rows|
    ensures forall j :: 0 <= j < i ==> Constraints(rows[..i])[j].name != ConstraintFor(rows[i]).name
  {
    ConstraintNamesDistinct(rows);
    forall j | 0 <= j < i ensures Constraints(rows[..i])[j].name != ConstraintFor(rows[i]).name {
      assert Constraints(rows[..i])[j] == Constraints(rows)[j];
      assert Constraints(rows)[i] == ConstraintFor(rows[i]);
    }
  }

  /** The constraints hold exactly when every row's quantity reaches its bound;
      so upstream rows get at least 120% of demand and the others at least demand. */
  lemma ConstraintsHoldIff(rows: seq<JoinedRow>, q: Key -> real)
    ensures AllHold(Constraints(rows), q) <==>
      forall i :: 0 <= i < |rows| ==> q(RowKey(rows[i])) >= LowerBound(rows[i])
    ensures AllHold(Constraints(rows), q) ==>
      forall i :: 0 <= i < |rows| ==>
        if rows[i].echelon == 1 then q(RowKey(rows[i])) >= 1.2 * rows[i].totalSold
        else q(RowKey(rows[i])) >= rows[i].totalSold
  {
    var cs := Constraints(rows);
    assert forall i :: 0 <= i < |rows| ==> cs[i] == ConstraintFor(rows[i]);
  }

  /** The largest bound any row puts on key `k`, and at least zero. */
  function LargestBound(rows: seq<JoinedRow>, k: Key): real
  {
    if rows == [] then 0.0
    else
      var here := if RowKey(rows[0]) == k then LowerBound(rows[0]) else 0.0;
      var later := LargestBound(rows[1..], k);
      if here >= later then here else later
  }

  /** Ordering each key's largest bound meets every constraint and every
      variable's lower bound of zero: the constraints can always be met. */
  lemma {:induction false} LargestBoundFeasible(rows: seq<JoinedRow>)
    ensures forall k :: LargestBound(rows, k) >= 0.0
    ensures AllHold(Constraints(rows), k => LargestBound(rows, k))
  {
    if rows != [] {
      LargestBoundFeasible(rows[1..]);
      var cs, tail := Constraints(rows), Constraints(rows[1..]);
      forall i | 0 <= i < |cs| ensures Holds(cs[i], k => LargestBound(rows, k)) {
        if i > 0 {
          assert cs[i] == tail[i - 1];
          assert Holds(tail[i - 1], k => LargestBound(rows[1..], k));
        }
      }
    }
  }
}
