/** The three record shapes the script works with: the sales aggregate,
    the cost/echelon record and the row of the merged frame, all keyed by
    the pair (product_id, location_id). */
module Rows {

  datatype Option<+T> = None | Some(value: T)

  /** The composite key every record and every decision variable is indexed by. */
  datatype Key = Key(product: int, location: int)

  /** One row of the sales query: total units sold of a product at a location,
      and the product's shelf life. */
  datatype SalesRow = SalesRow(
    productId: int,
    locationId: int,
    totalSold: real,
    shelfLifeDays: int)

  /** One row of the inventory query: per-unit costs, the replenishment lead
      time and the echelon (tier) of the location. */
  datatype CostRow = CostRow(
    productId: int,
    locationId: int,
    holdingCost: real,
    orderingCost: real,
    leadTimeDays: int,
    echelon: int)

  /** One row of the merged frame: the columns of both inputs, the key once. */
  datatype JoinedRow = JoinedRow(
    productId: int,
    locationId: int,
    totalSold: real,
    shelfLifeDays: int,
    holdingCost: real,
    orderingCost: real,
    leadTimeDays: int,
    echelon: int)

  function SalesKey(s: SalesRow): Key { Key(s.productId, s.locationId) }

  function CostKey(c: CostRow): Key { Key(c.productId, c.locationId) }

  function RowKey(r: JoinedRow): Key { Key(r.productId, r.locationId) }

  function SalesKeys(sales: seq<SalesRow>): (ks: seq<Key>)
    ensures |ks| == |sales|
    ensures forall i :: 0 <= i < |sales| ==> ks[i] == SalesKey(sales[i])
  {
    seq(|sales|, i requires 0 <= i < |sales| => SalesKey(sales[i]))
  }

  function CostKeys(costs: seq<CostRow>): (ks: seq<Key>)
    ensures |ks| == |costs|
    ensures forall i :: 0 <= i < |costs| ==> ks[i] == CostKey(costs[i])
  {
    seq(|costs|, i requires 0 <= i < |costs| => CostKey(costs[i]))
  }

  /** The list of key pairs the variable dict is built from, in row order. */
  function RowKeys(rows: seq<JoinedRow>): (ks: seq<Key>)
    ensures |ks| == |rows|
    ensures forall i :: 0 <= i < |rows| ==> ks[i] == RowKey(rows[i])
  {
    seq(|rows|, i requires 0 <= i < |rows| => RowKey(rows[i]))
  }

  /** No key occurs twice. */
  predicate Distinct(ks: seq<Key>)
  {
    forall i, j :: 0 <= i < j < |ks| ==> ks[i] != ks[j]
  }

  function Elements(ks: seq<Key>): set<Key>
  {
    set k | k in ks
  }

  /** A sequence with a head is distinct exactly when its tail is distinct
      and the head does not recur. */
  lemma DistinctCons(ks: seq<Key>)
    requires ks != []
    ensures Distinct(ks) <==> Distinct(ks[1..]) && ks[0] !in ks[1..]
  {
    var tail := ks[1..];
    if Distinct(tail) && ks[0] !in tail {
      forall i, j | 0 <= i < j < |ks| ensures ks[i] != ks[j] {
        assert ks[j] == tail[j - 1];
        if i > 0 {
          assert ks[i] == tail[i - 1];
        }
      }
    }
    if Distinct(ks) {
      forall i, j | 0 <= i < j < |tail| ensures tail[i] != tail[j] {
        assert tail[i] == ks[i + 1] && tail[j] == ks[j + 1];
      }
      forall j | 0 <= j < |tail| ensures tail[j] != ks[0] {
        assert tail[j] == ks[j + 1];
      }
    }
  }

  /** A sequence has at most as many distinct elements as entries, and exactly
      as many precisely when no entry repeats. */
  lemma {:induction false} ElementsCard(ks: seq<Key>)
    ensures |Elements(ks)| <= |ks|
    ensures |Elements(ks)| == |ks| <==> Distinct(ks)
  {
    if ks != [] {
      var tail := ks[1..];
      ElementsCard(tail);
      DistinctCons(ks);
      assert ks == [ks[0]] + tail;
      assert Elements(ks) == {ks[0]} + Elements(tail);
      if ks[0] in tail {
        assert Elements(ks) == Elements(tail);
      } else {
        assert |Elements(ks)| == 1 + |Elements(tail)|;
      }
    }
  }
}
