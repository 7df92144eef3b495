/** The inner merge of the sales rows with the cost rows on
    (product_id, location_id), as `pd.merge(..., how='inner')` performs it
    when the cost side has unique keys: the output follows the order of the
    sales rows, and a sales row without a cost match is dropped. */
module Merge {
  import opened Rows

  /** The cost row carrying key `k`, looked up left to right. */
  function FindCost(costs: seq<CostRow>, k: Key): (r: Option<CostRow>)
    ensures r.Some? ==> r.value in costs && CostKey(r.value) == k
    ensures r.None? <==> k !in CostKeys(costs)
  {
    if costs == [] then None
    else if CostKey(costs[0]) == k then Some(costs[0])
    else
      var rest := FindCost(costs[1..], k);
      assert CostKeys(costs) == [CostKey(costs[0])] + CostKeys(costs[1..]);
      rest
  }

  /** The merged row: key and demand columns from the sales row, cost columns
      from the cost row. */
  function Combine(s: SalesRow, c: CostRow): JoinedRow
  {
    JoinedRow(s.productId, s.locationId, s.totalSold, s.shelfLifeDays,
              c.holdingCost, c.orderingCost, c.leadTimeDays, c.echelon)
  }

  /** `pd.merge(sales_data, inventory_data, on=['product_id', 'location_id'], how='inner')`. */
  function InnerMerge(sales: seq<SalesRow>, costs: seq<CostRow>): (m: seq<JoinedRow>)
    requires Distinct(CostKeys(costs))
    ensures |m| <= |sales|
  {
    if sales == [] then []
    else
      match FindCost(costs, SalesKey(sales[0]))
      case Some(c) => [Combine(sales[0], c)] + InnerMerge(sales[1..], costs)
      case None => InnerMerge(sales[1..], costs)
  }

  /** With unique cost keys, looking up the key of the cost row at `i` finds that row. */
  lemma {:induction false} FindCostAt(costs: seq<CostRow>, i: nat)
    requires Distinct(CostKeys(costs))
    requires i < |costs|
    ensures FindCost(costs, CostKey(costs[i])) == Some(costs[i])
  {
    if i > 0 {
      assert CostKeys(costs)[0] != CostKeys(costs)[i];
      DistinctCons(CostKeys(costs));
      assert CostKeys(costs)[1..] == CostKeys(costs[1..]);
      assert costs[1..][i - 1] == costs[i];
      FindCostAt(costs[1..], i - 1);
    }
  }

  /** With unique cost keys, the cost row for a key is the one that carries it. */
  lemma FindCostUnique(costs: seq<CostRow>, c: CostRow)
    requires Distinct(CostKeys(costs))
    requires c in costs
    ensures FindCost(costs, CostKey(c)) == Some(c)
  {
    var i :| 0 <= i < |costs| && costs[i] == c;
    FindCostAt(costs, i);
  }

  /** Merging distributes over a split of the sales rows, so the merged rows
      keep the relative order of the sales rows they come from. */
  lemma {:induction false} InnerMergeConcat(s1: seq<SalesRow>, s2: seq<SalesRow>, costs: seq<CostRow>)
    requires Distinct(CostKeys(costs))
    ensures InnerMerge(s1 + s2, costs) == InnerMerge(s1, costs) + InnerMerge(s2, costs)
  {
    if s1 != [] {
      assert (s1 + s2)[0] == s1[0];
      assert (s1 + s2)[1..] == s1[1..] + s2;
      InnerMergeConcat(s1[1..], s2, costs);
    } else {
      assert s1 + s2 == s2;
    }
  }

  /** Every merged row is the combination of a sales row and a cost row
      with the same key. */
  lemma {:induction false} InnerMergeSound(sales: seq<SalesRow>, costs: seq<CostRow>)
    requires Distinct(CostKeys(costs))
    ensures forall j :: j in InnerMerge(sales, costs) ==>
      exists s, c :: s in sales && c in costs && SalesKey(s) == CostKey(c) && j == Combine(s, c)
  {
    if sales != [] {
      InnerMergeSound(sales[1..], costs);
      var m := InnerMerge(sales, costs);
      forall j | j in m
        ensures exists s, c :: s in sales && c in costs && SalesKey(s) == CostKey(c) && j == Combine(s, c)
      {
        match FindCost(costs, SalesKey(sales[0]))
        case Some(c) =>
          if j == Combine(sales[0], c) {
            assert sales[0] in sales;
          } else {
            assert j in InnerMerge(sales[1..], costs);
            var s', c' :| s' in sales[1..] && c' in costs && SalesKey(s') == CostKey(c') && j == Combine(s', c');
            assert s' in sales;
          }
        case None =>
          assert j in InnerMerge(sales[1..], costs);
          var s', c' :| s' in sales[1..] && c' in costs && SalesKey(s') == CostKey(c') && j == Combine(s', c');
          assert s' in sales;
      }
    }
  }

  /** Every pair of a sales row and a cost row with the same key produces
      its merged row. */
  lemma {:induction false} InnerMergeComplete(sales: seq<SalesRow>, costs: seq<CostRow>, s: SalesRow, c: CostRow)
    requires Distinct(CostKeys(costs))
    requires s in sales && c in costs && SalesKey(s) == CostKey(c)
    ensures Combine(s, c) in InnerMerge(sales, costs)
  {
    FindCostUnique(costs, c);
    if sales[0] != s {
      InnerMergeComplete(sales[1..], costs, s, c);
    }
  }

  /** A key is in the merged frame exactly when it is in both inputs. */
  lemma {:induction false} InnerMergeKeys(sales: seq<SalesRow>, costs: seq<CostRow>)
    requires Distinct(CostKeys(costs))
    ensures Elements(RowKeys(InnerMerge(sales, costs)))
         == Elements(SalesKeys(sales)) * Elements(CostKeys(costs))
  {
    var m := InnerMerge(sales, costs);
    InnerMergeSound(sales, costs);
    forall k | k in Elements(RowKeys(m))
      ensures k in Elements(SalesKeys(sales)) * Elements(CostKeys(costs))
    {
      var i :| 0 <= i < |m| && RowKeys(m)[i] == k;
      assert m[i] in m;
      var s, c :| s in sales && c in costs && SalesKey(s) == CostKey(c) && m[i] == Combine(s, c);
      var a :| 0 <= a < |sales| && sales[a] == s;
      var b :| 0 <= b < |costs| && costs[b] == c;
      assert SalesKeys(sales)[a] == k;
      assert CostKeys(costs)[b] == k;
    }
    forall k | k in Elements(SalesKeys(sales)) * Elements(CostKeys(costs))
      ensures k in Elements(RowKeys(m))
    {
      var a :| 0 <= a < |sales| && SalesKeys(sales)[a] == k;
      var b :| 0 <= b < |costs| && CostKeys(costs)[b] == k;
      InnerMergeComplete(sales, costs, sales[a], costs[b]);
      var i :| 0 <= i < |m| && m[i] == Combine(sales[a], costs[b]);
      assert RowKeys(m)[i] == k;
    }
  }

  /** Unique sales keys give a merged frame with unique keys. */
  lemma {:induction false} InnerMergeDistinct(sales: seq<SalesRow>, costs: seq<CostRow>)
    requires Distinct(CostKeys(costs))
    requires Distinct(SalesKeys(sales))
    ensures Distinct(RowKeys(InnerMerge(sales, costs)))
  {
    if sales != [] {
      var tail := sales[1..];
      assert Distinct(SalesKeys(tail)) by {
        forall i, j | 0 <= i < j < |tail| ensures SalesKeys(tail)[i] != SalesKeys(tail)[j] {
          assert SalesKeys(sales)[i + 1] != SalesKeys(sales)[j + 1];
        }
      }
      InnerMergeDistinct(tail, costs);
      var rest := InnerMerge(tail, costs);
      match FindCost(costs, SalesKey(sales[0]))
      case Some(c) =>
        var m := [Combine(sales[0], c)] + rest;
        assert SalesKey(sales[0]) !in Elements(RowKeys(rest)) by {
          DistinctCons(SalesKeys(sales));
          assert SalesKeys(sales)[1..] == SalesKeys(tail);
          InnerMergeKeys(tail, costs);
        }
        forall i, j | 0 <= i < j < |m| ensures RowKeys(m)[i] != RowKeys(m)[j] {
          if i == 0 {
            assert RowKeys(m)[j] == RowKeys(rest)[j - 1];
          } else {
            assert RowKeys(m)[i] == RowKeys(rest)[i - 1];
            assert RowKeys(m)[j] == RowKeys(rest)[j - 1];
          }
        }
      case None =>
    }
  }
}
