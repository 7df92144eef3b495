/** The decision variables: one continuous order quantity per row key, with
    lower bound zero and no upper bound, gathered in a dict keyed by the pair. */
module Variables {
  import opened Rows

  datatype Category = Continuous | Integer

  datatype OrderVariable = OrderVariable(
    key: Key,
    lowBound: real,
    upBound: Option<real>,
    category: Category)

  /** The variable the dict holds for key `k`. */
  function NewVariable(k: Key): OrderVariable
  {
    OrderVariable(k, 0.0, None, Continuous)
  }

  /** The dict of order variables built from the list of row keys; a key
      listed twice yields one entry. */
  function VariableDict(keys: seq<Key>): map<Key, OrderVariable>
  {
    map k | k in keys :: NewVariable(k)
  }

  /** The dict's keys are the listed keys, and each holds a non-negative,
      unbounded-above, continuous variable for its own key. */
  lemma VariableDictShape(keys: seq<Key>)
    ensures VariableDict(keys).Keys == Elements(keys)
    ensures forall k :: k in VariableDict(keys) ==>
      var v := VariableDict(keys)[k];
      v.key == k && v.lowBound == 0.0 && v.upBound == None && v.category == Continuous
  {
  }

  /** There is one variable per listed key exactly when no key is listed twice;
      otherwise the dict holds fewer variables than there are rows. */
  lemma VariableDictSize(keys: seq<Key>)
    ensures |VariableDict(keys)| <= |keys|
    ensures |VariableDict(keys)| == |keys| <==> Distinct(keys)
  {
    var d := VariableDict(keys);
    assert d.Keys == Elements(keys);
    assert |d| == |d.Keys|;
    ElementsCard(keys);
  }
}
