/** pandas' `groupby(...)` followed by a sum, over a sequence of rows.
    `key` gives a row's group, or `None` when a key column is null: pandas
    drops such rows, so they belong to no group. `weight` is the value a row
    contributes to its group's sum (`size()` is the sum of the weight 1). */
module GroupBy {
  import opened Optional
  import opened Seqs

  /** The keys of the rows that have one, in row order. */
  function Keys<R, K>(rows: seq<R>, key: R -> Option<K>): (ks: seq<K>)
    ensures forall j :: 0 <= j < |ks| ==> exists i :: 0 <= i < |rows| && key(rows[i]) == Some(ks[j])
    ensures forall i :: 0 <= i < |rows| && key(rows[i]).Some? ==> key(rows[i]).value in ks
    decreases |rows|
  {
    if rows == [] then []
    else
      var prefix := rows[..|rows| - 1];
      var last := rows[|rows| - 1];
      assert forall i :: 0 <= i < |prefix| ==> prefix[i] == rows[i];
      match key(last)
      case None => Keys(prefix, key)
      case Some(k) => Keys(prefix, key) + [k]
  }

  /** The groups, in order of first appearance; each occurs once. */
  function Groups<R, K(==)>(rows: seq<R>, key: R -> Option<K>): (gs: seq<K>)
    ensures Distinct(gs)
    ensures forall j :: 0 <= j < |gs| ==> exists i :: 0 <= i < |rows| && key(rows[i]) == Some(gs[j])
    ensures forall i :: 0 <= i < |rows| && key(rows[i]).Some? ==> key(rows[i]).value in gs
  {
    Dedup(Keys(rows, key))
  }

  /** Sum of `weight` over the rows of group `k`. */
  function Total<R, K(==)>(rows: seq<R>, key: R -> Option<K>, weight: R -> int, k: K): int
    decreases |rows|
  {
    if rows == [] then 0
    else
      var last := rows[|rows| - 1];
      Total(rows[..|rows| - 1], key, weight, k) + (if key(last) == Some(k) then weight(last) else 0)
  }

  /** Sum of `weight` over every row that belongs to some group. */
  function KeyedTotal<R, K>(rows: seq<R>, key: R -> Option<K>, weight: R -> int): int
    decreases |rows|
  {
    if rows == [] then 0
    else
      var last := rows[|rows| - 1];
      KeyedTotal(rows[..|rows| - 1], key, weight) + (if key(last).Some? then weight(last) else 0)
  }

  /** Sum of the group totals of the groups listed in `gs`. */
  function SumOfTotals<R, K(==)>(rows: seq<R>, key: R -> Option<K>, weight: R -> int, gs: seq<K>): int
    decreases |gs|
  {
    if gs == [] then 0
    else SumOfTotals(rows, key, weight, gs[..|gs| - 1]) + Total(rows, key, weight, gs[|gs| - 1])
  }

  /** A key no row carries has an empty group. */
  lemma {:induction false} TotalOfAbsentKey<R, K>(rows: seq<R>, key: R -> Option<K>, weight: R -> int, k: K)
    requires forall i :: 0 <= i < |rows| ==> key(rows[i]) != Some(k)
    ensures Total(rows, key, weight, k) == 0
    decreases |rows|
  {
    if rows != [] {
      TotalOfAbsentKey(rows[..|rows| - 1], key, weight, k);
    }
  }

  /** Appending one row adds its weight to its own group's total, once. */
  lemma {:induction false} SumOfTotalsStep<R, K>(rows: seq<R>, r: R, key: R -> Option<K>, weight: R -> int, gs: seq<K>)
    requires Distinct(gs)
    ensures SumOfTotals(rows + [r], key, weight, gs)
         == SumOfTotals(rows, key, weight, gs) + (if key(r).Some? && key(r).value in gs then weight(r) else 0)
    decreases |gs|
  {
    if gs != [] {
      var gs' := gs[..|gs| - 1];
      var g := gs[|gs| - 1];
      assert gs == gs' + [g];
      assert (rows + [r])[..|rows|] == rows;
      SumOfTotalsStep(rows, r, key, weight, gs');
    }
  }

  /** Appending a row opens a new group exactly when its key is new. */
  lemma GroupsStep<R, K>(rows: seq<R>, r: R, key: R -> Option<K>)
    ensures key(r).None? ==> Groups(rows + [r], key) == Groups(rows, key)
    ensures key(r).Some? && key(r).value in Groups(rows, key) ==> Groups(rows + [r], key) == Groups(rows, key)
    ensures key(r).Some? && key(r).value !in Groups(rows, key) ==> Groups(rows + [r], key) == Groups(rows, key) + [key(r).value]
  {
    assert (rows + [r])[..|rows|] == rows;
    var ks := Keys(rows, key);
    if key(r).Some? {
      var k := key(r).value;
      assert Keys(rows + [r], key) == ks + [k];
      assert (ks + [k])[..|ks + [k]| - 1] == ks;
    }
  }

  /** Grouping loses nothing and counts nothing twice: the group totals add
      up to the total over all rows that have a key. */
  lemma {:induction false} TotalsPartitionKeyedRows<R, K>(rows: seq<R>, key: R -> Option<K>, weight: R -> int)
    ensures SumOfTotals(rows, key, weight, Groups(rows, key)) == KeyedTotal(rows, key, weight)
    decreases |rows|
  {
    if rows != [] {
      var prefix := rows[..|rows| - 1];
      var r := rows[|rows| - 1];
      assert rows == prefix + [r];
      TotalsPartitionKeyedRows(prefix, key, weight);
      var gs := Groups(prefix, key);
      SumOfTotalsStep(prefix, r, key, weight, gs);
      GroupsStep(prefix, r, key);
      assert KeyedTotal(rows, key, weight) == KeyedTotal(prefix, key, weight) + (if key(r).Some? then weight(r) else 0);
      if key(r).Some? && key(r).value !in gs {
        NewGroupTotal(prefix, r, key, weight);
      }
    }
  }

  /** The total of a group opened by the last row is that row's weight. */
  lemma NewGroupTotal<R, K>(prefix: seq<R>, r: R, key: R -> Option<K>, weight: R -> int)
    requires key(r).Some? && key(r).value !in Groups(prefix, key)
    ensures SumOfTotals(prefix + [r], key, weight, Groups(prefix, key) + [key(r).value])
         == SumOfTotals(prefix + [r], key, weight, Groups(prefix, key)) + weight(r)
  {
    var k := key(r).value;
    var gs := Groups(prefix, key);
    forall i | 0 <= i < |prefix| ensures key(prefix[i]) != Some(k) {
      assert key(prefix[i]).Some? ==> key(prefix[i]).value in gs;
    }
    TotalOfAbsentKey(prefix, key, weight, k);
    assert (prefix + [r])[..|prefix|] == prefix;
    assert (gs + [k])[..|gs|] == gs;
  }
}
