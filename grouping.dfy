/**
 `df.groupby(col, as_index=False)[measure].mean()` and `.sum()`: one row per
 distinct value of the column, in ascending key order (pandas sorts group keys
 by default), holding the mean or the sum of the measure over that group.
 */
module Grouping {
  import opened Keys
  import opened Table

  /** The aggregation applied to each group. */
  datatype Aggregation = Sum | Avg

  /** One row of a grouped result: the group key and its aggregated value. */
  datatype Row = Row(key: Key, value: real)

  /** The sorted distinct values of a column: the keys `groupby(col)` forms. */
  function DistinctKeys(s: seq<Record>, col: Column): (ks: seq<Key>)
    ensures StrictlyAscending(ks)
    ensures forall k :: k in ks <==> k in KeySet(s, col)
  {
    if s == [] then []
    else
      assert forall k :: k in KeySet(s, col) <==> k == Cell(s[0], col) || k in KeySet(s[1..], col) by {
        assert forall r :: r in s <==> r == s[0] || r in s[1..];
      }
      Insert(Cell(s[0], col), DistinctKeys(s[1..], col))
  }

  /** The rows of one group, in table order. */
  function Group(s: seq<Record>, col: Column, k: Key): (g: seq<Record>)
    ensures k in KeySet(s, col) <==> |g| > 0
  {
    var g := Where(s, Equals(col, k));
    assert k in KeySet(s, col) ==> |g| > 0 by {
      if k in KeySet(s, col) {
        var r :| r in s && Cell(r, col) == k;
        assert r in g;
      }
    }
    assert |g| > 0 ==> g[0] in g;
    g
  }

  function Summarise(g: seq<Record>, m: Measure, agg: Aggregation): real
    requires |g| > 0
  {
    match agg
    case Sum => Total(g, m)
    case Avg => Mean(g, m)
  }

  /** The aggregated rows for the given keys, one per key, in the keys' order. */
  function GroupRows(s: seq<Record>, col: Column, ks: seq<Key>, m: Measure, agg: Aggregation): (rows: seq<Row>)
    requires forall k :: k in ks ==> k in KeySet(s, col)
    ensures |rows| == |ks|
    ensures forall i :: 0 <= i < |ks| ==>
      rows[i].key == ks[i] && rows[i].value == Summarise(Group(s, col, ks[i]), m, agg)
  {
    if ks == [] then []
    else [Row(ks[0], Summarise(Group(s, col, ks[0]), m, agg))] + GroupRows(s, col, ks[1..], m, agg)
  }

  /** `s.groupby(col)[m]` followed by `.sum()` or `.mean()`. */
  function GroupBy(s: seq<Record>, col: Column, m: Measure, agg: Aggregation): (rows: seq<Row>)
    ensures |rows| == |KeySet(s, col)|
    ensures forall i, j :: 0 <= i < j < |rows| ==> KeyLess(rows[i].key, rows[j].key)
    ensures forall k :: k in KeySet(s, col) <==> exists i :: 0 <= i < |rows| && rows[i].key == k
    ensures forall i :: 0 <= i < |rows| ==>
      |Group(s, col, rows[i].key)| > 0 &&
      rows[i].value == Summarise(Group(s, col, rows[i].key), m, agg)
  {
    var ks := DistinctKeys(s, col);
    var rows := GroupRows(s, col, ks, m, agg);
    DistinctKeysCard(s, col);
    RowsListKeys(s, col, ks, rows);
    forall i | 0 <= i < |rows| ensures |Group(s, col, rows[i].key)| > 0 {
      assert rows[i].key == ks[i] && ks[i] in ks;
    }
    rows
  }

  /** There are as many distinct keys as the column has distinct values. */
  lemma DistinctKeysCard(s: seq<Record>, col: Column)
    ensures |DistinctKeys(s, col)| == |KeySet(s, col)|
  {
    var ks := DistinctKeys(s, col);
    StrictlyAscendingCard(ks);
    assert (set k | k in ks) == KeySet(s, col);
  }

  lemma RowsListKeys(s: seq<Record>, col: Column, ks: seq<Key>, rows: seq<Row>)
    requires |rows| == |ks|
    requires forall i :: 0 <= i < |ks| ==> rows[i].key == ks[i]
    requires forall k :: k in ks <==> k in KeySet(s, col)
    ensures forall k :: k in KeySet(s, col) <==> exists i :: 0 <= i < |rows| && rows[i].key == k
  {
    forall k ensures k in KeySet(s, col) <==> exists i :: 0 <= i < |rows| && rows[i].key == k {
      if k in KeySet(s, col) {
        var i :| 0 <= i < |ks| && ks[i] == k;
        assert rows[i].key == k;
      }
      if exists i :: 0 <= i < |rows| && rows[i].key == k {
        var i :| 0 <= i < |rows| && rows[i].key == k;
        assert ks[i] in ks;
      }
    }
  }

  /** Sum of the value column of a grouped result. */
  function SumValues(rows: seq<Row>): real
  {
    if rows == [] then 0.0 else rows[0].value + SumValues(rows[1..])
  }

  /** Sum of the measure over the groups of the given keys. */
  ghost function SumGroups(s: seq<Record>, col: Column, ks: seq<Key>, m: Measure): real
  {
    if ks == [] then 0.0 else Total(Where(s, Equals(col, ks[0])), m) + SumGroups(s, col, ks[1..], m)
  }

  /** What one row contributes to the groups of the given keys. */
  ghost function Share(r: Record, col: Column, ks: seq<Key>, m: Measure): real
  {
    if ks == [] then 0.0
    else (if Cell(r, col) == ks[0] then Amount(r, m) else 0.0) + Share(r, col, ks[1..], m)
  }

  lemma {:induction false} SumValuesGroupRows(s: seq<Record>, col: Column, ks: seq<Key>, m: Measure)
    requires forall k :: k in ks ==> k in KeySet(s, col)
    ensures SumValues(GroupRows(s, col, ks, m, Sum)) == SumGroups(s, col, ks, m)
  {
    if ks != [] {
      var rows := GroupRows(s, col, ks, m, Sum);
      assert rows[1..] == GroupRows(s, col, ks[1..], m, Sum);
      SumValuesGroupRows(s, col, ks[1..], m);
    }
  }

  lemma {:induction false} SumGroupsCons(s: seq<Record>, col: Column, ks: seq<Key>, m: Measure)
    requires s != []
    ensures SumGroups(s, col, ks, m) == Share(s[0], col, ks, m) + SumGroups(s[1..], col, ks, m)
  {
    if ks != [] {
      SumGroupsCons(s, col, ks[1..], m);
      var head := if Holds(Equals(col, ks[0]), s[0]) then [s[0]] else [];
      assert Where(s, Equals(col, ks[0])) == head + Where(s[1..], Equals(col, ks[0]));
      TotalAppend(head, Where(s[1..], Equals(col, ks[0])), m);
    }
  }

  /** A row's value lands in exactly one group when its key occurs once. */
  lemma {:induction false} ShareOnce(r: Record, col: Column, ks: seq<Key>, m: Measure)
    requires StrictlyAscending(ks)
    ensures Share(r, col, ks, m) == if Cell(r, col) in ks then Amount(r, m) else 0.0
  {
    if ks != [] {
      ShareOnce(r, col, ks[1..], m);
      if Cell(r, col) == ks[0] {
        forall j | 0 <= j < |ks[1..]| ensures ks[1..][j] != ks[0] {
          StrictlyAscendingDistinct(ks, 0, j + 1);
        }
      }
    }
  }

  /** Summing the per-group sums gives back the sum over the whole table. */
  lemma {:induction false} SumGroupsPartition(s: seq<Record>, col: Column, ks: seq<Key>, m: Measure)
    requires StrictlyAscending(ks)
    requires forall r :: r in s ==> Cell(r, col) in ks
    ensures SumGroups(s, col, ks, m) == Total(s, m)
  {
    if s == [] {
      SumGroupsEmpty(col, ks, m);
    } else {
      assert s[0] in s;
      SumGroupsCons(s, col, ks, m);
      ShareOnce(s[0], col, ks, m);
      SumGroupsPartition(s[1..], col, ks, m);
    }
  }

  lemma {:induction false} SumGroupsEmpty(col: Column, ks: seq<Key>, m: Measure)
    ensures SumGroups([], col, ks, m) == 0.0
  {
    if ks != [] {
      SumGroupsEmpty(col, ks[1..], m);
    }
  }

  /** The grouped sums of a table add up to the table's own sum. */
  lemma GroupSumsAddUp(s: seq<Record>, col: Column, m: Measure)
    ensures SumValues(GroupBy(s, col, m, Sum)) == Total(s, m)
  {
    var ks := DistinctKeys(s, col);
    SumValuesGroupRows(s, col, ks, m);
    SumGroupsPartition(s, col, ks, m);
  }
}
