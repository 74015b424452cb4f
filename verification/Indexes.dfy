/** ListIndexes: grouping the rows of SHOW INDEX by key name, as a map and an order slice. */
module Indexes {
  import opened Text

  datatype IndexRow = IndexRow(key: string, column: string, nonUnique: int, kind: string)

  datatype IndexInfo = IndexInfo(name: string, columns: seq<string>, unique: bool, kind: string)

  /** The key names, each once, in the order of their first rows. */
  function Names(rows: seq<IndexRow>): seq<string> {
    if rows == [] then []
    else
      var before, row := Names(rows[..|rows| - 1]), rows[|rows| - 1];
      if row.key in before then before else before + [row.key]
  }

  /** The columns of the rows named `key`, in row order. */
  function Columns(rows: seq<IndexRow>, key: string): seq<string> {
    if rows == [] then []
    else Columns(rows[..|rows| - 1], key)
         + (if rows[|rows| - 1].key == key then [rows[|rows| - 1].column] else [])
  }

  /** Position of the first row named `key`, or the number of rows. */
  function First(rows: seq<IndexRow>, key: string): (n: nat)
    ensures n <= |rows|
  {
    if rows == [] || rows[0].key == key then 0 else 1 + First(rows[1..], key)
  }

  function Group(rows: seq<IndexRow>, key: string): IndexInfo {
    var f := First(rows, key);
    if f < |rows| then IndexInfo(key, Columns(rows, key), rows[f].nonUnique == 0, rows[f].kind)
    else IndexInfo(key, [], false, "")
  }

  function Groups(rows: seq<IndexRow>): seq<IndexInfo> {
    var names := Names(rows);
    seq(|names|, i requires 0 <= i < |names| => Group(rows, names[i]))
  }

  lemma {:induction false} FirstSnoc(rows: seq<IndexRow>, row: IndexRow, key: string)
    ensures First(rows + [row], key) ==
            if First(rows, key) < |rows| then First(rows, key)
            else if row.key == key then |rows| else |rows| + 1
  {
    if rows != [] && rows[0].key != key {
      assert (rows + [row])[1..] == rows[1..] + [row];
      FirstSnoc(rows[1..], row, key);
    } else if rows == [] {
      assert ([] + [row])[1..] == [];
    }
  }

  lemma {:induction false} FirstFinds(rows: seq<IndexRow>, key: string)
    ensures First(rows, key) < |rows| ==> rows[First(rows, key)].key == key
    ensures First(rows, key) < |rows| <==> exists i :: 0 <= i < |rows| && rows[i].key == key
    ensures forall i :: 0 <= i < First(rows, key) ==> rows[i].key != key
  {
    if rows != [] && rows[0].key != key {
      FirstFinds(rows[1..], key);
      assert forall i :: 1 <= i < |rows| ==> rows[i] == rows[1..][i - 1];
      if exists i :: 0 <= i < |rows| && rows[i].key == key {
        var i :| 0 <= i < |rows| && rows[i].key == key;
        assert rows[1..][i - 1].key == key;
      }
    }
  }

  /** Each key name stands once, exactly the names of the rows occur, in order of first appearance. */
  lemma {:induction false} NamesInOrder(rows: seq<IndexRow>)
    ensures forall k :: k in Names(rows) <==> First(rows, k) < |rows|
    ensures forall i, j :: 0 <= i < j < |Names(rows)| ==> First(rows, Names(rows)[i]) < First(rows, Names(rows)[j])
  {
    if rows != [] {
      var before, row := rows[..|rows| - 1], rows[|rows| - 1];
      NamesInOrder(before);
      assert rows == before + [row];
      forall k ensures First(rows, k) == if First(before, k) < |before| then First(before, k)
                                          else if row.key == k then |before| else |before| + 1
      {
        FirstSnoc(before, row, k);
      }
    }
  }

  function Sum(xs: seq<nat>): nat {
    if xs == [] then 0 else xs[0] + Sum(xs[1..])
  }

  function ColumnCounts(rows: seq<IndexRow>, names: seq<string>): seq<nat> {
    seq(|names|, i requires 0 <= i < |names| => |Columns(rows, names[i])|)
  }

  lemma {:induction false} SumBump(xs: seq<nat>, k: nat)
    requires k < |xs|
    ensures Sum(xs[k := xs[k] + 1]) == Sum(xs) + 1
  {
    if k > 0 {
      assert xs[k := xs[k] + 1][1..] == xs[1..][k - 1 := xs[1..][k - 1] + 1];
      SumBump(xs[1..], k - 1);
    }
  }

  lemma {:induction false} SumSnoc(xs: seq<nat>, x: nat)
    ensures Sum(xs + [x]) == Sum(xs) + x
  {
    if xs == [] {
      assert ([] + [x])[1..] == [];
    } else {
      assert (xs + [x])[1..] == xs[1..] + [x];
      SumSnoc(xs[1..], x);
    }
  }

  lemma {:induction false} NoColumns(rows: seq<IndexRow>, key: string)
    requires forall i :: 0 <= i < |rows| ==> rows[i].key != key
    ensures Columns(rows, key) == []
  {
    if rows != [] { NoColumns(rows[..|rows| - 1], key); }
  }

  /** No row is lost or counted twice: the groups' column counts sum to the number of rows. */
  lemma {:induction false} CountsSum(rows: seq<IndexRow>)
    ensures Sum(ColumnCounts(rows, Names(rows))) == |rows|
  {
    if rows != [] {
      var before, row := rows[..|rows| - 1], rows[|rows| - 1];
      var names := Names(before);
      CountsSum(before);
      NamesInOrder(before);
      hide Columns, First, Sum;
      if row.key in names {
        CountsBump(before, row, names);
      } else {
        FirstFinds(before, row.key);
        CountsNew(before, row, names);
      }
      assert rows == before + [row];
    }
  }

  lemma CountsBump(before: seq<IndexRow>, row: IndexRow, names: seq<string>)
    requires row.key in names && forall i, j :: 0 <= i < j < |names| ==> names[i] != names[j]
    ensures Sum(ColumnCounts(before + [row], names)) == Sum(ColumnCounts(before, names)) + 1
  {
    var counts := ColumnCounts(before, names);
    var k :| 0 <= k < |names| && names[k] == row.key;
    SumBump(counts, k);
    hide Sum;
    assert (before + [row])[..|before|] == before;
    assert ColumnCounts(before + [row], names) == counts[k := counts[k] + 1];
  }

  lemma CountsNew(before: seq<IndexRow>, row: IndexRow, names: seq<string>)
    requires row.key !in names && forall i :: 0 <= i < |before| ==> before[i].key != row.key
    ensures Sum(ColumnCounts(before + [row], names + [row.key])) == Sum(ColumnCounts(before, names)) + 1
  {
    var counts := ColumnCounts(before, names);
    NoColumns(before, row.key);
    SumSnoc(counts, 1);
    hide Sum;
    assert (before + [row])[..|before|] == before;
    assert ColumnCounts(before + [row], names + [row.key]) == counts + [1];
  }

  /** The columns of a group are those of the rows with its name: `js` are the numbers of these rows, all of them,
      in order. */
  lemma {:induction false} ColumnsExactly(rows: seq<IndexRow>, key: string) returns (js: seq<nat>)
    ensures |js| == |Columns(rows, key)|
    ensures forall i :: 0 <= i < |js| ==> js[i] < |rows| && rows[js[i]].key == key
    ensures forall i :: 0 <= i < |js| ==> rows[js[i]].column == Columns(rows, key)[i]
    ensures forall i, k :: 0 <= i < k < |js| ==> js[i] < js[k]
    ensures forall j :: 0 <= j < |rows| && rows[j].key == key ==> j in js
  {
    js := [];
    if rows != [] {
      var n := |rows| - 1;
      js := ColumnsExactly(rows[..n], key);
      if rows[n].key == key {
        js := js + [n];
        assert js[|js| - 1] == n;
      }
    }
  }

  /** Kind and uniqueness of a group are those of its rows, when these agree, as the rows of one index do. */
  lemma GroupIsItsRows(rows: seq<IndexRow>, j: nat)
    requires j < |rows|
    requires forall k :: 0 <= k < |rows| && rows[k].key == rows[j].key ==>
               rows[k].nonUnique == rows[j].nonUnique && rows[k].kind == rows[j].kind
    ensures var g := Group(rows, rows[j].key);
            g.name == rows[j].key && g.kind == rows[j].kind && (g.unique <==> rows[j].nonUnique == 0)
  {
    FirstFinds(rows, rows[j].key);
  }

  /** The loop: a map from key names to what has been collected, and the order of insertion.
      A row that cannot be scanned (None) ends the call with an error. */
  method ListIndexes(scans: seq<Option<IndexRow>>) returns (out: Option<seq<IndexInfo>>)
    ensures out.None? <==> None in scans
    ensures out.Some? ==>
              out.value == Groups(seq(|scans|, i requires 0 <= i < |scans| && scans[i].Some? => scans[i].value))
  {
    hide Group, Names;
    NoNames();
    var indexMap: map<string, IndexInfo> := map[];
    var order: seq<string> := [];
    ghost var rows: seq<IndexRow> := [];
    for n := 0 to |scans|
      invariant |rows| == n && forall i :: 0 <= i < n ==> scans[i] == Some(rows[i])
      invariant order == Names(rows)
      invariant forall k :: k in indexMap <==> k in order
      invariant forall k :: k in indexMap ==> indexMap[k] == Group(rows, k)
    {
      if scans[n].None? {
        return None;
      }
      var row := scans[n].value;
      ghost var rows' := rows + [row];
      GroupSnoc(rows, row);
      if row.key !in indexMap {
        indexMap := indexMap[row.key := IndexInfo(row.key, [], row.nonUnique == 0, row.kind)];
        order := order + [row.key];
      }
      indexMap := indexMap[row.key := indexMap[row.key].(columns := indexMap[row.key].columns + [row.column])];
      rows := rows';
    }
    assert None !in scans;
    var list: seq<IndexInfo> := [];
    for i := 0 to |order|
      invariant |list| == i && forall j :: 0 <= j < i ==> list[j] == Group(rows, order[j])
    {
      list := list + [indexMap[order[i]]];
    }
    assert rows == seq(|scans|, i requires 0 <= i < |scans| && scans[i].Some? => scans[i].value);
    assert list == Groups(rows);
    out := Some(list);
  }

  lemma NoNames()
    ensures Names([]) == []
  {
  }

  /** What one more row does to every group. */
  lemma GroupSnoc(rows: seq<IndexRow>, row: IndexRow)
    ensures Names(rows + [row]) == if row.key in Names(rows) then Names(rows) else Names(rows) + [row.key]
    ensures forall k :: k in Names(rows) && k != row.key ==> Group(rows + [row], k) == Group(rows, k)
    ensures row.key in Names(rows) ==>
              Group(rows + [row], row.key) ==
              Group(rows, row.key).(columns := Group(rows, row.key).columns + [row.column])
    ensures row.key !in Names(rows) ==>
              Group(rows + [row], row.key) == IndexInfo(row.key, [row.column], row.nonUnique == 0, row.kind)
  {
    NamesInOrder(rows);
    assert (rows + [row])[..|rows|] == rows;
    FirstSnoc(rows, row, row.key);
    FirstFinds(rows, row.key);
    if row.key !in Names(rows) {
      NoColumns(rows, row.key);
    }
    forall k | k in Names(rows)
      ensures First(rows + [row], k) == First(rows, k)
    {
      FirstSnoc(rows, row, k);
    }
  }
}
