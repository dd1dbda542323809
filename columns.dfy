/**
 * Metric columns of a probe result: filling empty cells (dealList and the
 * first loop of getColumnList), the column identities of a job (getColumnList),
 * the Nagios configuration entries (addMap) and the registry keys of jobs
 * being withdrawn (dealOldSysJob).
 */
module Columns {
  import opened Base
  import opened Text
  import opened Domain

  // ---------------------------------------------------------------------------
  // Filling empty cells
  // ---------------------------------------------------------------------------

  /** `ObjectUtil.isEmpty` on a cell value: null or the empty string. */
  predicate IsEmptyValue(v: Option<string>) {
    v.None? || v.value == ""
  }

  /**
   * The value a cell holds after the three checks: an empty value becomes "0"
   * under key `toastsize` (any case) and "default" otherwise; a value starting
   * with '.' gets a leading "0".
   */
  function NormalizeValue(key: string, v: Option<string>): string {
    var w := if IsEmptyValue(v) then (if EqualsIgnoreCase(key, "toastsize") then "0" else "default") else v.value;
    if StartsWith(w, ".") then "0" + w else w
  }

  function NormalizeCell(c: Cell): Cell {
    Cell(c.key, Some(NormalizeValue(c.key, c.value)))
  }

  function NormalizeRow(row: Row): (r: Row)
    ensures |r| == |row|
    ensures forall j :: 0 <= j < |row| ==> r[j] == NormalizeCell(row[j])
  {
    seq(|row|, j requires 0 <= j < |row| => NormalizeCell(row[j]))
  }

  function NormalizeRows(rows: seq<Row>): (r: seq<Row>)
    ensures |r| == |rows|
    ensures forall i :: 0 <= i < |rows| ==> r[i] == NormalizeRow(rows[i])
  {
    seq(|rows|, i requires 0 <= i < |rows| => NormalizeRow(rows[i]))
  }

  /** Every cell holds a non-empty value. */
  predicate Filled(rows: seq<Row>) {
    forall i, j :: 0 <= i < |rows| && 0 <= j < |rows[i]| ==> rows[i][j].value.Some? && rows[i][j].value.value != ""
  }

  /** A filled value is non-empty and never starts with '.'. */
  lemma NormalizeValueFilled(key: string, v: Option<string>)
    ensures NormalizeValue(key, v) != ""
    ensures !StartsWith(NormalizeValue(key, v), ".")
    ensures !IsEmptyValue(v) && !StartsWith(v.value, ".") ==> NormalizeValue(key, v) == v.value
  {
    var r := NormalizeValue(key, v);
    assert r[0] != '.';
  }

  /** After filling, no cell is empty, and keys, row count and row lengths are unchanged. */
  lemma NormalizeRowsFilled(rows: seq<Row>)
    ensures Filled(NormalizeRows(rows))
    ensures forall i, j :: 0 <= i < |rows| && 0 <= j < |rows[i]| ==>
              |NormalizeRows(rows)[i]| == |rows[i]| && NormalizeRows(rows)[i][j].key == rows[i][j].key
  {
    forall i, j | 0 <= i < |rows| && 0 <= j < |rows[i]|
      ensures NormalizeRows(rows)[i][j].value.Some? && NormalizeRows(rows)[i][j].value.value != ""
    {
      NormalizeValueFilled(rows[i][j].key, rows[i][j].value);
    }
  }

  /** Filling twice is filling once. */
  lemma NormalizeRowsIdempotent(rows: seq<Row>)
    ensures NormalizeRows(NormalizeRows(rows)) == NormalizeRows(rows)
  {
    var once := NormalizeRows(rows);
    forall i | 0 <= i < |rows|
      ensures NormalizeRow(once[i]) == once[i]
    {
      forall j | 0 <= j < |once[i]|
        ensures NormalizeCell(once[i][j]) == once[i][j]
      {
        NormalizeValueFilled(rows[i][j].key, rows[i][j].value);
      }
    }
  }

  /** An empty `toastsize` cell becomes the metric "0"; any other empty cell becomes the non-metric "default". */
  lemma EmptyCellValue(key: string, v: Option<string>)
    requires IsEmptyValue(v)
    ensures EqualsIgnoreCase(key, "toastsize") ==> NormalizeValue(key, v) == "0" && IsMetricText("0")
    ensures !EqualsIgnoreCase(key, "toastsize") ==> NormalizeValue(key, v) == "default" && !IsMetricText("default")
  {
    var z, d := "0", "default";
    assert z[0] == '0' && d[0] == 'd';
    assert !StartsWith(z, ".") && !StartsWith(d, ".");
    if EqualsIgnoreCase(key, "toastsize") {
      NumberComplete("", z, "");
      assert "" + z == z;
    } else {
      MetricTextStartNot(d);
    }
  }

  lemma MetricTextStartNot(s: string)
    requires |s| > 0 && !IsDigit(s[0]) && s[0] != '+' && s[0] != '-'
    ensures !IsMetricText(s)
  {
    if IsMetricText(s) {
      MetricTextStart(s);
    }
  }

  /** A bare fraction such as ".25" is completed to "0.25", which counts as a metric. */
  lemma BareFractionBecomesMetric(key: string, frac: string)
    requires |frac| > 0 && AllDigits(frac)
    ensures NormalizeValue(key, Some("." + frac)) == "0." + frac
    ensures IsMetricText("0." + frac)
  {
    var w := "." + frac;
    assert !IsEmptyValue(Some(w));
    assert StartsWith(w, ".") by {
      assert w[..1] == ".";
    }
    assert "0" + w == "0." + frac by {
      assert "0." == "0" + ".";
    }
    NumberComplete("", "0", frac);
    assert "" + "0" + "." + frac == "0." + frac;
  }

  /** dealList: fills the empty cells of every row, in place. */
  method DealList(rows: array<Row>)
    modifies rows
    ensures rows[..] == NormalizeRows(old(rows[..]))
  {
    var i := 0;
    while i < rows.Length
      invariant 0 <= i <= rows.Length
      invariant forall k :: 0 <= k < i ==> rows[k] == NormalizeRow(old(rows[k]))
      invariant forall k :: i <= k < rows.Length ==> rows[k] == old(rows[k])
    {
      var row := rows[i];
      var j := 0;
      while j < |row|
        invariant 0 <= j <= |row| == |rows[i]|
        invariant forall m :: 0 <= m < j ==> row[m] == NormalizeCell(rows[i][m])
        invariant forall m :: j <= m < |row| ==> row[m] == rows[i][m]
      {
        row := row[j := NormalizeCell(row[j])];
        j := j + 1;
      }
      rows[i] := row;
      i := i + 1;
    }
  }

  // ---------------------------------------------------------------------------
  // Column identities (getColumnList)
  // ---------------------------------------------------------------------------

  /** A cell whose value matches ISNUM or KEXUE. */
  predicate MetricCell(c: Cell) {
    c.value.Some? && IsMetricText(c.value.value)
  }

  /** The identity a metric column gets in job `jobName`. */
  function ColumnId(key: string, jobName: string): string {
    key + "_" + jobName + "_"
  }

  /** The identities contributed by one row, in column order. */
  function RowColumnIds(row: Row, jobName: string): (r: seq<string>)
    ensures |r| <= |row|
  {
    if row == [] then []
    else
      var c := row[|row| - 1];
      RowColumnIds(row[..|row| - 1], jobName) + (if MetricCell(c) then [ColumnId(c.key, jobName)] else [])
  }

  /** The identities of all rows, row by row. */
  function ColumnIds(rows: seq<Row>, jobName: string): (r: seq<string>)
    ensures |r| <= CellCount(rows)
  {
    if rows == [] then [] else ColumnIds(rows[..|rows| - 1], jobName) + RowColumnIds(rows[|rows| - 1], jobName)
  }

  /** Number of metric cells of a row, and of all rows. */
  function RowMetricCount(row: Row): nat {
    if row == [] then 0 else RowMetricCount(row[..|row| - 1]) + (if MetricCell(row[|row| - 1]) then 1 else 0)
  }

  function MetricCount(rows: seq<Row>): nat {
    if rows == [] then 0 else MetricCount(rows[..|rows| - 1]) + RowMetricCount(rows[|rows| - 1])
  }

  function CellCount(rows: seq<Row>): nat {
    if rows == [] then 0 else CellCount(rows[..|rows| - 1]) + |rows[|rows| - 1]|
  }

  lemma {:induction false} RowCount(row: Row, jobName: string)
    ensures |RowColumnIds(row, jobName)| == RowMetricCount(row) <= |row|
  {
    if row != [] {
      RowCount(row[..|row| - 1], jobName);
    }
  }

  /** One identity per metric cell, so never more identities than cells. */
  lemma {:induction false} ColumnIdsCount(rows: seq<Row>, jobName: string)
    ensures |ColumnIds(rows, jobName)| == MetricCount(rows) <= CellCount(rows)
  {
    if rows != [] {
      ColumnIdsCount(rows[..|rows| - 1], jobName);
      RowCount(rows[|rows| - 1], jobName);
    }
  }

  lemma {:induction false} RowColumnIdsMembership(row: Row, jobName: string, x: string)
    ensures x in RowColumnIds(row, jobName) <==> exists j :: 0 <= j < |row| && MetricCell(row[j]) && x == ColumnId(row[j].key, jobName)
  {
    if row != [] {
      var front := row[..|row| - 1];
      RowColumnIdsMembership(front, jobName, x);
      assert forall j :: 0 <= j < |front| ==> front[j] == row[j];
    }
  }

  /** A row's identities follow its cells: those of a split row are those of its parts, in order. */
  lemma {:induction false} RowColumnIdsOrder(p: Row, q: Row, jobName: string)
    ensures RowColumnIds(p + q, jobName) == RowColumnIds(p, jobName) + RowColumnIds(q, jobName)
    decreases |q|
  {
    if q == [] {
      assert p + q == p;
    } else {
      var q' := q[..|q| - 1];
      assert (p + q)[..|p + q| - 1] == p + q';
      assert (p + q)[|p + q| - 1] == q[|q| - 1];
      RowColumnIdsOrder(p, q', jobName);
    }
  }

  /**
   * The identities come row after row: those of a split list of rows are
   * those of its parts, in order.
   */
  lemma {:induction false} ColumnIdsOrder(a: seq<Row>, b: seq<Row>, jobName: string)
    ensures ColumnIds(a + b, jobName) == ColumnIds(a, jobName) + ColumnIds(b, jobName)
    decreases |b|
  {
    if b == [] {
      assert a + b == a;
    } else {
      var b' := b[..|b| - 1];
      assert (a + b)[..|a + b| - 1] == a + b';
      assert (a + b)[|a + b| - 1] == b[|b| - 1];
      ColumnIdsOrder(a, b', jobName);
    }
  }

  /** One row gives its own identities, and one cell its identity exactly when it is a metric cell. */
  lemma ColumnIdsUnits(row: Row, c: Cell, jobName: string)
    ensures ColumnIds([row], jobName) == RowColumnIds(row, jobName)
    ensures RowColumnIds([c], jobName) == (if MetricCell(c) then [ColumnId(c.key, jobName)] else [])
  {
    assert [row][..0] == [];
    assert [c][..0] == [];
  }

  /** An identity is produced exactly for a metric cell of some row. */
  lemma {:induction false} ColumnIdsMembership(rows: seq<Row>, jobName: string, x: string)
    ensures x in ColumnIds(rows, jobName) <==>
            exists i, j :: 0 <= i < |rows| && 0 <= j < |rows[i]| && MetricCell(rows[i][j]) && x == ColumnId(rows[i][j].key, jobName)
  {
    if rows != [] {
      var front := rows[..|rows| - 1];
      ColumnIdsMembership(front, jobName, x);
      RowColumnIdsMembership(rows[|rows| - 1], jobName, x);
      assert forall i :: 0 <= i < |front| ==> front[i] == rows[i];
    }
  }

  /**
   * dealMetric only ever adds the cell ("instance", "node" + i), which is not
   * a metric: adding it to a row changes none of the row's identities.
   */
  lemma InstanceCellAddsNothing(row: Row, jobName: string, i: int)
    ensures RowColumnIds(row + [Cell("instance", Some("node" + IntToString(i)))], jobName) == RowColumnIds(row, jobName)
  {
    var r := row + [Cell("instance", Some("node" + IntToString(i)))];
    NodeLabelNotMetric(i);
    assert r[..|r| - 1] == row;
  }

  /**
   * getColumnList: fills the rows in place (as dealList does), then lists the
   * identity of every metric cell, row by row and column by column.
   */
  /** The inner loop of getColumnList: the identities of one row's metric cells. */
  method RowIds(row: Row, jobName: string) returns (ids: seq<string>)
    ensures ids == RowColumnIds(row, jobName)
  {
    var j := 0;
    ids := [];
    while j < |row|
      invariant 0 <= j <= |row|
      invariant ids == RowColumnIds(row[..j], jobName)
    {
      var c := row[j];
      if MetricCell(c) {
        ids := ids + [ColumnId(c.key, jobName)];
      }
      assert row[..j + 1][..j] == row[..j];
      j := j + 1;
    }
    assert row[..j] == row;
  }

  method GetColumnList(rows: array<Row>, jobName: string) returns (columns: seq<string>)
    modifies rows
    ensures rows[..] == NormalizeRows(old(rows[..]))
    ensures columns == ColumnIds(rows[..], jobName)
  {
    DealList(rows);
    ghost var dealt := rows[..];
    columns := [];
    var i := 0;
    while i < rows.Length
      invariant 0 <= i <= rows.Length
      invariant rows[..] == dealt
      invariant columns == ColumnIds(rows[..i], jobName)
    {
      var rowIds := RowIds(rows[i], jobName);
      columns := columns + rowIds;
      assert rows[..i + 1][..i] == rows[..i];
      i := i + 1;
    }
    assert rows[..i] == rows[..];
  }

  // ---------------------------------------------------------------------------
  // Nagios configuration entries (addMap)
  // ---------------------------------------------------------------------------

  /** The entry key of a metric cell of row `i`: its column identity, the connection name and the row index. */
  function EntryKey(key: string, jobName: string, conn: string, i: int): string {
    key + "_" + jobName + "_" + conn + "_" + IntToString(i)
  }

  /** The (key, value) pairs row `i` puts into the Nagios map, in column order. */
  function RowPairs(row: Row, jobName: string, conn: string, i: int): (r: seq<(string, string)>)
    ensures |r| <= |row|
  {
    if row == [] then []
    else
      var c := row[|row| - 1];
      RowPairs(row[..|row| - 1], jobName, conn, i)
      + (if MetricCell(c) then [(EntryKey(c.key, jobName, conn, i), c.value.value)] else [])
  }

  /** The pairs of all rows, each row with its index. */
  function PublishPairs(rows: seq<Row>, jobName: string, conn: string): seq<(string, string)> {
    if rows == [] then []
    else PublishPairs(rows[..|rows| - 1], jobName, conn) + RowPairs(rows[|rows| - 1], jobName, conn, |rows| - 1)
  }

  /** `Map.put` of each pair in turn. */
  function PutAll(m: map<string, string>, pairs: seq<(string, string)>): (r: map<string, string>)
    ensures m.Keys <= r.Keys
    ensures forall i :: 0 <= i < |pairs| ==> pairs[i].0 in r
  {
    if pairs == [] then m else PutAll(m, pairs[..|pairs| - 1])[pairs[|pairs| - 1].0 := pairs[|pairs| - 1].1]
  }

  /** Copying a map and then a larger version of it is copying the larger one. */
  lemma UnionAbsorbs(a: map<string, string>, b: map<string, string>, c: map<string, string>)
    requires b.Keys <= c.Keys
    ensures (a + b) + c == a + c
  {
  }

  lemma PutAllSnoc(m: map<string, string>, pairs: seq<(string, string)>, p: (string, string))
    ensures PutAll(m, pairs + [p]) == PutAll(m, pairs)[p.0 := p.1]
  {
    assert (pairs + [p])[..|pairs|] == pairs;
  }

  lemma RowPairsStep(row: Row, jobName: string, conn: string, i: int, j: nat)
    requires j < |row|
    ensures RowPairs(row[..j + 1], jobName, conn, i) == RowPairs(row[..j], jobName, conn, i)
              + (if MetricCell(row[j]) then [(EntryKey(row[j].key, jobName, conn, i), row[j].value.value)] else [])
  {
    assert row[..j + 1][..j] == row[..j];
  }

  /** A key is present after the puts exactly when it was before or some pair carries it. */
  lemma {:induction false} PutAllKeys(m: map<string, string>, pairs: seq<(string, string)>, k: string)
    ensures k in PutAll(m, pairs) <==> k in m || exists p :: 0 <= p < |pairs| && pairs[p].0 == k
  {
    if pairs != [] {
      var front := pairs[..|pairs| - 1];
      PutAllKeys(m, front, k);
      assert forall p :: 0 <= p < |front| ==> front[p] == pairs[p];
    }
  }

  /** The last pair with a key decides its value. */
  lemma {:induction false} PutAllLast(m: map<string, string>, pairs: seq<(string, string)>, p: nat)
    requires p < |pairs|
    requires forall q :: p < q < |pairs| ==> pairs[q].0 != pairs[p].0
    ensures pairs[p].0 in PutAll(m, pairs) && PutAll(m, pairs)[pairs[p].0] == pairs[p].1
  {
    if p < |pairs| - 1 {
      var front := pairs[..|pairs| - 1];
      PutAllLast(m, front, p);
    }
  }

  /** Row `i`'s entry keys are its column identities followed by the connection name and `_i`. */
  lemma {:induction false} RowPairsMatchColumns(row: Row, jobName: string, conn: string, i: int)
    ensures |RowPairs(row, jobName, conn, i)| == |RowColumnIds(row, jobName)|
    ensures forall k :: 0 <= k < |RowPairs(row, jobName, conn, i)| ==>
              RowPairs(row, jobName, conn, i)[k].0 == RowColumnIds(row, jobName)[k] + conn + "_" + IntToString(i)
  {
    if row != [] {
      RowPairsMatchColumns(row[..|row| - 1], jobName, conn, i);
      var c := row[|row| - 1];
      assert EntryKey(c.key, jobName, conn, i) == ColumnId(c.key, jobName) + conn + "_" + IntToString(i);
    }
  }

  /** A mutable string map, standing for the `Map<String, Object>` objects addMap fills. */
  class ConfigMap {
    var entries: map<string, string>

    constructor ()
      ensures entries == map[]
    {
      entries := map[];
    }
  }

  lemma {:induction false} PutAllConcat(m: map<string, string>, a: seq<(string, string)>, b: seq<(string, string)>)
    ensures PutAll(m, a + b) == PutAll(PutAll(m, a), b)
    decreases |b|
  {
    if b == [] {
      assert a + b == a;
    } else {
      var front := b[..|b| - 1];
      PutAllConcat(m, a, front);
      assert a + b == (a + front) + [b[|b| - 1]];
      PutAllSnoc(m, a + front, b[|b| - 1]);
    }
  }

  lemma {:induction false} PutAllGrows(m: map<string, string>, pairs: seq<(string, string)>)
    ensures m.Keys <= PutAll(m, pairs).Keys
    decreases |pairs|
  {
    if pairs != [] {
      PutAllGrows(m, pairs[..|pairs| - 1]);
    }
  }

  lemma PublishPairsStep(rows: seq<Row>, jobName: string, conn: string, i: nat)
    requires i < |rows|
    ensures PublishPairs(rows[..i + 1], jobName, conn) == PublishPairs(rows[..i], jobName, conn) + RowPairs(rows[i], jobName, conn, i)
  {
    assert rows[..i + 1][..i] == rows[..i];
  }

  /** One put followed by the copy into `all`, on the accumulated pairs. */
  lemma PutStep(a0: map<string, string>, m0: map<string, string>, done: seq<(string, string)>, pair: (string, string))
    ensures PutAll(m0, done + [pair]) == PutAll(m0, done)[pair.0 := pair.1]
    ensures (if done == [] then a0 else a0 + PutAll(m0, done)) + PutAll(m0, done + [pair]) == a0 + PutAll(m0, done + [pair])
  {
    PutAllSnoc(m0, done, pair);
    UnionAbsorbs(a0, PutAll(m0, done), PutAll(m0, done + [pair]));
  }

  /** `nagiosMap.put(key, value)` followed by `all.putAll(nagiosMap)`. */
  method PutAndCopy(pair: (string, string), all: ConfigMap, nagiosMap: ConfigMap)
    requires all != nagiosMap
    modifies all, nagiosMap
    ensures nagiosMap.entries == old(nagiosMap.entries)[pair.0 := pair.1]
    ensures all.entries == old(all.entries) + nagiosMap.entries
  {
    nagiosMap.entries := nagiosMap.entries[pair.0 := pair.1];
    all.entries := all.entries + nagiosMap.entries;
  }

  /**
   * The inner loop of addMap for row `i`: each metric cell is put into
   * `nagiosMap`, and then all of `nagiosMap` is copied into `all`.
   */
  method AddRow(row: Row, i: int, all: ConfigMap, conn: string, jobName: string, nagiosMap: ConfigMap)
    requires all != nagiosMap
    modifies all, nagiosMap
    ensures nagiosMap.entries == PutAll(old(nagiosMap.entries), RowPairs(row, jobName, conn, i))
    ensures all.entries == if RowPairs(row, jobName, conn, i) == [] then old(all.entries) else old(all.entries) + nagiosMap.entries
  {
    ghost var m0 := nagiosMap.entries;
    ghost var a0 := all.entries;
    ghost var done: seq<(string, string)> := [];
    var j := 0;
    assert row[..0] == [];
    while j < |row|
      invariant 0 <= j <= |row|
      invariant done == RowPairs(row[..j], jobName, conn, i)
      invariant nagiosMap.entries == PutAll(m0, done)
      invariant all.entries == if done == [] then a0 else a0 + nagiosMap.entries
    {
      var c := row[j];
      RowPairsStep(row, jobName, conn, i, j);
      if MetricCell(c) {
        var pair := (EntryKey(c.key, jobName, conn, i), c.value.value);
        PutStep(a0, m0, done, pair);
        PutAndCopy(pair, all, nagiosMap);
        done := done + [pair];
      } else {
        assert done + [] == done;
      }
      j := j + 1;
    }
    assert row[..j] == row;
  }

  /**
   * addMap: puts every metric cell of row `i` under its entry key into
   * `nagiosMap`, and after each put copies all of `nagiosMap` into `all`.
   * The rows are filled already, so every value is present.
   */
  method AddMap(rows: seq<Row>, all: ConfigMap, conn: string, jobName: string, nagiosMap: ConfigMap)
    requires all != nagiosMap
    requires Filled(rows)
    modifies all, nagiosMap
    ensures nagiosMap.entries == PutAll(old(nagiosMap.entries), PublishPairs(rows, jobName, conn))
    ensures all.entries == if PublishPairs(rows, jobName, conn) == [] then old(all.entries) else old(all.entries) + nagiosMap.entries
  {
    ghost var m0 := nagiosMap.entries;
    ghost var a0 := all.entries;
    ghost var done: seq<(string, string)> := [];
    var i := 0;
    while i < |rows|
      invariant 0 <= i <= |rows|
      invariant done == PublishPairs(rows[..i], jobName, conn)
      invariant nagiosMap.entries == PutAll(m0, done)
      invariant all.entries == if done == [] then a0 else a0 + nagiosMap.entries
    {
      ghost var nag := nagiosMap.entries;
      ghost var rowPairs := RowPairs(rows[i], jobName, conn, i);
      AddRow(rows[i], i, all, conn, jobName, nagiosMap);
      PublishPairsStep(rows, jobName, conn, i);
      PutAllConcat(m0, done, rowPairs);
      PutAllGrows(nag, rowPairs);
      UnionAbsorbs(a0, nag, nagiosMap.entries);
      done := done + rowPairs;
      i := i + 1;
    }
    assert rows[..i] == rows;
  }

  // ---------------------------------------------------------------------------
  // Registry keys of withdrawn jobs (dealOldSysJob)
  // ---------------------------------------------------------------------------

  /** Each column of a job with `name` appended. */
  function Suffixed(columns: seq<string>, name: string): (r: seq<string>)
    ensures |r| == |columns|
    ensures forall k :: 0 <= k < |columns| ==> r[k] == columns[k] + name
  {
    seq(|columns|, k requires 0 <= k < |columns| => columns[k] + name)
  }

  /** The keys to remove: every job's columns with `name` appended, job by job. */
  function RegistryKeys(jobs: seq<Job>, name: string): (r: seq<string>)
    ensures forall i :: 0 <= i < |r| ==> |name| <= |r[i]| && r[i][|r[i]| - |name|..] == name
  {
    if jobs == [] then [] else RegistryKeys(jobs[..|jobs| - 1], name) + Suffixed(jobs[|jobs| - 1].columns, name)
  }

  function ColumnTotal(jobs: seq<Job>): nat {
    if jobs == [] then 0 else ColumnTotal(jobs[..|jobs| - 1]) + |jobs[|jobs| - 1].columns|
  }

  /** dealOldSysJob: collects the keys, job by job. */
  method DealOldSysJob(jobs: seq<Job>, name: string) returns (remove: seq<string>)
    ensures remove == RegistryKeys(jobs, name)
  {
    remove := [];
    var i := 0;
    while i < |jobs|
      invariant 0 <= i <= |jobs|
      invariant remove == RegistryKeys(jobs[..i], name)
    {
      var column := jobs[i].columns;
      if |column| > 0 {
        remove := remove + Suffixed(column, name);
      }
      assert jobs[..i + 1][..i] == jobs[..i];
      i := i + 1;
    }
    assert jobs[..i] == jobs;
  }

  /** One key per column of every job. */
  lemma {:induction false} RegistryKeysCount(jobs: seq<Job>, name: string)
    ensures |RegistryKeys(jobs, name)| == ColumnTotal(jobs)
  {
    if jobs != [] {
      RegistryKeysCount(jobs[..|jobs| - 1], name);
    }
  }

  /** A key is listed exactly when it is some job's column with `name` appended. */
  lemma {:induction false} RegistryKeysMembership(jobs: seq<Job>, name: string, x: string)
    ensures x in RegistryKeys(jobs, name) <==>
            exists i, k :: 0 <= i < |jobs| && 0 <= k < |jobs[i].columns| && x == jobs[i].columns[k] + name
  {
    if jobs != [] {
      var front := jobs[..|jobs| - 1];
      RegistryKeysMembership(front, name, x);
      assert forall i :: 0 <= i < |front| ==> front[i] == jobs[i];
    }
  }
}
