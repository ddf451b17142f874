/**
 * The small labelled count tables the dashboard shows and exports: rows
 * labelled by regency (or "Total"), columns labelled by category, cells of
 * non-negative counts. `Frame` is a table that the page updates in place;
 * the functions below give the value each update produces.
 */
module Tables {
  import opened Wrappers
  import opened Seqs

  datatype Row = Row(key: string, cells: seq<nat>)

  datatype Table = Table(columns: seq<string>, rows: seq<Row>)

  /** The label of the grand-total row. */
  const TOTAL := "Total"

  /** Every row has one cell per column. */
  predicate WellShaped(t: Table)
  {
    forall i :: 0 <= i < |t.rows| ==> |t.rows[i].cells| == |t.columns|
  }

  /** The row index of a table, in order. */
  function Labels(rows: seq<Row>): seq<string>
  {
    seq(|rows|, i requires 0 <= i < |rows| => rows[i].key)
  }

  /** `DataFrame.empty`: no rows or no columns. */
  predicate IsEmpty(t: Table)
  {
    |t.rows| == 0 || |t.columns| == 0
  }

  /** The position of the first occurrence of `x`. */
  function IndexOf<T(==)>(s: seq<T>, x: T): (k: nat)
    requires x in s
    ensures k < |s| && s[k] == x
    ensures forall m :: 0 <= m < k ==> s[m] != x
  {
    if s[0] == x then 0 else 1 + IndexOf(s[1..], x)
  }

  lemma IndexOfDistinct<T>(s: seq<T>, k: nat)
    requires Distinct(s) && k < |s|
    ensures IndexOf(s, s[k]) == k
  {
  }

  lemma LabelsAppend(rows: seq<Row>, x: Row)
    ensures Labels(rows + [x]) == Labels(rows) + [x.key]
  {
  }

  lemma LabelsConcat(a: seq<Row>, b: seq<Row>)
    ensures Labels(a + b) == Labels(a) + Labels(b)
  {
  }

  /** A label appended after the others is first found at the end. */
  lemma IndexOfAppended<T>(s: seq<T>, x: T)
    requires x !in s
    ensures IndexOf(s + [x], x) == |s|
  {
  }

  /** The sum of column `j` over `rows`. */
  function ColumnSum(rows: seq<Row>, j: nat): nat
    requires forall i :: 0 <= i < |rows| ==> j < |rows[i].cells|
  {
    if rows == [] then 0 else rows[0].cells[j] + ColumnSum(rows[1..], j)
  }

  /** The sum of a list of counts. */
  function SumSeq(s: seq<nat>): nat
  {
    if s == [] then 0 else s[0] + SumSeq(s[1..])
  }

  /** `df.sum()`: one sum per column. */
  function Totals(t: Table): (sums: seq<nat>)
    requires WellShaped(t)
    ensures |sums| == |t.columns|
  {
    seq(|t.columns|, j requires 0 <= j < |t.columns| => ColumnSum(t.rows, j))
  }

  /**
   * `df.loc["Total"] = df.sum()`: the column sums, taken over every row
   * present, are stored under the label "Total"; a row already labelled
   * "Total" is overwritten where it stands, otherwise a new last row is added.
   */
  function WithTotal(t: Table): (r: Table)
    requires WellShaped(t)
    ensures WellShaped(r) && r.columns == t.columns
    ensures TOTAL in Labels(r.rows)
    ensures TOTAL !in Labels(t.rows) ==>
      && r.rows == t.rows + [Row(TOTAL, Totals(t))]
      && |r.rows| == |t.rows| + 1
      && r.rows[..|t.rows|] == t.rows
      && r.rows[|t.rows|].key == TOTAL
      && forall j :: 0 <= j < |t.columns| ==> r.rows[|t.rows|].cells[j] == ColumnSum(t.rows, j)
    ensures TOTAL in Labels(t.rows) ==>
      && Labels(r.rows) == Labels(t.rows)
      && var at := IndexOf(Labels(t.rows), TOTAL);
         && (forall i :: 0 <= i < |t.rows| && i != at ==> r.rows[i] == t.rows[i])
         && forall j :: 0 <= j < |t.columns| ==> r.rows[at].cells[j] == ColumnSum(t.rows, j)
  {
    var total := Row(TOTAL, Totals(t));
    var labels := Labels(t.rows);
    if TOTAL in labels then
      var r := Table(t.columns, t.rows[IndexOf(labels, TOTAL) := total]);
      assert Labels(r.rows) == labels;
      r
    else
      var r := Table(t.columns, t.rows + [total]);
      assert Labels(r.rows)[|t.rows|] == TOTAL;
      r
  }

  /** The cell of the "Total" row under column `col`, as a summary tile reads it. */
  function TotalCell(t: Table, col: string): nat
    requires WellShaped(t) && TOTAL in Labels(t.rows) && col in t.columns
  {
    t.rows[IndexOf(Labels(t.rows), TOTAL)].cells[IndexOf(t.columns, col)]
  }

  /** The rows not labelled "Total", in order. */
  function DropRows(rows: seq<Row>): (out: seq<Row>)
    ensures forall row :: row in out <==> row in rows && row.key != TOTAL
    ensures Subsequence(out, rows)
  {
    if rows == [] then []
    else
      assert forall row :: row in rows <==> row == rows[0] || row in rows[1..];
      var rest := DropRows(rows[1..]);
      if rows[0].key != TOTAL then
        assert ([rows[0]] + rest)[1..] == rest;
        [rows[0]] + rest
      else
        SubsequenceOfTail(rest, rows);
        rest
  }

  /**
   * `df.drop(index="Total", errors="ignore")`: what is written to the
   * spreadsheet, the table without its "Total" row.
   */
  function DropTotal(t: Table): (r: Table)
    ensures r.columns == t.columns
    ensures TOTAL !in Labels(r.rows)
    ensures WellShaped(t) ==> WellShaped(r)
    ensures Subsequence(r.rows, t.rows)
    ensures forall row :: row in r.rows <==> row in t.rows && row.key != TOTAL
  {
    var rows := DropRows(t.rows);
    assert forall i :: 0 <= i < |rows| ==> rows[i] in t.rows;
    Table(t.columns, rows)
  }

  /** Dropping "Total" keeps every other row as often as it occurs. */
  lemma {:induction false} DropRowsCounts(rows: seq<Row>)
    ensures forall row :: multiset(DropRows(rows))[row]
                          == if row.key != TOTAL then multiset(rows)[row] else 0
  {
    if rows != [] {
      assert rows == [rows[0]] + rows[1..];
      DropRowsCounts(rows[1..]);
    }
  }

  lemma {:induction false} DropRowsUnchanged(rows: seq<Row>)
    requires TOTAL !in Labels(rows)
    ensures DropRows(rows) == rows
  {
    if rows != [] {
      assert Labels(rows) == [rows[0].key] + Labels(rows[1..]);
      DropRowsUnchanged(rows[1..]);
    }
  }

  lemma {:induction false} DropRowsAppend(rows: seq<Row>, x: Row)
    requires x.key == TOTAL
    ensures DropRows(rows + [x]) == DropRows(rows)
  {
    if rows == [] {
      assert DropRows([x]) == DropRows([x][1..]);
    } else {
      assert (rows + [x])[1..] == rows[1..] + [x];
      DropRowsAppend(rows[1..], x);
    }
  }

  /** Exporting a table that has just been given its "Total" row writes the table as it was. */
  lemma ExportDropsTotal(t: Table)
    requires WellShaped(t) && TOTAL !in Labels(t.rows)
    ensures DropTotal(WithTotal(t)) == t
  {
    var r := WithTotal(t);
    assert r.rows == t.rows + [r.rows[|t.rows|]];
    DropRowsAppend(t.rows, r.rows[|t.rows|]);
    DropRowsUnchanged(t.rows);
  }

  /**
   * `df[name] = values`: assigning a column, one value per row. An existing
   * column of that name is overwritten in place; otherwise the column is
   * added at the right.
   */
  function WithColumn(t: Table, name: string, values: seq<nat>): (r: Table)
    requires WellShaped(t) && |values| == |t.rows|
    ensures WellShaped(r) && |r.rows| == |t.rows|
    ensures Labels(r.rows) == Labels(t.rows)
    ensures r.columns == if name in t.columns then t.columns else t.columns + [name]
    ensures Distinct(t.columns) ==> Distinct(r.columns)
    ensures forall i, k :: 0 <= i < |t.rows| && 0 <= k < |r.columns| ==>
      r.rows[i].cells[k] == if k == IndexOf(r.columns, name) then values[i] else t.rows[i].cells[k]
  {
    if name in t.columns then
      var j := IndexOf(t.columns, name);
      var r := Table(t.columns, seq(|t.rows|, i requires 0 <= i < |t.rows| =>
        Row(t.rows[i].key, t.rows[i].cells[j := values[i]])));
      assert Labels(r.rows) == Labels(t.rows);
      r
    else
      var r := Table(t.columns + [name], seq(|t.rows|, i requires 0 <= i < |t.rows| =>
        Row(t.rows[i].key, t.rows[i].cells + [values[i]])));
      assert Labels(r.rows) == Labels(t.rows);
      r
  }

  /**
   * `df[wanted']` with `wanted' = [c for c in wanted if c in df.columns]`:
   * only the wanted columns that exist, in the order of `wanted`.
   */
  function Selected(t: Table, wanted: seq<string>): (r: Table)
    requires WellShaped(t)
    ensures WellShaped(r) && |r.rows| == |t.rows|
    ensures Labels(r.rows) == Labels(t.rows)
    ensures r.columns == Intersect(wanted, t.columns)
    ensures forall i, k :: 0 <= i < |t.rows| && 0 <= k < |r.columns| ==>
      r.columns[k] in t.columns && r.rows[i].cells[k] == t.rows[i].cells[IndexOf(t.columns, r.columns[k])]
  {
    var cols := Intersect(wanted, t.columns);
    var r := Table(cols, seq(|t.rows|, i requires 0 <= i < |t.rows| =>
      Row(t.rows[i].key, seq(|cols|, k requires 0 <= k < |cols| => t.rows[i].cells[IndexOf(t.columns, cols[k])]))));
    assert Labels(r.rows) == Labels(t.rows);
    r
  }

  /** `df.rename(columns=...)`: every column label passed through `f`, the cells untouched. */
  function Renamed(t: Table, f: string -> string): (r: Table)
    ensures r.rows == t.rows && |r.columns| == |t.columns|
    ensures forall k :: 0 <= k < |t.columns| ==> r.columns[k] == f(t.columns[k])
  {
    Table(seq(|t.columns|, k requires 0 <= k < |t.columns| => f(t.columns[k])), t.rows)
  }

  /** The cells of the first row labelled `key`, if any. */
  function Lookup(rows: seq<Row>, key: string): (found: Option<seq<nat>>)
    ensures found.Some? <==> key in Labels(rows)
    ensures found.Some? ==> Row(key, found.value) in rows
  {
    if rows == [] then None
    else
      assert Labels(rows) == [rows[0].key] + Labels(rows[1..]);
      if rows[0].key == key then Some(rows[0].cells) else Lookup(rows[1..], key)
  }

  /**
   * `row` is what joining some left row with the right rows gives: that left
   * row's label, its cells, then the cells of the first right row with the
   * same label.
   */
  predicate JoinedFrom(row: Row, ls: seq<Row>, rs: seq<Row>)
  {
    exists l :: l in ls && l.key == row.key && Lookup(rs, l.key).Some?
                && row.cells == l.cells + Lookup(rs, l.key).value
  }

  lemma JoinedFromTail(row: Row, ls: seq<Row>, rs: seq<Row>)
    requires ls != [] && JoinedFrom(row, ls[1..], rs)
    ensures JoinedFrom(row, ls, rs)
  {
    var l :| l in ls[1..] && l.key == row.key && Lookup(rs, l.key).Some?
             && row.cells == l.cells + Lookup(rs, l.key).value;
    assert l in ls;
  }

  /** The row one step of the join puts in front of the rest, if any. */
  function JoinHead(ls: seq<Row>, rs: seq<Row>): seq<Row>
    requires ls != []
  {
    match Lookup(rs, ls[0].key)
    case Some(cells) => [Row(ls[0].key, ls[0].cells + cells)]
    case None => []
  }

  lemma JoinStepLabels(ls: seq<Row>, rs: seq<Row>, rest: seq<Row>)
    requires ls != []
    requires forall l :: l in Labels(rest) <==> l in Labels(ls[1..]) && l in Labels(rs)
    ensures forall l :: l in Labels(JoinHead(ls, rs) + rest) <==> l in Labels(ls) && l in Labels(rs)
  {
    assert Labels(ls) == [ls[0].key] + Labels(ls[1..]);
    LabelsConcat(JoinHead(ls, rs), rest);
    if Lookup(rs, ls[0].key).Some? {
      assert Labels(JoinHead(ls, rs)) == [ls[0].key];
    } else {
      assert Labels(JoinHead(ls, rs)) == [];
    }
  }

  lemma JoinStepFrom(ls: seq<Row>, rs: seq<Row>, rest: seq<Row>)
    requires ls != []
    requires forall i :: 0 <= i < |rest| ==> JoinedFrom(rest[i], ls[1..], rs)
    ensures forall i :: 0 <= i < |JoinHead(ls, rs) + rest| ==> JoinedFrom((JoinHead(ls, rs) + rest)[i], ls, rs)
  {
    var h := JoinHead(ls, rs);
    forall i | 0 <= i < |h + rest|
      ensures JoinedFrom((h + rest)[i], ls, rs)
    {
      if i < |h| {
        assert ls[0] in ls;
      } else {
        JoinedFromTail(rest[i - |h|], ls, rs);
      }
    }
  }

  lemma JoinStepOrder(ls: seq<Row>, rs: seq<Row>, rest: seq<Row>)
    requires ls != []
    requires Subsequence(Labels(rest), Labels(ls[1..]))
    ensures Subsequence(Labels(JoinHead(ls, rs) + rest), Labels(ls))
  {
    assert Labels(ls) == [ls[0].key] + Labels(ls[1..]);
    LabelsConcat(JoinHead(ls, rs), rest);
    if JoinHead(ls, rs) == [] {
      assert JoinHead(ls, rs) + rest == rest;
      SubsequenceOfTail(Labels(rest), Labels(ls));
    }
  }

  /** Inner join on the row label, in the order of the left rows. */
  function JoinRows(ls: seq<Row>, rs: seq<Row>): (out: seq<Row>)
    ensures forall l :: l in Labels(out) <==> l in Labels(ls) && l in Labels(rs)
  {
    if ls == [] then []
    else
      var rest := JoinRows(ls[1..], rs);
      JoinStepLabels(ls, rs, rest);
      JoinHead(ls, rs) + rest
  }

  /**
   * Every joined row comes from a left row and the first right row with its
   * label, and the joined rows keep the order of the left rows.
   */
  lemma {:induction false} JoinRowsTrace(ls: seq<Row>, rs: seq<Row>)
    ensures forall i :: 0 <= i < |JoinRows(ls, rs)| ==> JoinedFrom(JoinRows(ls, rs)[i], ls, rs)
    ensures Subsequence(Labels(JoinRows(ls, rs)), Labels(ls))
  {
    if ls != [] {
      JoinRowsTrace(ls[1..], rs);
      JoinStepFrom(ls, rs, JoinRows(ls[1..], rs));
      JoinStepOrder(ls, rs, JoinRows(ls[1..], rs));
    }
  }

  /** Labels of `suffix`ed columns that also occur in `other`. */
  function Suffixed(cols: seq<string>, other: seq<string>, suffix: string): seq<string>
  {
    seq(|cols|, k requires 0 <= k < |cols| => if cols[k] in other then cols[k] + suffix else cols[k])
  }

  /**
   * `left.merge(right, left_index=True, right_index=True, suffixes=(ls, rs))`:
   * the rows whose label is in both tables, each with the left cells followed
   * by the right cells; a column label found on both sides gets the side's
   * suffix.
   */
  function Merge(left: Table, right: Table, lsuffix: string, rsuffix: string): (m: Table)
    ensures m.columns == Suffixed(left.columns, right.columns, lsuffix) + Suffixed(right.columns, left.columns, rsuffix)
    ensures forall l :: l in Labels(m.rows) <==> l in Labels(left.rows) && l in Labels(right.rows)
    ensures forall i :: 0 <= i < |m.rows| ==> JoinedFrom(m.rows[i], left.rows, right.rows)
    ensures Subsequence(Labels(m.rows), Labels(left.rows))
  {
    JoinRowsTrace(left.rows, right.rows);
    Table(Suffixed(left.columns, right.columns, lsuffix) + Suffixed(right.columns, left.columns, rsuffix),
          JoinRows(left.rows, right.rows))
  }

  lemma {:induction false} JoinShape(ls: seq<Row>, rs: seq<Row>, a: nat, b: nat)
    requires forall i :: 0 <= i < |ls| ==> |ls[i].cells| == a
    requires forall j :: 0 <= j < |rs| ==> |rs[j].cells| == b
    ensures forall k :: 0 <= k < |JoinRows(ls, rs)| ==> |JoinRows(ls, rs)[k].cells| == a + b
  {
    if ls != [] {
      JoinShape(ls[1..], rs, a, b);
    }
  }

  lemma MergeShape(left: Table, right: Table, lsuffix: string, rsuffix: string)
    requires WellShaped(left) && WellShaped(right)
    ensures WellShaped(Merge(left, right, lsuffix, rsuffix))
  {
    JoinShape(left.rows, right.rows, |left.columns|, |right.columns|);
  }

  lemma {:induction false} LookupAppend(rows: seq<Row>, x: Row, key: string)
    requires key != x.key
    ensures Lookup(rows + [x], key) == Lookup(rows, key)
  {
    if rows == [] {
      assert Lookup([x], key) == Lookup([x][1..], key);
    } else {
      assert (rows + [x])[1..] == rows[1..] + [x];
      LookupAppend(rows[1..], x, key);
    }
  }

  lemma {:induction false} LookupLast(rows: seq<Row>, x: Row)
    requires x.key !in Labels(rows)
    ensures Lookup(rows + [x], x.key) == Some(x.cells)
  {
    if rows == [] {
    } else {
      assert Labels(rows) == [rows[0].key] + Labels(rows[1..]);
      assert (rows + [x])[1..] == rows[1..] + [x];
      LookupLast(rows[1..], x);
    }
  }

  /** Adding a right row whose label no left row has changes nothing. */
  lemma {:induction false} JoinRightAppend(ls: seq<Row>, rs: seq<Row>, y: Row)
    requires y.key !in Labels(ls)
    ensures JoinRows(ls, rs + [y]) == JoinRows(ls, rs)
  {
    if ls != [] {
      assert Labels(ls) == [ls[0].key] + Labels(ls[1..]);
      LookupAppend(rs, y, ls[0].key);
      JoinRightAppend(ls[1..], rs, y);
    }
  }

  lemma JoinRowsUnfold(ls: seq<Row>, rs: seq<Row>)
    requires ls != []
    ensures JoinRows(ls, rs) == JoinHead(ls, rs) + JoinRows(ls[1..], rs)
  {
  }

  lemma {:induction false} JoinLeftAppend(ls: seq<Row>, rs: seq<Row>, x: Row)
    ensures JoinRows(ls + [x], rs) == JoinRows(ls, rs) + JoinRows([x], rs)
  {
    if ls == [] {
      assert [] + [x] == [x];
    } else {
      var lx := ls + [x];
      assert lx[0] == ls[0] && lx[1..] == ls[1..] + [x];
      JoinLeftAppend(ls[1..], rs, x);
      JoinRowsUnfold(ls, rs);
      JoinRowsUnfold(lx, rs);
      var h, a, b := JoinHead(ls, rs), JoinRows(ls[1..], rs), JoinRows([x], rs);
      assert JoinHead(lx, rs) == h;
      assert h + (a + b) == (h + a) + b;
    }
  }

  /**
   * Merging the two tables after both were given their "Total" rows keeps the
   * joined regency rows as they were and ends with one "Total" row holding
   * the left totals followed by the right totals; exporting the result writes
   * the merge of the two tables without totals.
   */
  lemma MergeWithTotals(p: Table, b: Table, lsuffix: string, rsuffix: string)
    requires WellShaped(p) && WellShaped(b)
    requires TOTAL !in Labels(p.rows) && TOTAL !in Labels(b.rows)
    ensures Merge(WithTotal(p), WithTotal(b), lsuffix, rsuffix).rows
            == Merge(p, b, lsuffix, rsuffix).rows + [Row(TOTAL, Totals(p) + Totals(b))]
    ensures DropTotal(Merge(WithTotal(p), WithTotal(b), lsuffix, rsuffix)) == Merge(p, b, lsuffix, rsuffix)
  {
    var tp, tb := WithTotal(p), WithTotal(b);
    var xp, xb := Row(TOTAL, Totals(p)), Row(TOTAL, Totals(b));
    assert tp.rows == p.rows + [xp] && tb.rows == b.rows + [xb];
    JoinLeftAppend(p.rows, tb.rows, xp);
    JoinRightAppend(p.rows, b.rows, xb);
    LookupLast(b.rows, xb);
    assert JoinRows([xp], tb.rows) == [Row(TOTAL, Totals(p) + Totals(b))];
    var joined := JoinRows(p.rows, b.rows);
    assert TOTAL !in Labels(joined);
    DropRowsAppend(joined, Row(TOTAL, Totals(p) + Totals(b)));
    DropRowsUnchanged(joined);
  }

  /** A table the page updates in place (a pandas DataFrame). */
  class Frame {
    var columns: seq<string>
    var rows: seq<Row>

    ghost predicate Valid()
      reads this
    {
      WellShaped(Table(columns, rows))
    }

    function Snapshot(): Table
      reads this
    {
      Table(columns, rows)
    }

    constructor (t: Table)
      requires WellShaped(t)
      ensures Valid() && Snapshot() == t
    {
      columns := t.columns;
      rows := t.rows;
    }

    /** `df[name] = values` */
    method SetColumn(name: string, values: seq<nat>)
      requires Valid() && |values| == |rows|
      modifies this
      ensures Valid()
      ensures Snapshot() == WithColumn(old(Snapshot()), name, values)
    {
      var oldRows := rows;
      if name in columns {
        var j := IndexOf(columns, name);
        rows := seq(|oldRows|, i requires 0 <= i < |oldRows| =>
          Row(oldRows[i].key, oldRows[i].cells[j := values[i]]));
      } else {
        rows := seq(|oldRows|, i requires 0 <= i < |oldRows| =>
          Row(oldRows[i].key, oldRows[i].cells + [values[i]]));
        columns := columns + [name];
      }
    }

    /** `df = df.rename(columns=...)` */
    method RenameColumns(f: string -> string)
      requires Valid()
      modifies this
      ensures Valid()
      ensures Snapshot() == Renamed(old(Snapshot()), f)
    {
      var oldColumns := columns;
      columns := seq(|oldColumns|, k requires 0 <= k < |oldColumns| => f(oldColumns[k]));
    }

    /** `df = df[[c for c in wanted if c in df.columns]]` */
    method SelectColumns(wanted: seq<string>)
      requires Valid()
      modifies this
      ensures Valid()
      ensures Snapshot() == Selected(old(Snapshot()), wanted)
    {
      var keep := Intersect(wanted, columns);
      var oldRows, oldColumns := rows, columns;
      rows := seq(|oldRows|, i requires 0 <= i < |oldRows| =>
        Row(oldRows[i].key, seq(|keep|, k requires 0 <= k < |keep| =>
          oldRows[i].cells[IndexOf(oldColumns, keep[k])])));
      columns := keep;
    }

    /** `df.loc["Total"] = df.sum()` */
    method AddTotalRow()
      requires Valid()
      modifies this
      ensures Valid()
      ensures Snapshot() == WithTotal(old(Snapshot()))
    {
      var total := Row(TOTAL, Totals(Snapshot()));
      var labels := Labels(rows);
      if TOTAL in labels {
        rows := rows[IndexOf(labels, TOTAL) := total];
      } else {
        rows := rows + [total];
      }
    }
  }
}
