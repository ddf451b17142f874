/**
 * `df.groupby("KABUPATEN")[c].value_counts().unstack(fill_value=0)`: one row
 * per regency, one column per value of `c`, each cell the number of records
 * of that regency with that value. Blank regencies and blank values are not
 * counted; groupby sorts the regencies and unstack sorts the values.
 */
module CountTables {
  import opened Wrappers
  import opened Seqs
  import opened Survey
  import opened Tables

  /** A record that value_counts sees: regency and value both filled in. */
  predicate IsCounted(r: Record, c: Column)
  {
    r.kabupaten.Some? && Get(r, c).Some?
  }

  function Counted(rows: seq<Record>, c: Column): (out: seq<Record>)
    ensures forall r :: r in out <==> r in rows && IsCounted(r, c)
  {
    if rows == [] then []
    else
      assert forall r :: r in rows <==> r == rows[0] || r in rows[1..];
      (if IsCounted(rows[0], c) then [rows[0]] else []) + Counted(rows[1..], c)
  }

  /** The records of regency `k` whose value in column `c` is `v`. */
  function Count(rows: seq<Record>, k: string, c: Column, v: string): nat
  {
    if rows == [] then 0
    else (if rows[0].kabupaten == Some(k) && Get(rows[0], c) == Some(v) then 1 else 0) + Count(rows[1..], k, c, v)
  }

  /** The records whose regency is one of `ks` and whose value in column `c` is `v`. */
  function CountIn(rows: seq<Record>, ks: seq<string>, c: Column, v: string): nat
  {
    if rows == [] then 0
    else
      (if rows[0].kabupaten.Some? && rows[0].kabupaten.value in ks && Get(rows[0], c) == Some(v) then 1 else 0)
      + CountIn(rows[1..], ks, c, v)
  }

  /** The records with some regency whose value in column `c` is `v`. */
  function CountLabel(rows: seq<Record>, c: Column, v: string): nat
  {
    if rows == [] then 0
    else (if rows[0].kabupaten.Some? && Get(rows[0], c) == Some(v) then 1 else 0) + CountLabel(rows[1..], c, v)
  }

  function CountRow(rows: seq<Record>, k: string, c: Column, cols: seq<string>): seq<nat>
  {
    seq(|cols|, j requires 0 <= j < |cols| => Count(rows, k, c, cols[j]))
  }

  /** The count table of column `c` over `rows`. */
  function CountTable(rows: seq<Record>, c: Column): (t: Table)
    ensures WellShaped(t)
    ensures StrictlySorted(Labels(t.rows)) && StrictlySorted(t.columns)
    ensures forall k :: k in Labels(t.rows) <==>
      exists r :: r in rows && r.kabupaten == Some(k) && Get(r, c).Some?
    ensures forall v :: v in t.columns <==>
      exists r :: r in rows && r.kabupaten.Some? && Get(r, c) == Some(v)
    ensures forall i, j :: 0 <= i < |t.rows| && 0 <= j < |t.columns| ==>
      t.rows[i].cells[j] == Count(rows, t.rows[i].key, c, t.columns[j])
  {
    var counted := Counted(rows, c);
    var keys := SortDistinct(Present(counted, Kabupaten));
    var cols := SortDistinct(Present(counted, c));
    var t := Table(cols, seq(|keys|, i requires 0 <= i < |keys| => Row(keys[i], CountRow(rows, keys[i], c, cols))));
    assert Labels(t.rows) == keys;
    t
  }

  /** The table is empty exactly when no record has both a regency and a value. */
  lemma CountTableEmpty(rows: seq<Record>, c: Column)
    ensures IsEmpty(CountTable(rows, c)) <==> forall r :: r in rows ==> !IsCounted(r, c)
  {
    var t := CountTable(rows, c);
    if r :| r in rows && IsCounted(r, c) {
      assert r.kabupaten.value in Labels(t.rows);
      assert Get(r, c).value in t.columns;
    } else {
      NoMembersEmpty(t.columns);
    }
  }

  lemma {:induction false} CountInCons(rows: seq<Record>, k: string, ks: seq<string>, c: Column, v: string)
    requires k !in ks
    ensures CountIn(rows, [k] + ks, c, v) == Count(rows, k, c, v) + CountIn(rows, ks, c, v)
  {
    if rows != [] {
      CountInCons(rows[1..], k, ks, c, v);
    }
  }

  /** When `ks` holds the regency of every counted record, counting over `ks` misses none. */
  lemma {:induction false} CountInCovers(rows: seq<Record>, ks: seq<string>, c: Column, v: string)
    requires forall r :: r in rows && IsCounted(r, c) ==> r.kabupaten.value in ks
    ensures CountIn(rows, ks, c, v) == CountLabel(rows, c, v)
  {
    if rows != [] {
      assert rows[0] in rows;
      assert forall r :: r in rows[1..] ==> r in rows;
      CountInCovers(rows[1..], ks, c, v);
    }
  }

  /**
   * A column whose every cell counts value `v` for the row's regency sums to
   * the records of all those regencies with value `v`.
   */
  lemma {:induction false} ColumnSumOfCounts(data: seq<Row>, j: nat, rows: seq<Record>, c: Column, v: string)
    requires Distinct(Labels(data))
    requires forall i :: 0 <= i < |data| ==> j < |data[i].cells| && data[i].cells[j] == Count(rows, data[i].key, c, v)
    ensures ColumnSum(data, j) == CountIn(rows, Labels(data), c, v)
  {
    if data == [] {
      CountInNone(rows, c, v);
    } else {
      var keys, rest := Labels(data), Labels(data[1..]);
      assert keys == [data[0].key] + rest;
      assert forall m :: 0 <= m < |rest| ==> rest[m] == keys[m + 1];
      assert forall m :: 1 <= m < |keys| ==> keys[0] != keys[m];
      assert Distinct(rest);
      ColumnSumOfCounts(data[1..], j, rows, c, v);
      CountInCons(rows, data[0].key, Labels(data[1..]), c, v);
    }
  }

  // Only the base case of ColumnSumOfCounts: counting over no regency finds nothing.
  lemma {:induction false} CountInNone(rows: seq<Record>, c: Column, v: string)
    ensures CountIn(rows, [], c, v) == 0
  {
    if rows != [] {
      CountInNone(rows[1..], c, v);
    }
  }

  /**
   * The "Total" row of a count table: under each value, the number of
   * records (with a regency) that have that value.
   */
  lemma CountTableTotals(rows: seq<Record>, c: Column)
    ensures forall j :: 0 <= j < |CountTable(rows, c).columns| ==>
      ColumnSum(CountTable(rows, c).rows, j) == CountLabel(rows, c, CountTable(rows, c).columns[j])
  {
    var t := CountTable(rows, c);
    SortedIsDistinct(Labels(t.rows));
    forall j | 0 <= j < |t.columns|
      ensures ColumnSum(t.rows, j) == CountLabel(rows, c, t.columns[j])
    {
      ColumnSumOfCounts(t.rows, j, rows, c, t.columns[j]);
      CountInCovers(rows, Labels(t.rows), c, t.columns[j]);
    }
  }

  /** The same table after `.loc["Total"] = .sum()`, when no regency is itself called "Total". */
  lemma CountTableWithTotal(rows: seq<Record>, c: Column)
    requires TOTAL !in Labels(CountTable(rows, c).rows)
    ensures var t := CountTable(rows, c);
      && Labels(WithTotal(t).rows) == Labels(t.rows) + [TOTAL]
      && forall j :: 0 <= j < |t.columns| ==>
           WithTotal(t).rows[|t.rows|].cells[j] == CountLabel(rows, c, t.columns[j])
  {
    var t := CountTable(rows, c);
    CountTableTotals(rows, c);
    LabelsAppend(t.rows, Row(TOTAL, Totals(t)));
  }

  /** The records with some regency whose value in column `c` is one of `vs`. */
  function CountAmong(rows: seq<Record>, c: Column, vs: seq<string>): nat
  {
    if rows == [] then 0
    else
      (if rows[0].kabupaten.Some? && Get(rows[0], c).Some? && Get(rows[0], c).value in vs then 1 else 0)
      + CountAmong(rows[1..], c, vs)
  }

  lemma {:induction false} CountAmongCons(rows: seq<Record>, c: Column, v: string, vs: seq<string>)
    requires v !in vs
    ensures CountAmong(rows, c, [v] + vs) == CountLabel(rows, c, v) + CountAmong(rows, c, vs)
  {
    if rows != [] {
      CountAmongCons(rows[1..], c, v, vs);
    }
  }

  // Only the base case of SumOfLabels: among no values, no record.
  lemma {:induction false} CountAmongNone(rows: seq<Record>, c: Column)
    ensures CountAmong(rows, c, []) == 0
  {
    if rows != [] {
      CountAmongNone(rows[1..], c);
    }
  }

  /** Adding up the per-value counts of distinct values counts every record with one of them, once. */
  lemma {:induction false} SumOfLabels(rows: seq<Record>, c: Column, vs: seq<string>, sums: seq<nat>)
    requires Distinct(vs) && |sums| == |vs|
    requires forall k :: 0 <= k < |vs| ==> sums[k] == CountLabel(rows, c, vs[k])
    ensures SumSeq(sums) == CountAmong(rows, c, vs)
  {
    if vs == [] {
      CountAmongNone(rows, c);
    } else {
      var rest := vs[1..];
      assert Distinct(rest) by {
        forall i, j | 0 <= i < j < |rest| ensures rest[i] != rest[j] {
          assert rest[i] == vs[i + 1] && rest[j] == vs[j + 1];
        }
      }
      assert vs[0] !in rest by {
        forall m | 0 <= m < |rest| ensures rest[m] != vs[0] {
          assert rest[m] == vs[m + 1];
        }
      }
      SumOfLabels(rows, c, rest, sums[1..]);
      assert vs == [vs[0]] + rest;
      CountAmongCons(rows, c, vs[0], rest);
    }
  }

  /** When `vs` holds the value of every counted record, counting among `vs` counts them all. */
  lemma {:induction false} CountAmongCovers(rows: seq<Record>, c: Column, vs: seq<string>)
    requires forall r :: r in rows && IsCounted(r, c) ==> Get(r, c).value in vs
    ensures CountAmong(rows, c, vs) == |Counted(rows, c)|
  {
    if rows != [] {
      assert rows[0] in rows;
      assert forall r :: r in rows[1..] ==> r in rows;
      CountAmongCovers(rows[1..], c, vs);
    }
  }

  /** When every record has a regency and a value, value_counts sees them all. */
  lemma {:induction false} CountedAll(rows: seq<Record>, c: Column)
    requires forall r :: r in rows ==> IsCounted(r, c)
    ensures Counted(rows, c) == rows
  {
    if rows != [] {
      assert rows[0] in rows;
      assert forall r :: r in rows[1..] ==> r in rows;
      CountedAll(rows[1..], c);
    }
  }

  /**
   * The "Total" row of a count table adds up to the number of records the
   * table counts: those with both a regency and a value.
   */
  lemma CountTableGrandTotal(rows: seq<Record>, c: Column)
    ensures SumSeq(Totals(CountTable(rows, c))) == |Counted(rows, c)|
  {
    var t := CountTable(rows, c);
    CountTableTotals(rows, c);
    SortedIsDistinct(t.columns);
    SumOfLabels(rows, c, t.columns, Totals(t));
    forall r | r in rows && IsCounted(r, c)
      ensures Get(r, c).value in t.columns
    {
    }
    CountAmongCovers(rows, c, t.columns);
  }

  /**
   * A summary tile read from the "Total" row shows how many records have its
   * value. This holds even when a regency is itself called "Total": the sums
   * are taken over every row before that row is overwritten.
   */
  lemma TotalCellCounts(rows: seq<Record>, c: Column, v: string)
    requires v in CountTable(rows, c).columns
    ensures TotalCell(WithTotal(CountTable(rows, c)), v) == CountLabel(rows, c, v)
  {
    var t := CountTable(rows, c);
    if TOTAL !in Labels(t.rows) {
      CountTableWithTotal(rows, c);
      IndexOfAppended(Labels(t.rows), TOTAL);
    } else {
      CountTableTotals(rows, c);
      assert Labels(WithTotal(t).rows) == Labels(t.rows);
    }
  }
}
