/**
 * What the page computes when the filter form is submitted: the filtered
 * rows, the three summaries (processing system; TPS3R business activity;
 * village revenue and BUMDes management), their summary tiles and the tables
 * offered for download.
 */
module Dashboard {
  import opened Wrappers
  import opened Seqs
  import opened Survey
  import opened Tables
  import opened CountTables

  const NO_SYSTEM := "Belum ada sistem pengolahan sampah di Desa (dibakar, ditimbun sendiri)"
  const TPS3R := "TPS3R"
  /** The column the page adds to the system table. */
  const BELUM_TERDATA := "Belum Terdata"
  /** The cell value that column counts (lower-case t). */
  const NOT_RECORDED := "Belum terdata"

  /** The columns the system table keeps, in this order. */
  const CANONICAL: seq<string> := [NO_SYSTEM, "Open Dumping", TPS3R, "Kombinasi", BELUM_TERDATA]

  /** The column renaming applied to the system table; its three identity entries change nothing. */
  function SystemRename(col: string): string
  {
    if col == "Belum Ada" then "Belum Ada Sistem" else col
  }

  /** The cell value a system-table column counts. */
  function SourceValue(col: string): string
  {
    if col == BELUM_TERDATA then NOT_RECORDED else col
  }

  /**
   * `df.groupby("KABUPATEN")[sistem].apply(lambda x: (x == "Belum terdata").sum())`,
   * aligned on the rows of the table it is assigned into.
   */
  function NotRecordedCounts(df: seq<Record>, rows: seq<Row>): seq<nat>
  {
    seq(|rows|, i requires 0 <= i < |rows| => Count(df, rows[i].key, Sistem, NOT_RECORDED))
  }

  /** Every cell counts the records of its row's regency whose system is the column's value. */
  predicate SystemCells(t: Table, df: seq<Record>)
  {
    && WellShaped(t)
    && forall i, k :: 0 <= i < |t.rows| && 0 <= k < |t.columns| ==>
         t.rows[i].cells[k] == Count(df, t.rows[i].key, Sistem, SourceValue(t.columns[k]))
  }

  /** The table after the "Belum Terdata" column is assigned (lines 60-61). */
  function WithNotRecorded(df: seq<Record>): (t: Table)
  {
    var counts := CountTable(df, Sistem);
    WithColumn(counts, BELUM_TERDATA, NotRecordedCounts(df, counts.rows))
  }

  lemma WithNotRecordedCells(df: seq<Record>)
    ensures SystemCells(WithNotRecorded(df), df)
    ensures Distinct(WithNotRecorded(df).columns)
    ensures BELUM_TERDATA in WithNotRecorded(df).columns
    ensures Labels(WithNotRecorded(df).rows) == Labels(CountTable(df, Sistem).rows)
  {
    var counts := CountTable(df, Sistem);
    var added := WithNotRecorded(df);
    SortedIsDistinct(counts.columns);
    forall i, k | 0 <= i < |added.rows| && 0 <= k < |added.columns|
      ensures added.rows[i].cells[k] == Count(df, added.rows[i].key, Sistem, SourceValue(added.columns[k]))
    {
      if added.columns[k] == BELUM_TERDATA {
        IndexOfDistinct(added.columns, k);
      }
    }
  }

  /** A column the renaming leaves alone, and gives no other column's name, keeps its place. */
  lemma RenameKeeps(t: Table, w: string)
    requires w != "Belum Ada" && w != "Belum Ada Sistem"
    ensures w in Renamed(t, SystemRename).columns <==> w in t.columns
    ensures w in t.columns ==> IndexOf(Renamed(t, SystemRename).columns, w) == IndexOf(t.columns, w)
  {
  }

  /** Renaming and keeping the canonical columns leaves every kept cell counting its column's value. */
  lemma SelectedCells(df: seq<Record>, t: Table)
    requires SystemCells(t, df) && Distinct(t.columns)
    ensures Selected(Renamed(t, SystemRename), CANONICAL).columns == Intersect(CANONICAL, t.columns)
    ensures SystemCells(Selected(Renamed(t, SystemRename), CANONICAL), df)
  {
    var renamed := Renamed(t, SystemRename);
    var selected := Selected(renamed, CANONICAL);
    forall w | w in CANONICAL
      ensures (w in renamed.columns <==> w in t.columns)
      ensures w in t.columns ==> IndexOf(renamed.columns, w) == IndexOf(t.columns, w)
    {
      RenameKeeps(t, w);
    }
    IntersectSameMembers(CANONICAL, renamed.columns, t.columns);
  }

  /** With the regencies distinct, the "Total" row counts every counted record. */
  lemma SystemTotals(df: seq<Record>, t: Table)
    requires SystemCells(t, df)
    requires Labels(t.rows) == Labels(CountTable(df, Sistem).rows)
    ensures forall k :: 0 <= k < |t.columns| ==> Totals(t)[k] == CountLabel(df, Sistem, SourceValue(t.columns[k]))
  {
    var regencies := Labels(t.rows);
    SortedIsDistinct(regencies);
    forall k | 0 <= k < |t.columns|
      ensures Totals(t)[k] == CountLabel(df, Sistem, SourceValue(t.columns[k]))
    {
      var v := SourceValue(t.columns[k]);
      ColumnSumOfCounts(t.rows, k, df, Sistem, v);
      CountInCovers(df, regencies, Sistem, v);
    }
  }

  /** The processing-system table the page shows: lines 60-75 applied to `df`. */
  function SystemTable(df: seq<Record>): Table
  {
    WithTotal(SystemColumns(df))
  }

  /** The columns before the "Total" row is added: those of `SystemTable(df)`. */
  function SystemColumns(df: seq<Record>): Table
  {
    Selected(Renamed(WithNotRecorded(df), SystemRename), CANONICAL)
  }

  lemma SystemColumnsCells(df: seq<Record>)
    ensures SystemCells(SystemColumns(df), df)
    ensures SystemColumns(df).columns == Intersect(CANONICAL, WithNotRecorded(df).columns)
    ensures Labels(SystemColumns(df).rows) == Labels(CountTable(df, Sistem).rows)
  {
    WithNotRecordedCells(df);
    SelectedCells(df, WithNotRecorded(df));
  }

  /** After the assignment, the columns are the systems some record with a regency names, and "Belum Terdata". */
  lemma WithNotRecordedColumns(df: seq<Record>)
    ensures forall l :: l in WithNotRecorded(df).columns <==>
      l == BELUM_TERDATA || exists r :: r in df && r.kabupaten.Some? && r.sistem == Some(l)
  {
    var counts := CountTable(df, Sistem);
    assert forall r :: Get(r, Sistem) == r.sistem;
    assert WithNotRecorded(df).columns == if BELUM_TERDATA in counts.columns then counts.columns else counts.columns + [BELUM_TERDATA];
  }

  /** The kept columns, before the "Total" row is added. */
  lemma SystemColumnsMembers(df: seq<Record>)
    ensures var cols := SystemColumns(df).columns;
      && Subsequence(cols, CANONICAL)
      && forall l :: l in cols <==>
           l in CANONICAL && (l == BELUM_TERDATA || exists r :: r in df && r.kabupaten.Some? && r.sistem == Some(l))
  {
    var added := WithNotRecorded(df).columns;
    SystemColumnsCells(df);
    WithNotRecordedColumns(df);
    IntersectIsSubsequence(CANONICAL, added);
  }

  /**
   * The system table's columns: the canonical ones in their order, those some
   * record with a regency names plus "Belum Terdata" always, and never the
   * raw "Belum terdata" or "Belum Ada" labels.
   */
  lemma SystemTableColumns(df: seq<Record>)
    ensures var t := SystemTable(df);
      && WellShaped(t)
      && Subsequence(t.columns, CANONICAL)
      && (forall l :: l in t.columns <==>
            l in CANONICAL && (l == BELUM_TERDATA || exists r :: r in df && r.kabupaten.Some? && r.sistem == Some(l)))
      && BELUM_TERDATA in t.columns && NOT_RECORDED !in t.columns && "Belum Ada" !in t.columns
      && TOTAL in Labels(t.rows)
  {
    SystemColumnsMembers(df);
    CanonicalLabels();
    assert SystemTable(df).columns == SystemColumns(df).columns;
  }

  /** "Belum Terdata" is canonical; the raw "Belum terdata" and both "Belum Ada" labels are not. */
  lemma CanonicalLabels()
    ensures BELUM_TERDATA in CANONICAL
    ensures NOT_RECORDED !in CANONICAL && "Belum Ada" !in CANONICAL && "Belum Ada Sistem" !in CANONICAL
  {
  }

  lemma CanonicalDistinct()
    ensures Distinct(CANONICAL)
  {
  }

  /** The cell values the system columns `cols` count: "Belum Terdata" stands for "Belum terdata". */
  function SourceValues(cols: seq<string>): (vs: seq<string>)
    ensures |vs| == |cols|
  {
    seq(|cols|, k requires 0 <= k < |cols| => SourceValue(cols[k]))
  }

  /** The kept columns are distinct and never the raw "Belum terdata". */
  lemma SystemColumnsDistinct(df: seq<Record>)
    ensures Distinct(SystemColumns(df).columns) && NOT_RECORDED !in SystemColumns(df).columns
  {
    SystemColumnsCells(df);
    CanonicalDistinct();
    CanonicalLabels();
    IntersectDistinct(CANONICAL, WithNotRecorded(df).columns);
  }

  /** Distinct columns other than "Belum terdata" count distinct values. */
  lemma SourceValuesDistinct(cols: seq<string>)
    requires Distinct(cols) && NOT_RECORDED !in cols
    ensures Distinct(SourceValues(cols))
  {
    var vs := SourceValues(cols);
    forall i, j | 0 <= i < j < |vs|
      ensures vs[i] != vs[j]
    {
      assert cols[i] in cols && cols[j] in cols;
    }
  }

  /**
   * The "Total" row of the system table adds up to the number of records
   * with a regency whose system one of its columns shows. Records without a
   * regency or a system, and systems outside the five kept columns, are in
   * no column.
   */
  lemma SystemGrandTotal(df: seq<Record>)
    ensures SumSeq(Totals(SystemColumns(df))) == CountAmong(df, Sistem, SourceValues(SystemColumns(df).columns))
  {
    var s := SystemColumns(df);
    SystemColumnsCells(df);
    SystemTotals(df, s);
    SystemColumnsDistinct(df);
    SourceValuesDistinct(s.columns);
    SumOfLabels(df, Sistem, SourceValues(s.columns), Totals(s));
  }

  /** A canonical system some record with a regency names is a kept column. */
  lemma KeptColumn(df: seq<Record>, r: Record, l: string)
    requires r in df && r.kabupaten.Some? && r.sistem == Some(l) && l in CANONICAL
    ensures l in SystemColumns(df).columns
  {
    SystemColumnsCells(df);
    WithNotRecordedColumns(df);
  }

  lemma BelumTerdataKept(df: seq<Record>)
    ensures BELUM_TERDATA in SystemColumns(df).columns
  {
    SystemColumnsCells(df);
    WithNotRecordedCells(df);
    CanonicalLabels();
  }

  lemma SourceValueIn(cols: seq<string>, l: string)
    requires l in cols
    ensures SourceValue(l) in SourceValues(cols)
  {
    var m :| 0 <= m < |cols| && cols[m] == l;
    assert SourceValues(cols)[m] == SourceValue(l);
  }

  /** A record with a regency and one of the five shown systems lands in a kept column. */
  lemma ShownSystem(df: seq<Record>, r: Record)
    requires r in df && r.kabupaten.Some? && r.sistem.Some?
    requires r.sistem.value in SourceValues(CANONICAL)
    ensures r.sistem.value in SourceValues(SystemColumns(df).columns)
  {
    var k :| 0 <= k < |CANONICAL| && SourceValue(CANONICAL[k]) == r.sistem.value;
    var l := CANONICAL[k];
    if l == BELUM_TERDATA {
      BelumTerdataKept(df);
    } else {
      KeptColumn(df, r, l);
    }
    SourceValueIn(SystemColumns(df).columns, l);
  }

  /**
   * When every record has a regency and one of the five systems the table
   * shows, the "Total" row adds up to the number of records.
   */
  lemma SystemGrandTotalAll(df: seq<Record>)
    requires forall r :: r in df ==> r.kabupaten.Some? && r.sistem.Some? && r.sistem.value in SourceValues(CANONICAL)
    ensures SumSeq(Totals(SystemColumns(df))) == |df|
  {
    var vs := SourceValues(SystemColumns(df).columns);
    SystemGrandTotal(df);
    ShownSystems(df);
    CountAmongCovers(df, Sistem, vs);
    CountedAll(df, Sistem);
  }

  lemma ShownSystems(df: seq<Record>)
    requires forall r :: r in df ==> r.kabupaten.Some? && r.sistem.Some? && r.sistem.value in SourceValues(CANONICAL)
    ensures forall r :: r in df ==> IsCounted(r, Sistem)
    ensures forall r :: r in df && IsCounted(r, Sistem) ==>
      Get(r, Sistem).value in SourceValues(SystemColumns(df).columns)
  {
    assert forall r :: Get(r, Sistem) == r.sistem;
    forall r | r in df
      ensures r.sistem.value in SourceValues(SystemColumns(df).columns)
    {
      ShownSystem(df, r);
    }
  }

  /**
   * A system table over `df` with these regencies: one row per regency
   * counting its records per system, then a "Total" row summing the regency
   * rows, which is the count over every record with a regency.
   */
  predicate SystemRows(t: Table, df: seq<Record>, regencies: seq<string>)
  {
    && WellShaped(t)
    && Labels(t.rows) == regencies + [TOTAL]
    && |t.rows| == |regencies| + 1
    && (forall i, k :: 0 <= i < |regencies| && 0 <= k < |t.columns| ==>
          t.rows[i].cells[k] == Count(df, regencies[i], Sistem, SourceValue(t.columns[k])))
    && (forall k :: 0 <= k < |t.columns| ==>
          && t.rows[|regencies|].cells[k] == ColumnSum(t.rows[..|regencies|], k)
          && t.rows[|regencies|].cells[k] == CountLabel(df, Sistem, SourceValue(t.columns[k])))
  }

  /**
   * The system table's rows: one per regency then the "Total" row, which is
   * there even when `df` has no rows; a regency called "Total" is
   * overwritten in place instead.
   */
  lemma SystemTableRows(df: seq<Record>)
    ensures var regencies := Labels(CountTable(df, Sistem).rows);
      TOTAL !in regencies ==> SystemRows(SystemTable(df), df, regencies)
    ensures var regencies := Labels(CountTable(df, Sistem).rows);
      TOTAL in regencies ==> Labels(SystemTable(df).rows) == regencies
  {
    SystemColumnsCells(df);
    if TOTAL !in Labels(CountTable(df, Sistem).rows) {
      SystemRowsAppended(df, SystemColumns(df));
    }
  }

  lemma SystemRowsAppended(df: seq<Record>, selected: Table)
    requires SystemCells(selected, df)
    requires Labels(selected.rows) == Labels(CountTable(df, Sistem).rows)
    requires TOTAL !in Labels(selected.rows)
    ensures SystemRows(WithTotal(selected), df, Labels(selected.rows))
  {
    SystemTotals(df, selected);
    LabelsAppend(selected.rows, Row(TOTAL, Totals(selected)));
  }

  /**
   * The processing-system summary as the page builds it, one in-place step
   * after another on a data frame.
   */
  method SystemSummary(df: seq<Record>) returns (t: Table)
    ensures t == SystemTable(df)
  {
    var counts := CountTable(df, Sistem);
    var frame := new Frame(counts);
    frame.SetColumn(BELUM_TERDATA, NotRecordedCounts(df, frame.rows));
    frame.RenameColumns(SystemRename);
    frame.SelectColumns(CANONICAL);
    frame.AddTotalRow();
    t := frame.Snapshot();
  }

  /** A system tile shows how many records with a regency have its system ("Belum terdata" for "Belum Terdata"). */
  lemma SystemTileCounts(df: seq<Record>, col: string)
    requires col in SystemTable(df).columns
    ensures TotalCell(SystemTable(df), col) == CountLabel(df, Sistem, SourceValue(col))
  {
    if TOTAL !in Labels(CountTable(df, Sistem).rows) {
      SystemTileAppended(df, col);
    } else {
      SystemTileOverwritten(df, col);
    }
  }

  lemma SystemTileAppended(df: seq<Record>, col: string)
    requires TOTAL !in Labels(CountTable(df, Sistem).rows)
    requires col in SystemTable(df).columns
    ensures TotalCell(SystemTable(df), col) == CountLabel(df, Sistem, SourceValue(col))
  {
    SystemTableColumns(df);
    SystemTableRows(df);
    IndexOfAppended(Labels(CountTable(df, Sistem).rows), TOTAL);
  }

  /** A regency called "Total" is overwritten by sums taken over every row, itself included. */
  lemma SystemTileOverwritten(df: seq<Record>, col: string)
    requires TOTAL in Labels(CountTable(df, Sistem).rows)
    requires col in SystemTable(df).columns
    ensures TotalCell(SystemTable(df), col) == CountLabel(df, Sistem, SourceValue(col))
  {
    var s := SystemColumns(df);
    SystemColumnsCells(df);
    SystemTotals(df, s);
    var t := WithTotal(s);
    assert Labels(t.rows) == Labels(s.rows);
    var j := IndexOf(t.columns, col);
    assert t.rows[IndexOf(Labels(s.rows), TOTAL)].cells[j] == Totals(s)[j];
  }

  /** A summary tile: its caption and the count shown under it. */
  datatype Tile = Tile(caption: string, value: nat)

  /** The five system tiles: the column each reads and its caption. */
  const SYSTEM_TILES: seq<(string, string)> := [
    (NO_SYSTEM, "Belum Ada Sistem"), ("Open Dumping", "Open Dumping"), (TPS3R, "TPS3R"),
    ("Kombinasi", "Kombinasi"), (BELUM_TERDATA, "Belum Terdata")]

  /** The five business tiles: the column each reads and its caption. */
  const BUSINESS_TILES: seq<(string, string)> := [
    ("Ada dan aktif", "Ada dan Aktif"),
    ("Ada, namun tidak aktif", "Tidak Aktif"),
    ("Ada dan aktif, Sedang dalam penyusunan rencana bisnis", "Aktif + Rencana"),
    ("Ada, namun tidak aktif, Sedang dalam penyusunan rencana bisnis", "Tidak Aktif + Rencana"),
    ("Sedang dalam penyusunan rencana bisnis", "Rencana Bisnis")]

  /**
   * One slot per tile, in order; a slot stays empty when the table has no
   * column for it, otherwise it shows the column's "Total" cell.
   */
  method Tiles(t: Table, slots: seq<(string, string)>) returns (tiles: seq<Option<Tile>>)
    requires WellShaped(t) && TOTAL in Labels(t.rows)
    ensures |tiles| == |slots|
    ensures forall i :: 0 <= i < |slots| ==> (tiles[i].Some? <==> slots[i].0 in t.columns)
    ensures forall i :: 0 <= i < |slots| && slots[i].0 in t.columns ==>
      tiles[i] == Some(Tile(slots[i].1, TotalCell(t, slots[i].0)))
  {
    var total := t.rows[IndexOf(Labels(t.rows), TOTAL)];
    tiles := [];
    for i := 0 to |slots|
      invariant |tiles| == i
      invariant forall m :: 0 <= m < i ==> (tiles[m].Some? <==> slots[m].0 in t.columns)
      invariant forall m :: 0 <= m < i && slots[m].0 in t.columns ==>
        tiles[m] == Some(Tile(slots[m].1, TotalCell(t, slots[m].0)))
    {
      var (col, caption) := slots[i];
      if col in t.columns {
        tiles := tiles + [Some(Tile(caption, total.cells[IndexOf(t.columns, col)]))];
      } else {
        tiles := tiles + [None];
      }
    }
  }

  /** The TPS3R rows are those whose system is "TPS3R". */
  lemma Tps3rRows(df: seq<Record>)
    ensures forall r :: r in Where(df, Sistem, TPS3R) <==> r in df && r.sistem == Some(TPS3R)
    ensures Where(df, Sistem, TPS3R) == [] <==> forall r :: r in df ==> r.sistem != Some(TPS3R)
  {
  }

  lemma Tps3rCounted(df: seq<Record>)
    ensures (forall r :: r in Where(df, Sistem, TPS3R) ==> !IsCounted(r, Bisnis)) <==>
      forall r :: r in df && r.sistem == Some(TPS3R) ==> r.kabupaten.None? || r.bisnis.None?
  {
    var tps := Where(df, Sistem, TPS3R);
    assert forall r :: r in tps <==> r in df && r.sistem == Some(TPS3R);
    assert forall r :: IsCounted(r, Bisnis) <==> r.kabupaten.Some? && r.bisnis.Some?;
  }

  /** The business count table is empty exactly when no TPS3R row has both a regency and a business status. */
  lemma BusinessEmpty(df: seq<Record>)
    ensures IsEmpty(CountTable(Where(df, Sistem, TPS3R), Bisnis)) <==>
      forall r :: r in df && r.sistem == Some(TPS3R) ==> r.kabupaten.None? || r.bisnis.None?
  {
    Tps3rCounted(df);
    CountTableEmpty(Where(df, Sistem, TPS3R), Bisnis);
  }

  /** The TPS3R-and-business section: which message or table the page shows. */
  datatype BusinessView = NoTps3rRows | NoBusinessData | BusinessTable(table: Table)

  /**
   * Lines 126-130: the TPS3R rows are counted by regency and business
   * status, and the table gets its "Total" row; without TPS3R rows, or
   * without any TPS3R row that has both a regency and a business status,
   * the page shows a message instead.
   */
  method BusinessSummary(df: seq<Record>) returns (view: BusinessView)
    ensures view.NoTps3rRows? <==> forall r :: r in df ==> r.sistem != Some(TPS3R)
    ensures view.NoBusinessData? <==>
      && (exists r :: r in df && r.sistem == Some(TPS3R))
      && forall r :: r in df && r.sistem == Some(TPS3R) ==> r.kabupaten.None? || r.bisnis.None?
    ensures view.BusinessTable? ==>
      view.table == WithTotal(CountTable(Where(df, Sistem, TPS3R), Bisnis))
  {
    var tps := Where(df, Sistem, TPS3R);
    var counts := CountTable(tps, Bisnis);
    Tps3rRows(df);
    BusinessEmpty(df);
    if tps == [] {
      view := NoTps3rRows;
    } else if IsEmpty(counts) {
      view := NoBusinessData;
    } else {
      var table := AddTotal(counts);
      view := BusinessTable(table);
    }
  }

  /** Either count table is empty exactly when no record has a regency and an answer in its column. */
  lemma PadBumdesEmpty(df: seq<Record>)
    ensures (IsEmpty(CountTable(df, Pad)) || IsEmpty(CountTable(df, Bumdes))) <==>
      ((forall r :: r in df ==> !IsCounted(r, Pad)) || (forall r :: r in df ==> !IsCounted(r, Bumdes)))
  {
    CountTableEmpty(df, Pad);
    CountTableEmpty(df, Bumdes);
  }

  /** `counts.loc["Total"] = counts.sum()` on a fresh data frame holding `counts`. */
  method AddTotal(counts: Table) returns (t: Table)
    requires WellShaped(counts)
    ensures t == WithTotal(counts)
  {
    var frame := new Frame(counts);
    frame.AddTotalRow();
    t := frame.Snapshot();
  }

  /** The revenue-and-BUMDes section: which message or tables the page shows. */
  datatype PadBumdesView = ColumnMissing | NoPadBumdesData | PadBumdesTables(pad: Table, bumdes: Table, merged: Table)

  /**
   * Lines 190-196 and 243: when both columns exist, both are counted by
   * regency; unless either count table is empty, each gets its "Total" row
   * and the two are merged on their regencies, columns suffixed " PAD" and
   * " BUMDes" where their labels clash.
   */
  method PadBumdesSummary(df: seq<Record>, hasPad: bool, hasBumdes: bool) returns (view: PadBumdesView)
    ensures view.ColumnMissing? <==> !(hasPad && hasBumdes)
    ensures view.NoPadBumdesData? <==>
      && hasPad && hasBumdes
      && ((forall r :: r in df ==> !IsCounted(r, Pad)) || (forall r :: r in df ==> !IsCounted(r, Bumdes)))
    ensures view.PadBumdesTables? ==>
      && view.pad == WithTotal(CountTable(df, Pad))
      && view.bumdes == WithTotal(CountTable(df, Bumdes))
      && view.merged == Merge(view.pad, view.bumdes, " PAD", " BUMDes")
  {
    if !(hasPad && hasBumdes) {
      view := ColumnMissing;
      return;
    }
    var padCounts := CountTable(df, Pad);
    var bumdesCounts := CountTable(df, Bumdes);
    PadBumdesEmpty(df);
    if IsEmpty(padCounts) || IsEmpty(bumdesCounts) {
      view := NoPadBumdesData;
    } else {
      var p := AddTotal(padCounts);
      var b := AddTotal(bumdesCounts);
      view := PadBumdesTables(p, b, Merge(p, b, " PAD", " BUMDes"));
    }
  }

  /**
   * The four revenue/BUMDes tiles in order: "Ya" and "Tidak" of the revenue
   * table, then of the BUMDes table; a slot whose answer is not a column of
   * its table stays empty.
   */
  method PadBumdesTiles(pad: Table, bumdes: Table) returns (tiles: seq<Option<Tile>>)
    requires WellShaped(pad) && TOTAL in Labels(pad.rows)
    requires WellShaped(bumdes) && TOTAL in Labels(bumdes.rows)
    ensures |tiles| == 4
    ensures tiles[0].Some? <==> "Ya" in pad.columns
    ensures tiles[1].Some? <==> "Tidak" in pad.columns
    ensures tiles[2].Some? <==> "Ya" in bumdes.columns
    ensures tiles[3].Some? <==> "Tidak" in bumdes.columns
    ensures "Ya" in pad.columns ==> tiles[0] == Some(Tile("PAD - Ya", TotalCell(pad, "Ya")))
    ensures "Tidak" in pad.columns ==> tiles[1] == Some(Tile("PAD - Tidak", TotalCell(pad, "Tidak")))
    ensures "Ya" in bumdes.columns ==> tiles[2] == Some(Tile("BUMDes - Ya", TotalCell(bumdes, "Ya")))
    ensures "Tidak" in bumdes.columns ==> tiles[3] == Some(Tile("BUMDes - Tidak", TotalCell(bumdes, "Tidak")))
  {
    var keys := ["PAD_Ya", "PAD_Tidak", "BUMDes_Ya", "BUMDes_Tidak"];
    var captions := ["PAD - Ya", "PAD - Tidak", "BUMDes - Ya", "BUMDes - Tidak"];
    tiles := [];
    for i := 0 to 4
      invariant |tiles| == i
      invariant i > 0 ==> tiles[0] == if "Ya" in pad.columns then Some(Tile("PAD - Ya", TotalCell(pad, "Ya"))) else None
      invariant i > 1 ==> tiles[1] == if "Tidak" in pad.columns then Some(Tile("PAD - Tidak", TotalCell(pad, "Tidak"))) else None
      invariant i > 2 ==> tiles[2] == if "Ya" in bumdes.columns then Some(Tile("BUMDes - Ya", TotalCell(bumdes, "Ya"))) else None
      invariant i > 3 ==> tiles[3] == if "Tidak" in bumdes.columns then Some(Tile("BUMDes - Tidak", TotalCell(bumdes, "Tidak"))) else None
    {
      var key := keys[i];
      var value: nat;
      if key == "PAD_Ya" && "Ya" in pad.columns {
        value := TotalCell(pad, "Ya");
      } else if key == "PAD_Tidak" && "Tidak" in pad.columns {
        value := TotalCell(pad, "Tidak");
      } else if key == "BUMDes_Ya" && "Ya" in bumdes.columns {
        value := TotalCell(bumdes, "Ya");
      } else if key == "BUMDes_Tidak" && "Tidak" in bumdes.columns {
        value := TotalCell(bumdes, "Tidak");
      } else {
        tiles := tiles + [None];
        continue;
      }
      tiles := tiles + [Some(Tile(captions[i], value))];
    }
  }

  /** Each revenue or BUMDes tile shows how many records give its answer. */
  lemma PadBumdesTileCounts(df: seq<Record>)
    ensures var pad, bumdes := WithTotal(CountTable(df, Pad)), WithTotal(CountTable(df, Bumdes));
      && ("Ya" in pad.columns ==> TotalCell(pad, "Ya") == CountLabel(df, Pad, "Ya"))
      && ("Tidak" in pad.columns ==> TotalCell(pad, "Tidak") == CountLabel(df, Pad, "Tidak"))
      && ("Ya" in bumdes.columns ==> TotalCell(bumdes, "Ya") == CountLabel(df, Bumdes, "Ya"))
      && ("Tidak" in bumdes.columns ==> TotalCell(bumdes, "Tidak") == CountLabel(df, Bumdes, "Tidak"))
  {
    var pad, bumdes := CountTable(df, Pad), CountTable(df, Bumdes);
    if "Ya" in pad.columns { TotalCellCounts(df, Pad, "Ya"); }
    if "Tidak" in pad.columns { TotalCellCounts(df, Pad, "Tidak"); }
    if "Ya" in bumdes.columns { TotalCellCounts(df, Bumdes, "Ya"); }
    if "Tidak" in bumdes.columns { TotalCellCounts(df, Bumdes, "Tidak"); }
  }

  /** One summary section as shown: its table, its tiles and the table offered for download. */
  datatype Section = Section(table: Table, tiles: seq<Option<Tile>>, download: Table)

  /**
   * The processing-system section (lines 59-122): the table, its five tiles
   * and its export, which is the table before its "Total" row was added.
   */
  method SystemSection(df: seq<Record>) returns (sec: Section)
    ensures sec.table == SystemTable(df)
    ensures sec.download == DropTotal(sec.table)
    ensures |sec.tiles| == |SYSTEM_TILES|
    ensures forall i :: 0 <= i < |SYSTEM_TILES| ==> (sec.tiles[i].Some? <==> SYSTEM_TILES[i].0 in sec.table.columns)
    ensures forall i :: 0 <= i < |SYSTEM_TILES| && sec.tiles[i].Some? ==> sec.tiles[i].value.caption == SYSTEM_TILES[i].1
    ensures forall i :: 0 <= i < |SYSTEM_TILES| && sec.tiles[i].Some? ==>
      sec.tiles[i].value.value == CountLabel(df, Sistem, SourceValue(SYSTEM_TILES[i].0))
    ensures TOTAL !in Labels(CountTable(df, Sistem).rows) ==> sec.download == SystemColumns(df)
  {
    var t := SystemSummary(df);
    SystemTableColumns(df);
    var tiles := Tiles(t, SYSTEM_TILES);
    sec := Section(t, tiles, DropTotal(t));
    forall i | 0 <= i < |SYSTEM_TILES| && tiles[i].Some?
      ensures tiles[i].value.value == CountLabel(df, Sistem, SourceValue(SYSTEM_TILES[i].0))
    {
      SystemTileCounts(df, SYSTEM_TILES[i].0);
    }
    if TOTAL !in Labels(CountTable(df, Sistem).rows) {
      SystemColumnsCells(df);
      ExportDropsTotal(SystemColumns(df));
    }
  }

  /**
   * The TPS3R-and-business section (lines 124-181): a message, or the table,
   * its five tiles and its export, which is the table before its "Total" row
   * was added.
   */
  method BusinessSection(df: seq<Record>) returns (view: BusinessView, sec: Option<Section>)
    ensures view.NoTps3rRows? <==> forall r :: r in df ==> r.sistem != Some(TPS3R)
    ensures view.NoBusinessData? <==>
      && (exists r :: r in df && r.sistem == Some(TPS3R))
      && forall r :: r in df && r.sistem == Some(TPS3R) ==> r.kabupaten.None? || r.bisnis.None?
    ensures sec.Some? <==> view.BusinessTable?
    ensures sec.Some? ==>
      && sec.value.table == view.table
      && sec.value.download == DropTotal(view.table)
      && |sec.value.tiles| == |BUSINESS_TILES|
      && forall i :: 0 <= i < |BUSINESS_TILES| ==> (sec.value.tiles[i].Some? <==> BUSINESS_TILES[i].0 in view.table.columns)
    ensures sec.Some? ==>
      forall i :: 0 <= i < |BUSINESS_TILES| && sec.value.tiles[i].Some? ==>
        sec.value.tiles[i] == Some(Tile(BUSINESS_TILES[i].1, CountLabel(Where(df, Sistem, TPS3R), Bisnis, BUSINESS_TILES[i].0)))
    ensures var counts := CountTable(Where(df, Sistem, TPS3R), Bisnis);
      sec.Some? && TOTAL !in Labels(counts.rows) ==> sec.value.download == counts
  {
    view := BusinessSummary(df);
    if view.BusinessTable? {
      var tps := Where(df, Sistem, TPS3R);
      var tiles := Tiles(view.table, BUSINESS_TILES);
      sec := Some(Section(view.table, tiles, DropTotal(view.table)));
      forall i | 0 <= i < |BUSINESS_TILES| && tiles[i].Some?
        ensures tiles[i] == Some(Tile(BUSINESS_TILES[i].1, CountLabel(tps, Bisnis, BUSINESS_TILES[i].0)))
      {
        TotalCellCounts(tps, Bisnis, BUSINESS_TILES[i].0);
      }
      if TOTAL !in Labels(CountTable(tps, Bisnis).rows) {
        ExportDropsTotal(CountTable(tps, Bisnis));
      }
    } else {
      sec := None;
    }
  }

  /**
   * The revenue-and-BUMDes section (lines 183-262): a message, or the merged
   * table, its four tiles and its export, which is the merge of the two count
   * tables before either got its "Total" row.
   */
  method PadBumdesSection(df: seq<Record>, hasPad: bool, hasBumdes: bool) returns (view: PadBumdesView, sec: Option<Section>)
    ensures view.ColumnMissing? <==> !(hasPad && hasBumdes)
    ensures view.NoPadBumdesData? <==>
      && hasPad && hasBumdes
      && ((forall r :: r in df ==> !IsCounted(r, Pad)) || (forall r :: r in df ==> !IsCounted(r, Bumdes)))
    ensures sec.Some? <==> view.PadBumdesTables?
    ensures sec.Some? ==>
      && view.pad == WithTotal(CountTable(df, Pad))
      && view.bumdes == WithTotal(CountTable(df, Bumdes))
      && sec.value.table == view.merged == Merge(view.pad, view.bumdes, " PAD", " BUMDes")
      && sec.value.download == DropTotal(view.merged)
      && |sec.value.tiles| == 4
      && (sec.value.tiles[0].Some? <==> "Ya" in view.pad.columns)
      && (sec.value.tiles[1].Some? <==> "Tidak" in view.pad.columns)
      && (sec.value.tiles[2].Some? <==> "Ya" in view.bumdes.columns)
      && (sec.value.tiles[3].Some? <==> "Tidak" in view.bumdes.columns)
    ensures var pad, bumdes := CountTable(df, Pad), CountTable(df, Bumdes);
      sec.Some? && TOTAL !in Labels(pad.rows) && TOTAL !in Labels(bumdes.rows) ==>
      && sec.value.download == Merge(pad, bumdes, " PAD", " BUMDes")
      && view.merged.rows == Merge(pad, bumdes, " PAD", " BUMDes").rows + [Row(TOTAL, Totals(pad) + Totals(bumdes))]
    ensures sec.Some? ==>
      && (sec.value.tiles[0].Some? ==> sec.value.tiles[0].value == Tile("PAD - Ya", CountLabel(df, Pad, "Ya")))
      && (sec.value.tiles[1].Some? ==> sec.value.tiles[1].value == Tile("PAD - Tidak", CountLabel(df, Pad, "Tidak")))
      && (sec.value.tiles[2].Some? ==> sec.value.tiles[2].value == Tile("BUMDes - Ya", CountLabel(df, Bumdes, "Ya")))
      && (sec.value.tiles[3].Some? ==> sec.value.tiles[3].value == Tile("BUMDes - Tidak", CountLabel(df, Bumdes, "Tidak")))
  {
    view := PadBumdesSummary(df, hasPad, hasBumdes);
    if view.PadBumdesTables? {
      var tiles := PadBumdesTiles(view.pad, view.bumdes);
      sec := Some(Section(view.merged, tiles, DropTotal(view.merged)));
      var pad, bumdes := CountTable(df, Pad), CountTable(df, Bumdes);
      PadBumdesTileCounts(df);
      if TOTAL !in Labels(pad.rows) && TOTAL !in Labels(bumdes.rows) {
        MergeWithTotals(pad, bumdes, " PAD", " BUMDes");
      }
    } else {
      sec := None;
    }
  }

  /** Everything the page derives from the survey table and the form. */
  datatype Page = Page(
    filtered: seq<Record>,
    system: Section,
    business: BusinessView, businessSection: Option<Section>,
    padBumdes: PadBumdesView, padBumdesSection: Option<Section>)

  /**
   * One submission of the filter form: filter the survey rows, then build the
   * three sections from the filtered rows. `hasPad` and `hasBumdes` say
   * whether the loaded sheet has the revenue and BUMDes columns.
   */
  method Render(raw: seq<Record>, sel: Selection, hasPad: bool, hasBumdes: bool) returns (page: Page)
    ensures page.filtered == Keep(raw, sel)
    ensures Subsequence(page.filtered, raw)
    ensures page.system.table == SystemTable(page.filtered)
    ensures page.system.download == DropTotal(page.system.table)
    ensures page.businessSection.Some? <==> page.business.BusinessTable?
    ensures page.businessSection.Some? ==> page.businessSection.value.download == DropTotal(page.business.table)
    ensures page.padBumdesSection.Some? <==> page.padBumdes.PadBumdesTables?
    ensures page.padBumdesSection.Some? ==> page.padBumdesSection.value.download == DropTotal(page.padBumdes.merged)
    ensures page.padBumdes.ColumnMissing? <==> !(hasPad && hasBumdes)
  {
    var df := ApplyFilters(raw, sel);
    var system := SystemSection(df);
    var business, businessSection := BusinessSection(df);
    var padBumdes, padBumdesSection := PadBumdesSection(df, hasPad, hasBumdes);
    page := Page(df, system, business, businessSection, padBumdes, padBumdesSection);
  }
}
