/**
 * The survey sheet as the dashboard sees it once loaded: one record per
 * village, the option lists of the four selectors, and the chain of
 * equality filters applied when the form is submitted.
 */
module Survey {
  import opened Wrappers
  import opened Seqs

  /**
   * One surveyed village. Only the columns the dashboard reads are kept; a
   * blank cell (pandas NaN) is `None`.
   *   kabupaten  "KABUPATEN"        (regency)
   *   kecamatan  "KECAMATAN"        (district)
   *   desa       "DESA"             (village)
   *   sistem     "Sistem Pengolahan Sampah"
   *   bisnis     "Bisnis dalam bidang persampahan (...)"
   *   pad        "Pendapatan Asli Desa (PADes) dari bisnis persampahan"
   *   bumdes     "dikelola oleh BUMDes"
   */
  datatype Record = Record(
    kabupaten: Option<string>,
    kecamatan: Option<string>,
    desa: Option<string>,
    sistem: Option<string>,
    bisnis: Option<string>,
    pad: Option<string>,
    bumdes: Option<string>)

  datatype Column = Kabupaten | Kecamatan | Desa | Sistem | Bisnis | Pad | Bumdes

  function Get(r: Record, c: Column): Option<string>
  {
    match c
    case Kabupaten => r.kabupaten
    case Kecamatan => r.kecamatan
    case Desa => r.desa
    case Sistem => r.sistem
    case Bisnis => r.bisnis
    case Pad => r.pad
    case Bumdes => r.bumdes
  }

  /** The selector entry meaning "no restriction on this field". */
  const ALL := "Semua"

  /** `df[c].dropna()`: the non-blank values of a column, in row order. */
  function Present(rows: seq<Record>, c: Column): (vs: seq<string>)
    ensures forall v :: v in vs <==> exists r :: r in rows && Get(r, c) == Some(v)
  {
    if rows == [] then []
    else
      assert forall r :: r in rows <==> r == rows[0] || r in rows[1..];
      (match Get(rows[0], c) case Some(v) => [v] case None => []) + Present(rows[1..], c)
  }

  /** `df[df[c] == v]`: the rows whose cell in column `c` is exactly `v`, in order. */
  function Where(rows: seq<Record>, c: Column, v: string): (out: seq<Record>)
    ensures forall r :: r in out <==> r in rows && Get(r, c) == Some(v)
    ensures |out| <= |rows|
  {
    if rows == [] then []
    else
      assert forall r :: r in rows <==> r == rows[0] || r in rows[1..];
      (if Get(rows[0], c) == Some(v) then [rows[0]] else []) + Where(rows[1..], c, v)
  }

  /**
   * `["Semua"] + sorted(df[c].dropna().unique())`: the entries of one
   * selector.
   */
  function Options(rows: seq<Record>, c: Column): (opts: seq<string>)
    ensures |opts| >= 1 && opts[0] == ALL
    ensures StrictlySorted(opts[1..])
    ensures forall v :: v in opts[1..] <==> exists r :: r in rows && Get(r, c) == Some(v)
  {
    var values := SortDistinct(Present(rows, c));
    assert ([ALL] + values)[1..] == values;
    [ALL] + values
  }

  /** The three properties of `Options` leave no other list possible. */
  lemma OptionsUnique(rows: seq<Record>, c: Column, opts: seq<string>)
    requires |opts| >= 1 && opts[0] == ALL && StrictlySorted(opts[1..])
    requires forall v :: v in opts[1..] <==> exists r :: r in rows && Get(r, c) == Some(v)
    ensures opts == Options(rows, c)
  {
    var expected := Options(rows, c);
    SortedDetermined(opts[1..], expected[1..]);
    assert opts == [opts[0]] + opts[1..] && expected == [expected[0]] + expected[1..];
  }

  /**
   * The entries of a selector that depends on the one above it: when the
   * parent selector holds a value, only rows with that parent value are
   * looked at; when it holds "Semua", the whole sheet is.
   */
  function CascadedOptions(raw: seq<Record>, parent: Column, choice: string, child: Column): (opts: seq<string>)
    ensures |opts| >= 1 && opts[0] == ALL
    ensures StrictlySorted(opts[1..])
    ensures choice != ALL ==>
      forall v :: v in opts[1..] <==>
        exists r :: r in raw && Get(r, parent) == Some(choice) && Get(r, child) == Some(v)
    ensures choice == ALL ==>
      forall v :: v in opts[1..] <==> exists r :: r in raw && Get(r, child) == Some(v)
  {
    if choice != ALL then Options(Where(raw, parent, choice), child) else Options(raw, child)
  }

  /** The selectors of the form, from left to right. */
  function KabupatenOptions(raw: seq<Record>): (opts: seq<string>)
    ensures |opts| >= 1 && opts[0] == ALL && StrictlySorted(opts[1..])
    ensures forall v :: v in opts[1..] <==> exists r :: r in raw && r.kabupaten == Some(v)
  {
    assert forall r :: Get(r, Kabupaten) == r.kabupaten;
    Options(raw, Kabupaten)
  }

  /** With a regency chosen, every district entry names a district of some record of that regency. */
  function KecamatanOptions(raw: seq<Record>, kabupaten: string): (opts: seq<string>)
    ensures |opts| >= 1 && opts[0] == ALL && StrictlySorted(opts[1..])
    ensures kabupaten != ALL ==>
      forall v :: v in opts[1..] <==> exists r :: r in raw && r.kabupaten == Some(kabupaten) && r.kecamatan == Some(v)
    ensures kabupaten == ALL ==>
      forall v :: v in opts[1..] <==> exists r :: r in raw && r.kecamatan == Some(v)
  {
    assert forall r :: Get(r, Kabupaten) == r.kabupaten && Get(r, Kecamatan) == r.kecamatan;
    CascadedOptions(raw, Kabupaten, kabupaten, Kecamatan)
  }

  /**
   * With a district chosen, every village entry names a village of some
   * record of that district; the chosen regency plays no part.
   */
  function DesaOptions(raw: seq<Record>, kecamatan: string): (opts: seq<string>)
    ensures |opts| >= 1 && opts[0] == ALL && StrictlySorted(opts[1..])
    ensures kecamatan != ALL ==>
      forall v :: v in opts[1..] <==> exists r :: r in raw && r.kecamatan == Some(kecamatan) && r.desa == Some(v)
    ensures kecamatan == ALL ==>
      forall v :: v in opts[1..] <==> exists r :: r in raw && r.desa == Some(v)
  {
    assert forall r :: Get(r, Kecamatan) == r.kecamatan && Get(r, Desa) == r.desa;
    CascadedOptions(raw, Kecamatan, kecamatan, Desa)
  }

  function SistemOptions(raw: seq<Record>): (opts: seq<string>)
    ensures |opts| >= 1 && opts[0] == ALL && StrictlySorted(opts[1..])
    ensures forall v :: v in opts[1..] <==> exists r :: r in raw && r.sistem == Some(v)
  {
    assert forall r :: Get(r, Sistem) == r.sistem;
    Options(raw, Sistem)
  }

  /** What the four selectors hold when the form is submitted. */
  datatype Selection = Selection(kabupaten: string, kecamatan: string, desa: string, sistem: string)

  predicate Accepts(choice: string, value: Option<string>)
  {
    choice == ALL || value == Some(choice)
  }

  /** A record passes every filter whose selector is not "Semua". */
  predicate Matches(r: Record, sel: Selection)
  {
    && Accepts(sel.kabupaten, r.kabupaten)
    && Accepts(sel.kecamatan, r.kecamatan)
    && Accepts(sel.desa, r.desa)
    && Accepts(sel.sistem, r.sistem)
  }

  /** The rows of the sheet that pass every filter, in their original order. */
  function Keep(rows: seq<Record>, sel: Selection): (out: seq<Record>)
    ensures forall r :: r in out <==> r in rows && Matches(r, sel)
  {
    if rows == [] then []
    else
      assert forall r :: r in rows <==> r == rows[0] || r in rows[1..];
      (if Matches(rows[0], sel) then [rows[0]] else []) + Keep(rows[1..], sel)
  }

  // The filters are applied one after another; FilterColumn(k) and
  // Choice(sel, k) name the k-th of them, in the order the dashboard uses.

  function FilterColumn(k: nat): Column
  {
    if k == 0 then Kabupaten else if k == 1 then Kecamatan else if k == 2 then Desa else Sistem
  }

  function Choice(sel: Selection, k: nat): string
  {
    if k == 0 then sel.kabupaten else if k == 1 then sel.kecamatan else if k == 2 then sel.desa else sel.sistem
  }

  /** The record passes the first `k` filters. */
  predicate PassesFirst(r: Record, sel: Selection, k: nat)
  {
    if k == 0 then true
    else PassesFirst(r, sel, k - 1) && Accepts(Choice(sel, k - 1), Get(r, FilterColumn(k - 1)))
  }

  /** The rows that pass the first `k` filters. */
  function KeepFirst(rows: seq<Record>, sel: Selection, k: nat): seq<Record>
  {
    if rows == [] then []
    else (if PassesFirst(rows[0], sel, k) then [rows[0]] else []) + KeepFirst(rows[1..], sel, k)
  }

  lemma {:induction false} KeepFirstNone(rows: seq<Record>, sel: Selection)
    ensures KeepFirst(rows, sel, 0) == rows
  {
    if rows != [] {
      KeepFirstNone(rows[1..], sel);
    }
  }

  /** Applying the k-th filter to the rows that passed the first k gives those that pass k + 1. */
  lemma {:induction false} FilterStep(rows: seq<Record>, sel: Selection, k: nat)
    requires k < 4
    ensures Choice(sel, k) == ALL ==> KeepFirst(rows, sel, k + 1) == KeepFirst(rows, sel, k)
    ensures Choice(sel, k) != ALL ==>
      KeepFirst(rows, sel, k + 1) == Where(KeepFirst(rows, sel, k), FilterColumn(k), Choice(sel, k))
  {
    if rows != [] {
      FilterStep(rows[1..], sel, k);
      var tail := KeepFirst(rows[1..], sel, k);
      assert PassesFirst(rows[0], sel, k + 1) ==
        (PassesFirst(rows[0], sel, k) && Accepts(Choice(sel, k), Get(rows[0], FilterColumn(k))));
      if PassesFirst(rows[0], sel, k) {
        assert KeepFirst(rows, sel, k) == [rows[0]] + tail;
        WhereCons(rows[0], tail, FilterColumn(k), Choice(sel, k));
      } else {
        assert KeepFirst(rows, sel, k) == tail;
      }
    }
  }

  lemma WhereCons(x: Record, s: seq<Record>, c: Column, v: string)
    ensures Where([x] + s, c, v) == (if Get(x, c) == Some(v) then [x] else []) + Where(s, c, v)
  {
  }

  lemma KeepCons(x: Record, s: seq<Record>, sel: Selection)
    ensures Keep([x] + s, sel) == (if Matches(x, sel) then [x] else []) + Keep(s, sel)
  {
  }

  lemma PassesFour(r: Record, sel: Selection)
    ensures PassesFirst(r, sel, 4) == Matches(r, sel)
  {
    assert PassesFirst(r, sel, 1) == Accepts(sel.kabupaten, r.kabupaten);
    assert PassesFirst(r, sel, 2) == (PassesFirst(r, sel, 1) && Accepts(sel.kecamatan, r.kecamatan));
    assert PassesFirst(r, sel, 3) == (PassesFirst(r, sel, 2) && Accepts(sel.desa, r.desa));
  }

  lemma {:induction false} KeepFirstAll(rows: seq<Record>, sel: Selection)
    ensures KeepFirst(rows, sel, 4) == Keep(rows, sel)
  {
    if rows != [] {
      KeepFirstAll(rows[1..], sel);
      PassesFour(rows[0], sel);
    }
  }

  /**
   * The filter chain run on submit: start from a copy of the raw sheet and
   * narrow it by each selector that is not "Semua". The raw sheet is a value
   * and is left as it was.
   */
  method ApplyFilters(raw: seq<Record>, sel: Selection) returns (df: seq<Record>)
    ensures df == Keep(raw, sel)
    ensures Subsequence(df, raw)
    ensures sel == Selection(ALL, ALL, ALL, ALL) ==> df == raw
  {
    df := raw;
    KeepFirstNone(raw, sel);
    df := Narrow(df, Kabupaten, sel.kabupaten);
    NextFilter(raw, sel, 0);
    df := Narrow(df, Kecamatan, sel.kecamatan);
    NextFilter(raw, sel, 1);
    df := Narrow(df, Desa, sel.desa);
    NextFilter(raw, sel, 2);
    df := Narrow(df, Sistem, sel.sistem);
    NextFilter(raw, sel, 3);
    ChainEnd(raw, sel, df);
  }

  /** One selector's effect: unless `choice` is "Semua", only the rows whose `c` equals it remain. */
  function Narrowed(df: seq<Record>, c: Column, choice: string): (out: seq<Record>)
    ensures forall r :: r in out <==> r in df && Accepts(choice, Get(r, c))
    ensures |out| <= |df|
  {
    if choice == ALL then df else Where(df, c, choice)
  }

  /** One step of the chain, narrowing the table in place of the old one. */
  method Narrow(df: seq<Record>, c: Column, choice: string) returns (out: seq<Record>)
    ensures out == Narrowed(df, c, choice)
  {
    out := df;
    if choice != ALL {
      out := Where(df, c, choice);
    }
  }

  /** Passing all four filters is what the page calls matching the selection. */
  lemma ChainEnd(raw: seq<Record>, sel: Selection, df: seq<Record>)
    requires df == KeepFirst(raw, sel, 4)
    ensures df == Keep(raw, sel)
    ensures Subsequence(df, raw)
    ensures sel == Selection(ALL, ALL, ALL, ALL) ==> df == raw
  {
    KeepFirstAll(raw, sel);
    KeepMeaning(raw, sel);
  }

  /** After the k-th step of the chain, the rows kept are those passing the first k + 1 filters. */
  lemma NextFilter(raw: seq<Record>, sel: Selection, k: nat)
    requires k < 4
    ensures Narrowed(KeepFirst(raw, sel, k), FilterColumn(k), Choice(sel, k)) == KeepFirst(raw, sel, k + 1)
  {
    FilterStep(raw, sel, k);
  }

  /** What the filtered table is, in the dashboard's own terms. */
  lemma KeepMeaning(raw: seq<Record>, sel: Selection)
    ensures Subsequence(Keep(raw, sel), raw)
    ensures forall r :: r in Keep(raw, sel) <==> r in raw && Matches(r, sel)
    ensures sel == Selection(ALL, ALL, ALL, ALL) ==> Keep(raw, sel) == raw
  {
    KeepIsSubsequence(raw, sel);
    if sel == Selection(ALL, ALL, ALL, ALL) {
      KeepEverything(raw, sel);
    }
  }

  lemma {:induction false} KeepIsSubsequence(rows: seq<Record>, sel: Selection)
    ensures Subsequence(Keep(rows, sel), rows)
  {
    if rows != [] {
      KeepIsSubsequence(rows[1..], sel);
      var out := Keep(rows, sel);
      if Matches(rows[0], sel) {
        assert out[0] == rows[0] && out[1..] == Keep(rows[1..], sel);
      } else {
        assert out == Keep(rows[1..], sel);
        SubsequenceOfTail(out, rows);
      }
    }
  }

  /** With every selector on "Semua" the filtered table is the raw table. */
  lemma {:induction false} KeepEverything(rows: seq<Record>, sel: Selection)
    requires sel == Selection(ALL, ALL, ALL, ALL)
    ensures Keep(rows, sel) == rows
  {
    if rows != [] {
      KeepEverything(rows[1..], sel);
    }
  }

  /** `narrow` agrees with `wide` on every selector that `wide` does not leave on "Semua". */
  predicate Narrows(narrow: Selection, wide: Selection)
  {
    && (wide.kabupaten == ALL || narrow.kabupaten == wide.kabupaten)
    && (wide.kecamatan == ALL || narrow.kecamatan == wide.kecamatan)
    && (wide.desa == ALL || narrow.desa == wide.desa)
    && (wide.sistem == ALL || narrow.sistem == wide.sistem)
  }

  /** Moving more selectors off "Semua" can only drop rows, never add or reorder them. */
  lemma {:induction false} KeepNarrowing(rows: seq<Record>, narrow: Selection, wide: Selection)
    requires Narrows(narrow, wide)
    ensures Keep(Keep(rows, wide), narrow) == Keep(rows, narrow)
    ensures Subsequence(Keep(rows, narrow), Keep(rows, wide))
    ensures |Keep(rows, narrow)| <= |Keep(rows, wide)|
  {
    if rows != [] {
      KeepNarrowing(rows[1..], narrow, wide);
      if Matches(rows[0], wide) {
        KeepCons(rows[0], Keep(rows[1..], wide), narrow);
      } else {
        assert !Matches(rows[0], narrow);
        assert Keep(rows, wide) == Keep(rows[1..], wide);
        assert Keep(rows, narrow) == Keep(rows[1..], narrow);
      }
    }
    KeepIsSubsequence(Keep(rows, wide), narrow);
    KeepShorter(Keep(rows, wide), narrow);
  }

  lemma {:induction false} KeepShorter(rows: seq<Record>, sel: Selection)
    ensures |Keep(rows, sel)| <= |rows|
  {
    if rows != [] {
      KeepShorter(rows[1..], sel);
    }
  }

  /** A filter keeps every matching record as often as it occurs, and no other. */
  lemma {:induction false} WhereCounts(rows: seq<Record>, c: Column, v: string)
    ensures forall r :: multiset(Where(rows, c, v))[r]
                        == if Get(r, c) == Some(v) then multiset(rows)[r] else 0
  {
    if rows != [] {
      assert rows == [rows[0]] + rows[1..];
      WhereCounts(rows[1..], c, v);
    }
  }

  lemma {:induction false} KeepCounts(rows: seq<Record>, sel: Selection)
    ensures forall r :: multiset(Keep(rows, sel))[r]
                        == if Matches(r, sel) then multiset(rows)[r] else 0
  {
    if rows != [] {
      assert rows == [rows[0]] + rows[1..];
      KeepCounts(rows[1..], sel);
    }
  }
}
