/** The script's top level: load the three files, align them on their
    common months, map source columns to the style labels, add Momentum and
    Market, and keep the months from 1990 on. This code runs outside any
    `try`, so each failure here is an uncaught exception. */
module Assembly {
  import opened Wrappers
  import opened Periods
  import opened Tables
  import opened Loader

  const Keywords25: seq<string> := ["SMALL LoBM", "BIG HiBM"]
  const KeywordsMom: seq<string> := ["Mom"]
  const KeywordsFf5: seq<string> := ["Mkt-RF", "RF"]

  /** Style label and the 25-portfolio column it is read from, in the
      order the columns are added. */
  const StyleColumns: seq<(string, string)> :=
    [("Small Value", "SMALL HiBM"), ("Large Growth", "BIG LoBM"),
     ("Small Growth", "SMALL LoBM"), ("Large Value", "BIG HiBM")]

  const MomentumLabel := "Momentum"
  const MarketLabel := "Market (S&P500 Proxy)"

  /** The first month the start-date filter keeps, 1990-01-01. */
  const Start := Period(1990, 1)

  /** The exception that ends the script. */
  datatype ScriptError =
    | NoTable(name: string)  // attribute access on `None`: a required file did not load
    | NoColumn(column: string)  // `KeyError` from `.loc` for a column name
    | NoPeriod  // `KeyError` from `.loc` for a month
    | RepeatedPeriod  // inserting a column whose month labels repeat
    | NoMomentumColumn  // `df_mom.columns[0]` with no columns

  predicate Distinct(s: seq<Period>) {
    forall i, j | 0 <= i < j < |s| :: s[i] != s[j]
  }

  /** `Index.intersection`: each month of `a` that is also in `b`, once,
      in the order of its first appearance in `a`. */
  function Intersect(a: seq<Period>, b: seq<Period>): (r: seq<Period>)
    ensures Distinct(r)
    ensures forall p :: p in r <==> p in a && p in b
  {
    if a == [] then []
    else
      var init := a[..|a| - 1];
      var last := a[|a| - 1];
      assert a == init + [last];
      var r := Intersect(init, b);
      if last in b && last !in r then r + [last] else r
  }

  /** `a` without its repeats: each month kept at its first appearance,
      as `Index.unique()` gives it. */
  function Unique(a: seq<Period>): (r: seq<Period>)
    ensures Distinct(r)
    ensures forall p :: p in r <==> p in a
  {
    if a == [] then []
    else
      var init := a[..|a| - 1];
      var last := a[|a| - 1];
      assert a == init + [last];
      var r := Unique(init);
      if last in r then r else r + [last]
  }

  /** An index without repeats is its own `unique()`. */
  lemma {:induction false} UniqueDistinct(a: seq<Period>)
    requires Distinct(a)
    ensures Unique(a) == a
  {
    if a != [] {
      var init := a[..|a| - 1];
      assert a == init + [a[|a| - 1]];
      UniqueDistinct(init);
    }
  }

  /** The months of `a` that occur in `b`, in the order of `a`. */
  function FilterIn(a: seq<Period>, b: seq<Period>): (r: seq<Period>)
    ensures |r| <= |a|
    ensures forall p :: p in r <==> p in a && p in b
  {
    if a == [] then []
    else
      var init := a[..|a| - 1];
      var last := a[|a| - 1];
      assert a == init + [last];
      var r := FilterIn(init, b);
      if last in b then r + [last] else r
  }

  /** Intersection keeps the order of the left index: it is the left
      index's `unique()` with the months the right index lacks left out. */
  lemma {:induction false} IntersectKeepsOrder(a: seq<Period>, b: seq<Period>)
    ensures Intersect(a, b) == FilterIn(Unique(a), b)
  {
    if a != [] {
      var init := a[..|a| - 1];
      var last := a[|a| - 1];
      IntersectKeepsOrder(init, b);
      var u := Unique(init);
      if last !in init {
        var v := u + [last];
        assert v[..|v| - 1] == u;
      }
    }
  }

  /** Lines 50 to 52: the months of the 25-portfolio and five-factor
      tables, narrowed to those of the momentum table when it loaded. */
  function CommonIndex(t25: Table<Period>, tff: Table<Period>, tmom: Option<Table<Period>>): (r: seq<Period>)
    ensures Distinct(r)
    ensures forall p :: p in r <==>
              && p in Keys(t25.rows) && p in Keys(tff.rows)
              && (tmom.Some? ==> p in Keys(tmom.value.rows))
  {
    var common := Intersect(Keys(t25.rows), Keys(tff.rows));
    if tmom.Some? then Intersect(common, Keys(tmom.value.rows)) else common
  }

  /** Line 67: `"Mom"` when the momentum table has that column, otherwise
      its first column; `None` is the `IndexError` of an empty header. */
  function MomentumColumn(columns: seq<string>): (r: Option<string>)
    ensures r.Some? <==> |columns| > 0
    ensures r.Some? ==> r.value in columns
    ensures "Mom" in columns ==> r == Some("Mom")
    ensures "Mom" !in columns && |columns| > 0 ==> r == Some(columns[0])
  {
    if "Mom" in columns then Some("Mom")
    else if |columns| > 0 then Some(columns[0])
    else None
  }

  /** Position of the first column called `name`. */
  function IndexOf(columns: seq<string>, name: string): (j: nat)
    requires name in columns
    ensures j < |columns| && columns[j] == name
    ensures forall i | 0 <= i < j :: columns[i] != name
  {
    if columns[0] == name then 0 else 1 + IndexOf(columns[1..], name)
  }

  /** The rows labelled with month `p`. */
  function RowsAt(rows: seq<Row<Period>>, p: Period): (r: seq<Row<Period>>)
    ensures forall x :: x in r <==> x in rows && x.key == p
  {
    Where(rows, k => k == p)
  }

  /** The value in column `name` at month `p`: the cell of the row
      labelled `p`, NaN when there is none or no such column. */
  function At(t: Table<Period>, p: Period, name: string): (c: Cell)
    ensures forall x | x in t.rows && x.key == p && |RowsAt(t.rows, p)| == 1 && name in t.columns ::
              c == CellAt(x.cells, IndexOf(t.columns, name))
  {
    var here := RowsAt(t.rows, p);
    if name in t.columns && here != [] then CellAt(here[0].cells, IndexOf(t.columns, name)) else Missing
  }

  /** At most one row of `t` carries each month of `index`. */
  predicate Single(t: Table<Period>, index: seq<Period>) {
    forall p | p in index :: |RowsAt(t.rows, p)| <= 1
  }

  /** `t.loc[index, name]`: fails when the column or one of the months is
      absent. */
  function Lookup(t: Table<Period>, name: string, index: seq<Period>): (r: Result<seq<Cell>, ScriptError>)
    ensures r == Failure(NoPeriod) ==> exists p | p in index :: p !in Keys(t.rows)
    ensures r.Success? <==> name in t.columns && forall p | p in index :: p in Keys(t.rows)
    ensures r.Success? ==> |r.value| == |index|
    ensures r.Success? ==> forall i | 0 <= i < |index| :: r.value[i] == At(t, index[i], name)
  {
    if name !in t.columns then Failure(NoColumn(name))
    else if exists p | p in index :: p !in Keys(t.rows) then Failure(NoPeriod)
    else Success(seq(|index|, i requires 0 <= i < |index| => At(t, index[i], name)))
  }

  /** Assigning a looked-up series as a column of the result frame, whose
      index is `index`: pandas refuses to align a series whose labels repeat. */
  function Insert(t: Table<Period>, index: seq<Period>, s: seq<Cell>): (r: Result<seq<Cell>, ScriptError>)
    ensures r != Failure(NoPeriod)
    ensures r.Success? <==> Single(t, index)
    ensures r.Success? ==> r.value == s
  {
    if exists p | p in index :: |RowsAt(t.rows, p)| > 1 then Failure(RepeatedPeriod) else Success(s)
  }

  /** `df_final[label] = t.loc[index, name]`. */
  function Column(t: Table<Period>, name: string, index: seq<Period>): (r: Result<seq<Cell>, ScriptError>)
    ensures r == Failure(NoPeriod) ==> exists p | p in index :: p !in Keys(t.rows)
    ensures r.Success? <==> name in t.columns && (forall p | p in index :: p in Keys(t.rows)) && Single(t, index)
    ensures r.Success? ==> |r.value| == |index|
    ensures r.Success? ==> forall i | 0 <= i < |index| :: r.value[i] == At(t, index[i], name)
  {
    var s :- Lookup(t, name, index);
    Insert(t, index, s)
  }

  /** Lines 66 to 68: no column when momentum did not load, else its
      chosen column. */
  function MomentumSeries(tmom: Option<Table<Period>>, index: seq<Period>): (r: Result<seq<seq<Cell>>, ScriptError>)
    ensures r == Failure(NoPeriod) ==> tmom.Some? && exists p | p in index :: p !in Keys(tmom.value.rows)
    ensures r.Success? <==>
              tmom.Some? ==> && |tmom.value.columns| > 0
                             && (forall p | p in index :: p in Keys(tmom.value.rows))
                             && Single(tmom.value, index)
    ensures r.Success? ==> |r.value| == (if tmom.Some? then 1 else 0)
    ensures r.Success? && tmom.Some? ==> |r.value[0]| == |index| && forall i | 0 <= i < |index| ::
              r.value[0][i] == At(tmom.value, index[i], MomentumColumn(tmom.value.columns).value)
  {
    if tmom.None? then Success([])
    else
      match MomentumColumn(tmom.value.columns)
      case None => Failure(NoMomentumColumn)
      case Some(name) =>
        var s :- Column(tmom.value, name, index);
        Success([s])
  }

  /** Line 71: Market is the excess market return plus the risk-free rate. */
  function MarketSeries(tff: Table<Period>, index: seq<Period>): (r: Result<seq<Cell>, ScriptError>)
    ensures r == Failure(NoPeriod) ==> exists p | p in index :: p !in Keys(tff.rows)
    ensures r.Success? <==>
              && "Mkt-RF" in tff.columns && "RF" in tff.columns
              && (forall p | p in index :: p in Keys(tff.rows)) && Single(tff, index)
    ensures r.Success? ==> |r.value| == |index|
    ensures r.Success? ==> forall i | 0 <= i < |index| ::
              r.value[i] == Add(At(tff, index[i], "Mkt-RF"), At(tff, index[i], "RF"))
  {
    var excess :- Lookup(tff, "Mkt-RF", index);
    var riskFree :- Lookup(tff, "RF", index);
    Insert(tff, index, seq(|index|, i requires 0 <= i < |index| => Add(excess[i], riskFree[i])))
  }

  /** Rows of a frame built column by column on `index`. */
  function Transpose(index: seq<Period>, series: seq<seq<Cell>>): (rows: seq<Row<Period>>)
    requires forall j | 0 <= j < |series| :: |series[j]| == |index|
    ensures |rows| == |index|
    ensures forall i | 0 <= i < |index| ::
              && rows[i].key == index[i] && |rows[i].cells| == |series|
              && forall j | 0 <= j < |series| :: rows[i].cells[j] == series[j][i]
  {
    seq(|index|, i requires 0 <= i < |index| =>
      Row(index[i], seq(|series|, j requires 0 <= j < |series| => series[j][i])))
  }

  /** The column names of the merged frame. */
  function Labels(withMomentum: bool): seq<string> {
    [StyleColumns[0].0, StyleColumns[1].0, StyleColumns[2].0, StyleColumns[3].0]
    + (if withMomentum then [MomentumLabel] else [])
    + [MarketLabel]
  }

  /** Only the momentum label is called "Momentum". */
  lemma MomentumLabelIff(withMomentum: bool)
    ensures MomentumLabel in Labels(withMomentum) <==> withMomentum
  {
    var columns := Labels(withMomentum);
    if withMomentum {
      assert columns[4] == MomentumLabel;
    } else {
      assert forall i | 0 <= i < |columns| :: |columns[i]| != |MomentumLabel|;
    }
  }

  /** Everything lines 50 to 71 need to run without an exception. */
  predicate Assemblable(t25: Option<Table<Period>>, tff: Option<Table<Period>>, tmom: Option<Table<Period>>) {
    && t25.Some? && tff.Some?
    && var index := CommonIndex(t25.value, tff.value, tmom);
    && (forall j | 0 <= j < |StyleColumns| :: StyleColumns[j].1 in t25.value.columns)
    && Single(t25.value, index)
    && (tmom.Some? ==> |tmom.value.columns| > 0 && Single(tmom.value, index))
    && "Mkt-RF" in tff.value.columns && "RF" in tff.value.columns
    && Single(tff.value, index)
  }

  /** A row of the merged frame holds, at its month, each style's source
      column, the chosen momentum column, and Market. */
  predicate RowFrom(row: Row<Period>, t25: Table<Period>, tff: Table<Period>, tmom: Option<Table<Period>>) {
    var p, c := row.key, row.cells;
    && |c| == (if tmom.Some? then 6 else 5)
    && (forall j | 0 <= j < |StyleColumns| :: c[j] == At(t25, p, StyleColumns[j].1))
    && (tmom.Some? ==> && MomentumColumn(tmom.value.columns).Some?
                       && c[4] == At(tmom.value, p, MomentumColumn(tmom.value.columns).value))
    && MarketRow(row, tff)
  }

  /** The last cell of a merged row is Mkt-RF plus RF at its month. */
  predicate MarketRow(row: Row<Period>, tff: Table<Period>) {
    |row.cells| > 0 && row.cells[|row.cells| - 1] == Add(At(tff, row.key, "Mkt-RF"), At(tff, row.key, "RF"))
  }

  /** Lines 60 to 63: the four style columns of the 25-portfolio table,
      in the order of `StyleColumns`. */
  function StyleSeries(t25: Table<Period>, index: seq<Period>): (r: Result<seq<seq<Cell>>, ScriptError>)
    ensures r == Failure(NoPeriod) ==> exists p | p in index :: p !in Keys(t25.rows)
    ensures r.Success? <==>
              && (forall j | 0 <= j < |StyleColumns| :: StyleColumns[j].1 in t25.columns)
              && (forall p | p in index :: p in Keys(t25.rows)) && Single(t25, index)
    ensures r.Success? ==> |r.value| == |StyleColumns|
    ensures r.Success? ==> forall j | 0 <= j < |StyleColumns| :: |r.value[j]| == |index| && forall i | 0 <= i < |index| ::
              r.value[j][i] == At(t25, index[i], StyleColumns[j].1)
  {
    var smallValue :- Column(t25, StyleColumns[0].1, index);
    var largeGrowth :- Column(t25, StyleColumns[1].1, index);
    var smallGrowth :- Column(t25, StyleColumns[2].1, index);
    var largeValue :- Column(t25, StyleColumns[3].1, index);
    Success([smallValue, largeGrowth, smallGrowth, largeValue])
  }

  /** Lines 50 to 71: the merged frame `df_final`. */
  function Assemble(t25: Option<Table<Period>>, tff: Option<Table<Period>>, tmom: Option<Table<Period>>)
    : (r: Result<Table<Period>, ScriptError>)
    ensures r.Success? <==> Assemblable(t25, tff, tmom)
    ensures r.Success? ==> Keys(r.value.rows) == CommonIndex(t25.value, tff.value, tmom)
    ensures r.Success? ==> r.value.columns == Labels(tmom.Some?)
    ensures r.Success? ==> forall i | 0 <= i < |r.value.rows| :: RowFrom(r.value.rows[i], t25.value, tff.value, tmom)
  {
    if t25.None? then Failure(NoTable("25 portfolios"))
    else if tff.None? then Failure(NoTable("five factors"))
    else
      var index := CommonIndex(t25.value, tff.value, tmom);
      var style :- StyleSeries(t25.value, index);
      var momentum :- MomentumSeries(tmom, index);
      var market :- MarketSeries(tff.value, index);
      var rows := Transpose(index, style + momentum + [market]);
      assert Keys(rows) == index;
      MergedRows(t25.value, tff.value, tmom, index, style, momentum, market);
      Success(Table(Labels(tmom.Some?), rows))
  }

  /** Each row built from the looked-up columns carries the values
      `RowFrom` names. */
  lemma MergedRows(t25: Table<Period>, tff: Table<Period>, tmom: Option<Table<Period>>, index: seq<Period>,
                   style: seq<seq<Cell>>, momentum: seq<seq<Cell>>, market: seq<Cell>)
    requires |style| == |StyleColumns|
    requires forall j | 0 <= j < |StyleColumns| :: |style[j]| == |index| && forall i | 0 <= i < |index| ::
               style[j][i] == At(t25, index[i], StyleColumns[j].1)
    requires |momentum| == (if tmom.Some? then 1 else 0)
    requires tmom.Some? ==> MomentumColumn(tmom.value.columns).Some? && |momentum[0]| == |index| && forall i | 0 <= i < |index| ::
               momentum[0][i] == At(tmom.value, index[i], MomentumColumn(tmom.value.columns).value)
    requires |market| == |index|
    requires forall i | 0 <= i < |index| :: market[i] == Add(At(tff, index[i], "Mkt-RF"), At(tff, index[i], "RF"))
    ensures var rows := Transpose(index, style + momentum + [market]);
            forall i | 0 <= i < |rows| :: RowFrom(rows[i], t25, tff, tmom)
  {
    var series := style + momentum + [market];
    var rows := Transpose(index, series);
    forall i | 0 <= i < |rows|
      ensures RowFrom(rows[i], t25, tff, tmom)
    {
      var c := rows[i].cells;
      assert |c| == |series|;
      forall j | 0 <= j < |StyleColumns|
        ensures c[j] == At(t25, index[i], StyleColumns[j].1)
      {
        assert series[j] == style[j];
      }
      if tmom.Some? {
        assert series[4] == momentum[0];
      }
      assert series[|series| - 1] == market;
    }
  }

  /** Every month of the common index is in each table it came from, so
      `.loc` never fails for a missing month. */
  lemma NeverMissingPeriod(t25: Option<Table<Period>>, tff: Option<Table<Period>>, tmom: Option<Table<Period>>)
    ensures Assemble(t25, tff, tmom) != Failure(NoPeriod)
  {
    if t25.Some? && tff.Some? {
      var index := CommonIndex(t25.value, tff.value, tmom);
      assert forall p | p in index :: p in Keys(t25.value.rows) && p in Keys(tff.value.rows);
      assert tmom.Some? ==> forall p | p in index :: p in Keys(tmom.value.rows);
    }
  }

  predicate InWindow(p: Period) {
    OnOrAfter(p, Start)
  }

  /** Lines 74 and 75: the rows dated 1990-01-01 or later, in order. */
  function SinceStart(t: Table<Period>): (r: Table<Period>)
    ensures r.columns == t.columns
    ensures forall x :: x in r.rows <==> x in t.rows && OnOrAfter(x.key, Start)
  {
    Table(t.columns, Where(t.rows, InWindow))
  }

  /** The months of `ks` dated 1990-01-01 or later, in order. */
  function Since(ks: seq<Period>): (r: seq<Period>)
    ensures |r| <= |ks|
    ensures forall p :: p in r <==> p in ks && InWindow(p)
  {
    if ks == [] then []
    else if InWindow(ks[0]) then [ks[0]] + Since(ks[1..])
    else Since(ks[1..])
  }

  /** The months of the filtered frame are the frame's months filtered the
      same way: order and multiplicity carry over. */
  lemma {:induction false} KeysWhere(rows: seq<Row<Period>>)
    ensures Keys(Where(rows, InWindow)) == Since(Keys(rows))
  {
    if rows != [] {
      assert Keys(rows)[1..] == Keys(rows[1..]);
      KeysWhere(rows[1..]);
    }
  }

  /** Filtering an index without repeats leaves one without repeats. */
  lemma {:induction false} SinceDistinct(ks: seq<Period>)
    requires Distinct(ks)
    ensures Distinct(Since(ks))
  {
    if ks != [] {
      SinceDistinct(ks[1..]);
      if InWindow(ks[0]) {
        var rest := Since(ks[1..]);
        assert ks[0] !in ks[1..];
        assert ks[0] !in rest;
        var r := [ks[0]] + rest;
        forall i, j | 0 <= i < j < |r|
          ensures r[i] != r[j]
        {
          assert r[j] == rest[j - 1];
          if i > 0 {
            assert r[i] == rest[i - 1];
          }
        }
      }
    }
  }

  /** A frame whose months all fall from 1990-01 on passes the filter
      unchanged. */
  lemma SinceStartKeepsWindow(t: Table<Period>)
    requires forall i | 0 <= i < |t.rows| :: InWindow(t.rows[i].key)
    ensures SinceStart(t) == t
  {
    WhereAll(t.rows, InWindow);
  }

  /** For a month the loader can produce, being on or after 1990-01-01 is
      having a year of 1990 or later. */
  lemma WindowIsYear(p: Period)
    requires Valid(p)
    ensures InWindow(p) <==> p.year >= 1990
  {
  }

  /** After the start-date filter exactly the common months from 1990-01
      on remain, once each and in the common index's order, and each
      remaining row still holds the mapped values at its month, Market
      equal to Mkt-RF plus RF among them. */
  lemma FilteredMerge(t25: Option<Table<Period>>, tff: Option<Table<Period>>, tmom: Option<Table<Period>>)
    requires Assemble(t25, tff, tmom).Success?
    ensures var f := SinceStart(Assemble(t25, tff, tmom).value);
            forall p :: p in Keys(f.rows) <==>
              && p in Keys(t25.value.rows) && p in Keys(tff.value.rows)
              && (tmom.Some? ==> p in Keys(tmom.value.rows))
              && OnOrAfter(p, Start)
    ensures var f := SinceStart(Assemble(t25, tff, tmom).value);
            forall row | row in f.rows :: RowFrom(row, t25.value, tff.value, tmom)
    ensures var f := SinceStart(Assemble(t25, tff, tmom).value);
            Keys(f.rows) == Since(CommonIndex(t25.value, tff.value, tmom)) && Distinct(Keys(f.rows))
  {
    var merged := Assemble(t25, tff, tmom).value;
    var f := SinceStart(merged);
    var index := CommonIndex(t25.value, tff.value, tmom);
    KeysWhere(merged.rows);
    SinceDistinct(index);
    forall p
      ensures p in Keys(f.rows) <==> p in index && OnOrAfter(p, Start)
    {
      KeyIn(f.rows, p);
      KeyIn(merged.rows, p);
    }
    forall row | row in f.rows
      ensures RowFrom(row, t25.value, tff.value, tmom)
    {
      var i :| 0 <= i < |merged.rows| && merged.rows[i] == row;
      assert RowFrom(merged.rows[i], t25.value, tff.value, tmom);
    }
  }

  /** The Momentum column is there exactly when the momentum file loaded. */
  lemma MomentumOnlyWhenLoaded(t25: Option<Table<Period>>, tff: Option<Table<Period>>, tmom: Option<Table<Period>>)
    requires Assemble(t25, tff, tmom).Success?
    ensures MomentumLabel in Assemble(t25, tff, tmom).value.columns <==> tmom.Some?
  {
    MomentumLabelIff(tmom.Some?);
  }

  /** The frame the metrics are computed from (`df_calc`), from the lines
      of the three files: it exists exactly when the loaded tables can be
      merged, and then holds the common months from 1990-01 on, once each
      and in the common index's order, each row with the mapped style,
      momentum and Market values. */
  function Dashboard(lines25: seq<string>, linesMom: seq<string>, linesFf5: seq<string>,
                     readCsv: seq<string> -> Option<Table<string>>): (r: Result<Table<Period>, ScriptError>)
    ensures var t25, tmom, tff := LoadSpec(lines25, Keywords25, readCsv), LoadSpec(linesMom, KeywordsMom, readCsv),
                                  LoadSpec(linesFf5, KeywordsFf5, readCsv);
            r.Success? <==> Assemblable(t25, tff, tmom)
    ensures var tmom := LoadSpec(linesMom, KeywordsMom, readCsv);
            r.Success? ==> r.value.columns == Labels(tmom.Some?)
    ensures var t25, tmom, tff := LoadSpec(lines25, Keywords25, readCsv), LoadSpec(linesMom, KeywordsMom, readCsv),
                                  LoadSpec(linesFf5, KeywordsFf5, readCsv);
            r.Success? ==> forall p :: p in Keys(r.value.rows) <==>
                             p in CommonIndex(t25.value, tff.value, tmom) && OnOrAfter(p, Start)
    ensures var t25, tmom, tff := LoadSpec(lines25, Keywords25, readCsv), LoadSpec(linesMom, KeywordsMom, readCsv),
                                  LoadSpec(linesFf5, KeywordsFf5, readCsv);
            r.Success? ==> forall row | row in r.value.rows :: RowFrom(row, t25.value, tff.value, tmom)
    ensures var t25, tmom, tff := LoadSpec(lines25, Keywords25, readCsv), LoadSpec(linesMom, KeywordsMom, readCsv),
                                  LoadSpec(linesFf5, KeywordsFf5, readCsv);
            r.Success? ==> Keys(r.value.rows) == Since(CommonIndex(t25.value, tff.value, tmom))
    ensures r.Success? ==> Distinct(Keys(r.value.rows))
  {
    var t25 := LoadSpec(lines25, Keywords25, readCsv);
    var tmom := LoadSpec(linesMom, KeywordsMom, readCsv);
    var tff := LoadSpec(linesFf5, KeywordsFf5, readCsv);
    var merged :- Assemble(t25, tff, tmom);
    FilteredMerge(t25, tff, tmom);
    Success(SinceStart(merged))
  }

  /** A 25-portfolio file without a header line stops the script before
      anything is merged. */
  lemma HeaderlessPortfoliosAbort(lines25: seq<string>, linesMom: seq<string>, linesFf5: seq<string>,
                                  readCsv: seq<string> -> Option<Table<string>>)
    requires forall j | 0 <= j < |lines25| :: !IsHeader(lines25[j], Keywords25)
    ensures Dashboard(lines25, linesMom, linesFf5, readCsv) == Failure(NoTable("25 portfolios"))
  {
  }

  /** Lines 44 to 75 in order. */
  method Run(lines25: seq<string>, linesMom: seq<string>, linesFf5: seq<string>,
             readCsv: seq<string> -> Option<Table<string>>) returns (r: Result<Table<Period>, ScriptError>)
    ensures r == Dashboard(lines25, linesMom, linesFf5, readCsv)
    ensures var t25, tmom, tff := LoadSpec(lines25, Keywords25, readCsv), LoadSpec(linesMom, KeywordsMom, readCsv),
                                  LoadSpec(linesFf5, KeywordsFf5, readCsv);
            && (r.Success? <==> Assemblable(t25, tff, tmom))
            && (r.Success? ==> forall p :: p in Keys(r.value.rows) <==>
                                 p in CommonIndex(t25.value, tff.value, tmom) && OnOrAfter(p, Start))
            && (r.Success? ==> forall row | row in r.value.rows :: RowFrom(row, t25.value, tff.value, tmom))
            && (r.Success? ==> Keys(r.value.rows) == Since(CommonIndex(t25.value, tff.value, tmom)))
            && (r.Success? ==> Distinct(Keys(r.value.rows)))
  {
    var df25 := Load(lines25, Keywords25, readCsv);
    var dfMom := Load(linesMom, KeywordsMom, readCsv);
    var dfFf5 := Load(linesFf5, KeywordsFf5, readCsv);
    var merged := Assemble(df25, dfFf5, dfMom);
    if merged.Failure? {
      return Failure(merged.error);
    }
    r := Success(SinceStart(merged.value));
  }
}
