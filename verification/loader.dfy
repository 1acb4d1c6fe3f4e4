/** `load_smart_csv_content`: find the header line of a loosely structured
    CSV export, read the table from there, keep the monthly rows and
    normalise keys, cells and column names. Every failure gives `None`. */
module Loader {
  import opened Wrappers
  import opened Text
  import opened Periods
  import opened Tables

  /** A header line mentions one of the keywords and has a comma. */
  predicate IsHeader(line: string, keywords: seq<string>)
    ensures IsHeader(line, keywords) <==>
              && (exists k, i | k in keywords :: OccursAt(line, k, i))
              && (exists i :: OccursAt(line, ",", i))
  {
    MentionsKeyword(line, keywords);
    ContainsIff(line, ",");
    (exists k | k in keywords :: Contains(line, k)) && Contains(line, ",")
  }

  /** A line mentions a keyword exactly when one occurs in it at some offset. */
  lemma MentionsKeyword(line: string, keywords: seq<string>)
    ensures (exists k | k in keywords :: Contains(line, k)) <==> exists k, i | k in keywords :: OccursAt(line, k, i)
  {
    forall k | k in keywords {
      ContainsIff(line, k);
    }
  }

  /** The first header line at or after position `from`. */
  function HeaderFrom(lines: seq<string>, keywords: seq<string>, from: nat): (r: Option<nat>)
    requires from <= |lines|
    ensures r.Some? ==> from <= r.value < |lines| && IsHeader(lines[r.value], keywords)
    ensures r.Some? ==> forall j | from <= j < r.value :: !IsHeader(lines[j], keywords)
    ensures r.None? ==> forall j | from <= j < |lines| :: !IsHeader(lines[j], keywords)
    decreases |lines| - from
  {
    if from == |lines| then None
    else if IsHeader(lines[from], keywords) then Some(from)
    else HeaderFrom(lines, keywords, from + 1)
  }

  /** The position of the header: the first line that is one, if any. */
  function HeaderRow(lines: seq<string>, keywords: seq<string>): (r: Option<nat>)
    ensures r.Some? ==> r.value < |lines| && IsHeader(lines[r.value], keywords)
    ensures r.Some? ==> forall j | 0 <= j < r.value :: !IsHeader(lines[j], keywords)
    ensures r.None? <==> forall j | 0 <= j < |lines| :: !IsHeader(lines[j], keywords)
  {
    HeaderFrom(lines, keywords, 0)
  }

  /** The scan over `lines` that sets `start_row` and `found` and stops at
      the first header line. */
  method FindHeader(lines: seq<string>, keywords: seq<string>) returns (found: bool, start: nat)
    ensures found ==> start < |lines| && IsHeader(lines[start], keywords)
    ensures found ==> forall j | 0 <= j < start :: !IsHeader(lines[j], keywords)
    ensures !found ==> start == 0 && forall j | 0 <= j < |lines| :: !IsHeader(lines[j], keywords)
    ensures found <==> HeaderRow(lines, keywords) == Some(start)
  {
    start, found := 0, false;
    var i := 0;
    while i < |lines|
      invariant 0 <= i <= |lines|
      invariant forall j | 0 <= j < i :: !IsHeader(lines[j], keywords)
    {
      if IsHeader(lines[i], keywords) {
        start, found := i, true;
        break;
      }
      i := i + 1;
    }
  }

  /** A monthly row: its key, as a string, has exactly six characters. */
  predicate SixChars(key: string) {
    |key| == 6
  }

  /** `df[df.index.astype(str).str.len() == 6]`. */
  function KeepMonthly(rows: seq<Row<string>>): (r: seq<Row<string>>)
    ensures forall x | x in r :: |x.key| == 6
    ensures forall x | x in rows && |x.key| == 6 :: x in r
  {
    Where(rows, SixChars)
  }

  /** `pd.to_datetime(df.index, format="%Y%m")`: every key is parsed, and
      one key that does not parse makes the whole conversion fail. */
  function ParseKeys(rows: seq<Row<string>>): (r: Option<seq<Row<Period>>>)
    ensures r.None? <==> exists i | 0 <= i < |rows| :: Parse(rows[i].key).None?
    ensures r.Some? ==> |r.value| == |rows|
    ensures r.Some? ==> forall i | 0 <= i < |rows| ::
              Parse(rows[i].key) == Some(r.value[i].key) && r.value[i].cells == rows[i].cells
  {
    if rows == [] then Some([])
    else
      match Parse(rows[0].key)
      case None => None
      case Some(p) =>
        match ParseKeys(rows[1..])
        case None => None
        case Some(rest) => Some([Row(p, rows[0].cells)] + rest)
  }

  /** `df / 100` on one row. */
  function ScaleRow<K>(row: Row<K>): (r: Row<K>)
    ensures r.key == row.key && |r.cells| == |row.cells|
    ensures forall j | 0 <= j < |row.cells| :: Unscale(r.cells[j]) == row.cells[j]
  {
    Row(row.key, seq(|row.cells|, j requires 0 <= j < |row.cells| => Scale(row.cells[j])))
  }

  /** `[c.strip() for c in df.columns]`. */
  function StripAll(columns: seq<string>): (r: seq<string>)
    ensures |r| == |columns|
    ensures forall i | 0 <= i < |r| :: IsStripped(r[i]) && TrimmedAt(columns[i], r[i], LeadingSpace(columns[i]))
  {
    seq(|columns|, i requires 0 <= i < |columns| => Strip(columns[i]))
  }

  /** Cleaning column names a second time changes nothing. */
  lemma StripAllIdempotent(columns: seq<string>)
    ensures StripAll(StripAll(columns)) == StripAll(columns)
  {
    var once := StripAll(columns);
    forall i | 0 <= i < |columns|
      ensures StripAll(once)[i] == once[i]
    {
      StripStripped(once[i]);
    }
  }

  /** Lines 32 to 38 on the frame `read_csv` produced: keep the monthly
      rows, parse their keys, scale the cells, strip the column names. */
  function Clean(raw: Table<string>): (r: Option<Table<Period>>)
    ensures r.None? <==> exists x | x in raw.rows :: |x.key| == 6 && Parse(x.key).None?
    ensures r.Some? ==> r.value.columns == StripAll(raw.columns)
    ensures r.Some? ==> |r.value.rows| == |KeepMonthly(raw.rows)|
    ensures r.Some? ==> forall i | 0 <= i < |r.value.rows| :: LoadedFrom(r.value.rows[i], KeepMonthly(raw.rows)[i])
  {
    var monthly := KeepMonthly(raw.rows);
    MonthlyKeysFail(raw.rows);
    match ParseKeys(monthly)
    case None => None
    case Some(rows) =>
      var loaded := seq(|rows|, i requires 0 <= i < |rows| => ScaleRow(rows[i]));
      assert forall i | 0 <= i < |loaded| :: LoadedFrom(loaded[i], monthly[i]) by {
        forall i | 0 <= i < |loaded|
          ensures LoadedFrom(loaded[i], monthly[i])
        {
          assert Parse(monthly[i].key) == Some(rows[i].key);
        }
      }
      Some(Table(StripAll(raw.columns), loaded))
  }

  /** A loaded row comes from the file row `src`: its month is valid and
      spelled by `src`'s key, and its cells are `src`'s scaled. */
  predicate LoadedFrom(row: Row<Period>, src: Row<string>) {
    && Valid(row.key)
    && Format(row.key) == src.key
    && row == ScaleRow(Row(row.key, src.cells))
  }

  /** Parsing the monthly keys fails exactly when some six-character key
      of the file does not parse. */
  lemma MonthlyKeysFail(rows: seq<Row<string>>)
    ensures ParseKeys(KeepMonthly(rows)).None? <==> exists x | x in rows :: |x.key| == 6 && Parse(x.key).None?
  {
    var monthly := KeepMonthly(rows);
    if ParseKeys(monthly).None? {
      var i :| 0 <= i < |monthly| && Parse(monthly[i].key).None?;
      assert monthly[i] in monthly;
    }
    if exists x | x in rows :: |x.key| == 6 && Parse(x.key).None? {
      var x :| x in rows && |x.key| == 6 && Parse(x.key).None?;
      assert x in monthly;
      var i :| 0 <= i < |monthly| && monthly[i] == x;
    }
  }

  /** What `load_smart_csv_content` returns for the file with these lines.
      `readCsv` is `pd.read_csv(..., skiprows=start_row, index_col=0)`
      applied to the lines from the header on; `None` from it is an
      exception it raised. */
  function LoadSpec(lines: seq<string>, keywords: seq<string>,
                    readCsv: seq<string> -> Option<Table<string>>): (r: Option<Table<Period>>)
    ensures r.Some? <==>
              && HeaderRow(lines, keywords).Some?
              && var raw := readCsv(lines[HeaderRow(lines, keywords).value..]);
              && raw.Some?
              && forall x | x in raw.value.rows && |x.key| == 6 :: Parse(x.key).Some?
    ensures r.Some? ==> forall c | c in r.value.columns :: IsStripped(c)
    ensures r.Some? ==> forall row | row in r.value.rows :: Valid(row.key)
  {
    match HeaderRow(lines, keywords)
    case None => None
    case Some(start) =>
      match readCsv(lines[start..])
      case None => None
      case Some(raw) => Clean(raw)
  }

  /** `load_smart_csv_content(file_path, keywords)` on the lines of the file. */
  method Load(lines: seq<string>, keywords: seq<string>,
              readCsv: seq<string> -> Option<Table<string>>) returns (r: Option<Table<Period>>)
    ensures r == LoadSpec(lines, keywords, readCsv)
    ensures (forall j | 0 <= j < |lines| :: !IsHeader(lines[j], keywords)) ==> r.None?
    ensures r.Some? ==> forall c | c in r.value.columns :: IsStripped(c)
  {
    var found, start := FindHeader(lines, keywords);
    if !found {
      return None;
    }
    var raw := readCsv(lines[start..]);
    if raw.None? {
      return None;
    }
    r := Clean(raw.value);
  }

  /** No monthly row of the file is lost: each six-character key is the
      spelling of the period of some loaded row. */
  lemma MonthlyRowsLoaded(raw: Table<string>, t: Table<Period>)
    requires Clean(raw) == Some(t)
    ensures forall x | x in raw.rows && |x.key| == 6 ::
              exists i | 0 <= i < |t.rows| :: Parse(x.key) == Some(t.rows[i].key)
  {
    var monthly := KeepMonthly(raw.rows);
    assert |t.rows| == |monthly|;
    forall x | x in raw.rows && |x.key| == 6
      ensures exists i | 0 <= i < |t.rows| :: Parse(x.key) == Some(t.rows[i].key)
    {
      assert x in monthly;
      var k :| 0 <= k < |monthly| && monthly[k] == x;
      assert LoadedFrom(t.rows[k], monthly[k]);
      LoadedKeyParses(t.rows[k], x);
    }
  }

  /** The key of a file row parses to the month of the row loaded from it. */
  lemma LoadedKeyParses(row: Row<Period>, src: Row<string>)
    requires LoadedFrom(row, src)
    ensures Parse(src.key) == Some(row.key)
  {
    ParseFormat(row.key);
  }

  /** The six-character test does not ask for digits: a key such as a year
      padded to six characters passes it, fails to parse, and takes the
      good monthly rows down with it. */
  lemma PaddedYearSinksLoad(good: seq<Cell>, annual: seq<Cell>)
    ensures Clean(Table(["Mkt-RF"], [Row("199001", good), Row("  1990", annual)])) == None
  {
    var bad := Row("  1990", annual);
    var rows := [Row("199001", good), bad];
    assert bad in rows && |bad.key| == 6;
    assert Parse(bad.key).None? by {
      assert !IsDigit(bad.key[0]);
    }
  }
}
