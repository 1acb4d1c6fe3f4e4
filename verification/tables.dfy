/** The data frames the script handles: rows keyed by an index label, with
    one numeric cell per named column. */
module Tables {

  /** A numeric cell; `Missing` is pandas' NaN. */
  datatype Cell = Missing | Value(x: real)

  /** Percent to fraction, the `/ 100` the loader applies to every cell. */
  function Scale(c: Cell): (r: Cell)
    ensures r.Missing? <==> c.Missing?
  {
    match c
    case Missing => Missing
    case Value(x) => Value(x / 100.0)
  }

  /** Fraction back to percent. */
  function Unscale(c: Cell): Cell {
    match c
    case Missing => Missing
    case Value(x) => Value(x * 100.0)
  }

  /** Scaling loses nothing: multiplying the fraction by 100 gives back the
      percentage that was read. */
  lemma ScaleRoundTrip(c: Cell)
    ensures Unscale(Scale(c)) == c
  {
  }

  /** Addition of two cells; NaN on either side gives NaN. */
  function Add(a: Cell, b: Cell): (r: Cell)
    ensures r.Value? <==> a.Value? && b.Value?
    ensures r.Value? ==> r.x == a.x + b.x
  {
    if a.Value? && b.Value? then Value(a.x + b.x) else Missing
  }

  /** The cell in column position `j`; a row shorter than the header reads
      as NaN there, as `read_csv` pads it. */
  function CellAt(cells: seq<Cell>, j: nat): Cell {
    if j < |cells| then cells[j] else Missing
  }

  datatype Row<K> = Row(key: K, cells: seq<Cell>)

  /** A frame: its column names (the index column excluded) and its rows
      in file order. */
  datatype Table<K> = Table(columns: seq<string>, rows: seq<Row<K>>)

  /** The index of a frame, in row order. */
  function Keys<K>(rows: seq<Row<K>>): (ks: seq<K>)
    ensures |ks| == |rows|
    ensures forall i | 0 <= i < |rows| :: ks[i] == rows[i].key
  {
    seq(|rows|, i requires 0 <= i < |rows| => rows[i].key)
  }

  /** A label is in the index exactly when some row carries it. */
  lemma KeyIn<K>(rows: seq<Row<K>>, k: K)
    ensures k in Keys(rows) <==> exists x | x in rows :: x.key == k
  {
    if k in Keys(rows) {
      var i :| 0 <= i < |rows| && Keys(rows)[i] == k;
      assert rows[i] in rows;
    }
  }

  /** Boolean-mask selection `df[mask]`: the rows whose key passes `keep`,
      in their original order. */
  function Where<K(!new)>(rows: seq<Row<K>>, keep: K -> bool): (r: seq<Row<K>>)
    ensures |r| <= |rows|
    ensures forall x :: x in r <==> x in rows && keep(x.key)
  {
    if rows == [] then []
    else if keep(rows[0].key) then [rows[0]] + Where(rows[1..], keep)
    else Where(rows[1..], keep)
  }

  /** Selection keeps relative order: selecting from two consecutive blocks
      is selecting from each block in turn. */
  lemma {:induction false} WhereAppend<K(!new)>(a: seq<Row<K>>, b: seq<Row<K>>, keep: K -> bool)
    ensures Where(a + b, keep) == Where(a, keep) + Where(b, keep)
  {
    if a == [] {
      assert a + b == b;
    } else {
      assert (a + b)[0] == a[0];
      assert (a + b)[1..] == a[1..] + b;
      WhereAppend(a[1..], b, keep);
    }
  }

  /** Selection with a test every row passes changes nothing. */
  lemma {:induction false} WhereAll<K(!new)>(rows: seq<Row<K>>, keep: K -> bool)
    requires forall i | 0 <= i < |rows| :: keep(rows[i].key)
    ensures Where(rows, keep) == rows
  {
    if rows != [] {
      WhereAll(rows[1..], keep);
    }
  }
}
