/** Time-indexed tables as the pipeline sees them: named numeric columns over
    rows that carry a timestamp (seconds).  A cell is `None` where pandas would
    hold NaN, so "undefined" is explicit.  Frames are values: an operation that
    pandas performs on a copy returns a new frame here. */
module Frames {

  datatype Option<+T> = None | Some(value: T)

  datatype Result<+T, +E> = Ok(value: T) | Err(error: E)

  /** One numeric cell; `None` is the missing value. */
  type Cell = Option<real>

  /** One row: its index label (a time in seconds) and one cell per column. */
  datatype Row = Row(time: int, cells: seq<Cell>)

  /** A table stored row by row; `names[j]` labels `cells[j]` of every row. */
  datatype Frame = Frame(names: seq<string>, rows: seq<Row>)

  /** Every row has exactly one cell per column name. */
  predicate Shaped(f: Frame)
  {
    forall i :: 0 <= i < |f.rows| ==> |f.rows[i].cells| == |f.names|
  }

  /** A row none of whose cells is missing. */
  predicate AllDefined(r: Row)
  {
    forall k :: 0 <= k < |r.cells| ==> r.cells[k].Some?
  }

  /** A frame without a single missing cell. */
  predicate GapFree(f: Frame)
  {
    forall i :: 0 <= i < |f.rows| ==> AllDefined(f.rows[i])
  }

  /** Index labels strictly increase down the rows. */
  predicate Increasing(rows: seq<Row>)
  {
    forall i, j :: 0 <= i < j < |rows| ==> rows[i].time < rows[j].time
  }

  /** Position of the first column labelled `x`. */
  function IndexOf(names: seq<string>, x: string): (j: nat)
    requires x in names
    ensures j < |names| && names[j] == x
    ensures forall k :: 0 <= k < j ==> names[k] != x
  {
    if names[0] == x then 0 else 1 + IndexOf(names[1..], x)
  }

  /** `df[x]`: the cells of the first column labelled `x`, top to bottom. */
  function Column(f: Frame, x: string): (col: seq<Cell>)
    requires Shaped(f) && x in f.names
    ensures |col| == |f.rows|
  {
    var j := IndexOf(f.names, x);
    seq(|f.rows|, i requires 0 <= i < |f.rows| => f.rows[i].cells[j])
  }

  /** Row i of `df[x]` is the cell of row i at position j, for the first
      position j labelled `x`; later columns with the same label are not read. */
  lemma ColumnCells(f: Frame, x: string, j: nat)
    requires Shaped(f) && j < |f.names| && f.names[j] == x
    requires forall k :: 0 <= k < j ==> f.names[k] != x
    ensures forall i :: 0 <= i < |f.rows| ==> Column(f, x)[i] == f.rows[i].cells[j]
  {
    assert IndexOf(f.names, x) == j;
  }

  /** `df[x] = col`: an existing column `x` is overwritten where it stands,
      otherwise `x` is appended as the last column. */
  function SetColumn(f: Frame, x: string, col: seq<Cell>): (g: Frame)
    requires Shaped(f) && |col| == |f.rows|
    ensures Shaped(g) && |g.rows| == |f.rows|
    ensures g.names == if x in f.names then f.names else f.names + [x]
    ensures forall i :: 0 <= i < |g.rows| ==> g.rows[i].time == f.rows[i].time
  {
    if x in f.names then
      var j := IndexOf(f.names, x);
      Frame(f.names, seq(|f.rows|, i requires 0 <= i < |f.rows| =>
        Row(f.rows[i].time, f.rows[i].cells[j := col[i]])))
    else
      Frame(f.names + [x], seq(|f.rows|, i requires 0 <= i < |f.rows| =>
        Row(f.rows[i].time, f.rows[i].cells + [col[i]])))
  }

  /** After `df[x] = col`, column `x` reads back as `col` and every other
      column reads back as before. */
  lemma SetColumnReads(f: Frame, x: string, col: seq<Cell>, y: string)
    requires Shaped(f) && |col| == |f.rows|
    requires y == x || y in f.names
    ensures y in SetColumn(f, x, col).names
    ensures Column(SetColumn(f, x, col), y) == if y == x then col else Column(f, y)
  {
    var g := SetColumn(f, x, col);
    if x in f.names {
      assert IndexOf(g.names, y) == IndexOf(f.names, y);
    } else if y != x {
      var j := IndexOf(f.names, y);
      assert g.names[j] == y;
      assert IndexOf(g.names, y) == j;
    } else {
      assert IndexOf(g.names, y) == |f.names|;
    }
  }

  /** A row stays complete under `df[x] = col` when the new cell is defined. */
  lemma SetColumnKeepsDefined(f: Frame, x: string, col: seq<Cell>, i: nat)
    requires Shaped(f) && |col| == |f.rows| && i < |f.rows|
    requires AllDefined(f.rows[i]) && col[i].Some?
    ensures AllDefined(SetColumn(f, x, col).rows[i])
  {
  }

  /** A complete row has a defined cell in every named column. */
  lemma DefinedRowCell(f: Frame, x: string, i: nat)
    requires Shaped(f) && x in f.names && i < |f.rows|
    requires AllDefined(f.rows[i])
    ensures Column(f, x)[i].Some?
  {
  }

  /** `dropna()` on the rows: keep exactly the complete rows, in order. */
  function DropNaRows(rows: seq<Row>): (kept: seq<Row>)
    ensures |kept| <= |rows|
    ensures forall k :: 0 <= k < |kept| ==> AllDefined(kept[k]) && kept[k] in rows
  {
    if rows == [] then []
    else if AllDefined(rows[0]) then [rows[0]] + DropNaRows(rows[1..])
    else DropNaRows(rows[1..])
  }

  /** `df.dropna()`: same columns, only the rows without a missing cell. */
  function DropNa(f: Frame): (g: Frame)
    ensures g.names == f.names && GapFree(g)
    ensures Shaped(f) ==> Shaped(g)
  {
    Frame(f.names, DropNaRows(f.rows))
  }

  /** The filter works row by row: dropping from a concatenation is
      concatenating the drops, so the survivors keep their relative order. */
  lemma {:induction false} DropNaAppend(a: seq<Row>, b: seq<Row>)
    ensures DropNaRows(a + b) == DropNaRows(a) + DropNaRows(b)
  {
    if a != [] {
      assert (a + b)[1..] == a[1..] + b;
      DropNaAppend(a[1..], b);
    } else {
      assert a + b == b;
    }
  }

  /** A row survives exactly when it occurs in the input and is complete. */
  lemma {:induction false} DropNaMembers(rows: seq<Row>, r: Row)
    ensures r in DropNaRows(rows) <==> r in rows && AllDefined(r)
  {
    if rows != [] {
      DropNaMembers(rows[1..], r);
      assert rows == [rows[0]] + rows[1..];
    }
  }

  /** When the complete rows are exactly those at positions lo..hi-1, the
      filter returns that slice. */
  lemma {:induction false} DropNaBlock(rows: seq<Row>, lo: nat, hi: nat)
    requires lo <= hi <= |rows|
    requires forall i :: 0 <= i < |rows| ==> (AllDefined(rows[i]) <==> lo <= i < hi)
    ensures DropNaRows(rows) == rows[lo..hi]
  {
    if rows != [] {
      var rest := rows[1..];
      var lo', hi' := if lo == 0 then 0 else lo - 1, if hi == 0 then 0 else hi - 1;
      forall i | 0 <= i < |rest|
        ensures AllDefined(rest[i]) <==> lo' <= i < hi'
      {
        assert rest[i] == rows[i + 1];
      }
      DropNaBlock(rest, lo', hi');
      if lo == 0 && lo < hi {
        assert DropNaRows(rows) == [rows[0]] + rest[lo'..hi'];
        assert rows[lo..hi] == [rows[0]] + rest[lo'..hi'];
      } else {
        assert DropNaRows(rows) == rest[lo'..hi'];
        assert rows[lo..hi] == rest[lo'..hi'];
      }
    }
  }

  /** Dropping twice drops nothing more. */
  lemma {:induction false} DropNaIdempotent(rows: seq<Row>)
    ensures DropNaRows(DropNaRows(rows)) == DropNaRows(rows)
  {
    if rows != [] {
      DropNaIdempotent(rows[1..]);
      if AllDefined(rows[0]) {
        assert ([rows[0]] + DropNaRows(rows[1..]))[1..] == DropNaRows(rows[1..]);
      }
    }
  }

  /** The survivors of a strictly time-ordered table are strictly time-ordered. */
  lemma {:induction false} DropNaKeepsOrder(rows: seq<Row>)
    requires Increasing(rows)
    ensures Increasing(DropNaRows(rows))
  {
    if rows != [] {
      DropNaKeepsOrder(rows[1..]);
      var rest := DropNaRows(rows[1..]);
      forall k | 0 <= k < |rest|
        ensures rows[0].time < rest[k].time
      {
        assert rest[k] in rows[1..];
      }
    }
  }
}
