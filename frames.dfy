/** The data-frame operations the scripts use, on a frame held as its column
    names and its rows. Column names are assumed distinct within a frame. */
module Frames {
  import opened Text
  import opened Cells

  datatype Table = Table(columns: seq<string>, rows: seq<Row>)

  /** `pd.DataFrame()`: no columns, no rows. */
  const EmptyTable := Table([], [])

  /** Every row holds one cell per column. */
  predicate WellFormed(t: Table) {
    forall i :: 0 <= i < |t.rows| ==> |t.rows[i]| == |t.columns|
  }

  /** Position of the first column called `n`. */
  function IndexOf(names: seq<string>, n: string): (k: nat)
    requires n in names
    ensures k < |names| && names[k] == n
  {
    if names[0] == n then 0 else 1 + IndexOf(names[1..], n)
  }

  lemma {:induction false} IndexOfFirst(names: seq<string>, n: string, j: nat)
    requires j < |names| && names[j] == n
    ensures IndexOf(names, n) <= j
    ensures forall i :: 0 <= i < IndexOf(names, n) ==> names[i] != n
  {
    if names[0] != n {
      IndexOfFirst(names[1..], n, j - 1);
    }
  }

  /** The cell of `row` under column `n`, or `default` when there is no
      such column. */
  function Pick(names: seq<string>, row: Row, n: string, default: Cell): Cell {
    if n in names then CellAt(row, IndexOf(names, n)) else default
  }

  /** Names after `rename(columns={from: to})`: every column called `from`
      is renamed. */
  function RenameAll(names: seq<string>, from: string, to: string): (r: seq<string>)
    ensures |r| == |names|
  {
    seq(|names|, j requires 0 <= j < |names| => if names[j] == from then to else names[j])
  }

  function Rename(t: Table, from: string, to: string): Table {
    Table(RenameAll(t.columns, from, to), t.rows)
  }

  /** Renaming other names into other names does not move a name. */
  lemma RenameKeepsName(names: seq<string>, from: string, to: string, n: string)
    requires n != from && n != to
    ensures n in RenameAll(names, from, to) <==> n in names
    ensures n in names ==> IndexOf(RenameAll(names, from, to), n) == IndexOf(names, n)
  {
    var r := RenameAll(names, from, to);
    if n in names {
      IndexOfFirst(names, n, IndexOf(names, n));
      IndexOfFirst(r, n, IndexOf(names, n));
      IndexOfFirst(r, n, IndexOf(r, n));
    }
  }

  /** `df[n] = v`: overwrites the column called `n`, or appends it as the
      last column. */
  function Assign(t: Table, n: string, v: Cell): (r: Table)
    requires WellFormed(t)
    ensures WellFormed(r) && |r.rows| == |t.rows| && n in r.columns
    ensures forall m :: m in t.columns ==> m in r.columns
  {
    if n in t.columns then
      var k := IndexOf(t.columns, n);
      Table(t.columns, seq(|t.rows|, i requires 0 <= i < |t.rows| => t.rows[i][k := v]))
    else
      Table(t.columns + [n], seq(|t.rows|, i requires 0 <= i < |t.rows| => t.rows[i] + [v]))
  }

  /** After the assignment, column `n` holds `v` in every row and every
      other column holds what it held. */
  lemma AssignValue(t: Table, n: string, v: Cell, m: string, default: Cell, i: nat)
    requires WellFormed(t) && i < |t.rows|
    ensures Pick(Assign(t, n, v).columns, Assign(t, n, v).rows[i], m, default)
            == if m == n then v else Pick(t.columns, t.rows[i], m, default)
  {
    if n in t.columns {
      AssignOverwrites(t, n, v, m, default, i);
    } else {
      AssignAppends(t, n, v, m, default, i);
    }
  }

  /** `AssignValue` when the column already exists and is overwritten. */
  lemma AssignOverwrites(t: Table, n: string, v: Cell, m: string, default: Cell, i: nat)
    requires WellFormed(t) && i < |t.rows| && n in t.columns
    ensures Pick(Assign(t, n, v).columns, Assign(t, n, v).rows[i], m, default)
            == if m == n then v else Pick(t.columns, t.rows[i], m, default)
  {
    var r := Assign(t, n, v);
    assert r.columns == t.columns;
    if m != n && m in t.columns {
      IndexOfFirst(t.columns, m, IndexOf(t.columns, m));
      IndexOfFirst(t.columns, n, IndexOf(t.columns, n));
    }
  }

  /** `AssignValue` when the column is new and appended last. */
  lemma AssignAppends(t: Table, n: string, v: Cell, m: string, default: Cell, i: nat)
    requires WellFormed(t) && i < |t.rows| && n !in t.columns
    ensures Pick(Assign(t, n, v).columns, Assign(t, n, v).rows[i], m, default)
            == if m == n then v else Pick(t.columns, t.rows[i], m, default)
  {
    var r := Assign(t, n, v);
    assert r.columns == t.columns + [n] && r.rows[i] == t.rows[i] + [v];
    if m != n && m in t.columns {
      var k := IndexOf(t.columns, m);
      IndexOfFirst(t.columns, m, k);
      IndexOfFirst(r.columns, m, k);
      IndexOfFirst(r.columns, m, IndexOf(r.columns, m));
      assert IndexOf(r.columns, m) == k;
    } else if m != n {
      assert m !in r.columns;
    } else {
      IndexOfFirst(r.columns, n, |t.columns|);
    }
  }

  /** Renaming other columns does not change what a name picks. */
  lemma PickRenameOther(names: seq<string>, row: Row, from: string, to: string, m: string, default: Cell)
    requires m != from && m != to
    ensures Pick(RenameAll(names, from, to), row, m, default) == Pick(names, row, m, default)
  {
    RenameKeepsName(names, from, to, m);
  }

  /** `for c in names: if c not in df.columns: df[c] = ""`. */
  function FillMissing(t: Table, names: seq<string>): (r: Table)
    requires WellFormed(t)
    ensures WellFormed(r) && |r.rows| == |t.rows|
  {
    if names == [] then t
    else
      var s := FillMissing(t, names[..|names| - 1]);
      var n := names[|names| - 1];
      if n in s.columns then s else Assign(s, n, Some(""))
  }

  /** After the fill every listed name is a column. */
  lemma {:induction false} FillMissingHas(t: Table, names: seq<string>)
    requires WellFormed(t)
    ensures forall m :: m in t.columns ==> m in FillMissing(t, names).columns
    ensures forall k :: 0 <= k < |names| ==> names[k] in FillMissing(t, names).columns
  {
    if names != [] {
      var init := names[..|names| - 1];
      FillMissingHas(t, init);
      assert forall k :: 0 <= k < |names| - 1 ==> names[k] == init[k];
    }
  }

  /** The fill adds only empty columns: reading any name with "" as the
      default gives the same as before. */
  lemma {:induction false} FillMissingValue(t: Table, names: seq<string>, m: string, i: nat)
    requires WellFormed(t) && i < |t.rows|
    ensures Pick(FillMissing(t, names).columns, FillMissing(t, names).rows[i], m, Some(""))
            == Pick(t.columns, t.rows[i], m, Some(""))
  {
    if names != [] {
      var s := FillMissing(t, names[..|names| - 1]);
      FillMissingValue(t, names[..|names| - 1], m, i);
      var n := names[|names| - 1];
      if n !in s.columns {
        AssignValue(s, n, Some(""), m, Some(""), i);
      }
    }
  }

  /** `df[names]`: the named columns, in the order named. */
  function Select(t: Table, names: seq<string>): (r: Table)
    requires forall k :: 0 <= k < |names| ==> names[k] in t.columns
    ensures r.columns == names && |r.rows| == |t.rows| && WellFormed(r)
    ensures forall i, k :: 0 <= i < |t.rows| && 0 <= k < |names| ==>
              r.rows[i][k] == Pick(t.columns, t.rows[i], names[k], None)
  {
    Table(names, seq(|t.rows|, i requires 0 <= i < |t.rows| =>
      seq(|names|, k requires 0 <= k < |names| => CellAt(t.rows[i], IndexOf(t.columns, names[k])))))
  }

  /** The names of `b` not among `a`, in order. */
  function NewNames(b: seq<string>, a: seq<string>): (r: seq<string>)
    ensures forall n :: n in r <==> n in b && n !in a
  {
    if b == [] then []
    else (if b[0] in a then [] else [b[0]]) + NewNames(b[1..], a)
  }

  /** One row of `t` laid out under `names`; empty where `t` lacks the
      column. */
  function Realign(t: Table, row: Row, names: seq<string>): (r: Row)
    ensures |r| == |names|
  {
    seq(|names|, k requires 0 <= k < |names| => Pick(t.columns, row, names[k], None))
  }

  /** `pd.concat([a, b], ignore_index=True)`: the columns of `a`, then the
      columns only `b` has; the rows of `a`, then the rows of `b`, each
      laid out under those columns. */
  function Concat(a: Table, b: Table): (r: Table)
    ensures WellFormed(r) && |r.rows| == |a.rows| + |b.rows|
  {
    var names := a.columns + NewNames(b.columns, a.columns);
    Table(names,
          seq(|a.rows|, i requires 0 <= i < |a.rows| => Realign(a, a.rows[i], names))
          + seq(|b.rows|, i requires 0 <= i < |b.rows| => Realign(b, b.rows[i], names)))
  }

  predicate Distinct(names: seq<string>) {
    forall i, j :: 0 <= i < j < |names| ==> names[i] != names[j]
  }

  /** A row laid out under its own distinct columns is itself. */
  lemma RealignSame(t: Table, row: Row)
    requires Distinct(t.columns) && |row| == |t.columns|
    ensures Realign(t, row, t.columns) == row
  {
    forall k | 0 <= k < |row|
      ensures Realign(t, row, t.columns)[k] == row[k]
    {
      IndexOfFirst(t.columns, t.columns[k], k);
    }
  }

  /** Two frames with the same distinct columns concatenate by putting the
      rows of the second after the rows of the first. */
  lemma ConcatSameColumns(a: Table, b: Table)
    requires WellFormed(a) && WellFormed(b) && a.columns == b.columns && Distinct(a.columns)
    ensures Concat(a, b) == Table(a.columns, a.rows + b.rows)
  {
    NewNamesNone(b.columns, a.columns);
    var c := Concat(a, b);
    forall i | 0 <= i < |a.rows| + |b.rows|
      ensures c.rows[i] == (a.rows + b.rows)[i]
    {
      if i < |a.rows| {
        RealignSame(a, a.rows[i]);
      } else {
        RealignSame(b, b.rows[i - |a.rows|]);
      }
    }
  }

  /** Concatenating with an empty frame gives the other frame. */
  lemma ConcatEmpty(t: Table)
    requires WellFormed(t) && Distinct(t.columns)
    ensures Concat(EmptyTable, t) == t && Concat(t, EmptyTable) == t
  {
    NewNamesAll(t.columns);
    var extra := NewNames(EmptyTable.columns, t.columns);
    assert extra == [];
    forall i | 0 <= i < |t.rows|
      ensures Concat(EmptyTable, t).rows[i] == t.rows[i]
      ensures Concat(t, EmptyTable).rows[i] == t.rows[i]
    {
      RealignSame(t, t.rows[i]);
    }
  }

  lemma {:induction false} NewNamesNone(b: seq<string>, a: seq<string>)
    requires forall n :: n in b ==> n in a
    ensures NewNames(b, a) == []
  {
    if b != [] {
      NewNamesNone(b[1..], a);
    }
  }

  lemma {:induction false} NewNamesAll(b: seq<string>)
    requires Distinct(b)
    ensures NewNames(b, []) == b
  {
    if b != [] {
      NewNamesAll(b[1..]);
    }
  }

  /** `pd.concat(frames, ignore_index=True)` over a list. */
  function ConcatAll(ts: seq<Table>): (r: Table)
    ensures WellFormed(r)
  {
    if ts == [] then EmptyTable
    else Concat(ConcatAll(ts[..|ts| - 1]), ts[|ts| - 1])
  }

  /** The number of rows of all the frames together. */
  function RowCount(ts: seq<Table>): nat {
    if ts == [] then 0 else RowCount(ts[..|ts| - 1]) + |ts[|ts| - 1].rows|
  }

  /** The rows of `f`, laid out under the columns of `t`, are the rows of
      `t` from position `offset` on. */
  predicate BlockAt(t: Table, f: Table, offset: nat) {
    && offset + |f.rows| <= |t.rows|
    && forall i :: 0 <= i < |f.rows| ==> t.rows[offset + i] == Realign(f, f.rows[i], t.columns)
  }

  /** Each frame's rows are in `t`, laid out under the columns of `t`, right
      after the rows of the frames before it. */
  predicate RowsInOrder(ts: seq<Table>, t: Table)
    decreases |ts|
  {
    ts == []
    || (RowsInOrder(ts[..|ts| - 1], t) && BlockAt(t, ts[|ts| - 1], RowCount(ts[..|ts| - 1])))
  }

  /** The concatenation holds every row of every frame, in frame order: the
      rows of each frame come after the rows of the frames before it, laid
      out under the concatenation's columns. */
  lemma {:induction false} ConcatAllRows(ts: seq<Table>)
    ensures |ConcatAll(ts).rows| == RowCount(ts)
    ensures RowsInOrder(ts, ConcatAll(ts))
  {
    if ts != [] {
      var init := ts[..|ts| - 1];
      var last := ts[|ts| - 1];
      ConcatAllRows(init);
      ConcatAllColumns(init);
      var a := ConcatAll(init);
      forall j, n | 0 <= j < |init| && n in init[j].columns
        ensures n in a.columns
      {
      }
      ConcatShape(a, last);
      WiderRows(init, a, Concat(a, last));
      assert BlockAt(Concat(a, last), last, RowCount(init));
    }
  }

  /** What `Concat(a, b)` is made of: the columns of `a` among its columns,
      the rows of `a` and then those of `b`, laid out under its columns. */
  lemma ConcatShape(a: Table, b: Table)
    ensures forall n :: n in a.columns ==> n in Concat(a, b).columns
    ensures forall p :: 0 <= p < |a.rows| ==>
              Concat(a, b).rows[p] == Realign(a, a.rows[p], Concat(a, b).columns)
    ensures forall i :: 0 <= i < |b.rows| ==>
              Concat(a, b).rows[|a.rows| + i] == Realign(b, b.rows[i], Concat(a, b).columns)
  {
  }

  /** Rows in order in `a` stay in order in a table `c` that begins with the
      rows of `a` laid out under wider columns. */
  lemma {:induction false} WiderRows(ts: seq<Table>, a: Table, c: Table)
    requires RowsInOrder(ts, a)
    requires forall j, n :: 0 <= j < |ts| && n in ts[j].columns ==> n in a.columns
    requires |a.rows| <= |c.rows|
    requires forall n :: n in a.columns ==> n in c.columns
    requires forall p :: 0 <= p < |a.rows| ==> c.rows[p] == Realign(a, a.rows[p], c.columns)
    ensures RowsInOrder(ts, c)
  {
    if ts != [] {
      var init := ts[..|ts| - 1];
      forall j, n | 0 <= j < |init| && n in init[j].columns
        ensures n in a.columns
      {
        assert init[j] == ts[j];
      }
      WiderRows(init, a, c);
      WiderBlock(ts[|ts| - 1], a, c, RowCount(init));
    }
  }

  /** One frame's block of rows, carried from `a` over to `c`. */
  lemma WiderBlock(f: Table, a: Table, c: Table, offset: nat)
    requires BlockAt(a, f, offset)
    requires forall n :: n in f.columns ==> n in a.columns
    requires |a.rows| <= |c.rows|
    requires forall p :: 0 <= p < |a.rows| ==> c.rows[p] == Realign(a, a.rows[p], c.columns)
    ensures BlockAt(c, f, offset)
  {
    forall i | 0 <= i < |f.rows|
      ensures c.rows[offset + i] == Realign(f, f.rows[i], c.columns)
    {
      var row := f.rows[i];
      assert a.rows[offset + i] == Realign(f, row, a.columns);
      RealignTwice(f, row, a, c.columns);
    }
  }

  /** Laying a row out under wider columns and then under `names` is laying
      it out under `names` directly. */
  lemma RealignTwice(t: Table, row: Row, w: Table, names: seq<string>)
    requires forall n :: n in t.columns ==> n in w.columns
    ensures Realign(w, Realign(t, row, w.columns), names) == Realign(t, row, names)
  {
    var wider := w.columns;
    var mid := Realign(t, row, wider);
    forall k | 0 <= k < |names|
      ensures Pick(wider, mid, names[k], None) == Pick(t.columns, row, names[k], None)
    {
      if names[k] in wider {
        assert mid[IndexOf(wider, names[k])] == Pick(t.columns, row, names[k], None);
      }
    }
  }

  /** A column of the concatenation is a column of one of the frames, and
      every column of every frame is one of its columns. */
  lemma {:induction false} ConcatAllColumns(ts: seq<Table>)
    ensures forall n :: n in ConcatAll(ts).columns <==> exists j :: 0 <= j < |ts| && n in ts[j].columns
  {
    if ts != [] {
      var init := ts[..|ts| - 1];
      ConcatAllColumns(init);
      assert forall j :: 0 <= j < |init| ==> init[j] == ts[j];
    }
  }

  /** Names with a function applied to each, as `df.columns.str.<op>()`
      does. */
  function MapNames(names: seq<string>, f: string -> string): (r: seq<string>)
    ensures |r| == |names| && forall j :: 0 <= j < |names| ==> r[j] == f(names[j])
  {
    seq(|names|, j requires 0 <= j < |names| => f(names[j]))
  }
}
