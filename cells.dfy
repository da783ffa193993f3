/** Cell values shared by the spreadsheet and the data-frame models. */
module Cells {
  import opened Text

  datatype Option<+T> = None | Some(value: T)

  /** A step that either yields a value or raises with a message. */
  datatype Result<+T> = Success(value: T) | Failure(error: string)

  /** One cell: `None` is an empty cell (openpyxl's `None`, pandas' NaN). */
  type Cell = Option<string>

  type Row = seq<Cell>

  /** Python truthiness of a cell value: present and not the empty string. */
  predicate Truthy(c: Cell) {
    c.Some? && c.value != ""
  }

  /** A cell read by position. openpyxl pads every row it yields to the
      sheet's width with empty cells, so a read past the end is empty. */
  function CellAt(r: Row, i: nat): Cell {
    if i < |r| then r[i] else None
  }

  /** A worksheet: its rows from row 1 (the header) down. openpyxl reports
      at least one row for every sheet, so row 1 always exists, possibly
      blank. */
  type Sheet = s: seq<Row> | |s| >= 1 witness [[]]

  function Header(s: Sheet): Row {
    s[0]
  }

  /** Rows 2 and below. */
  function DataRows(s: Sheet): seq<Row> {
    s[1..]
  }

  /** `a` is `b` with some elements left out, the rest in the same order:
      `m` says where each element of `a` sits in `b`. */
  ghost predicate SubsequenceAt<T>(a: seq<T>, b: seq<T>, m: seq<nat>) {
    && |m| == |a|
    && (forall i :: 0 <= i < |m| ==> m[i] < |b| && a[i] == b[m[i]])
    && (forall i, j :: 0 <= i < j < |m| ==> m[i] < m[j])
  }

  ghost predicate SubsequenceOf<T>(a: seq<T>, b: seq<T>) {
    exists m: seq<nat> :: SubsequenceAt(a, b, m)
  }

  function Shift(m: seq<nat>): (r: seq<nat>)
    ensures |r| == |m| && forall i :: 0 <= i < |m| ==> r[i] == m[i] + 1
  {
    seq(|m|, i requires 0 <= i < |m| => m[i] + 1)
  }

  /** A subsequence of the tail, with or without the head in front, is a
      subsequence of the whole. */
  lemma SubsequenceCons<T>(a: seq<T>, b: seq<T>, keep: bool)
    requires b != [] && SubsequenceOf(a, b[1..])
    ensures SubsequenceOf(if keep then [b[0]] + a else a, b)
  {
    var m :| SubsequenceAt(a, b[1..], m);
    var s := Shift(m);
    if keep {
      var m' := [0] + s;
      assert SubsequenceAt([b[0]] + a, b, m');
    } else {
      assert SubsequenceAt(a, b, s);
    }
  }

  lemma SubsequenceEmpty<T>(b: seq<T>)
    ensures SubsequenceOf([], b)
  {
    var m: seq<nat> := [];
    assert SubsequenceAt([], b, m);
  }
}
