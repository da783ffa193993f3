/** The unification block of the main script: both projected sources are
    concatenated, rows without an id are dropped, each id keeps its last
    row, and an empty result column is added. */
module Unification {
  import opened Text
  import opened Cells
  import opened Frames
  import opened ColumnMapping

  /** The column the template fills in itself. */
  const RecordingResult := "RESULTADO_GRABACION"

  /** Lines 122-123: the id is present and not blank once stripped. */
  predicate HasId(c: Cell) {
    c.Some? && Strip(c.value) != ""
  }

  /** The rows whose id (column `k`) is present and not blank, in order. */
  function DropBlankIds(rows: seq<Row>, k: nat): seq<Row> {
    if rows == [] then []
    else (if HasId(CellAt(rows[0], k)) then [rows[0]] else []) + DropBlankIds(rows[1..], k)
  }

  /** The ids (column `k`) of some rows. */
  function IdsOf(rows: seq<Row>, k: nat): set<Cell> {
    if rows == [] then {} else {CellAt(rows[0], k)} + IdsOf(rows[1..], k)
  }

  /** `drop_duplicates(subset=[id], keep="last")`: a row survives when no
      later row has its id. */
  function DedupLast(rows: seq<Row>, k: nat): seq<Row> {
    if rows == [] then []
    else (if CellAt(rows[0], k) in IdsOf(rows[1..], k) then [] else [rows[0]]) + DedupLast(rows[1..], k)
  }

  /** Row `i` is the last row with its id. */
  predicate IsLast(rows: seq<Row>, i: nat, k: nat)
    requires i < |rows|
  {
    forall j :: i < j < |rows| ==> CellAt(rows[j], k) != CellAt(rows[i], k)
  }

  // ----- The filter on ids -----

  /** A row survives the filter exactly when it has an id. */
  lemma {:induction false} DropBlankIdsMembers(rows: seq<Row>, k: nat)
    ensures forall r :: r in DropBlankIds(rows, k) <==> r in rows && HasId(CellAt(r, k))
  {
    if rows != [] {
      DropBlankIdsMembers(rows[1..], k);
      assert forall r :: r in rows <==> r == rows[0] || r in rows[1..];
    }
  }

  /** The surviving rows keep their order. */
  lemma {:induction false} DropBlankIdsInOrder(rows: seq<Row>, k: nat)
    ensures SubsequenceOf(DropBlankIds(rows, k), rows)
  {
    if rows == [] {
      SubsequenceEmpty(rows);
    } else {
      DropBlankIdsInOrder(rows[1..], k);
      var rest := DropBlankIds(rows[1..], k);
      SubsequenceCons(rest, rows, HasId(CellAt(rows[0], k)));
      assert [] + rest == rest;
    }
  }

  // ----- The deduplication -----

  lemma {:induction false} IdsOfMembers(rows: seq<Row>, k: nat)
    ensures forall x :: x in IdsOf(rows, k) <==> exists i :: 0 <= i < |rows| && CellAt(rows[i], k) == x
  {
    if rows != [] {
      IdsOfMembers(rows[1..], k);
      assert forall i :: 1 <= i < |rows| ==> rows[i] == rows[1..][i - 1];
    }
  }

  /** No id is lost: the survivors carry exactly the ids of the input. */
  lemma {:induction false} DedupKeepsIds(rows: seq<Row>, k: nat)
    ensures IdsOf(DedupLast(rows, k), k) == IdsOf(rows, k)
  {
    if rows != [] {
      DedupKeepsIds(rows[1..], k);
      var head: seq<Row> := if CellAt(rows[0], k) in IdsOf(rows[1..], k) then [] else [rows[0]];
      IdsOfAppend(head, DedupLast(rows[1..], k), k);
    }
  }

  lemma {:induction false} IdsOfAppend(a: seq<Row>, b: seq<Row>, k: nat)
    ensures IdsOf(a + b, k) == IdsOf(a, k) + IdsOf(b, k)
  {
    if a != [] {
      assert (a + b)[1..] == a[1..] + b;
      IdsOfAppend(a[1..], b, k);
    } else {
      assert a + b == b;
    }
  }

  /** After the deduplication no two rows share an id. */
  lemma {:induction false} DedupUnique(rows: seq<Row>, k: nat)
    ensures var d := DedupLast(rows, k);
            forall i, j :: 0 <= i < j < |d| ==> CellAt(d[i], k) != CellAt(d[j], k)
  {
    if rows != [] {
      var rest := DedupLast(rows[1..], k);
      DedupUnique(rows[1..], k);
      if CellAt(rows[0], k) !in IdsOf(rows[1..], k) {
        DedupKeepsIds(rows[1..], k);
        IdsOfMembers(rest, k);
        var d := DedupLast(rows, k);
        assert d == [rows[0]] + rest;
        assert forall j :: 1 <= j < |d| ==> d[j] == rest[j - 1];
      }
    }
  }

  /** The last row of every id survives. */
  lemma {:induction false} DedupKeepsLast(rows: seq<Row>, k: nat, i: nat)
    requires i < |rows| && IsLast(rows, i, k)
    ensures rows[i] in DedupLast(rows, k)
  {
    if i == 0 {
      IdsOfMembers(rows[1..], k);
      assert forall j :: 0 <= j < |rows| - 1 ==> rows[1..][j] == rows[j + 1];
    } else {
      assert IsLast(rows[1..], i - 1, k) by {
        assert forall j :: i < j < |rows| ==> rows[1..][j - 1] == rows[j];
      }
      DedupKeepsLast(rows[1..], k, i - 1);
    }
  }

  /** Only the last row of an id survives. */
  lemma {:induction false} DedupOnlyLast(rows: seq<Row>, k: nat)
    ensures forall r :: r in DedupLast(rows, k) ==>
              exists i :: 0 <= i < |rows| && rows[i] == r && IsLast(rows, i, k)
  {
    if rows != [] {
      var tail := rows[1..];
      DedupOnlyLast(tail, k);
      forall r | r in DedupLast(rows, k)
        ensures exists i :: 0 <= i < |rows| && rows[i] == r && IsLast(rows, i, k)
      {
        if r in DedupLast(tail, k) {
          var i :| 0 <= i < |tail| && tail[i] == r && IsLast(tail, i, k);
          assert forall j :: i + 1 < j < |rows| ==> rows[j] == tail[j - 1];
          assert rows[i + 1] == r && IsLast(rows, i + 1, k);
        } else {
          IdsOfMembers(tail, k);
          assert r == rows[0];
          assert forall j :: 0 < j < |rows| ==> rows[j] == tail[j - 1];
          assert IsLast(rows, 0, k);
        }
      }
    }
  }

  /** The survivors keep their order. */
  lemma {:induction false} DedupInOrder(rows: seq<Row>, k: nat)
    ensures SubsequenceOf(DedupLast(rows, k), rows)
  {
    if rows == [] {
      SubsequenceEmpty(rows);
    } else {
      DedupInOrder(rows[1..], k);
      var rest := DedupLast(rows[1..], k);
      SubsequenceCons(rest, rows, CellAt(rows[0], k) !in IdsOf(rows[1..], k));
      assert [] + rest == rest;
    }
  }

  // ----- The whole block -----

  /** The frame after lines 119-129; `None` where the concatenated frame has
      no id column (both sources failed), on which the script stops. */
  function Unified(inter: Table, estado: Table): Option<Table> {
    var all := Concat(inter, estado);
    if IdFlow !in all.columns then None
    else
      var k := IndexOf(all.columns, IdFlow);
      var kept := DedupLast(DropBlankIds(all.rows, k), k);
      SurvivorsWellFormed(all, k);
      Some(Assign(Table(all.columns, kept), RecordingResult, Some("")))
  }

  lemma SurvivorsWellFormed(all: Table, k: nat)
    requires WellFormed(all)
    ensures WellFormed(Table(all.columns, DedupLast(DropBlankIds(all.rows, k), k)))
  {
    var d := DropBlankIds(all.rows, k);
    DropBlankIdsMembers(all.rows, k);
    DedupOnlyLast(d, k);
    var kept := DedupLast(d, k);
    forall i | 0 <= i < |kept|
      ensures |kept[i]| == |all.columns|
    {
      assert kept[i] in kept;
      var j :| 0 <= j < |d| && d[j] == kept[i] && IsLast(d, j, k);
      assert d[j] in d;
    }
  }

  /** A projected source: the template's four columns, or the empty frame
      the script falls back to when the source failed. */
  predicate Projected(t: Table) {
    WellFormed(t) && (t.columns == Target || t == EmptyTable)
  }

  function WithResult(rows: seq<Row>): seq<Row> {
    seq(|rows|, i requires 0 <= i < |rows| => rows[i] + [Some("")])
  }

  /** Line 119: the intermittence rows come first, then the recording-state
      rows; the id is the first column; the result column comes last, empty.
      Only when both sources failed is there no id column. */
  lemma UnifiedRows(inter: Table, estado: Table)
    requires Projected(inter) && Projected(estado)
    ensures Unified(inter, estado).None? <==> inter == EmptyTable && estado == EmptyTable
    ensures Unified(inter, estado).Some? ==>
              Unified(inter, estado).value
                == Table(Target + [RecordingResult], WithResult(DedupLast(DropBlankIds(inter.rows + estado.rows, 0), 0)))
  {
    assert Distinct(Target);
    var all := Concat(inter, estado);
    if inter == EmptyTable && estado == EmptyTable {
      assert all.columns == [];
    } else {
      if inter == EmptyTable {
        ConcatEmpty(estado);
        assert inter.rows + estado.rows == estado.rows;
      } else if estado == EmptyTable {
        ConcatEmpty(inter);
        assert inter.rows + estado.rows == inter.rows;
      } else {
        ConcatSameColumns(inter, estado);
      }
      assert all == Table(Target, inter.rows + estado.rows);
      assert IndexOf(all.columns, IdFlow) == 0;
      assert RecordingResult !in Target;
      var kept := DedupLast(DropBlankIds(all.rows, 0), 0);
      SurvivorsWellFormed(all, 0);
      assert Assign(Table(all.columns, kept), RecordingResult, Some("")).rows == WithResult(kept);
    }
  }

  /** Every unified record has an id, its five cells, and an empty result:
      the shape the staging sheet and its rule pass expect. */
  lemma UnifiedRecordsFit(inter: Table, estado: Table)
    requires Projected(inter) && Projected(estado)
    requires Unified(inter, estado).Some?
    ensures var rs := Unified(inter, estado).value.rows;
            forall i :: 0 <= i < |rs| ==> |rs[i]| == 5 && Truthy(CellAt(rs[i], 0)) && rs[i][4] == Some("")
  {
    UnifiedRows(inter, estado);
    var all := inter.rows + estado.rows;
    assert WellFormed(Table(Target, all));
    var d := DropBlankIds(all, 0);
    DropBlankIdsMembers(all, 0);
    var kept := DedupLast(d, 0);
    DedupOnlyLast(d, 0);
    forall i | 0 <= i < |kept|
      ensures |WithResult(kept)[i]| == 5 && Truthy(CellAt(WithResult(kept)[i], 0)) && WithResult(kept)[i][4] == Some("")
    {
      assert kept[i] in kept;
      var j :| 0 <= j < |d| && d[j] == kept[i] && IsLast(d, j, 0);
      assert d[j] in d;
      assert kept[i] in all;
      assert HasId(CellAt(kept[i], 0));
      assert Strip("") == "";
    }
  }
}
