/** `PlantillaExcelProcessor`: the workbook with its staging sheet ("Hoja3")
    and its ledger sheet ("securos"), and the three steps that rewrite them
    in place before the workbook is saved. */
module TemplateWorkbook {
  import opened Text
  import opened Cells
  import opened StatusRules
  import opened Ledger

  /** A workbook file as it sits on disk. */
  datatype Workbook = Workbook(staging: Sheet, ledger: Sheet)

  datatype Outcome =
    | Saved      // all steps ran and the file was written
    | Locked     // all steps ran but the file was open elsewhere; nothing written
    | Faulted    // the rule pass met a four-cell row; nothing after it ran

  // ----- Specification of the staging write -----

  /** The staging sheet after the raw write: its header, then one row per
      record. */
  function Restaged(s: Sheet, records: seq<Row>): (r: Sheet)
    ensures Header(r) == Header(s) && DataRows(r) == records
  {
    [Header(s)] + records
  }

  // ----- Specification of the rule pass -----

  /** No data row has exactly four cells. */
  predicate NoNarrowRow(rows: seq<Row>) {
    forall i :: 0 <= i < |rows| ==> |rows[i]| != 4
  }

  /** The data rows after the rule pass: each row goes through the rule
      table until a row of exactly four cells, where the pass faults and
      leaves that row and every later one as they were. */
  function TransformedRows(rows: seq<Row>): seq<Row> {
    if rows == [] then []
    else if |rows[0]| == 4 then rows
    else [RewriteRow(rows[0])] + TransformedRows(rows[1..])
  }

  function Transformed(s: Sheet): Sheet {
    [Header(s)] + TransformedRows(DataRows(s))
  }

  /** A sequence built row by row as the loop builds it is the rule pass. */
  lemma {:induction false} TransformedRowsIs(rows: seq<Row>, out: seq<Row>, k: nat)
    requires |out| == |rows| && k <= |rows|
    requires forall j :: 0 <= j < k ==> |rows[j]| != 4 && out[j] == RewriteRow(rows[j])
    requires k < |rows| ==> |rows[k]| == 4
    requires forall j :: k <= j < |rows| ==> out[j] == rows[j]
    ensures out == TransformedRows(rows)
  {
    if rows != [] {
      if k == 0 {
        assert out == rows;
      } else {
        TransformedRowsIs(rows[1..], out[1..], k - 1);
        assert out == [out[0]] + out[1..];
      }
    }
  }

  /** The rule pass changes at most columns D and E of each data row,
      keeps every row's width, and keeps the number of rows. */
  lemma {:induction false} TransformTouchesOnlyStatus(rows: seq<Row>)
    ensures |TransformedRows(rows)| == |rows|
    ensures forall i :: 0 <= i < |rows| ==> |TransformedRows(rows)[i]| == |rows[i]|
    ensures forall i, c :: 0 <= i < |rows| && 0 <= c < |rows[i]| && c != StatusColumn && c != ResultColumn ==>
              TransformedRows(rows)[i][c] == rows[i][c]
  {
    if rows != [] && |rows[0]| != 4 {
      TransformTouchesOnlyStatus(rows[1..]);
      var t := TransformedRows(rows);
      assert forall i :: 1 <= i < |rows| ==> t[i] == TransformedRows(rows[1..])[i - 1];
    }
  }

  /** With no data row of four cells, the pass sends every data row
      through the rule table. */
  lemma {:induction false} TransformedRowsSucceed(rows: seq<Row>)
    requires NoNarrowRow(rows)
    ensures |TransformedRows(rows)| == |rows|
    ensures forall i :: 0 <= i < |rows| ==> TransformedRows(rows)[i] == RewriteRow(rows[i])
  {
    if rows != [] {
      var tail := rows[1..];
      assert NoNarrowRow(tail) by {
        assert forall i :: 0 <= i < |tail| ==> tail[i] == rows[i + 1];
      }
      TransformedRowsSucceed(tail);
      var t := TransformedRows(rows);
      assert |rows[0]| != 4;
      assert t == [RewriteRow(rows[0])] + TransformedRows(tail);
      forall i | 0 <= i < |rows|
        ensures t[i] == RewriteRow(rows[i])
      {
        if i > 0 {
          assert t[i] == TransformedRows(tail)[i - 1];
          assert rows[i] == tail[i - 1];
        }
      }
    }
  }

  /** Running the rule pass over its own output changes nothing. */
  lemma {:induction false} TransformIdempotent(rows: seq<Row>)
    ensures TransformedRows(TransformedRows(rows)) == TransformedRows(rows)
  {
    if rows != [] && |rows[0]| != 4 {
      TransformIdempotent(rows[1..]);
      RewriteRowIdempotent(rows[0]);
      var t := TransformedRows(rows);
      assert t[0] == RewriteRow(rows[0]) && t[1..] == TransformedRows(rows[1..]);
      assert |t[0]| != 4;
    }
  }

  /** The rule pass leaves the ids, the footer marks and today's id set
      alone, since it writes only columns D and E. */
  lemma TransformKeepsIds(rows: seq<Row>)
    ensures |TransformedRows(rows)| == |rows|
    ensures forall i :: 0 <= i < |rows| ==>
              && RowId(TransformedRows(rows)[i]) == RowId(rows[i])
              && IsFooter(TransformedRows(rows)[i]) == IsFooter(rows[i])
              && CellAt(TransformedRows(rows)[i], 0) == CellAt(rows[i], 0)
  {
    TransformTouchesOnlyStatus(rows);
    var t := TransformedRows(rows);
    forall i | 0 <= i < |rows|
      ensures CellAt(t[i], 0) == CellAt(rows[i], 0) && RowCode(t[i]) == RowCode(rows[i])
    {
      if |rows[i]| > 0 {
        assert t[i][0] == rows[i][0];
      }
      if |rows[i]| > 2 {
        assert t[i][2] == rows[i][2];
      }
    }
  }

  // ----- The whole export -----

  /** The workbook written by one successful export of `records` into
      `file`. */
  function Exported(file: Workbook, records: seq<Row>): Workbook {
    var staging := Transformed(Restaged(file.staging, records));
    Workbook(staging, Consolidated(staging, file.ledger))
  }

  /** The script's output file of the day is reopened when it is run again
      the same day: exporting the same records into the exported file gives
      the same file, provided every record has an id and none is the
      footer. */
  lemma ExportTwice(file: Workbook, records: seq<Row>)
    requires forall i :: 0 <= i < |records| ==> Truthy(CellAt(records[i], 0))
    requires NoFooter(records)
    ensures Exported(Exported(file, records), records) == Exported(file, records)
  {
    var once := Exported(file, records);
    var staging := Transformed(Restaged(file.staging, records));
    assert Restaged(once.staging, records) == Restaged(file.staging, records);
    var today := TransformedRows(records);
    assert DataRows(staging) == today;
    TransformKeepsIds(records);
    TransformTouchesOnlyStatus(records);
    assert NoFooter(today);
    ConsolidateIdempotent(staging, file.ledger);
  }

  // ----- Sheet operations of the spreadsheet library -----

  function Min(a: int, b: int): int {
    if a < b then a else b
  }

  /** Deletes `amount` rows starting at 1-based row `idx`, as many as
      exist. */
  function DeleteRows(s: Sheet, idx: nat, amount: nat): Sheet
    requires 2 <= idx
  {
    s[..Min(idx - 1, |s|)] + s[Min(idx - 1 + amount, |s|)..]
  }

  function Blank(n: nat): seq<Row> {
    seq(n, _ => [])
  }

  /** Inserts `amount` empty rows before 1-based row `idx`. */
  function InsertRows(s: Sheet, idx: nat, amount: nat): Sheet
    requires 2 <= idx <= |s| + 1
  {
    s[..idx - 1] + Blank(amount) + s[idx - 1..]
  }

  /** Filling the first blank row of a block. */
  lemma FillBlank(pre: seq<Row>, done: seq<Row>, n: nat, post: seq<Row>, v: Row)
    requires n > 0
    ensures (pre + done + Blank(n) + post)[|pre| + |done| := v] == pre + (done + [v]) + Blank(n - 1) + post
  {
    var lhs := (pre + done + Blank(n) + post)[|pre| + |done| := v];
    var rhs := pre + (done + [v]) + Blank(n - 1) + post;
    assert |lhs| == |rhs|;
    forall i | 0 <= i < |lhs|
      ensures lhs[i] == rhs[i]
    {
    }
  }

  // ----- The processor -----

  class TemplateProcessor {
    /** The sheets as loaded and being rewritten in memory. */
    var staging: Sheet
    var ledger: Sheet
    /** The unified records to write, one row each. */
    const records: seq<Row>
    /** The workbook file on disk. */
    var disk: Workbook

    constructor (file: Workbook, records: seq<Row>)
      ensures staging == file.staging && ledger == file.ledger && disk == file
      ensures this.records == records
    {
      staging := file.staging;
      ledger := file.ledger;
      disk := file;
      this.records := records;
    }

    /** `escribir_datos_raw`: clears the staging sheet below its header and
        appends one row per record. */
    method WriteRawData()
      modifies this`staging
      ensures staging == Restaged(old(staging), records)
    {
      if |staging| > 1 {
        staging := DeleteRows(staging, 2, |staging|);
      }
      assert staging == [Header(old(staging))];
      var i := 0;
      while i < |records|
        invariant 0 <= i <= |records|
        invariant staging == [Header(old(staging))] + records[..i]
      {
        staging := staging + [records[i]];
        i := i + 1;
        assert records[..i] == records[..i - 1] + [records[i - 1]];
      }
      assert records[..i] == records;
    }

    /** `transformar_hoja_3`: the rule table over every staging data row.
        Returns false where the source raises: a row of exactly four cells,
        whose column E it reads. */
    method TransformStaging() returns (ok: bool)
      modifies this`staging
      ensures ok <==> NoNarrowRow(DataRows(old(staging)))
      ensures staging == Transformed(old(staging))
    {
      ghost var data := DataRows(staging);
      var i := 1;
      while i < |staging|
        invariant 1 <= i <= |staging| && |staging| == |old(staging)|
        invariant staging[0] == old(staging)[0]
        invariant forall j :: 1 <= j < i ==> |old(staging)[j]| != 4 && staging[j] == RewriteRow(old(staging)[j])
        invariant forall j :: i <= j < |staging| ==> staging[j] == old(staging)[j]
      {
        var row := staging[i];
        if |row| >= 4 {
          if |row| == 4 {
            TransformedRowsIs(data, staging[1..], i - 1);
            assert staging == [staging[0]] + staging[1..];
            return false;
          }
          var rule := Classify(StatusKey(row[StatusColumn]));
          if rule != NoRule {
            staging := staging[i := row[StatusColumn := Some(StatusLabel(rule))][ResultColumn := Some(ResultLabel(rule))]];
          }
        }
        i := i + 1;
      }
      TransformedRowsIs(data, staging[1..], |data|);
      assert staging == [staging[0]] + staging[1..];
      return true;
    }

    /** Inserts `rows` before 1-based ledger row `at` and writes them cell
        by cell into the new blank rows. */
    method WriteBlock(at: nat, rows: seq<Row>)
      requires 2 <= at <= |ledger| + 1
      modifies this`ledger
      ensures ledger == old(ledger)[..at - 1] + rows + old(ledger)[at - 1..]
    {
      if |rows| > 0 {
        ghost var pre := ledger[..at - 1];
        ghost var post := ledger[at - 1..];
        ledger := InsertRows(ledger, at, |rows|);
        var row := at;
        var j := 0;
        while j < |rows|
          invariant 0 <= j <= |rows| && row == at + j
          invariant ledger == pre + rows[..j] + Blank(|rows| - j) + post
        {
          FillBlank(pre, rows[..j], |rows| - j, post, rows[j]);
          assert rows[..j + 1] == rows[..j] + [rows[j]];
          ledger := ledger[row - 1 := rows[j]];
          row := row + 1;
          j := j + 1;
        }
        assert rows[..j] == rows;
        assert Blank(0) == [];
      }
    }

    /** Step A of `actualizar_securos`: the stripped ids in column A of
        the staging data rows, skipping empty cells. */
    method CollectTodayIds() returns (ids: set<string>)
      ensures ids == TodayIds(DataRows(staging))
    {
      ids := {};
      var i := 1;
      while i < |staging|
        invariant 1 <= i <= |staging|
        invariant ids == TodayIds(staging[1..i])
      {
        var c := CellAt(staging[i], 0);
        if Truthy(c) {
          ids := ids + {Strip(c.value)};
        }
        assert staging[1..i + 1][..i - 1] == staging[1..i];
        i := i + 1;
      }
      assert staging[1..i] == DataRows(staging);
    }

    /** Step B of `actualizar_securos`: reads the ledger from row 2 down to
        the first footer, keeping the rows whose id is not in `ids`, and
        reports the footer's 1-based row number, if there is a footer. */
    method ScanHistory(ids: set<string>) returns (kept: seq<Row>, footerRow: Option<nat>)
      ensures var data := DataRows(ledger);
              var f := FirstFooter(data);
              && kept == KeepHistory(data[..f], ids)
              && footerRow == if f < |data| then Some(f + 2) else None
    {
      ghost var data := DataRows(ledger);
      kept := [];
      footerRow := None;
      var k := 1;
      while k < |ledger|
        invariant 1 <= k <= |ledger|
        invariant forall j :: 0 <= j < k - 1 ==> !IsFooter(data[j])
        invariant kept == KeepHistory(data[..k - 1], ids)
      {
        var row := ledger[k];
        var valId := if Truthy(CellAt(row, 0)) then Strip(CellAt(row, 0).value) else "";
        var valCode := if |row| > 2 then row[2] else Some("");
        if valId == FooterId || valCode == Some(FooterCode) {
          assert IsFooter(data[k - 1]);
          FirstFooterIs(data, k - 1);
          footerRow := Some(k + 1);
          return;
        }
        if valId !in ids {
          kept := kept + [row];
        }
        assert data[..k][..k - 1] == data[..k - 1];
        k := k + 1;
      }
      FirstFooterIs(data, |data|);
      assert data[..|data|] == data;
    }

    /** `actualizar_securos`: today's staging rows replace the ledger rows
        with the same id above the footer, and are written between the
        remaining history and the footer. */
    method UpdateLedger()
      modifies this`ledger
      ensures ledger == Consolidated(staging, old(ledger))
    {
      var ids := CollectTodayIds();
      var kept, footerRow := ScanHistory(ids);
      ghost var data := DataRows(ledger);
      ghost var f := FirstFooter(data);

      // C) delete the block above the footer (or everything)
      if footerRow.Some? {
        var amount := footerRow.value - 2;
        if amount > 0 {
          ledger := DeleteRows(ledger, 2, amount);
        }
      } else if |ledger| >= 2 {
        ledger := DeleteRows(ledger, 2, |ledger|);
      }
      assert ledger == [Header(old(ledger))] + data[f..];

      // D) history, then today's rows
      WriteBlock(2, kept);
      WriteBlock(2 + |kept|, DataRows(staging));
      assert ledger == [Header(old(ledger))] + kept + DataRows(staging) + data[f..];
    }

    /** `guardar`: writes the workbook unless the file is locked by another
        program, in which case the error is reported and nothing is
        written. */
    method Save(locked: bool) returns (saved: bool)
      modifies this`disk
      ensures saved == !locked
      ensures disk == if locked then old(disk) else Workbook(staging, ledger)
    {
      if locked {
        return false;
      }
      disk := Workbook(staging, ledger);
      return true;
    }

    /** The export block of the script: the three steps, then the save;
        a fault in the rule pass skips the rest. */
    method Run(locked: bool) returns (outcome: Outcome)
      modifies this
      ensures staging == Transformed(Restaged(old(staging), records))
      ensures outcome == Faulted <==> !NoNarrowRow(records)
      ensures outcome != Faulted ==> ledger == Consolidated(staging, old(ledger))
      ensures outcome == Faulted ==> ledger == old(ledger)
      ensures outcome == Saved <==> outcome != Faulted && !locked
      ensures disk == if outcome == Saved then Workbook(staging, ledger) else old(disk)
    {
      WriteRawData();
      var ok := TransformStaging();
      if !ok {
        return Faulted;
      }
      UpdateLedger();
      var saved := Save(locked);
      outcome := if saved then Saved else Locked;
    }
  }

  /** A successful run on a freshly opened file saves exactly the exported
      workbook. */
  method RunOnFile(file: Workbook, records: seq<Row>, locked: bool) returns (outcome: Outcome, written: Workbook)
    ensures outcome == Faulted <==> !NoNarrowRow(records)
    ensures outcome == Saved ==> written == Exported(file, records)
    ensures outcome != Saved ==> written == file
    ensures outcome == Saved <==> outcome != Faulted && !locked
  {
    var p := new TemplateProcessor(file, records);
    outcome := p.Run(locked);
    written := p.disk;
  }
}
