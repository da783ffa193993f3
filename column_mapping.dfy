/** The column mapping of the main script: a tolerant lookup of a column by
    a list of candidate names, and the projection of each source frame onto
    the four columns of the template. */
module ColumnMapping {
  import opened Text
  import opened Cells
  import opened Frames

  /** A column name as the lookup compares it: lower-cased, then stripped. */
  function Norm(name: string): string {
    Strip(Lower(name))
  }

  function NormAll(names: seq<string>): (r: seq<string>)
    ensures |r| == |names|
  {
    seq(|names|, j requires 0 <= j < |names| => Norm(names[j]))
  }

  /** `buscar_columna_por_nombre`: the candidates are tried in order; the
      first one that is the normalised name of some column selects the first
      such column, whose original name is returned. */
  function FindColumnByName(names: seq<string>, options: seq<string>): Option<string> {
    if options == [] then None
    else if options[0] in NormAll(names) then Some(names[IndexOf(NormAll(names), options[0])])
    else FindColumnByName(names, options[1..])
  }

  /** Nothing is found exactly when no candidate is a normalised column
      name; otherwise the result is the first column carrying the earliest
      candidate that any column carries. */
  lemma {:induction false} FindColumnSpec(names: seq<string>, options: seq<string>)
    ensures FindColumnByName(names, options).None? <==>
              forall p :: 0 <= p < |options| ==> options[p] !in NormAll(names)
    ensures FindColumnByName(names, options).Some? ==>
              exists p :: && 0 <= p < |options|
                          && options[p] in NormAll(names)
                          && (forall q :: 0 <= q < p ==> options[q] !in NormAll(names))
                          && FindColumnByName(names, options).value == names[IndexOf(NormAll(names), options[p])]
  {
    if options != [] && options[0] !in NormAll(names) {
      var rest := options[1..];
      FindColumnSpec(names, rest);
      if FindColumnByName(names, rest).Some? {
        var p :| && 0 <= p < |rest|
                 && rest[p] in NormAll(names)
                 && (forall q :: 0 <= q < p ==> rest[q] !in NormAll(names))
                 && FindColumnByName(names, rest).value == names[IndexOf(NormAll(names), rest[p])];
        assert options[p + 1] == rest[p];
        assert forall q :: 1 <= q < p + 1 ==> options[q] == rest[q - 1];
      } else {
        assert forall p :: 1 <= p < |options| ==> options[p] == rest[p - 1];
      }
    }
  }

  /** A found column is a column whose normalised name is a candidate. */
  lemma {:induction false} FoundIsCandidate(names: seq<string>, options: seq<string>)
    requires FindColumnByName(names, options).Some?
    ensures FindColumnByName(names, options).value in names
    ensures Norm(FindColumnByName(names, options).value) in options
  {
    if options[0] !in NormAll(names) {
      FoundIsCandidate(names, options[1..]);
    }
  }

  lemma FoundInNames(names: seq<string>, options: seq<string>)
    ensures FindColumnByName(names, options).Some? ==> FindColumnByName(names, options).value in names
  {
    if FindColumnByName(names, options).Some? {
      FoundIsCandidate(names, options);
    }
  }

  /** When nothing is found, no column carries a candidate name, not even
      verbatim. */
  lemma AbsentWhenNotFound(names: seq<string>, options: seq<string>, x: string)
    requires FindColumnByName(names, options).None? && Norm(x) in options
    ensures x !in names
  {
    FindColumnSpec(names, options);
    var p :| 0 <= p < |options| && options[p] == Norm(x);
    assert Norm(x) !in NormAll(names);
    forall j | 0 <= j < |names|
      ensures names[j] != x
    {
      assert NormAll(names)[j] == Norm(names[j]);
    }
  }

  /** When nothing is found, no column's normalised name is a candidate. */
  lemma NotCandidate(names: seq<string>, options: seq<string>, x: string)
    requires FindColumnByName(names, options).None? && x in names
    ensures Norm(x) !in options
  {
    FindColumnSpec(names, options);
    var j :| 0 <= j < |names| && names[j] == x;
    assert NormAll(names)[j] == Norm(x);
  }

  /** Two name lists that carry a name at the same positions find it at the
      same position. */
  lemma SamePositions(a: seq<string>, b: seq<string>, o: string)
    requires |a| == |b| && forall j :: 0 <= j < |a| ==> (a[j] == o <==> b[j] == o)
    ensures o in a <==> o in b
    ensures o in a ==> IndexOf(a, o) == IndexOf(b, o)
  {
    if o in a {
      IndexOfFirst(a, o, IndexOf(a, o));
      IndexOfFirst(b, o, IndexOf(a, o));
      IndexOfFirst(b, o, IndexOf(b, o));
      IndexOfFirst(a, o, IndexOf(b, o));
    } else {
      assert forall j :: 0 <= j < |b| ==> b[j] != o;
    }
  }

  /** A lookup is not disturbed by renaming a column that is not a
      candidate into a name that is not a candidate. */
  lemma {:induction false} FindAfterRename(names: seq<string>, c: string, x: string, options: seq<string>)
    requires Norm(c) !in options && Norm(x) !in options
    ensures FindColumnByName(RenameAll(names, c, x), options) == FindColumnByName(names, options)
  {
    if options != [] {
      var r := RenameAll(names, c, x);
      var o := options[0];
      SamePositions(NormAll(r), NormAll(names), o);
      if o in NormAll(names) {
        var k := IndexOf(NormAll(names), o);
        assert names[k] != c;
      } else {
        FindAfterRename(names, c, x, options[1..]);
      }
    }
  }

  /** A lookup is not disturbed by a new last column whose name is not a
      candidate. */
  lemma {:induction false} FindAfterAppend(names: seq<string>, x: string, options: seq<string>)
    requires Norm(x) !in options
    ensures FindColumnByName(names + [x], options) == FindColumnByName(names, options)
  {
    if options != [] {
      var o := options[0];
      var a := NormAll(names + [x]);
      var b := NormAll(names);
      assert a == b + [Norm(x)];
      if o in b {
        var k := IndexOf(b, o);
        IndexOfFirst(b, o, k);
        IndexOfFirst(a, o, k);
        IndexOfFirst(a, o, IndexOf(a, o));
        assert IndexOf(a, o) == k;
      } else {
        assert o !in a;
        FindAfterAppend(names, x, options[1..]);
      }
    }
  }

  // ----- The candidate lists and the template's columns -----

  const IdFlowOptions: seq<string> := ["id flujo", "id_flujo", "flujo"]
  const StvOptions: seq<string> := ["id stv", "id_stv", "sitio", "site"]
  const LabelOptions: seq<string> := ["etiqueta", "nombre", "camara"]
  const StatusOptions: seq<string> := ["estado", "status", "estatus", "mensaje"]

  const IdFlow := "id_flujo"
  const IdStv := "id_stv"
  const Label := "etiqueta"
  const FinalStatus := "ESTATUS_FINAL"

  /** The template's four columns, in its order. */
  const Target: seq<string> := [IdFlow, IdStv, Label, FinalStatus]

  lemma NormIdFlow()
    ensures Norm(IdFlow) == IdFlow
  {
    assert Lower(IdFlow) == IdFlow;
    StripUnchanged(IdFlow);
  }

  lemma NormIdStv()
    ensures Norm(IdStv) == IdStv
  {
    assert Lower(IdStv) == IdStv;
    StripUnchanged(IdStv);
  }

  lemma NormLabel()
    ensures Norm(Label) == Label
  {
    assert Lower(Label) == Label;
    StripUnchanged(Label);
  }

  lemma NormFinalStatus()
    ensures Norm(FinalStatus) == "estatus_final"
  {
    assert Lower(FinalStatus) == "estatus_final";
    StripUnchanged("estatus_final");
  }

  lemma NormEmpty()
    ensures Norm("") == ""
  {
    assert Lower("") == "";
  }

  /** The target names are normalised to names that only their own
      candidate list holds. */
  lemma TargetNorms()
    ensures Norm(IdFlow) in IdFlowOptions && Norm(IdFlow) !in StvOptions + LabelOptions + StatusOptions
    ensures Norm(IdStv) in StvOptions && Norm(IdStv) !in IdFlowOptions + LabelOptions + StatusOptions
    ensures Norm(Label) in LabelOptions && Norm(Label) !in IdFlowOptions + StvOptions + StatusOptions
    ensures Norm(FinalStatus) !in IdFlowOptions + StvOptions + LabelOptions + StatusOptions
    ensures Norm("") !in IdFlowOptions + StvOptions + LabelOptions + StatusOptions
  {
    NormIdFlow();
    NormIdStv();
    NormLabel();
    NormFinalStatus();
    NormEmpty();
  }

  /** `if col:` — a lookup result that names a column. */
  predicate Named(c: Option<string>) {
    c.Some? && c.value != ""
  }

  /** The names after `col = buscar(...)` and `if col: rename(col -> to)`. */
  function RenameFound(names: seq<string>, options: seq<string>, to: string): seq<string> {
    var c := FindColumnByName(names, options);
    if Named(c) then RenameAll(names, c.value, to) else names
  }

  lemma RenameFoundLength(names: seq<string>, options: seq<string>, to: string)
    ensures |RenameFound(names, options, to)| == |names|
  {
  }

  predicate Disjoint(a: seq<string>, b: seq<string>) {
    forall x :: x in a ==> x !in b
  }

  /** One rename stage, seen from a later lookup with another candidate
      list: the lookup is undisturbed, and any column that lookup can see
      kept its original name. */
  lemma Stage(names: seq<string>, options: seq<string>, to: string, later: seq<string>)
    requires Disjoint(options, later) && Norm(to) !in later
    ensures FindColumnByName(RenameFound(names, options, to), later) == FindColumnByName(names, later)
    ensures forall j :: 0 <= j < |names| && Norm(RenameFound(names, options, to)[j]) in later ==>
              RenameFound(names, options, to)[j] == names[j]
  {
    var c := FindColumnByName(names, options);
    if Named(c) {
      FoundIsCandidate(names, options);
      FindAfterRename(names, c.value, to, later);
    }
  }

  /** A stage renaming into `to` a column found by `options`, where `to`
      itself is a candidate: `to` is a name afterwards exactly when the
      lookup found something, and the column it names is a candidate. */
  lemma Recognised(names: seq<string>, options: seq<string>, to: string)
    requires Norm(to) in options && Norm("") !in options
    ensures to in RenameFound(names, options, to) <==> FindColumnByName(names, options).Some?
    ensures to in RenameFound(names, options, to) ==>
              Norm(names[IndexOf(RenameFound(names, options, to), to)]) in options
  {
    var c := FindColumnByName(names, options);
    var r := RenameFound(names, options, to);
    if c.Some? {
      FoundIsCandidate(names, options);
      assert c.value != "";
      var j :| 0 <= j < |names| && names[j] == c.value;
      assert r[j] == to;
      var k := IndexOf(r, to);
      assert names[k] == c.value || names[k] == to;
    } else {
      AbsentWhenNotFound(names, options, to);
    }
  }

  /** A stage that renames a column found by `options` into `to` leaves
      every other name where it was. */
  lemma StageKeeps(names: seq<string>, options: seq<string>, to: string, m: string)
    requires m != to && Norm(m) !in options
    ensures m in RenameFound(names, options, to) <==> m in names
    ensures m in names ==> IndexOf(RenameFound(names, options, to), m) == IndexOf(names, m)
  {
    var c := FindColumnByName(names, options);
    if Named(c) {
      FoundIsCandidate(names, options);
      RenameKeepsName(names, c.value, to, m);
    }
  }

  lemma OptionListsDisjoint()
    ensures Disjoint(IdFlowOptions, StvOptions) && Disjoint(IdFlowOptions, LabelOptions)
    ensures Disjoint(IdFlowOptions, StatusOptions) && Disjoint(StvOptions, LabelOptions)
    ensures Disjoint(StvOptions, StatusOptions) && Disjoint(StatusOptions, LabelOptions)
  {
  }

  // ----- Intermittences: lines 35-58 of the main script -----

  /** The column names after the three renames of the intermittence
      frame. */
  function InterNames(names: seq<string>): (r: seq<string>)
    ensures |r| == |names|
  {
    RenameFoundLength(names, IdFlowOptions, IdFlow);
    var n1 := RenameFound(names, IdFlowOptions, IdFlow);
    RenameFoundLength(n1, StvOptions, IdStv);
    var n2 := RenameFound(n1, StvOptions, IdStv);
    RenameFoundLength(n2, LabelOptions, Label);
    RenameFound(n2, LabelOptions, Label)
  }

  /** The intermittence frame projected onto the template's columns. */
  function InterProjection(df: Table): (r: Table)
    requires WellFormed(df)
    ensures r.columns == Target && WellFormed(r) && |r.rows| == |df.rows|
  {
    var t := Assign(Table(InterNames(df.columns), df.rows), FinalStatus, Some("Intermitente"));
    FillMissingHas(t, Target);
    Select(FillMissing(t, Target), Target)
  }

  /** Lines 35-58: rename the recognised columns, force the status, add the
      missing template columns empty, and keep the template's columns in
      its order. */
  method ProjectIntermittences(df: Table) returns (out: Table)
    requires WellFormed(df)
    ensures out == InterProjection(df)
  {
    var t := df;
    var col := FindColumnByName(t.columns, IdFlowOptions);
    if Named(col) {
      t := Rename(t, col.value, IdFlow);
    }
    col := FindColumnByName(t.columns, StvOptions);
    if Named(col) {
      t := Rename(t, col.value, IdStv);
    }
    col := FindColumnByName(t.columns, LabelOptions);
    if Named(col) {
      t := Rename(t, col.value, Label);
    }
    assert t == Table(InterNames(df.columns), df.rows);
    t := Assign(t, FinalStatus, Some("Intermitente"));
    ghost var forced := t;
    for k := 0 to |Target|
      invariant WellFormed(t) && t == FillMissing(forced, Target[..k])
    {
      if Target[k] !in t.columns {
        t := Assign(t, Target[k], Some(""));
      }
      assert Target[..k + 1][..k] == Target[..k];
    }
    assert Target[..|Target|] == Target;
    FillMissingHas(forced, Target);
    out := Select(t, Target);
  }

  /** Every projected intermittence row has the status "Intermitente", and
      its other three cells are read from the renamed input columns, or
      empty when the input has no such column. */
  lemma InterProjectionCells(df: Table)
    requires WellFormed(df)
    ensures forall i :: 0 <= i < |df.rows| ==> InterProjection(df).rows[i][3] == Some("Intermitente")
    ensures forall i, k :: 0 <= i < |df.rows| && 0 <= k < 3 ==>
              InterProjection(df).rows[i][k] == Pick(InterNames(df.columns), df.rows[i], Target[k], Some(""))
  {
    var t := Assign(Table(InterNames(df.columns), df.rows), FinalStatus, Some("Intermitente"));
    FillMissingHas(t, Target);
    var f := FillMissing(t, Target);
    forall i, k | 0 <= i < |df.rows| && 0 <= k < 4
      ensures InterProjection(df).rows[i][k]
              == if k == 3 then Some("Intermitente") else Pick(InterNames(df.columns), df.rows[i], Target[k], Some(""))
    {
      assert Target[k] in f.columns;
      FillMissingValue(t, Target, Target[k], i);
      AssignValue(Table(InterNames(df.columns), df.rows), FinalStatus, Some("Intermitente"), Target[k], Some(""), i);
    }
  }

  /** The id column of the intermittence projection exists exactly when an
      input column is named like an id, and is then such a column. */
  lemma InterIdRecognised(names: seq<string>)
    ensures IdFlow in InterNames(names) <==> FindColumnByName(names, IdFlowOptions).Some?
    ensures IdFlow in InterNames(names) ==> Norm(names[IndexOf(InterNames(names), IdFlow)]) in IdFlowOptions
  {
    TargetNorms();
    OptionListsDisjoint();
    var n1 := RenameFound(names, IdFlowOptions, IdFlow);
    var n2 := RenameFound(n1, StvOptions, IdStv);
    Recognised(names, IdFlowOptions, IdFlow);
    StageKeeps(n1, StvOptions, IdStv, IdFlow);
    StageKeeps(n2, LabelOptions, Label, IdFlow);
  }

  /** The same for the station column. */
  lemma InterStvRecognised(names: seq<string>)
    ensures IdStv in InterNames(names) <==> FindColumnByName(names, StvOptions).Some?
    ensures IdStv in InterNames(names) ==> Norm(names[IndexOf(InterNames(names), IdStv)]) in StvOptions
  {
    TargetNorms();
    OptionListsDisjoint();
    var n1 := RenameFound(names, IdFlowOptions, IdFlow);
    var n2 := RenameFound(n1, StvOptions, IdStv);
    Stage(names, IdFlowOptions, IdFlow, StvOptions);
    Recognised(n1, StvOptions, IdStv);
    StageKeeps(n2, LabelOptions, Label, IdStv);
  }

  /** The same for the label column. */
  lemma InterLabelRecognised(names: seq<string>)
    ensures Label in InterNames(names) <==> FindColumnByName(names, LabelOptions).Some?
    ensures Label in InterNames(names) ==> Norm(names[IndexOf(InterNames(names), Label)]) in LabelOptions
  {
    TargetNorms();
    OptionListsDisjoint();
    var n1 := RenameFound(names, IdFlowOptions, IdFlow);
    var n2 := RenameFound(n1, StvOptions, IdStv);
    Stage(names, IdFlowOptions, IdFlow, LabelOptions);
    Stage(n1, StvOptions, IdStv, LabelOptions);
    Recognised(n2, LabelOptions, Label);
  }

  // ----- Recording state: lines 73-108 of the main script -----

  /** `str(value)` of a cell: an empty cell is pandas' NaN, printed "nan". */
  function CellText(c: Cell): string {
    if c.Some? then c.value else "nan"
  }

  /** A column found by the id lookup has a non-empty name. */
  lemma FoundIdIsNamed(names: seq<string>)
    ensures FindColumnByName(names, IdFlowOptions).Some? ==> Named(FindColumnByName(names, IdFlowOptions))
  {
    if FindColumnByName(names, IdFlowOptions).Some? {
      FoundIsCandidate(names, IdFlowOptions);
      assert Norm("") == "";
    }
  }

  /** Line 77: `ejemplo`, the first value of column A as text, or "" for a
      frame without rows. */
  function FirstValue(df: Table): string {
    if |df.rows| > 0 then CellText(CellAt(df.rows[0], 0)) else ""
  }

  /** Lines 74-81: the id column is looked up by name; failing that, the
      first column is taken, unless its first value looks like a time (has a
      ':'), in which case the second column is taken if there is one. There
      is no id column only when nothing is found by name and the frame has
      no column, or a single column whose first value has a ':'. */
  function IdColumn(df: Table): (c: Option<string>)
    ensures c.Some? ==> c.value in df.columns
    ensures Named(FindColumnByName(df.columns, IdFlowOptions)) ==> c == FindColumnByName(df.columns, IdFlowOptions)
    ensures !Named(FindColumnByName(df.columns, IdFlowOptions)) && |df.columns| > 0 && !Contains(FirstValue(df), ":") ==>
              c == Some(df.columns[0])
    ensures !Named(FindColumnByName(df.columns, IdFlowOptions)) && |df.columns| > 1 && Contains(FirstValue(df), ":") ==>
              c == Some(df.columns[1])
    ensures c.None? <==>
              && !Named(FindColumnByName(df.columns, IdFlowOptions))
              && (|df.columns| == 0 || (|df.columns| == 1 && Contains(FirstValue(df), ":")))
  {
    var col := FindColumnByName(df.columns, IdFlowOptions);
    FoundInNames(df.columns, IdFlowOptions);
    FoundIdIsNamed(df.columns);
    if !Named(col) && |df.columns| > 0 then
      if !Contains(FirstValue(df), ":") then Some(df.columns[0])
      else if |df.columns| > 1 then Some(df.columns[1])
      else col
    else col
  }

  /** The recording-state frame after lines 74-101, before the missing
      template columns are added. */
  function RecordingStateFrame(df: Table): (r: Table)
    requires WellFormed(df)
    ensures WellFormed(r) && |r.rows| == |df.rows|
  {
    var idc := IdColumn(df);
    var t1 := if Named(idc) then Rename(df, idc.value, IdFlow) else df;
    var stv := FindColumnByName(t1.columns, StvOptions);
    var t2 := if Named(stv) then Rename(t1, stv.value, IdStv) else Assign(t1, IdStv, Some(""));
    StatusAndLabel(t2)
  }

  /** Lines 92-101: the status column renamed, or added as "Sin
      Información"; then the label column renamed. */
  function StatusAndLabel(t: Table): (r: Table)
    requires WellFormed(t)
    ensures WellFormed(r) && |r.rows| == |t.rows|
  {
    var st := FindColumnByName(t.columns, StatusOptions);
    var t3 := if Named(st) then Rename(t, st.value, FinalStatus) else Assign(t, FinalStatus, Some("Sin Información"));
    var lab := FindColumnByName(t3.columns, LabelOptions);
    if Named(lab) then Rename(t3, lab.value, Label) else t3
  }

  /** The status and label steps leave the station column as it was. */
  lemma StatusAndLabelKeepStation(t: Table, i: nat)
    requires WellFormed(t) && i < |t.rows|
    ensures Pick(StatusAndLabel(t).columns, StatusAndLabel(t).rows[i], IdStv, Some(""))
            == Pick(t.columns, t.rows[i], IdStv, Some(""))
  {
    TargetNorms();
    OptionListsDisjoint();
    var st := FindColumnByName(t.columns, StatusOptions);
    if st.Some? {
      FoundIsCandidate(t.columns, StatusOptions);
    }
    var t3 := if Named(st) then Rename(t, st.value, FinalStatus) else Assign(t, FinalStatus, Some("Sin Información"));
    var lab := FindColumnByName(t3.columns, LabelOptions);
    if lab.Some? {
      FoundIsCandidate(t3.columns, LabelOptions);
    }
    if Named(st) {
      PickRenameOther(t.columns, t.rows[i], st.value, FinalStatus, IdStv, Some(""));
    } else {
      AssignValue(t, FinalStatus, Some("Sin Información"), IdStv, Some(""), i);
    }
    if Named(lab) {
      PickRenameOther(t3.columns, t3.rows[i], lab.value, Label, IdStv, Some(""));
    }
  }

  /** The recording-state frame projected onto the template's columns. */
  function RecordingStateProjection(df: Table): (r: Table)
    requires WellFormed(df)
    ensures r.columns == Target && WellFormed(r) && |r.rows| == |df.rows|
  {
    var t := RecordingStateFrame(df);
    FillMissingHas(t, Target);
    Select(FillMissing(t, Target), Target)
  }

  /** Lines 73-108: find or guess the id column, rename the recognised
      columns, default the station to "" and the status to "Sin
      Información", add the missing template columns empty, and keep the
      template's columns in its order. */
  method ProjectRecordingState(df: Table) returns (out: Table)
    requires WellFormed(df)
    ensures out == RecordingStateProjection(df)
  {
    var renamed := RenameRecordingState(df);
    var t := renamed;
    for k := 0 to |Target|
      invariant WellFormed(t) && t == FillMissing(renamed, Target[..k])
    {
      if Target[k] !in t.columns {
        t := Assign(t, Target[k], Some(""));
      }
      assert Target[..k + 1][..k] == Target[..k];
    }
    assert Target[..|Target|] == Target;
    FillMissingHas(renamed, Target);
    out := Select(t, Target);
  }

  /** Lines 74-101, step by step on the frame. */
  method RenameRecordingState(df: Table) returns (t: Table)
    requires WellFormed(df)
    ensures t == RecordingStateFrame(df)
  {
    t := df;
    var col := FindColumnByName(t.columns, IdFlowOptions);
    if !Named(col) && |t.columns| > 0 {
      var example := if |t.rows| > 0 then CellText(CellAt(t.rows[0], 0)) else "";
      if !Contains(example, ":") {
        col := Some(t.columns[0]);
      } else if |t.columns| > 1 {
        col := Some(t.columns[1]);
      }
    }
    assert col == IdColumn(df);
    if Named(col) {
      t := Rename(t, col.value, IdFlow);
    }
    col := FindColumnByName(t.columns, StvOptions);
    if Named(col) {
      t := Rename(t, col.value, IdStv);
    } else {
      t := Assign(t, IdStv, Some(""));
    }
    col := FindColumnByName(t.columns, StatusOptions);
    if Named(col) {
      t := Rename(t, col.value, FinalStatus);
    } else {
      t := Assign(t, FinalStatus, Some("Sin Información"));
    }
    col := FindColumnByName(t.columns, LabelOptions);
    if Named(col) {
      t := Rename(t, col.value, Label);
    }
  }

  /** A column that no later stage renames or assigns is read through the
      fill and the final selection unchanged. */
  lemma ProjectedCell(df: Table, k: nat, i: nat)
    requires WellFormed(df) && k < |Target| && i < |df.rows|
    ensures var t := RecordingStateFrame(df);
            RecordingStateProjection(df).rows[i][k] == Pick(t.columns, t.rows[i], Target[k], Some(""))
  {
    var t := RecordingStateFrame(df);
    FillMissingHas(t, Target);
    FillMissingValue(t, Target, Target[k], i);
  }

  /** Renaming the id column does not make a lookup that found nothing
      find something. */
  lemma IdRenameKeepsLookup(df: Table, options: seq<string>)
    requires FindColumnByName(df.columns, options).None? && Norm(IdFlow) !in options
    ensures var idc := IdColumn(df);
            var t1 := if Named(idc) then Rename(df, idc.value, IdFlow) else df;
            FindColumnByName(t1.columns, options).None?
  {
    var idc := IdColumn(df);
    if Named(idc) {
      NotCandidate(df.columns, options, idc.value);
      FindAfterRename(df.columns, idc.value, IdFlow, options);
    }
  }

  /** Line 97: when no input column is named like a status, every status
      cell is "Sin Información". */
  lemma RecordingStatusDefault(df: Table)
    requires WellFormed(df)
    requires FindColumnByName(df.columns, StatusOptions).None?
    ensures forall i :: 0 <= i < |df.rows| ==> RecordingStateProjection(df).rows[i][3] == Some("Sin Información")
  {
    TargetNorms();
    OptionListsDisjoint();
    var idc := IdColumn(df);
    var t1 := if Named(idc) then Rename(df, idc.value, IdFlow) else df;
    IdRenameKeepsLookup(df, StatusOptions);
    var stv := FindColumnByName(t1.columns, StvOptions);
    var t2 := if Named(stv) then Rename(t1, stv.value, IdStv) else Assign(t1, IdStv, Some(""));
    if Named(stv) {
      FoundIsCandidate(t1.columns, StvOptions);
      FindAfterRename(t1.columns, stv.value, IdStv, StatusOptions);
    } else if IdStv !in t1.columns {
      assert t2.columns == t1.columns + [IdStv];
      FindAfterAppend(t1.columns, IdStv, StatusOptions);
    }
    assert FindColumnByName(t2.columns, StatusOptions).None?;
    var t3 := Assign(t2, FinalStatus, Some("Sin Información"));
    var lab := FindColumnByName(t3.columns, LabelOptions);
    if lab.Some? {
      FoundIsCandidate(t3.columns, LabelOptions);
    }
    forall i | 0 <= i < |df.rows|
      ensures RecordingStateProjection(df).rows[i][3] == Some("Sin Información")
    {
      ProjectedCell(df, 3, i);
      AssignValue(t2, FinalStatus, Some("Sin Información"), FinalStatus, Some(""), i);
      if Named(lab) {
        PickRenameOther(t3.columns, t3.rows[i], lab.value, Label, FinalStatus, Some(""));
      }
    }
  }

  /** Line 90: when no input column is named like a station, every station
      cell is empty. */
  lemma RecordingStationDefault(df: Table)
    requires WellFormed(df)
    requires FindColumnByName(df.columns, StvOptions).None?
    ensures forall i :: 0 <= i < |df.rows| ==> RecordingStateProjection(df).rows[i][1] == Some("")
  {
    forall i | 0 <= i < |df.rows|
      ensures RecordingStateProjection(df).rows[i][1] == Some("")
    {
      StationCell(df, i);
    }
  }

  lemma StationCell(df: Table, i: nat)
    requires WellFormed(df) && i < |df.rows|
    requires FindColumnByName(df.columns, StvOptions).None?
    ensures RecordingStateProjection(df).rows[i][1] == Some("")
  {
    var idc := IdColumn(df);
    var t1 := if Named(idc) then Rename(df, idc.value, IdFlow) else df;
    IdRenameKeepsLookup(df, StvOptions);
    var t2 := Assign(t1, IdStv, Some(""));
    ProjectedCell(df, 1, i);
    AssignValue(t1, IdStv, Some(""), IdStv, Some(""), i);
    StatusAndLabelKeepStation(t2, i);
  }

}
