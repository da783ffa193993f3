/** The main script from end to end: the two sources are loaded and
    projected onto the template's columns (a source that raises becomes the
    empty frame), unified, and written into the day's output workbook, which
    is first copied from the template folder when it does not exist yet. */
module Script {
  import opened Cells
  import opened Frames
  import opened ColumnMapping
  import opened Unification
  import opened TemplateWorkbook
  import Intermittences
  import RecordingState

  /** One input folder: its listing, the lines of each file (`None` when it
      cannot be opened) and pandas' CSV reader (`None` when it raises). */
  datatype Inputs = Inputs(
    listing: seq<string>,
    lines: string -> Option<seq<string>>,
    read: (string, nat) -> Option<Table>)

  datatype ScriptResult =
    | NoIdColumn       // both sources failed: the id filter raises KeyError
    | NoTemplate       // no output file and no template to copy: the script exits
    | Ran(outcome: Outcome)

  /** Lines 32-63: the projected intermittences, or the empty frame. */
  function InterFrame(src: Inputs): Table {
    var r := Intermittences.Processed(src.listing, src.lines, src.read);
    if r.Failure? then EmptyTable
    else
      Intermittences.ProcessedSpec(src.listing, src.lines, src.read);
      InterProjection(r.value)
  }

  /** Lines 70-113: the projected recording states, or the empty frame. */
  function StateFrame(src: Inputs): Table {
    var r := RecordingState.Processed(src.listing, src.lines, src.read);
    if r.Failure? then EmptyTable
    else
      RecordingState.ProcessedSpec(src.listing, src.lines, src.read);
      RecordingStateProjection(r.value)
  }

  /** Each source is a projected frame, and the empty frame only when it
      failed. */
  lemma FramesProjected(inter: Inputs, state: Inputs)
    ensures Projected(InterFrame(inter)) && Projected(StateFrame(state))
    ensures InterFrame(inter) == EmptyTable <==>
              Intermittences.Processed(inter.listing, inter.lines, inter.read).Failure?
    ensures StateFrame(state) == EmptyTable <==>
              RecordingState.Processed(state.listing, state.lines, state.read).Failure?
  {
  }

  /** Lines 142-148: the day's output file, or a copy of the first
      template. */
  function OutputFile(existing: Option<Workbook>, templates: seq<Workbook>): Option<Workbook> {
    if existing.Some? then existing
    else if templates != [] then Some(templates[0])
    else None
  }

  /** The records the script hands to the template. */
  function Records(inter: Inputs, state: Inputs): Option<seq<Row>> {
    var u := Unified(InterFrame(inter), StateFrame(state));
    if u.None? then None else Some(u.value.rows)
  }

  /** The script stops at the id filter exactly when both sources failed. */
  lemma RecordsMissing(inter: Inputs, state: Inputs)
    ensures Records(inter, state).None? <==>
              Intermittences.Processed(inter.listing, inter.lines, inter.read).Failure?
              && RecordingState.Processed(state.listing, state.lines, state.read).Failure?
  {
    FramesProjected(inter, state);
    UnifiedRows(InterFrame(inter), StateFrame(state));
  }

  /** The script's records never make the rule pass fault: each has five
      cells and an id. */
  lemma RecordsFit(inter: Inputs, state: Inputs)
    requires Records(inter, state).Some?
    ensures NoNarrowRow(Records(inter, state).value)
    ensures var rs := Records(inter, state).value;
            forall i :: 0 <= i < |rs| ==> Truthy(CellAt(rs[i], 0))
  {
    FramesProjected(inter, state);
    UnifiedRecordsFit(InterFrame(inter), StateFrame(state));
  }

  /** Lines 30-63 as the script runs them. */
  method LoadIntermittences(src: Inputs) returns (t: Table)
    ensures t == InterFrame(src)
  {
    var raw := Intermittences.Process(src.listing, src.lines, src.read);
    t := EmptyTable;
    if raw.Success? {
      Intermittences.ProcessedSpec(src.listing, src.lines, src.read);
      t := ProjectIntermittences(raw.value);
    }
  }

  /** Lines 68-113 as the script runs them. */
  method LoadRecordingState(src: Inputs) returns (t: Table)
    ensures t == StateFrame(src)
  {
    var raw := RecordingState.Process(src.listing, src.lines, src.read);
    t := EmptyTable;
    if raw.Success? {
      RecordingState.ProcessedSpec(src.listing, src.lines, src.read);
      t := ProjectRecordingState(raw.value);
    }
  }

  /** Lines 118-129: the records for the template, or `None` where the id
      filter raises. */
  method Prepare(inter: Inputs, state: Inputs) returns (records: Option<seq<Row>>)
    ensures records == Records(inter, state)
  {
    var a := LoadIntermittences(inter);
    var b := LoadRecordingState(state);
    var unified := Unified(a, b);
    records := if unified.None? then None else Some(unified.value.rows);
  }

  /** The script. `existing` is today's output workbook if an earlier run
      left one, `templates` the workbooks of the template folder, and
      `locked` whether the output file is open elsewhere when saved.
      `written` is the output file afterwards. */
  method Run(inter: Inputs, state: Inputs, existing: Option<Workbook>, templates: seq<Workbook>, locked: bool)
    returns (result: ScriptResult, written: Option<Workbook>)
    ensures result == NoIdColumn <==> Records(inter, state).None?
    ensures result == NoTemplate <==> Records(inter, state).Some? && OutputFile(existing, templates).None?
    ensures result.Ran? ==> result.outcome != Faulted
    ensures result.Ran? && result.outcome == Saved ==>
              written == Some(Exported(OutputFile(existing, templates).value, Records(inter, state).value))
    ensures result.Ran? && result.outcome != Saved ==> written == OutputFile(existing, templates)
    ensures !result.Ran? ==> written == existing
    ensures result.Ran? ==> (result.outcome == Saved <==> !locked)
  {
    var records := Prepare(inter, state);
    if records.None? {
      return NoIdColumn, existing;
    }
    var file := OutputFile(existing, templates);
    if file.None? {
      return NoTemplate, existing;
    }
    RecordsFit(inter, state);
    var outcome, out := RunOnFile(file.value, records.value, locked);
    return Ran(outcome), Some(out);
  }
}
