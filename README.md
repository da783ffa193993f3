# Camera-status template pipeline, modelled in Dafny

The script reads two folders of CSV exports about surveillance cameras.
The *intermittence* reports list cameras whose signal comes and goes. The
*recording-state* reports give each camera's recording status. The script
projects both onto the four columns of a spreadsheet template (flow id,
station id, label, final status). It then unifies them, keeping one record
per flow id, the last one. It writes the records into the staging sheet
"Hoja3" of the day's workbook and rewrites their status text with a fixed
rule table. Finally it consolidates them into the historical ledger sheet
"securos". That ledger ends in a footer row (id `10321` or code
`ANPR-CC-10321`) which must stay right after the data block.

The model follows the program's modules:

| file | module | models |
|---|---|---|
| `text.dfy` | `Text` | `str.lower()`, `str.strip()`, `in` on strings, `endswith`, the keyword counts of the header detectors |
| `cells.dfy` | `Cells` | cells (`None` = empty / NaN), rows, sheets, `Option`/`Result`, subsequences |
| `frames.dfy` | `Frames` | the pandas operations used: rename, `df[c] = v`, column selection, `concat` |
| `folder.dfy` | `Folder` | the `.csv` filter on a folder listing |
| `intermittences.dfy` | `Intermittences` | `modules/securos_intermitencias.py` |
| `recording_state.dfy` | `RecordingState` | `modules/securos_estado_grabacion.py` |
| `column_mapping.dfy` | `ColumnMapping` | the column lookup and the two projections of `main.py` |
| `unification.dfy` | `Unification` | the unification block of `main.py` |
| `status_rules.dfy` | `StatusRules` | the rule table of `transformar_hoja_3` |
| `ledger.dfy` | `Ledger` | what `actualizar_securos` computes, as functions on rows |
| `template_processor.dfy` | `TemplateWorkbook` | `PlantillaExcelProcessor` as a class whose methods update the two sheets in place |
| `script.dfy` | `Script` | `main.py` from end to end |

The workbook processor is imperative, as in the source. `TemplateProcessor`
holds the staging sheet, the ledger sheet and the file on disk as fields,
and its methods rewrite them with loops. Each method is proved against a
function of the old state (`Restaged`, `Transformed`, `Consolidated`), and
the properties the ledger update is meant to have are proved as lemmas
about those functions. Examples are footer preservation, supersession by id, retention
of history in order, and idempotence of a same-day re-run. The loaders and
the column projections are loops in the source, so they are methods with
loop invariants, each tied to a specification function.

Where the code does something other than what its own comments say or what
a reader would expect, the model follows the code:
- The recording-state header detector looks at lines 0 to 21, that is 22
  lines, not the "first 20 lines" its docstring and comment announce
  (`modules/securos_estado_grabacion.py`, lines 13 and 26).
- The intermittence detector has no line limit. A report without a header
  line does not just skip that file: it fails the whole intermittence
  source, which the script then replaces by an empty frame.
- When the ledger has no footer, its data rows are all deleted. The rows
  whose id is not among today's are still written back, before today's
  rows, so history is not discarded.
- Rows below the footer stay below it. The footer is the first row after
  the rewritten block, but not necessarily the last row of the sheet.
- The rule pass skips a row when `len(row) < 4` but reads a fifth cell.
  openpyxl pads every row it yields to the sheet's width, so in the source
  this tests the width of the whole sheet: a sheet exactly four columns
  wide raises on its first data row, and the steps after it do not run.
  The model tests each row's own width instead (a four-cell row gives
  `Faulted`; see "## Left out"). The script's records all have five cells
  (`Script.RecordsFit`), so for them the sheet is at least five wide, every
  data row goes through the rule table, and the two readings agree.
- When the recording-state folder holds CSV files but none of them is kept,
  `unificar` returns `pd.DataFrame()` and `procesar` lower-cases its column
  names with `.str`. From pandas 2.0 on those labels are an integer
  `RangeIndex`, on which `.str` raises, so the source fails just as a folder
  without CSV files does (`RecordingState.LowerNames`).
- The unification is not protected by a handler. When both sources failed,
  the concatenated frame has no `id_flujo` column and the script stops
  there (`Script.NoIdColumn`).

## Model

| member | source | states |
|---|---|---|
| ColumnMapping.FindColumnSpec | main.py:18-25 | the lookup finds nothing exactly when no candidate is the lower-cased, stripped name of a column; otherwise it returns the original name of the first column carrying the earliest candidate any column carries |
| ColumnMapping.FoundIsCandidate | main.py:18-25 | a found name is a column whose normalised name is one of the candidates |
| ColumnMapping.NotCandidate | main.py:18-25 | when nothing is found, no column's normalised name is a candidate |
| ColumnMapping.AbsentWhenNotFound | main.py:18-25 | when nothing is found, no column is literally called by a candidate's normal form |
| ColumnMapping.FindAfterRename | main.py:36-46 | renaming a non-candidate column into a non-candidate name does not change a lookup |
| ColumnMapping.FindAfterAppend | main.py:90 | a new last column with a non-candidate name does not change a lookup |
| ColumnMapping.Stage | main.py:36-46 | one rename stage leaves a later lookup with a disjoint candidate list undisturbed, and the columns it sees keep their names |
| ColumnMapping.Recognised | main.py:36-37 | after a stage renaming into a candidate name, that name is a column exactly when the lookup found something, and it names a candidate column |
| ColumnMapping.StageKeeps | main.py:36-46 | a rename stage leaves every other name at its position |
| ColumnMapping.TargetNorms | main.py:53 | each template column name is in its own candidate list only, and "ESTATUS_FINAL" is in none |
| ColumnMapping.ProjectIntermittences | main.py:35-58 | the loop-built projection equals the specification `InterProjection`: columns exactly `id_flujo, id_stv, etiqueta, ESTATUS_FINAL`, one row per input row |
| ColumnMapping.InterProjectionCells | main.py:49-58 | every projected intermittence has status "Intermitente"; its other cells come from the renamed columns, or are "" when the column is missing |
| ColumnMapping.InterIdRecognised | main.py:36-37 | the projection has a real `id_flujo` column exactly when an input column is named like a flow id, and it is that column |
| ColumnMapping.InterStvRecognised | main.py:41-42 | the same for the station column, despite the earlier rename |
| ColumnMapping.InterLabelRecognised | main.py:45-46 | the same for the label column, despite the two earlier renames |
| ColumnMapping.FoundIdIsNamed | main.py:74-76 | a column the id lookup finds has a non-empty name, so `if not col` holds only when nothing was found |
| ColumnMapping.IdColumn | main.py:74-81 | the id column is the one found by name when there is one; otherwise column A when the first value of column A has no ':', column B when it has one and B exists; there is no id column exactly when nothing is found by name and the frame has no column, or one column whose first value has a ':' |
| ColumnMapping.RenameRecordingState | main.py:74-101 | the step-by-step renames and defaults equal the specification `RecordingStateFrame` |
| ColumnMapping.ProjectRecordingState | main.py:73-108 | the loop-built projection equals `RecordingStateProjection`: the template's four columns, one row per input row |
| ColumnMapping.ProjectedCell | main.py:104-108 | each projected cell is the renamed frame's cell under that template column, or "" when it is missing |
| ColumnMapping.RecordingStatusDefault | main.py:93-97 | with no status-like column, every status cell is "Sin Información" |
| ColumnMapping.RecordingStationDefault | main.py:86-90 | with no station-like column, every station cell is "" |
| ColumnMapping.StatusAndLabelKeepStation | main.py:92-101 | renaming or defaulting the status column and renaming the label column leave every station cell as it was |
| ColumnMapping.IdRenameKeepsLookup | main.py:83 | renaming the id column never makes a lookup that found nothing succeed |
| Frames.Assign | main.py:49 | `df[c] = v` keeps the row count and every old column, and `c` is a column afterwards |
| Frames.AssignValue | main.py:49 | after `df[c] = v`, column `c` holds `v` in every row and every other column holds what it held |
| Frames.RenameKeepsName | main.py:37 | a rename leaves other names where they were |
| Frames.FillMissingHas | main.py:55-56 | after the fill, every template column exists and no column is lost |
| Frames.FillMissingValue | main.py:55-56 | the fill adds only empty columns: every read with default "" is unchanged |
| Frames.Select | main.py:58 | `df[cols]` has exactly those columns, and each cell is the input's cell under that name |
| Frames.ConcatSameColumns | main.py:119 | concatenating frames with the same distinct columns appends the rows |
| Frames.ConcatEmpty | main.py:119 | concatenating with the empty frame gives the other frame |
| Frames.ConcatAllRows | modules/securos_intermitencias.py:79 | the concatenation has as many rows as the frames together, and row `i` of frame `j` sits after the rows of the frames before it, laid out under the concatenation's columns (empty where frame `j` lacks a column) |
| Frames.WiderRows | modules/securos_intermitencias.py:79 | rows that are in order in a frame stay in order, at the same positions, once that frame is laid out under wider columns, as `pd.concat` does to the earlier frames when a later one brings new columns |
| Frames.RealignTwice | modules/securos_intermitencias.py:79 | laying a row out under wider columns and then under others is laying it out under the others directly |
| Frames.ConcatAllColumns | modules/securos_intermitencias.py:79 | a column of the concatenation is a column of one of the frames, and conversely |
| Unification.DropBlankIdsMembers | main.py:122-123 | a row survives exactly when its id is present and not blank once stripped |
| Unification.DropBlankIdsInOrder | main.py:122-123 | the survivors keep their order |
| Unification.DedupKeepsIds | main.py:126 | deduplication loses no id |
| Unification.DedupUnique | main.py:126 | after deduplication no two rows share an id |
| Unification.DedupKeepsLast | main.py:126 | the last row of every id survives |
| Unification.DedupOnlyLast | main.py:126 | only the last row of an id survives |
| Unification.DedupInOrder | main.py:126 | the survivors keep their order |
| Unification.UnifiedRows | main.py:119-129 | there is no id column exactly when both sources failed; otherwise the result is the intermittence rows then the recording-state rows, without blank ids, deduplicated keeping the last, plus an empty `RESULTADO_GRABACION` column |
| Unification.UnifiedRecordsFit | main.py:119-129 | every unified record has five cells, a non-empty id and an empty result cell |
| Folder.CsvFilesMembers | modules/securos_estado_grabacion.py:36 | a name is listed exactly when it is in the folder and ends in ".csv" |
| Text.KeywordCountAtLeastTwo | modules/securos_estado_grabacion.py:23-24 | the count reaches two exactly when two different keywords of the list occur in the line |
| Text.StripSpec | main.py:20 | `strip()` only shortens, and leaves no blank at either end |
| Text.StripIdempotent | modules/securos_estado_grabacion.py:55 | stripping twice is stripping once |
| Text.LowerIdempotent | modules/securos_estado_grabacion.py:85 | lower-casing twice is lower-casing once |
| RecordingState.DetectHeaderRow | modules/securos_estado_grabacion.py:11-30 | the scanning loop returns the specification `HeaderRow` |
| RecordingState.HeaderRowSpec | modules/securos_estado_grabacion.py:11-30 | the header row is at most 21; it is the first of lines 0 to 21 naming two keywords, and 0 when none does or the file cannot be read |
| RecordingState.LoadFiles | modules/securos_estado_grabacion.py:35-64 | fails exactly when there is no CSV file; otherwise it gives, in listing order, the frames that read, have rows and more than one column, with stripped names |
| RecordingState.LoadedShape | modules/securos_estado_grabacion.py:50-59 | a kept frame has rows, at least two columns, and no name with blanks at either end |
| RecordingState.LoadedFramesMembers | modules/securos_estado_grabacion.py:44-59 | a frame is kept exactly when some file contributes it, and there are no more frames than files |
| RecordingState.UnifyRows | modules/securos_estado_grabacion.py:69-75 | the unified frame is well formed, has as many rows as the kept frames together, and holds row `i` of kept frame `j` after the rows of the frames before it, in file order |
| RecordingState.UnifyHasColumns | modules/securos_estado_grabacion.py:69-75 | the unified frame has columns exactly when some frame was kept |
| RecordingState.LowerNames | modules/securos_estado_grabacion.py:85 | lower-casing the names fails exactly on the frame without columns (pandas 2 raises on its integer labels); otherwise the rows are kept and each name is lower-cased in place |
| RecordingState.Process | modules/securos_estado_grabacion.py:80-87 | loading, unifying and lower-casing equal the specification `Processed` |
| RecordingState.ProcessedSpec | modules/securos_estado_grabacion.py:35-87 | the source fails exactly when no frame is kept, with the no-CSV message exactly when no file is a CSV; otherwise it is well formed, holds row `i` of kept frame `j` after the rows of the frames before it, laid out under the unified columns, and every column name is in lower case |
| Intermittences.DetectHeader | modules/securos_intermitencias.py:12-22 | the scan returns the first line whose stripped, lower-cased text names two keywords, at any depth; it raises when there is none or the file cannot be opened |
| Intermittences.HeaderOfSpec | modules/securos_intermitencias.py:12-22 | the detector succeeds exactly on a readable file with a header line, and then gives the first such line |
| Intermittences.PresentMembers | modules/securos_intermitencias.py:53-54 | the kept columns are the final columns that are present, in the final order |
| Intermittences.ProcessReport | modules/securos_intermitencias.py:27-56 | detection, reading, normalising, renaming and selecting equal the specification `ReportFrame` |
| Intermittences.ReshapedSpec | modules/securos_intermitencias.py:38-54 | a report keeps its rows and exactly the final columns it has after normalising and renaming, in order, each with the source column's cells |
| Intermittences.FlowIdRecognised | modules/securos_intermitencias.py:39-50 | a column written "Id Flujo" with blanks around it becomes `id_flujo` |
| Intermittences.ReportFramesSpec | modules/securos_intermitencias.py:71-75 | the reports succeed exactly when every file does, and then give one frame per file, in order |
| Intermittences.Process | modules/securos_intermitencias.py:61-83 | the loop equals the specification `Processed`: no CSV file or the first failing report fails the source, otherwise the reports are concatenated |
| Intermittences.ProcessedSpec | modules/securos_intermitencias.py:61-83 | the source succeeds exactly when there is a CSV file and every report succeeds; its columns are then among the five final ones, and it holds row `i` of report `j` after the rows of the reports before it, in file order, laid out under its columns |
| StatusRules.RewriteRow | modules/plantilla_excel.py:41-63 | a row keeps its width and every cell outside columns D and E; rows narrower than four cells and unmatched statuses are unchanged; a matched row gets the rule's two labels |
| StatusRules.KeyOf | modules/plantilla_excel.py:46 | the matched text of a status is its lower-cased, stripped form |
| StatusRules.LabelIsFixedPoint | modules/plantilla_excel.py:49-63 | the label each rule writes is matched again by the same rule |
| StatusRules.RewriteRowIdempotent | modules/plantilla_excel.py:41-63 | running the rule table on its own output changes nothing |
| StatusRules.EmptyStatusMatchesNothing | modules/plantilla_excel.py:46 | a missing or empty status leaves the row as it is |
| StatusRules.IntermittentWinsOverSignal | modules/plantilla_excel.py:49-59 | a status naming both signal and intermittence is labelled intermittent |
| StatusRules.UpperCaseNoSignal | modules/plantilla_excel.py:46-55 | matching ignores case: "SIN SEÑAL detectada" is labelled "Sin señal" / "Cámara sin grabación" |
| StatusRules.WithSignalLabel | modules/plantilla_excel.py:49-51 | "Con señal" is matched by the first rule |
| StatusRules.NoSignalLabel | modules/plantilla_excel.py:53-55 | "Sin señal" is matched by the second rule |
| Ledger.FirstFooter | modules/plantilla_excel.py:88-95 | the footer position is within the data rows |
| Ledger.FirstFooterSpec | modules/plantilla_excel.py:88-95 | no row before the position is a footer, and the row at it is one |
| Ledger.TodayIdsMembers | modules/plantilla_excel.py:77-80 | today's ids are exactly the stripped ids of the staging rows with a non-empty column A |
| Ledger.KeptMembers | modules/plantilla_excel.py:99-100 | a historical row is kept exactly when its id is not among today's |
| Ledger.KeptInOrder | modules/plantilla_excel.py:99-100 | the kept rows are the historical rows in their original order |
| Ledger.KeptHasNoFooter | modules/plantilla_excel.py:88-100 | no kept row is a footer |
| Ledger.ConsolidatedById | modules/plantilla_excel.py:97-135 | for each id, rows above the footer with one of today's ids are replaced by today's rows with that id, and the rest keep their history |
| Ledger.FooterFollowsToday | modules/plantilla_excel.py:104-135 | when today's rows hold no footer, the first footer of the new ledger comes right after today's rows and is the old footer row |
| Ledger.KeepHistoryTwice | modules/plantilla_excel.py:99-100 | filtering the kept rows again keeps them all |
| Ledger.TodaySupersedesItself | modules/plantilla_excel.py:77-100 | staging rows that all have ids are all superseded by themselves |
| Ledger.ConsolidateIdempotent | modules/plantilla_excel.py:70-135 | consolidating the same staging sheet a second time changes nothing, when every staging row has an id and none is a footer |
| Ledger.ReplaceOneScenario | modules/plantilla_excel.py:70-135 | ledger A, B, footer with a new B gives A, new B, footer |
| Ledger.EmptyLedgerScenario | modules/plantilla_excel.py:104-135 | a ledger with only its footer receiving three rows gives the three rows, then the footer |
| TemplateWorkbook.TransformTouchesOnlyStatus | modules/plantilla_excel.py:40-63 | the rule pass keeps the row count and widths, and changes no cell outside columns D and E |
| TemplateWorkbook.TransformedRowsSucceed | modules/plantilla_excel.py:40-63 | with no four-cell row, every data row goes through the rule table |
| TemplateWorkbook.TransformIdempotent | modules/plantilla_excel.py:40-63 | the rule pass over its own output changes nothing |
| TemplateWorkbook.TransformKeepsIds | modules/plantilla_excel.py:40-63 | the rule pass keeps every row's id, code and footer status |
| TemplateWorkbook.ExportTwice | main.py:136-156 | re-running the export with the same records on the day's output file gives the same file, when every record has an id and none is a footer |
| TemplateWorkbook.TemplateProcessor.constructor | modules/plantilla_excel.py:7-10 | the processor starts from the workbook's two sheets and the records |
| TemplateWorkbook.TemplateProcessor.WriteRawData | modules/plantilla_excel.py:15-29 | the staging sheet becomes its header followed by the records |
| TemplateWorkbook.TemplateProcessor.TransformStaging | modules/plantilla_excel.py:34-65 | the loop leaves `Transformed(old staging)`, and succeeds exactly when no data row has four cells |
| TemplateWorkbook.TemplateProcessor.CollectTodayIds | modules/plantilla_excel.py:77-80 | the loop collects `TodayIds` of the staging rows |
| TemplateWorkbook.TemplateProcessor.ScanHistory | modules/plantilla_excel.py:83-100 | the scan keeps the unsuperseded rows above the first footer and reports the footer's sheet row, or none |
| TemplateWorkbook.TemplateProcessor.WriteBlock | modules/plantilla_excel.py:119-135 | the rows are inserted at the given sheet row, everything else shifting down |
| TemplateWorkbook.TemplateProcessor.UpdateLedger | modules/plantilla_excel.py:70-137 | the ledger becomes `Consolidated(staging, old ledger)` |
| TemplateWorkbook.TemplateProcessor.Save | modules/plantilla_excel.py:142-147 | the file on disk becomes the two sheets unless it is locked, in which case nothing is written |
| TemplateWorkbook.TemplateProcessor.Run | main.py:152-156 | the four steps in order; a four-cell row stops the run before the ledger, otherwise the ledger is consolidated and saved unless locked |
| TemplateWorkbook.RunOnFile | main.py:152-160 | a saved run writes exactly `Exported(file, records)`; a faulted or locked run leaves the file as it was |
| Script.FramesProjected | main.py:32-113 | each source becomes a frame with the template's columns, or the empty frame exactly when it raised |
| Script.LoadIntermittences | main.py:30-63 | the intermittence stage gives `InterFrame` |
| Script.LoadRecordingState | main.py:68-113 | the recording-state stage gives `StateFrame` |
| Script.Prepare | main.py:118-129 | the unification stage gives `Records` |
| Script.RecordsMissing | main.py:119-123 | the script stops at the id filter exactly when both sources failed |
| Script.RecordsFit | main.py:119-156 | no record the script produces has four cells, and every one has an id |
| Script.Run | main.py:118-160 | stops without an id column or without a template; otherwise never faults in the rule pass, saves `Exported` of the records into the day's file or its template copy unless locked, and otherwise leaves that file as it was |

## Left out

- The file system, pandas' CSV parser and openpyxl's workbook loading are parameters. A folder is its listing in `os.listdir` order. A file is its text lines, or `None` when it cannot be opened. `read_csv` is a function from a file and a number of lines to skip to a frame, or `None` when it raises. `skiprows`, `on_bad_lines="skip"` and type inference happen inside that function.
- Cells are strings or empty: pandas' numeric columns, `astype(str)` of numbers (`"123.0"`) and openpyxl's typed values are not modelled. An empty cell reads as "nan" only in the guess of the id column (line 77 of `main.py`), where `str()` of NaN decides the branch.
- `Text.Lower` covers ASCII and the Latin-1 capitals, and `Text.Strip` the whitespace below U+0100 that Python recognises; characters beyond Latin-1 are not lower-cased or stripped.
- Column names are assumed distinct within a frame. pandas' behaviour with duplicate names (selection returning several columns) is not modelled.
- The messages of the exceptions `open` and `read_csv` raise are stand-ins (`Intermittences.NoFile`, `Intermittences.Unreadable`). Only whether a step raises matters to the script.
- The openpyxl append cursor after `delete_rows`, which can leave blank rows above the appended ones when the sheet's maximum row is stale, is not modelled: the records go right after the header.
- The ledger rewrite writes each row whole. The source writes cell by cell into freshly inserted blank rows, which gives the same row.
- `print` output, the date in the output file name and `shutil.copy` are left out. The day's existing output file and the template folder are parameters of `Script.Run`.
- StatusRules.RewriteRow: decides by the row's own width, whereas openpyxl pads every row to the sheet's width, so the source's `len(row) < 4` tests the sheet. In a sheet five or more columns wide the source rewrites a shorter row too (its D and E read as empty), which matters only for a row of exactly four cells.
- TemplateWorkbook.TemplateProcessor.TransformStaging: faults on a data row of four cells, whereas the source faults on every sheet exactly four columns wide that has a data row, and rewrites a four-cell row of a wider sheet, widening it to five cells. For the script's five-cell records the two agree.
- TemplateWorkbook.TemplateProcessor.Run: inherits the per-row width test of `TransformStaging`.
- TemplateWorkbook.RunOnFile: inherits the per-row width test of `TransformStaging`.
- RecordingState.LowerNames: follows pandas 2.0 and later. Before 2.0 the empty frame's labels were an empty object index, `.str.lower()` succeeded, and the source gave an empty frame instead of failing.
- Save failures other than a file locked by another program are not modelled.
- A template without a `Hoja3` or a `securos` sheet, or one openpyxl cannot load, is not modelled: the workbook here always has both sheets. In the source the sheet lookup (`modules/plantilla_excel.py`, lines 10, 16, 35, 71 and 72) raises before `guardar`, `main.py` reports the error at line 159, and the file stays as copied, as after a `Faulted` run.
- A failure inside the projection code of `main.py` is not modelled. Only the loaders can raise there.
- The `exit()` when there is no template and the uncaught `KeyError` when no id column exists are result values of the script (`NoTemplate`, `NoIdColumn`). The process exit itself is not modelled.
