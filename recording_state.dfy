/** The recording-state source: every CSV export of the folder is read from
    the header line the detector finds, frames that are empty or hold a
    single column are dropped, the rest are concatenated and their column
    names lower-cased.

    The folder listing, the text of each file and pandas' CSV reader are
    parameters: `lines(f)` is the file's lines (`None` when it cannot be
    opened) and `read(f, skip)` the frame `read_csv` gives after skipping
    `skip` lines (`None` when it raises). */
module RecordingState {
  import opened Text
  import opened Cells
  import opened Frames
  import opened Folder

  const HeaderKeywords: seq<string> :=
    ["sitio", "id flujo", "id_flujo", "etiqueta", "estado", "status", "grabacion"]

  /** The message of the `FileNotFoundError` raised for a folder without
      CSV files. */
  const NoCsvFiles := "No se encontraron archivos CSV en la carpeta de estado de grabación."

  /** The detector stops after looking at this line (the 22nd). */
  const LastScannedLine: nat := 21

  /** A line that names at least two of the expected columns. */
  predicate IsHeaderLine(line: string) {
    KeywordCount(HeaderKeywords, Lower(line)) >= 2
  }

  /** The header row from line `i` on: the first header line among lines
      `i` to 21, or 0 when there is none. */
  function HeaderRowFrom(lines: seq<string>, i: nat): nat
    decreases |lines| - i
  {
    if i >= |lines| || i > LastScannedLine then 0
    else if IsHeaderLine(lines[i]) then i
    else HeaderRowFrom(lines, i + 1)
  }

  /** The row `detectar_fila_encabezado` returns; a file that cannot be read
      gives row 0. */
  function HeaderRow(file: Option<seq<string>>): nat {
    if file.None? then 0 else HeaderRowFrom(file.value, 0)
  }

  lemma {:induction false} HeaderRowFromSpec(lines: seq<string>, i: nat)
    requires forall j :: 0 <= j < i && j < |lines| ==> !IsHeaderLine(lines[j])
    ensures var r := HeaderRowFrom(lines, i);
            if exists j :: 0 <= j <= LastScannedLine && j < |lines| && IsHeaderLine(lines[j]) then
              r < |lines| && IsHeaderLine(lines[r]) && forall j :: 0 <= j < r ==> !IsHeaderLine(lines[j])
            else r == 0
    decreases |lines| - i
  {
    if i < |lines| && i <= LastScannedLine && !IsHeaderLine(lines[i]) {
      HeaderRowFromSpec(lines, i + 1);
    }
  }

  /** The detector finds the first of lines 0 to 21 with two keywords, and
      falls back to 0 when none has them or the file cannot be read. */
  lemma HeaderRowSpec(file: Option<seq<string>>)
    ensures HeaderRow(file) <= LastScannedLine
    ensures file.None? ==> HeaderRow(file) == 0
    ensures file.Some? && (exists j :: 0 <= j <= LastScannedLine && j < |file.value| && IsHeaderLine(file.value[j])) ==>
              HeaderRow(file) < |file.value| && IsHeaderLine(file.value[HeaderRow(file)])
              && forall j :: 0 <= j < HeaderRow(file) ==> !IsHeaderLine(file.value[j])
    ensures file.Some? && !(exists j :: 0 <= j <= LastScannedLine && j < |file.value| && IsHeaderLine(file.value[j])) ==>
              HeaderRow(file) == 0
  {
    if file.Some? {
      HeaderRowFromSpec(file.value, 0);
    }
  }

  /** `detectar_fila_encabezado`: scans the lines one by one. */
  method DetectHeaderRow(file: Option<seq<string>>) returns (row: nat)
    ensures row == HeaderRow(file)
  {
    if file.None? {
      return 0;
    }
    var lines := file.value;
    var i := 0;
    while i < |lines|
      invariant i <= |lines| && i <= LastScannedLine
      invariant HeaderRowFrom(lines, i) == HeaderRowFrom(lines, 0)
    {
      if IsHeaderLine(lines[i]) {
        return i;
      }
      if i > LastScannedLine - 1 {
        break;
      }
      i := i + 1;
    }
    return 0;
  }

  // ----- Listing and loading -----

  /** `df.columns = df.columns.str.strip()`. */
  function StripNames(t: Table): Table {
    Table(MapNames(t.columns, Strip), t.rows)
  }

  /** `not df.empty and len(df.columns) > 1`. */
  predicate Kept(t: Table) {
    !(|t.rows| == 0 || |t.columns| == 0) && |t.columns| > 1
  }

  /** What one file contributes: its frame with stripped names, when it
      reads and passes the size filter. */
  function Loaded(f: string, lines: string -> Option<seq<string>>, read: (string, nat) -> Option<Table>): Option<Table> {
    var df := read(f, HeaderRow(lines(f)));
    if df.None? then None
    else if Kept(StripNames(df.value)) then Some(StripNames(df.value))
    else None
  }

  /** A frame a file contributes has rows, at least two columns, and no
      column name with blanks at either end. */
  lemma LoadedShape(f: string, lines: string -> Option<seq<string>>, read: (string, nat) -> Option<Table>)
    requires Loaded(f, lines, read).Some?
    ensures var t := Loaded(f, lines, read).value;
            |t.rows| > 0 && |t.columns| > 1
            && forall n :: n in t.columns ==> Strip(n) == n
  {
    var t := Loaded(f, lines, read).value;
    forall n | n in t.columns
      ensures Strip(n) == n
    {
      var j :| 0 <= j < |t.columns| && t.columns[j] == n;
      StripIdempotent(read(f, HeaderRow(lines(f))).value.columns[j]);
    }
  }

  /** The frames kept from `files`, in file order. */
  function LoadedFrames(files: seq<string>, lines: string -> Option<seq<string>>, read: (string, nat) -> Option<Table>): seq<Table> {
    if files == [] then []
    else
      var f := files[|files| - 1];
      LoadedFrames(files[..|files| - 1], lines, read)
      + (if Loaded(f, lines, read).Some? then [Loaded(f, lines, read).value] else [])
  }

  /** A frame is kept exactly when some file contributes it. */
  lemma {:induction false} LoadedFramesMembers(files: seq<string>, lines: string -> Option<seq<string>>, read: (string, nat) -> Option<Table>)
    ensures |LoadedFrames(files, lines, read)| <= |files|
    ensures forall t :: t in LoadedFrames(files, lines, read) <==>
              exists j :: 0 <= j < |files| && Loaded(files[j], lines, read) == Some(t)
  {
    if files != [] {
      var init := files[..|files| - 1];
      LoadedFramesMembers(init, lines, read);
      assert forall j :: 0 <= j < |init| ==> init[j] == files[j];
    }
  }

  /** `cargar_archivos`: fails when the folder holds no CSV file; otherwise
      reads each file in listing order. A file that cannot be parsed is
      skipped, as the source's handler does. */
  method LoadFiles(listing: seq<string>, lines: string -> Option<seq<string>>, read: (string, nat) -> Option<Table>)
    returns (r: Result<seq<Table>>)
    ensures r.Failure? <==> CsvFiles(listing) == []
    ensures r.Failure? ==> r.error == NoCsvFiles
    ensures r.Success? ==> r.value == LoadedFrames(CsvFiles(listing), lines, read)
  {
    var files := CsvFiles(listing);
    if files == [] {
      return Failure(NoCsvFiles);
    }
    var frames: seq<Table> := [];
    var i := 0;
    while i < |files|
      invariant i <= |files|
      invariant frames == LoadedFrames(files[..i], lines, read)
    {
      var f := files[i];
      assert files[..i + 1][..i] == files[..i];
      var skip := DetectHeaderRow(lines(f));
      var df := read(f, skip);
      if df.Some? {
        var named := StripNames(df.value);
        if !(|named.rows| == 0 || |named.columns| == 0) && |named.columns| > 1 {
          frames := frames + [named];
        }
      }
      i := i + 1;
    }
    assert files[..i] == files;
    return Success(frames);
  }

  /** `unificar`: the empty frame when nothing was kept, otherwise the
      concatenation. */
  function Unify(frames: seq<Table>): Table {
    if frames == [] then EmptyTable else ConcatAll(frames)
  }

  /** The unified frame holds every row of every kept frame, in file order,
      each laid out under the unified columns. */
  lemma UnifyRows(frames: seq<Table>)
    ensures WellFormed(Unify(frames))
    ensures |Unify(frames).rows| == RowCount(frames)
    ensures RowsInOrder(frames, Unify(frames))
  {
    ConcatAllRows(frames);
  }

  /** The message of the `AttributeError` pandas raises for `.str` on
      integer labels. */
  const NoStringLabels := "Can only use .str accessor with string values!"

  /** `df.columns = df.columns.str.lower()`. From pandas 2.0 on, the frame
      `pd.DataFrame()` that `unificar` returns when nothing was kept has an
      integer `RangeIndex` as its columns, and `.str` raises on it. Every
      other frame here has at least two named columns, so a frame without
      columns is exactly that one. */
  function LowerNames(t: Table): (r: Result<Table>)
    ensures r.Failure? <==> t.columns == []
    ensures r.Success? ==> r.value.rows == t.rows && |r.value.columns| == |t.columns|
    ensures r.Success? ==> forall j :: 0 <= j < |t.columns| ==> r.value.columns[j] == Lower(t.columns[j])
  {
    if t.columns == [] then Failure(NoStringLabels)
    else Success(Table(MapNames(t.columns, Lower), t.rows))
  }

  /** The frame `procesar` hands to the main script. */
  function Processed(listing: seq<string>, lines: string -> Option<seq<string>>, read: (string, nat) -> Option<Table>): Result<Table> {
    var files := CsvFiles(listing);
    if files == [] then Failure(NoCsvFiles)
    else LowerNames(Unify(LoadedFrames(files, lines, read)))
  }

  /** `procesar`: loads, unifies and lower-cases the column names. */
  method Process(listing: seq<string>, lines: string -> Option<seq<string>>, read: (string, nat) -> Option<Table>)
    returns (r: Result<Table>)
    ensures r == Processed(listing, lines, read)
  {
    var loaded := LoadFiles(listing, lines, read);
    if loaded.Failure? {
      return Failure(loaded.error);
    }
    var df := Unify(loaded.value);
    r := LowerNames(df);
  }

  /** The unified frame has columns exactly when some frame was kept. */
  lemma UnifyHasColumns(files: seq<string>, lines: string -> Option<seq<string>>, read: (string, nat) -> Option<Table>)
    ensures Unify(LoadedFrames(files, lines, read)).columns == [] <==> LoadedFrames(files, lines, read) == []
  {
    var frames := LoadedFrames(files, lines, read);
    if frames != [] {
      LoadedFramesMembers(files, lines, read);
      assert frames[0] in frames;
      var j :| 0 <= j < |files| && Loaded(files[j], lines, read) == Some(frames[0]);
      LoadedShape(files[j], lines, read);
      ConcatAllColumns(frames);
      assert frames[0].columns[0] in Unify(frames).columns;
    }
  }

  /** The source fails with `NoCsvFiles` exactly when the folder holds no
      CSV file, and with the `.str` error exactly when it holds some but none
      is kept. Otherwise the frame is well formed, holds every row of every
      kept frame in file order, and its column names are in lower case. */
  lemma ProcessedSpec(listing: seq<string>, lines: string -> Option<seq<string>>, read: (string, nat) -> Option<Table>)
    ensures var r := Processed(listing, lines, read);
            && (r.Failure? <==> LoadedFrames(CsvFiles(listing), lines, read) == [])
            && (r.Failure? && r.error == NoCsvFiles <==> forall f :: f in listing ==> !IsCsvName(f))
    ensures var r := Processed(listing, lines, read);
            var fs := LoadedFrames(CsvFiles(listing), lines, read);
            r.Success? ==>
              && WellFormed(r.value)
              && |r.value.rows| == RowCount(fs)
              && r.value.rows == Unify(fs).rows && RowsInOrder(fs, Unify(fs))
              && forall n :: n in r.value.columns ==> Lower(n) == n
  {
    ProcessedFailure(listing, lines, read);
    if Processed(listing, lines, read).Success? {
      ProcessedSuccess(listing, lines, read);
    }
  }

  /** When and how the source fails. */
  lemma ProcessedFailure(listing: seq<string>, lines: string -> Option<seq<string>>, read: (string, nat) -> Option<Table>)
    ensures var r := Processed(listing, lines, read);
            && (r.Failure? <==> LoadedFrames(CsvFiles(listing), lines, read) == [])
            && (r.Failure? && r.error == NoCsvFiles <==> forall f :: f in listing ==> !IsCsvName(f))
  {
    CsvFilesMembers(listing);
    var files := CsvFiles(listing);
    if files != [] {
      assert files[0] in files;
      UnifyHasColumns(files, lines, read);
      assert NoStringLabels != NoCsvFiles;
    }
  }

  /** What a successful source holds. */
  lemma ProcessedSuccess(listing: seq<string>, lines: string -> Option<seq<string>>, read: (string, nat) -> Option<Table>)
    requires Processed(listing, lines, read).Success?
    ensures var r := Processed(listing, lines, read).value;
            var fs := LoadedFrames(CsvFiles(listing), lines, read);
            && WellFormed(r)
            && |r.rows| == RowCount(fs)
            && r.rows == Unify(fs).rows && RowsInOrder(fs, Unify(fs))
            && forall n :: n in r.columns ==> Lower(n) == n
  {
    var fs := LoadedFrames(CsvFiles(listing), lines, read);
    var t := Unify(fs);
    UnifyRows(fs);
    var r := Processed(listing, lines, read).value;
    assert r == LowerNames(t).value;
    assert r.rows == t.rows;
    forall n | n in r.columns
      ensures Lower(n) == n
    {
      var j :| 0 <= j < |t.columns| && r.columns[j] == n;
      LowerIdempotent(t.columns[j]);
    }
  }
}
