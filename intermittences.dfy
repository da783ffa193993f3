/** The intermittence source: every CSV report of the folder is read from
    its header line, its column names are normalised and standardised, the
    five relevant columns that are present are kept, and the files are
    concatenated in listing order. Unlike the recording-state loader, any
    failure stops the whole source.

    `lines(f)` is the file's lines (`None` when it cannot be opened) and
    `read(f, skip)` the frame `read_csv` gives after skipping `skip` lines
    (`None` when it raises). */
module Intermittences {
  import opened Text
  import opened Cells
  import opened Frames
  import opened Folder

  const HeaderKeywords: seq<string> := ["sitio", "id stv", "id flujo", "etiqueta", "eventos"]

  /** The columns a report keeps, in this order. */
  const FinalColumns: seq<string> := ["sitio", "id_stv", "id_flujo", "etiqueta", "eventos"]

  /** The message raised for a report without a header line. */
  function NoHeader(name: string): string {
    "No se encontró encabezado válido en " + name
  }

  /** Stand-ins for the messages of the exceptions `open` and `read_csv`
      raise. */
  const NoFile := "No se pudo abrir el archivo"
  const Unreadable := "read_csv falló"
  const NoCsvFiles := "No hay archivos CSV en la carpeta data_raw/intermitencias"

  /** A line that, stripped and lower-cased, names two expected columns. */
  predicate IsHeaderLine(line: string) {
    KeywordCount(HeaderKeywords, Strip(Lower(line))) >= 2
  }

  /** The first header line from line `i` on; there is no line limit. */
  function FirstHeaderFrom(lines: seq<string>, i: nat): Option<nat>
    decreases |lines| - i
  {
    if i >= |lines| then None
    else if IsHeaderLine(lines[i]) then Some(i)
    else FirstHeaderFrom(lines, i + 1)
  }

  lemma {:induction false} FirstHeaderFromSpec(lines: seq<string>, i: nat)
    requires forall j :: 0 <= j < i && j < |lines| ==> !IsHeaderLine(lines[j])
    ensures FirstHeaderFrom(lines, i).None? <==> forall j :: 0 <= j < |lines| ==> !IsHeaderLine(lines[j])
    ensures FirstHeaderFrom(lines, i).Some? ==>
              var r := FirstHeaderFrom(lines, i).value;
              r < |lines| && IsHeaderLine(lines[r]) && forall j :: 0 <= j < r ==> !IsHeaderLine(lines[j])
    decreases |lines| - i
  {
    if i < |lines| && !IsHeaderLine(lines[i]) {
      FirstHeaderFromSpec(lines, i + 1);
    }
  }

  /** `detectar_encabezado`: the first line with two keywords, anywhere in
      the file; it raises when the file cannot be opened or no line
      qualifies. */
  method DetectHeader(name: string, file: Option<seq<string>>) returns (r: Result<nat>)
    ensures file.None? ==> r == Failure(NoFile)
    ensures file.Some? ==>
              if FirstHeaderFrom(file.value, 0).Some? then r == Success(FirstHeaderFrom(file.value, 0).value)
              else r == Failure(NoHeader(name))
  {
    if file.None? {
      return Failure(NoFile);
    }
    var lines := file.value;
    var i := 0;
    while i < |lines|
      invariant i <= |lines|
      invariant FirstHeaderFrom(lines, i) == FirstHeaderFrom(lines, 0)
    {
      if IsHeaderLine(lines[i]) {
        return Success(i);
      }
      i := i + 1;
    }
    return Failure(NoHeader(name));
  }

  /** The header the detector finds, as a value. */
  function HeaderOf(name: string, file: Option<seq<string>>): Result<nat> {
    if file.None? then Failure(NoFile)
    else if FirstHeaderFrom(file.value, 0).Some? then Success(FirstHeaderFrom(file.value, 0).value)
    else Failure(NoHeader(name))
  }

  /** The detector succeeds exactly on a readable file with a header line,
      and then gives the first one. */
  lemma HeaderOfSpec(name: string, file: Option<seq<string>>)
    ensures HeaderOf(name, file).Success? <==>
              file.Some? && exists j :: 0 <= j < |file.value| && IsHeaderLine(file.value[j])
    ensures HeaderOf(name, file).Success? ==>
              var r := HeaderOf(name, file).value;
              r < |file.value| && IsHeaderLine(file.value[r]) && forall j :: 0 <= j < r ==> !IsHeaderLine(file.value[j])
  {
    if file.Some? {
      FirstHeaderFromSpec(file.value, 0);
    }
  }

  // ----- One report -----

  /** `str.strip().str.lower()` on a column name. */
  function Normalise(name: string): string {
    Lower(Strip(name))
  }

  /** The renaming dictionary: two names get their underscore form, the
      others map to themselves. */
  function Standard(name: string): string {
    if name == "id stv" then "id_stv"
    else if name == "id flujo" then "id_flujo"
    else name
  }

  /** `[c for c in FinalColumns if c in names]`. */
  function Present(finals: seq<string>, names: seq<string>): seq<string> {
    if finals == [] then []
    else (if finals[0] in names then [finals[0]] else []) + Present(finals[1..], names)
  }

  lemma {:induction false} PresentMembers(finals: seq<string>, names: seq<string>)
    ensures forall c :: c in Present(finals, names) <==> c in finals && c in names
    ensures SubsequenceOf(Present(finals, names), finals)
  {
    if finals == [] {
      SubsequenceEmpty(finals);
    } else {
      var rest := Present(finals[1..], names);
      PresentMembers(finals[1..], names);
      SubsequenceCons(rest, finals, finals[0] in names);
      assert [] + rest == rest;
    }
  }

  /** The columns of a report after normalisation and renaming. */
  function ReportNames(columns: seq<string>): seq<string> {
    MapNames(MapNames(columns, Normalise), Standard)
  }

  /** What `procesar_archivo` gives once the frame is read. */
  function Reshaped(df: Table): Table {
    var named := Table(ReportNames(df.columns), df.rows);
    PresentMembers(FinalColumns, named.columns);
    Select(named, Present(FinalColumns, named.columns))
  }

  /** `procesar_archivo` as a value. */
  function ReportFrame(f: string, lines: string -> Option<seq<string>>, read: (string, nat) -> Option<Table>): Result<Table> {
    var header := HeaderOf(f, lines(f));
    if header.Failure? then Failure(header.error)
    else if read(f, header.value).None? then Failure(Unreadable)
    else Success(Reshaped(read(f, header.value).value))
  }

  /** `procesar_archivo`. */
  method ProcessReport(f: string, lines: string -> Option<seq<string>>, read: (string, nat) -> Option<Table>)
    returns (r: Result<Table>)
    ensures r == ReportFrame(f, lines, read)
  {
    var header := DetectHeader(f, lines(f));
    if header.Failure? {
      return Failure(header.error);
    }
    var df := read(f, header.value);
    if df.None? {
      return Failure(Unreadable);
    }
    var named := Table(ReportNames(df.value.columns), df.value.rows);
    PresentMembers(FinalColumns, named.columns);
    var keep := Present(FinalColumns, named.columns);
    return Success(Select(named, keep));
  }

  /** A reshaped report keeps its rows, and keeps exactly those of the five
      final columns it has after normalising and renaming, in the final
      order, each holding the cells of the source column. */
  lemma ReshapedSpec(df: Table)
    ensures var r := Reshaped(df);
            && |r.rows| == |df.rows|
            && SubsequenceOf(r.columns, FinalColumns)
            && (forall c :: c in r.columns <==> c in FinalColumns && c in ReportNames(df.columns))
            && forall i, k :: 0 <= i < |r.rows| && 0 <= k < |r.columns| ==>
                 r.rows[i][k] == Pick(ReportNames(df.columns), df.rows[i], r.columns[k], None)
  {
    PresentMembers(FinalColumns, ReportNames(df.columns));
  }

  /** A column written "Id Flujo" with blanks around it is recognised as
      the flow id. */
  lemma FlowIdRecognised(pre: string, post: string)
    requires forall c :: c in pre + post ==> IsSpace(c)
    ensures Standard(Normalise(pre + "Id Flujo" + post)) == "id_flujo"
  {
    StripSpaces(pre, "Id Flujo", post);
    assert Lower("Id Flujo") == "id flujo";
  }

  lemma StripSpaces(pre: string, s: string, post: string)
    requires forall c :: c in pre + post ==> IsSpace(c)
    requires s != [] && !IsSpace(s[0]) && !IsSpace(s[|s| - 1])
    ensures Strip(pre + s + post) == s
  {
    StripPrefix(pre, s + post);
    assert pre + s + post == pre + (s + post);
    StripSuffix(s, post);
  }

  lemma {:induction false} StripPrefix(pre: string, s: string)
    requires forall c :: c in pre ==> IsSpace(c)
    requires s != [] && !IsSpace(s[0])
    ensures StripStart(pre + s) == s
  {
    if pre != [] {
      assert (pre + s)[1..] == pre[1..] + s;
      StripPrefix(pre[1..], s);
    } else {
      assert pre + s == s;
    }
  }

  lemma {:induction false} StripSuffix(s: string, post: string)
    requires forall c :: c in post ==> IsSpace(c)
    requires s != [] && !IsSpace(s[|s| - 1])
    ensures StripEnd(s + post) == s
  {
    if post != [] {
      var init := post[..|post| - 1];
      assert (s + post)[..|s + post| - 1] == s + init;
      StripSuffix(s, init);
    } else {
      assert s + post == s;
    }
  }

  // ----- The whole folder -----

  /** The reports of `files` in order, or the first failure. */
  function ReportFrames(files: seq<string>, lines: string -> Option<seq<string>>, read: (string, nat) -> Option<Table>): Result<seq<Table>> {
    if files == [] then Success([])
    else
      var before := ReportFrames(files[..|files| - 1], lines, read);
      if before.Failure? then before
      else
        var last := ReportFrame(files[|files| - 1], lines, read);
        if last.Failure? then Failure(last.error) else Success(before.value + [last.value])
  }

  lemma {:induction false} ReportFramesSpec(files: seq<string>, lines: string -> Option<seq<string>>, read: (string, nat) -> Option<Table>)
    ensures ReportFrames(files, lines, read).Success? <==>
              forall j :: 0 <= j < |files| ==> ReportFrame(files[j], lines, read).Success?
    ensures ReportFrames(files, lines, read).Success? ==>
              var ts := ReportFrames(files, lines, read).value;
              |ts| == |files| && forall j :: 0 <= j < |files| ==> ts[j] == ReportFrame(files[j], lines, read).value
  {
    if files != [] {
      var init := files[..|files| - 1];
      ReportFramesSpec(init, lines, read);
      assert forall j :: 0 <= j < |init| ==> init[j] == files[j];
    }
  }

  /** `procesar` as a value. */
  function Processed(listing: seq<string>, lines: string -> Option<seq<string>>, read: (string, nat) -> Option<Table>): Result<Table> {
    var files := CsvFiles(listing);
    if files == [] then Failure(NoCsvFiles)
    else
      var frames := ReportFrames(files, lines, read);
      if frames.Failure? then Failure(frames.error) else Success(ConcatAll(frames.value))
  }

  /** `procesar`: fails without CSV files, processes the reports in listing
      order, stops at the first failing one, and concatenates the rest. */
  method Process(listing: seq<string>, lines: string -> Option<seq<string>>, read: (string, nat) -> Option<Table>)
    returns (r: Result<Table>)
    ensures r == Processed(listing, lines, read)
  {
    var files := CsvFiles(listing);
    if files == [] {
      return Failure(NoCsvFiles);
    }
    var frames: seq<Table> := [];
    var i := 0;
    while i < |files|
      invariant i <= |files|
      invariant ReportFrames(files[..i], lines, read) == Success(frames)
    {
      assert files[..i + 1][..i] == files[..i];
      var df := ProcessReport(files[i], lines, read);
      if df.Failure? {
        assert ReportFrames(files[..i + 1], lines, read) == Failure(df.error);
        PrefixFailure(files, i + 1, lines, read);
        return Failure(df.error);
      }
      frames := frames + [df.value];
      i := i + 1;
    }
    assert files[..i] == files;
    return Success(ConcatAll(frames));
  }

  /** Once a prefix fails, the whole list fails with the same error. */
  lemma {:induction false} PrefixFailure(files: seq<string>, n: nat, lines: string -> Option<seq<string>>, read: (string, nat) -> Option<Table>)
    requires n <= |files| && ReportFrames(files[..n], lines, read).Failure?
    ensures ReportFrames(files, lines, read) == ReportFrames(files[..n], lines, read)
    decreases |files| - n
  {
    if n < |files| {
      assert files[..n + 1][..n] == files[..n];
      PrefixFailure(files, n + 1, lines, read);
    } else {
      assert files[..n] == files;
    }
  }

  /** The source succeeds exactly when there is a CSV file and every CSV
      report succeeds; its columns are then among the five final ones and
      it holds every row of every report, in file order, laid out under its
      columns. */
  lemma ProcessedSpec(listing: seq<string>, lines: string -> Option<seq<string>>, read: (string, nat) -> Option<Table>)
    ensures Processed(listing, lines, read).Success? <==>
              CsvFiles(listing) != []
              && forall j :: 0 <= j < |CsvFiles(listing)| ==> ReportFrame(CsvFiles(listing)[j], lines, read).Success?
    ensures Processed(listing, lines, read).Success? ==>
              var t := Processed(listing, lines, read).value;
              WellFormed(t)
              && (forall c :: c in t.columns ==> c in FinalColumns)
              && |t.rows| == RowCount(ReportFrames(CsvFiles(listing), lines, read).value)
    ensures Processed(listing, lines, read).Success? ==>
              RowsInOrder(ReportFrames(CsvFiles(listing), lines, read).value, Processed(listing, lines, read).value)
  {
    ProcessedSucceeds(listing, lines, read);
    if Processed(listing, lines, read).Success? {
      ProcessedColumns(listing, lines, read);
      ProcessedRows(listing, lines, read);
    }
  }

  /** When the source succeeds. */
  lemma ProcessedSucceeds(listing: seq<string>, lines: string -> Option<seq<string>>, read: (string, nat) -> Option<Table>)
    ensures Processed(listing, lines, read).Success? <==>
              CsvFiles(listing) != []
              && forall j :: 0 <= j < |CsvFiles(listing)| ==> ReportFrame(CsvFiles(listing)[j], lines, read).Success?
  {
    ReportFramesSpec(CsvFiles(listing), lines, read);
  }

  /** The rows of a successful source. */
  lemma ProcessedRows(listing: seq<string>, lines: string -> Option<seq<string>>, read: (string, nat) -> Option<Table>)
    requires Processed(listing, lines, read).Success?
    ensures var t := Processed(listing, lines, read).value;
            var ts := ReportFrames(CsvFiles(listing), lines, read).value;
            && WellFormed(t)
            && |t.rows| == RowCount(ts)
            && RowsInOrder(ts, t)
  {
    var ts := ReportFrames(CsvFiles(listing), lines, read).value;
    assert Processed(listing, lines, read).value == ConcatAll(ts);
    ConcatAllRows(ts);
  }

  /** The columns of a successful source are final columns. */
  lemma ProcessedColumns(listing: seq<string>, lines: string -> Option<seq<string>>, read: (string, nat) -> Option<Table>)
    requires Processed(listing, lines, read).Success?
    ensures forall c :: c in Processed(listing, lines, read).value.columns ==> c in FinalColumns
  {
    var files := CsvFiles(listing);
    ReportFramesSpec(files, lines, read);
    var frames := ReportFrames(files, lines, read).value;
    ConcatAllColumns(frames);
    forall c | c in ConcatAll(frames).columns
      ensures c in FinalColumns
    {
      var j :| 0 <= j < |frames| && c in frames[j].columns;
      var read0 := read(files[j], HeaderOf(files[j], lines(files[j])).value).value;
      ReshapedSpec(read0);
    }
  }
}
