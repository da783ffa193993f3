/** The business rules of `transformar_hoja_3`: the status text in column D
    is matched, first rule first, against fixed phrases, and a match rewrites
    column D (status) and column E (recording result). */
module StatusRules {
  import opened Text
  import opened Cells

  /** Zero-based positions of the two columns the rules read and write. */
  const StatusColumn: nat := 3
  const ResultColumn: nat := 4

  datatype Rule = WithSignal | NoSignal | Intermittent | Disabled | NoRule

  /** The text the rules match: the lower-cased, stripped status, or "" for
      an empty cell. */
  function StatusKey(c: Cell): string {
    if Truthy(c) then Strip(Lower(c.value)) else ""
  }

  /** First matching rule, in the source's order. */
  function Classify(key: string): Rule {
    if Contains(key, "con señal") && !Contains(key, "intermitente") then WithSignal
    else if Contains(key, "sin señal") then NoSignal
    else if Contains(key, "intermitente") then Intermittent
    else if Contains(key, "desactivada") then Disabled
    else NoRule
  }

  function StatusLabel(r: Rule): string
    requires r != NoRule
  {
    match r
    case WithSignal => "Con señal"
    case NoSignal => "Sin señal"
    case Intermittent => "Cámara con señal/intermitente"
    case Disabled => "Cámara desactivada"
  }

  function ResultLabel(r: Rule): string
    requires r != NoRule
  {
    match r
    case WithSignal => "Cámara grabando"
    case NoSignal => "Cámara sin grabación"
    case Intermittent => "Cámara grabando/intermitente"
    case Disabled => "Cámara sin grabación"
  }

  /** One data row through the rule table. Rows narrower than four cells are
      skipped; a row of exactly four cells makes the source fail (it reads
      column E), so it is excluded here and handled by the caller. */
  function RewriteRow(row: Row): (r: Row)
    requires |row| != 4
    ensures |r| == |row|
    ensures forall j :: 0 <= j < |row| && j != StatusColumn && j != ResultColumn ==> r[j] == row[j]
    ensures |row| < 4 || Classify(StatusKey(row[StatusColumn])) == NoRule ==> r == row
    ensures |row| > 4 && Classify(StatusKey(row[StatusColumn])) != NoRule ==>
      var rule := Classify(StatusKey(row[StatusColumn]));
      r[StatusColumn] == Some(StatusLabel(rule)) && r[ResultColumn] == Some(ResultLabel(rule))
  {
    if |row| < 4 then row
    else
      var rule := Classify(StatusKey(row[StatusColumn]));
      if rule == NoRule then row
      else row[StatusColumn := Some(StatusLabel(rule))][ResultColumn := Some(ResultLabel(rule))]
  }

  /** The key of a non-empty text whose lower-cased form has no surrounding
      whitespace is that lower-cased form. */
  lemma KeyOf(text: string, key: string)
    requires text != "" && Lower(text) == key
    requires key == [] || (!IsSpace(key[0]) && !IsSpace(key[|key| - 1]))
    ensures StatusKey(Some(text)) == key
  {
    StripUnchanged(key);
  }

  // Each label's key, and the rule that key selects.

  lemma WithSignalLabel()
    ensures StatusKey(Some("Con señal")) == "con señal"
    ensures Classify("con señal") == WithSignal
  {
    KeyOf("Con señal", "con señal");
    assert OccursAt("con señal", "con señal", 0);
    ContainsSameLength("con señal", "intermitente");
  }

  lemma NoSignalLabel()
    ensures StatusKey(Some("Sin señal")) == "sin señal"
    ensures Classify("sin señal") == NoSignal
  {
    KeyOf("Sin señal", "sin señal");
    ContainsSameLength("sin señal", "con señal");
    assert OccursAt("sin señal", "sin señal", 0);
  }

  lemma IntermittentLabelKey()
    ensures StatusKey(Some("Cámara con señal/intermitente")) == "cámara con señal/intermitente"
  {
    KeyOf("Cámara con señal/intermitente", "cámara con señal/intermitente");
  }

  lemma IntermittentLabelMatch()
    ensures Classify("cámara con señal/intermitente") == Intermittent
  {
    var k := "cámara con señal/intermitente";
    assert OccursAt(k, "intermitente", 17);
    NotContainedByPair(k, "sin señal");
  }

  lemma DisabledLabelKey()
    ensures StatusKey(Some("Cámara desactivada")) == "cámara desactivada"
  {
    KeyOf("Cámara desactivada", "cámara desactivada");
  }

  lemma DisabledLabelMatch()
    ensures Classify("cámara desactivada") == Disabled
  {
    var k := "cámara desactivada";
    NotContainedByPair(k, "con señal");
    NotContainedByPair(k, "sin señal");
    NotContainedByPair(k, "intermitente");
    assert OccursAt(k, "desactivada", 7);
  }

  /** Every label a rule writes is classified again by the same rule. */
  lemma LabelIsFixedPoint(rule: Rule)
    requires rule != NoRule
    ensures Classify(StatusKey(Some(StatusLabel(rule)))) == rule
  {
    match rule
    case WithSignal => WithSignalLabel();
    case NoSignal => NoSignalLabel();
    case Intermittent => IntermittentLabelKey(); IntermittentLabelMatch();
    case Disabled => DisabledLabelKey(); DisabledLabelMatch();
  }

  /** Running the rule table over its own output changes nothing. */
  lemma RewriteRowIdempotent(row: Row)
    requires |row| != 4
    ensures RewriteRow(RewriteRow(row)) == RewriteRow(row)
  {
    if |row| > 4 {
      var rule := Classify(StatusKey(row[StatusColumn]));
      if rule != NoRule {
        LabelIsFixedPoint(rule);
      }
    }
  }

  /** A missing or empty status matches no rule, so the row stays as it is. */
  lemma EmptyStatusMatchesNothing(row: Row)
    requires |row| > 4 && !Truthy(row[StatusColumn])
    ensures RewriteRow(row) == row
  {
    assert StatusKey(row[StatusColumn]) == "";
    assert !Contains("", "con señal") && !Contains("", "sin señal");
    assert !Contains("", "intermitente") && !Contains("", "desactivada");
  }

  lemma MixedStatusMatch()
    ensures Classify("cámara con señal pero intermitente") == Intermittent
  {
    var k := "cámara con señal pero intermitente";
    assert OccursAt(k, "intermitente", 22);
    NotContainedByPair(k, "sin señal");
  }

  /** Rule 1 excludes "intermitente", so a text naming both falls to rule 3. */
  lemma IntermittentWinsOverSignal()
    ensures Classify(StatusKey(Some("cámara con señal pero intermitente"))) == Intermittent
    ensures StatusLabel(Intermittent) == "Cámara con señal/intermitente"
    ensures ResultLabel(Intermittent) == "Cámara grabando/intermitente"
  {
    KeyOf("cámara con señal pero intermitente", "cámara con señal pero intermitente");
    MixedStatusMatch();
  }

  lemma UpperCaseMatch()
    ensures Classify("sin señal detectada") == NoSignal
  {
    var k := "sin señal detectada";
    NotContainedByPair(k, "con señal");
    assert OccursAt(k, "sin señal", 0);
  }

  /** Matching ignores case. */
  lemma UpperCaseNoSignal()
    ensures Classify(StatusKey(Some("SIN SEÑAL detectada"))) == NoSignal
    ensures StatusLabel(NoSignal) == "Sin señal"
    ensures ResultLabel(NoSignal) == "Cámara sin grabación"
  {
    KeyOf("SIN SEÑAL detectada", "sin señal detectada");
    UpperCaseMatch();
  }
}
