/** What `actualizar_securos` computes: the ledger sheet ("securos") is
    rebuilt from its header, the historical rows above the footer that
    today's staging data does not supersede, today's staging rows, and the
    footer with everything below it. */
module Ledger {
  import opened Text
  import opened Cells

  /** The footer row is recognised by its id in column A or its code in
      column C. */
  const FooterId := "10321"
  const FooterCode := "ANPR-CC-10321"

  /** The id the consolidation compares: column A stripped, or "" when the
      cell is empty. */
  function RowId(r: Row): string {
    if Truthy(CellAt(r, 0)) then Strip(CellAt(r, 0).value) else ""
  }

  /** Column C as the scan reads it: the raw value, or "" when the row has no
      third cell. */
  function RowCode(r: Row): Cell {
    if |r| > 2 then r[2] else Some("")
  }

  predicate IsFooter(r: Row) {
    RowId(r) == FooterId || RowCode(r) == Some(FooterCode)
  }

  /** Today's ids: the stripped column-A value of every staging data row
      whose column A is not empty. */
  function TodayIds(rows: seq<Row>): set<string> {
    if rows == [] then {}
    else
      var last := rows[|rows| - 1];
      TodayIds(rows[..|rows| - 1]) + (if Truthy(CellAt(last, 0)) then {RowId(last)} else {})
  }

  /** Position of the first footer among the data rows, or their count when
      there is none. */
  function FirstFooter(rows: seq<Row>): (k: nat)
    ensures k <= |rows|
  {
    if rows == [] then 0
    else if IsFooter(rows[0]) then 0
    else 1 + FirstFooter(rows[1..])
  }

  /** The historical rows kept: those whose id is not among today's ids, in
      their original order. */
  function KeepHistory(rows: seq<Row>, ids: set<string>): seq<Row> {
    if rows == [] then []
    else
      var last := rows[|rows| - 1];
      KeepHistory(rows[..|rows| - 1], ids) + (if RowId(last) !in ids then [last] else [])
  }

  /** The ledger after consolidating today's staging sheet into it. */
  function Consolidated(staging: Sheet, ledger: Sheet): Sheet {
    var data := DataRows(ledger);
    var f := FirstFooter(data);
    [Header(ledger)] + KeepHistory(data[..f], TodayIds(DataRows(staging))) + DataRows(staging) + data[f..]
  }

  /** The rows of `rows` whose id is `id`, in order. */
  function WithId(rows: seq<Row>, id: string): seq<Row> {
    if rows == [] then []
    else
      var last := rows[|rows| - 1];
      WithId(rows[..|rows| - 1], id) + (if RowId(last) == id then [last] else [])
  }

  // ----- Sequence facts about the search and the filters -----

  /** The scan stops at the first footer: no row before it is a footer, and
      the row it stops at is one (unless it ran off the end). */
  lemma {:induction false} FirstFooterSpec(rows: seq<Row>)
    ensures forall j :: 0 <= j < FirstFooter(rows) ==> !IsFooter(rows[j])
    ensures FirstFooter(rows) < |rows| ==> IsFooter(rows[FirstFooter(rows)])
  {
    if rows != [] && !IsFooter(rows[0]) {
      FirstFooterSpec(rows[1..]);
    }
  }

  /** A footer-free prefix ending at a footer (or at the end) is what the
      scan finds. */
  lemma FirstFooterIs(rows: seq<Row>, k: nat)
    requires k <= |rows|
    requires forall j :: 0 <= j < k ==> !IsFooter(rows[j])
    requires k < |rows| ==> IsFooter(rows[k])
    ensures FirstFooter(rows) == k
  {
    FirstFooterSpec(rows);
  }

  /** Today's ids are exactly the stripped ids of the staging rows whose
      column A is not empty. */
  lemma {:induction false} TodayIdsMembers(rows: seq<Row>)
    ensures forall id :: id in TodayIds(rows) <==> exists r :: r in rows && Truthy(CellAt(r, 0)) && RowId(r) == id
  {
    if rows != [] {
      var init := rows[..|rows| - 1];
      TodayIdsMembers(init);
      assert forall r :: r in rows <==> r in init || r == rows[|rows| - 1];
    }
  }

  /** A historical row is kept exactly when its id is not among today's. */
  lemma {:induction false} KeptMembers(rows: seq<Row>, ids: set<string>)
    ensures forall r :: r in KeepHistory(rows, ids) <==> r in rows && RowId(r) !in ids
  {
    if rows != [] {
      var init := rows[..|rows| - 1];
      KeptMembers(init, ids);
      assert forall r :: r in rows <==> r in init || r == rows[|rows| - 1];
    }
  }

  lemma {:induction false} WithIdAppend(a: seq<Row>, b: seq<Row>, id: string)
    ensures WithId(a + b, id) == WithId(a, id) + WithId(b, id)
  {
    if b != [] {
      assert (a + b)[..|a + b| - 1] == a + b[..|b| - 1];
      WithIdAppend(a, b[..|b| - 1], id);
    } else {
      assert a + b == a;
    }
  }

  lemma {:induction false} KeepHistoryAppend(a: seq<Row>, b: seq<Row>, ids: set<string>)
    ensures KeepHistory(a + b, ids) == KeepHistory(a, ids) + KeepHistory(b, ids)
  {
    if b != [] {
      assert (a + b)[..|a + b| - 1] == a + b[..|b| - 1];
      KeepHistoryAppend(a, b[..|b| - 1], ids);
    } else {
      assert a + b == a;
    }
  }

  lemma {:induction false} TodayIdsAppend(a: seq<Row>, b: seq<Row>)
    ensures TodayIds(a + b) == TodayIds(a) + TodayIds(b)
  {
    if b != [] {
      assert (a + b)[..|a + b| - 1] == a + b[..|b| - 1];
      TodayIdsAppend(a, b[..|b| - 1]);
    } else {
      assert a + b == a;
    }
  }

  /** Filtering by id after the history filter: superseded ids vanish,
      every other id keeps exactly its historical rows. */
  lemma {:induction false} WithIdOfKept(rows: seq<Row>, ids: set<string>, id: string)
    ensures WithId(KeepHistory(rows, ids), id) == if id in ids then [] else WithId(rows, id)
  {
    if rows != [] {
      var last := rows[|rows| - 1];
      var init := rows[..|rows| - 1];
      WithIdOfKept(init, ids, id);
      WithIdAppend(KeepHistory(init, ids), if RowId(last) !in ids then [last] else [], id);
    }
  }

  /** The history filter keeps rows that are all unsuperseded and drops rows
      that are all superseded. */
  lemma {:induction false} KeepHistoryAll(rows: seq<Row>, ids: set<string>)
    requires forall r :: r in rows ==> RowId(r) !in ids
    ensures KeepHistory(rows, ids) == rows
  {
    if rows != [] {
      KeepHistoryAll(rows[..|rows| - 1], ids);
    }
  }

  lemma {:induction false} KeepHistoryNone(rows: seq<Row>, ids: set<string>)
    requires forall r :: r in rows ==> RowId(r) in ids
    ensures KeepHistory(rows, ids) == []
  {
    if rows != [] {
      KeepHistoryNone(rows[..|rows| - 1], ids);
    }
  }

  lemma {:induction false} FirstFooterAfter(a: seq<Row>, b: seq<Row>)
    requires NoFooter(a)
    ensures FirstFooter(a + b) == |a| + FirstFooter(b)
  {
    if a != [] {
      assert (a + b)[1..] == a[1..] + b;
      FirstFooterAfter(a[1..], b);
    } else {
      assert a + b == b;
    }
  }

  // ----- Properties of the consolidation -----

  /** Where each kept row sits among the historical rows. */
  function KeptPositions(rows: seq<Row>, ids: set<string>): seq<nat> {
    if rows == [] then []
    else
      var last := rows[|rows| - 1];
      KeptPositions(rows[..|rows| - 1], ids) + (if RowId(last) !in ids then [|rows| - 1] else [])
  }

  lemma {:induction false} KeptPositionsSpec(rows: seq<Row>, ids: set<string>)
    ensures var m := KeptPositions(rows, ids);
            var kept := KeepHistory(rows, ids);
            && |m| == |kept|
            && (forall i :: 0 <= i < |m| ==> m[i] < |rows| && kept[i] == rows[m[i]])
            && (forall i, j :: 0 <= i < j < |m| ==> m[i] < m[j])
  {
    if rows != [] {
      var init := rows[..|rows| - 1];
      KeptPositionsSpec(init, ids);
      var m0 := KeptPositions(init, ids);
      var k0 := KeepHistory(init, ids);
      assert forall i :: 0 <= i < |m0| ==> m0[i] < |init| && k0[i] == init[m0[i]];
    }
  }

  /** History retention: the kept rows are the historical rows in their
      original relative order. */
  lemma KeptInOrder(rows: seq<Row>, ids: set<string>)
    ensures SubsequenceOf(KeepHistory(rows, ids), rows)
  {
    KeptPositionsSpec(rows, ids);
    assert SubsequenceAt(KeepHistory(rows, ids), rows, KeptPositions(rows, ids));
  }

  /** The rewritten ledger, id by id: a row with one of today's ids appears
      only as today's staging row; any other id keeps its historical rows
      above the footer, in order; the footer and the rows after it follow
      unchanged. */
  lemma ConsolidatedById(staging: Sheet, ledger: Sheet, id: string)
    ensures var data := DataRows(ledger);
            var f := FirstFooter(data);
            var ids := TodayIds(DataRows(staging));
            && Header(Consolidated(staging, ledger)) == Header(ledger)
            && WithId(DataRows(Consolidated(staging, ledger)), id)
               == (if id in ids then [] else WithId(data[..f], id))
                  + WithId(DataRows(staging), id) + WithId(data[f..], id)
  {
    var data := DataRows(ledger);
    var f := FirstFooter(data);
    var ids := TodayIds(DataRows(staging));
    var kept := KeepHistory(data[..f], ids);
    ConsolidatedParts(staging, ledger);
    WithIdAppend(kept + DataRows(staging), data[f..], id);
    WithIdAppend(kept, DataRows(staging), id);
    WithIdOfKept(data[..f], ids, id);
  }

  predicate NoFooter(rows: seq<Row>) {
    forall i :: 0 <= i < |rows| ==> !IsFooter(rows[i])
  }

  /** The rows kept from above the footer contain no footer. */
  lemma KeptHasNoFooter(data: seq<Row>, ids: set<string>)
    ensures NoFooter(KeepHistory(data[..FirstFooter(data)], ids))
  {
    var f := FirstFooter(data);
    FirstFooterSpec(data);
    var kept := KeepHistory(data[..f], ids);
    KeptMembers(data[..f], ids);
    forall i | 0 <= i < |kept|
      ensures !IsFooter(kept[i])
    {
      assert kept[i] in data[..f];
    }
  }

  /** The data rows of a consolidated ledger, in its three parts. */
  lemma ConsolidatedParts(staging: Sheet, ledger: Sheet)
    ensures var data := DataRows(ledger);
            var f := FirstFooter(data);
            DataRows(Consolidated(staging, ledger))
              == (KeepHistory(data[..f], TodayIds(DataRows(staging))) + DataRows(staging)) + data[f..]
  {
  }

  /** The tail starting at the first footer starts with a footer, if any row. */
  lemma TailStartsWithFooter(data: seq<Row>)
    ensures FirstFooter(data[FirstFooter(data)..]) == 0
  {
    FirstFooterSpec(data);
    FirstFooterIs(data[FirstFooter(data)..], 0);
  }

  /** Footer preservation: when today's rows contain no footer, the first
      footer of the rewritten ledger comes right after today's rows, and it
      and every row after it are the old footer and the rows after it. */
  lemma FooterFollowsToday(staging: Sheet, ledger: Sheet)
    requires NoFooter(DataRows(staging))
    ensures var data := DataRows(ledger);
            var f := FirstFooter(data);
            var data' := DataRows(Consolidated(staging, ledger));
            var f' := FirstFooter(data');
            && f' == |KeepHistory(data[..f], TodayIds(DataRows(staging)))| + |DataRows(staging)|
            && data'[f'..] == data[f..]
  {
    var data := DataRows(ledger);
    var f := FirstFooter(data);
    var today := DataRows(staging);
    var kept := KeepHistory(data[..f], TodayIds(today));
    KeptHasNoFooter(data, TodayIds(today));
    ConsolidatedParts(staging, ledger);
    assert NoFooter(kept + today);
    FirstFooterAfter(kept + today, data[f..]);
    TailStartsWithFooter(data);
  }

  /** Filtering kept rows again keeps them all. */
  lemma KeepHistoryTwice(rows: seq<Row>, ids: set<string>)
    ensures KeepHistory(KeepHistory(rows, ids), ids) == KeepHistory(rows, ids)
  {
    KeptMembers(rows, ids);
    KeepHistoryAll(KeepHistory(rows, ids), ids);
  }

  /** Staging rows that all have an id are all superseded by themselves. */
  lemma TodaySupersedesItself(today: seq<Row>)
    requires forall i :: 0 <= i < |today| ==> Truthy(CellAt(today[i], 0))
    ensures KeepHistory(today, TodayIds(today)) == []
  {
    TodayIdsMembers(today);
    forall r | r in today
      ensures RowId(r) in TodayIds(today)
    {
      var i :| 0 <= i < |today| && today[i] == r;
    }
    KeepHistoryNone(today, TodayIds(today));
  }

  /** Running the consolidation a second time with the same staging sheet
      leaves the ledger as the first run made it, provided every staging
      row has an id and none is the footer. */
  lemma ConsolidateIdempotent(staging: Sheet, ledger: Sheet)
    requires forall i :: 0 <= i < |DataRows(staging)| ==> Truthy(CellAt(DataRows(staging)[i], 0))
    requires NoFooter(DataRows(staging))
    ensures Consolidated(staging, Consolidated(staging, ledger)) == Consolidated(staging, ledger)
  {
    var today := DataRows(staging);
    var ids := TodayIds(today);
    var data := DataRows(ledger);
    var f := FirstFooter(data);
    var kept := KeepHistory(data[..f], ids);
    var once := Consolidated(staging, ledger);
    var data1 := DataRows(once);
    ConsolidatedParts(staging, ledger);
    FooterFollowsToday(staging, ledger);
    var f1 := FirstFooter(data1);
    assert data1[..f1] == kept + today;
    KeepHistoryAppend(kept, today, ids);
    KeepHistoryTwice(data[..f], ids);
    TodaySupersedesItself(today);
    assert KeepHistory(data1[..f1], ids) == kept;
    ConsolidatedParts(staging, once);
  }

  lemma ScenarioFooterAtTwo(a: Row, oldB: Row, footer: Row)
    requires !IsFooter(a) && !IsFooter(oldB) && IsFooter(footer)
    ensures FirstFooter([a, oldB, footer]) == 2
  {
    FirstFooterIs([a, oldB, footer], 2);
  }

  lemma ScenarioIds(newB: Row)
    requires RowId(newB) == "B" && Truthy(CellAt(newB, 0))
    ensures TodayIds([newB]) == {"B"}
  {
    assert [newB][..0] == [];
  }

  lemma ScenarioKept(a: Row, oldB: Row)
    requires RowId(a) == "A" && RowId(oldB) == "B"
    ensures KeepHistory([a, oldB], {"B"}) == [a]
  {
    assert [a, oldB][..1] == [a] && [a][..0] == [];
    assert "A" !in {"B"};
    assert KeepHistory([a], {"B"}) == [a];
  }

  lemma ScenarioAssemble(header: Row, a: Row, oldB: Row, newB: Row, footer: Row)
    requires FirstFooter([a, oldB, footer]) == 2
    requires TodayIds([newB]) == {"B"}
    requires KeepHistory([a, oldB], {"B"}) == [a]
    ensures Consolidated([header, newB], [header, a, oldB, footer]) == [header, a, newB, footer]
  {
    var data: seq<Row> := [a, oldB, footer];
    assert data[..2] == [a, oldB] && data[2..] == [footer];
    var staging: Sheet := [header, newB];
    var ledger: Sheet := [header, a, oldB, footer];
    assert DataRows(staging) == [newB] && DataRows(ledger) == data;
  }

  /** Scenario: history A, B and the footer; today's staging brings a new B.
      The ledger becomes A, the new B, the footer. */
  lemma ReplaceOneScenario(header: Row, a: Row, oldB: Row, newB: Row, footer: Row)
    requires RowId(a) == "A" && !IsFooter(a)
    requires RowId(oldB) == "B" && !IsFooter(oldB)
    requires RowId(newB) == "B" && Truthy(CellAt(newB, 0))
    requires IsFooter(footer)
    ensures Consolidated([header, newB], [header, a, oldB, footer]) == [header, a, newB, footer]
  {
    ScenarioFooterAtTwo(a, oldB, footer);
    ScenarioIds(newB);
    ScenarioKept(a, oldB);
    ScenarioAssemble(header, a, oldB, newB, footer);
  }

  /** Scenario: a ledger holding only its header and footer receives three
      new rows between the two. */
  lemma EmptyLedgerScenario(header: Row, footer: Row, r1: Row, r2: Row, r3: Row)
    requires IsFooter(footer)
    ensures Consolidated([header, r1, r2, r3], [header, footer]) == [header, r1, r2, r3, footer]
  {
    var staging: Sheet := [header, r1, r2, r3];
    var ledger: Sheet := [header, footer];
    var result := Consolidated(staging, ledger);
    assert DataRows(result) == [r1, r2, r3, footer] by {
      FirstFooterIs([footer], 0);
      assert [footer][..0] == [];
      assert DataRows(ledger) == [footer];
      ConsolidatedParts(staging, ledger);
    }
    assert result == [result[0]] + DataRows(result);
  }
}
