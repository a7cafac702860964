/** What the save button writes (app.py 215-222): in show-all mode the
    edited table itself; in month mode the loaded ledger after
    `df.update(edited_df)`, which matches rows by label. */
module Merge {
  import opened Schema
  import opened MonthView

  /** What the editor hands back: its header and its rows, each under its
      label. A row the user added carries a label that is not a position of
      the ledger; a row the user deleted is simply absent. */
  datatype Edited = Edited(columns: set<string>, rows: seq<Labeled>)

  /** `df.update` refuses an edited table whose labels repeat. */
  datatype SaveError = DuplicateLabels

  predicate EditedWellFormed(e: Edited) {
    forall j :: 0 <= j < |e.rows| ==> e.rows[j].row.Keys == e.columns
  }

  predicate DistinctLabels(v: seq<Labeled>) {
    forall j, k :: 0 <= j < k < |v| ==> v[j].index != v[k].index
  }

  /** The rows of a view without their labels (what `to_csv(index=False)` keeps). */
  function RowsOf(v: seq<Labeled>): (r: seq<Row>)
    ensures |r| == |v|
  {
    seq(|v|, j requires 0 <= j < |v| => v[j].row)
  }

  /** The edited row filed under label `i`, if any. */
  function EditAt(v: seq<Labeled>, i: int): (r: Option<Row>)
    ensures r.None? <==> forall j :: 0 <= j < |v| ==> v[j].index != i
    ensures r.Some? ==> exists j :: 0 <= j < |v| && v[j].index == i && v[j].row == r.value
  {
    if v == [] then None
    else if v[0].index == i then Some(v[0].row)
    else
      var r := EditAt(v[1..], i);
      assert forall j :: 1 <= j < |v| ==> v[j] == v[1..][j - 1];
      r
  }

  /** One ledger row after `update`: each of its cells for which the edited
      row holds a value takes that value; a missing edited value, or a
      column only the edited row has, changes nothing. */
  function Overlay(base: Row, edit: Row): Row {
    map c | c in base :: if c in edit && edit[c] != Missing then edit[c] else base[c]
  }

  /** `df.update(edited_df)` on the freshly loaded ledger, whose labels are
      its positions. */
  function Updated(t: Table, e: Edited): Result<Table, SaveError> {
    if !DistinctLabels(e.rows) then Failure(DuplicateLabels)
    else
      Success(Table(t.columns, seq(|t.rows|, i requires 0 <= i < |t.rows| =>
        match EditAt(e.rows, i)
        case Some(edit) => Overlay(t.rows[i], edit)
        case None => t.rows[i])))
  }

  /** The table the save button writes back, given the picker value, the
      loaded ledger and the editor's output. */
  function Saved(selector: Selector, df: Table, e: Edited): Result<Table, SaveError> {
    match selector
    case ShowAll => Success(Table(e.columns, RowsOf(e.rows)))
    case InMonth(_) => Updated(df, e)
  }

  /** In month mode the save fails only on repeated labels; otherwise the
      ledger keeps its header and its length, rows added or deleted in the
      editor notwithstanding. */
  lemma MonthSaveKeepsShape(t: Table, m: YearMonth, e: Edited)
    ensures Saved(InMonth(m), t, e).Success? <==> DistinctLabels(e.rows)
    ensures Saved(InMonth(m), t, e).Success? ==>
      && Saved(InMonth(m), t, e).value.columns == t.columns
      && |Saved(InMonth(m), t, e).value.rows| == |t.rows|
      && (WellFormed(t) ==> WellFormed(Saved(InMonth(m), t, e).value))
  {
  }

  /** A ledger row under no edited label is left exactly as it was: rows
      outside the view, and rows deleted in the editor, survive. */
  lemma UpdateLeavesUneditedRows(t: Table, e: Edited, i: int)
    requires Updated(t, e).Success? && 0 <= i < |t.rows|
    requires forall j :: 0 <= j < |e.rows| ==> e.rows[j].index != i
    ensures |Updated(t, e).value.rows| == |t.rows|
    ensures Updated(t, e).value.rows[i] == t.rows[i]
  {
  }

  /** At an edited label, exactly the cells with an edited value change, to
      that value; the row keeps its columns. */
  lemma UpdateOverwritesPresentCells(t: Table, e: Edited, j: int, c: string)
    requires Updated(t, e).Success?
    requires 0 <= j < |e.rows| && 0 <= e.rows[j].index < |t.rows|
    requires c in t.rows[e.rows[j].index]
    ensures var i, edit := e.rows[j].index, e.rows[j].row;
      var after := Updated(t, e).value.rows[i];
      && after.Keys == t.rows[i].Keys
      && (c in edit && edit[c] != Missing ==> after[c] == edit[c])
      && (c !in edit || edit[c] == Missing ==> after[c] == t.rows[i][c])
  {
    var i := e.rows[j].index;
    var found := EditAt(e.rows, i);
    var k :| 0 <= k < |e.rows| && e.rows[k].index == i && e.rows[k].row == found.value;
    assert k == j;
  }

  /** Only the labels of the current ledger matter: dropping the rows the
      user added in the editor saves the same ledger. */
  lemma UpdateIgnoresAddedRows(t: Table, e: Edited)
    requires DistinctLabels(e.rows)
    ensures var kept := Edited(e.columns, KeepLedgerRows(e.rows, |t.rows|));
      Updated(t, kept) == Updated(t, e)
  {
    var kept := KeepLedgerRows(e.rows, |t.rows|);
    KeptRowsDistinct(e.rows, |t.rows|);
    forall i | 0 <= i < |t.rows| ensures EditAt(kept, i) == EditAt(e.rows, i) {
      EditAtKeptRows(e.rows, |t.rows|, i);
    }
    assert Updated(t, Edited(e.columns, kept)).value.rows == Updated(t, e).value.rows;
  }

  /** The edited rows whose labels are positions of a ledger of `n` rows. */
  function KeepLedgerRows(v: seq<Labeled>, n: int): (r: seq<Labeled>)
    ensures forall x :: x in r ==> x in v && 0 <= x.index < n
  {
    if v == [] then []
    else (if 0 <= v[0].index < n then [v[0]] else []) + KeepLedgerRows(v[1..], n)
  }

  lemma {:induction false} KeptRowsDistinct(v: seq<Labeled>, n: int)
    requires DistinctLabels(v)
    ensures DistinctLabels(KeepLedgerRows(v, n))
  {
    if v != [] {
      var rest := KeepLedgerRows(v[1..], n);
      KeptRowsDistinct(v[1..], n);
      if 0 <= v[0].index < n {
        forall k | 0 <= k < |rest| ensures rest[k].index != v[0].index {
          assert rest[k] in v[1..];
          var q :| 0 <= q < |v[1..]| && v[1..][q] == rest[k];
          assert v[q + 1] == rest[k];
        }
        assert KeepLedgerRows(v, n) == [v[0]] + rest;
      } else {
        assert KeepLedgerRows(v, n) == rest;
      }
    }
  }

  lemma {:induction false} EditAtKeptRows(v: seq<Labeled>, n: int, i: int)
    requires 0 <= i < n
    ensures EditAt(KeepLedgerRows(v, n), i) == EditAt(v, i)
  {
    if v != [] {
      var rest := KeepLedgerRows(v[1..], n);
      EditAtKeptRows(v[1..], n, i);
      if 0 <= v[0].index < n {
        var r := [v[0]] + rest;
        assert KeepLedgerRows(v, n) == r;
        assert r[0] == v[0] && r[1..] == rest;
        if v[0].index != i {
          assert EditAt(r, i) == EditAt(rest, i);
        }
      } else {
        assert KeepLedgerRows(v, n) == rest;
        assert EditAt(v, i) == EditAt(v[1..], i);
      }
    }
  }

  lemma OverlayTwice(base: Row, edit: Row)
    ensures Overlay(Overlay(base, edit), edit) == Overlay(base, edit)
  {
  }

  /** Pressing save twice with the same edits writes the same ledger. */
  lemma UpdateIdempotent(t: Table, e: Edited)
    requires Updated(t, e).Success?
    ensures Updated(Updated(t, e).value, e) == Updated(t, e)
  {
    var once := Updated(t, e).value;
    var twice := Updated(once, e).value;
    forall i | 0 <= i < |t.rows| ensures twice.rows[i] == once.rows[i] {
      match EditAt(e.rows, i)
      case Some(edit) => OverlayTwice(t.rows[i], edit);
      case None =>
    }
    assert twice.rows == once.rows;
  }

  /** An edit that repeats the ledger's own rows under their own labels
      changes nothing. */
  lemma UpdateWithOwnRows(t: Table, e: Edited)
    requires DistinctLabels(e.rows)
    requires forall j :: 0 <= j < |e.rows| ==>
      0 <= e.rows[j].index < |t.rows| && e.rows[j].row == t.rows[e.rows[j].index]
    ensures Updated(t, e) == Success(t)
  {
    var after := Updated(t, e).value;
    forall i | 0 <= i < |t.rows| ensures after.rows[i] == t.rows[i] {
      var found := EditAt(e.rows, i);
      if found.Some? {
        var k :| 0 <= k < |e.rows| && e.rows[k].index == i && e.rows[k].row == found.value;
        assert Overlay(t.rows[i], t.rows[i]) == t.rows[i];
      }
    }
    assert after.rows == t.rows;
  }

  /** Saving a month view that nobody edited writes back the ledger as it
      was loaded. */
  lemma SaveUneditedMonthView(t: Table, m: YearMonth)
    ensures Saved(InMonth(m), t, Edited(t.columns, View(t.rows, InMonth(m)))) == Success(t)
  {
    UpdateWithOwnRows(t, Edited(t.columns, View(t.rows, InMonth(m))));
  }

  /** The month-mode save leaves every row outside the month untouched,
      whatever the edits, as long as every edited label that names a ledger
      position names a row of that month (as the month's view hands out). */
  lemma MonthSaveLeavesOtherMonths(t: Table, m: YearMonth, e: Edited, i: int)
    requires Saved(InMonth(m), t, e).Success?
    requires forall x :: x in e.rows && 0 <= x.index < |t.rows| ==> MonthOf(t.rows[x.index]) == Some(m)
    requires 0 <= i < |t.rows| && MonthOf(t.rows[i]) != Some(m)
    ensures |Saved(InMonth(m), t, e).value.rows| == |t.rows|
    ensures Saved(InMonth(m), t, e).value.rows[i] == t.rows[i]
  {
    forall j | 0 <= j < |e.rows| ensures e.rows[j].index != i {
      assert e.rows[j] in e.rows;
    }
    UpdateLeavesUneditedRows(t, e, i);
  }

  /** In show-all mode the edited table is written as it stands: its rows,
      added ones included and deleted ones gone, in the editor's order. */
  lemma ShowAllSaveIsVerbatim(df: Table, e: Edited, j: int)
    requires EditedWellFormed(e) && 0 <= j < |e.rows|
    ensures var saved := Saved(ShowAll, df, e).value;
      && WellFormed(saved) && |saved.rows| == |e.rows| && saved.rows[j] == e.rows[j].row
  {
  }
}
