/** The ledger file and the three ways the script writes it: appending a
    submitted order (app.py 107-135), saving the editor (app.py 215-222)
    and deleting one order (app.py 230-235). The file is modelled by
    whether it exists and the table it holds. */
module Store {
  import opened Schema
  import opened Migration
  import opened Kpi
  import opened MonthView
  import opened Merge
  import opened Frames

  /** What the sidebar form submits; the widgets already bound the age and
      the amounts. `end` is absent when the date picker returned only a
      start date. */
  datatype OrderForm = OrderForm(
    status: string, phone: string, start: Date, end: Option<Date>,
    customer: string, contact: string, gender: string, age: int,
    country: string, city: string, concert: string, rent: int, deposit: int)

  /** The header of a row the form creates; it has no 手機型號. */
  const ORDER_COLUMNS: set<string> := {
    CREATED_AT, STATUS, DEVICE_ID, START_DATE, END_DATE, NAME, PHONE,
    GENDER, AGE, COUNTRY, CITY, CONCERT, RENT, DEPOSIT
  }

  /** The one-row frame `df_new`; `createdAt` is the clock's reading,
      already formatted. */
  function OrderRow(createdAt: string, f: OrderForm): (r: Row)
    ensures r.Keys == ORDER_COLUMNS
    ensures r[END_DATE] == (if f.end.Some? then Day(f.end.value) else r[START_DATE])
  {
    map[
      CREATED_AT := Text(createdAt), STATUS := Text(f.status), DEVICE_ID := Text(f.phone),
      START_DATE := Day(f.start), END_DATE := Day(if f.end.Some? then f.end.value else f.start),
      NAME := Text(f.customer), PHONE := Text(f.contact), GENDER := Text(f.gender),
      AGE := Num(f.age), COUNTRY := Text(f.country), CITY := Text(f.city),
      CONCERT := Text(f.concert), RENT := Num(f.rent), DEPOSIT := Num(f.deposit)]
  }

  /** A row widened to header `cols`, missing where it had no value. */
  function Pad(row: Row, cols: set<string>): Row {
    map c | c in cols :: Lookup(row, c)
  }

  /** `pd.concat([existing_df, df_new], ignore_index=True)`: the union of
      the two headers, each row padded with missing values. */
  function Concat(t: Table, row: Row): (r: Table)
    ensures WellFormed(r)
  {
    var cols := t.columns + row.Keys;
    Table(cols, seq(|t.rows|, i requires 0 <= i < |t.rows| => Pad(t.rows[i], cols)) + [Pad(row, cols)])
  }

  /** The file after a submission as app.py 130-135 writes it: the new row
      alone, or the raw file, not cleaned up, with the new row after it. */
  function AppendAsWritten(fileExists: bool, t: Table, row: Row): Table {
    if !fileExists then Table(row.Keys, [row]) else Concat(t, row)
  }

  /** The file after a submission, corrected: the stored ledger gets the
      same clean-up as a page load before the new row goes after it (a
      file the clean-up cannot handle is appended to as it is). */
  function Appended(fileExists: bool, t: Table, row: Row, parse: Parser): Table {
    if !fileExists then Table(row.Keys, [row])
    else match Migrated(t, parse)
      case Success(m) => Concat(m, row)
      case Failure(_) => Concat(t, row)
  }

  /** As written, appending keeps every earlier row's cells and puts the new
      row last; columns only the new row has are missing in earlier rows. */
  lemma AppendAsWrittenKeepsEarlierRows(fileExists: bool, t: Table, row: Row)
    requires WellFormed(t)
    ensures var r := AppendAsWritten(fileExists, t, row);
      && WellFormed(r)
      && (!fileExists ==> r.rows == [row])
      && (fileExists ==>
        && r.columns == t.columns + row.Keys
        && |r.rows| == |t.rows| + 1
        && (forall i, c :: 0 <= i < |t.rows| && c in t.columns ==> r.rows[i][c] == t.rows[i][c])
        && (forall i, c :: 0 <= i < |t.rows| && c in row && c !in t.columns ==> r.rows[i][c] == Missing)
        && (forall c :: c in row ==> r.rows[|t.rows|][c] == row[c]))
  {
  }

  /** As written, every row of a file without 手機編號 and 國家 loads with
      both missing once an order has been appended: the new row brings the
      columns, so the clean-up no longer fills them. */
  lemma AppendAsWrittenBlanksLegacyRows(t: Table, createdAt: string, f: OrderForm, parse: Parser, i: int)
    requires WellFormed(t) && DEVICE_ID !in t.columns && COUNTRY !in t.columns
    requires 0 <= i < |t.rows|
    ensures var after := Migrated(AppendAsWritten(true, t, OrderRow(createdAt, f)), parse);
      && after.Success?
      && after.value.rows[i][DEVICE_ID] == Missing
      && after.value.rows[i][COUNTRY] == Missing
  {
    var row := OrderRow(createdAt, f);
    var appended := AppendAsWritten(true, t, row);
    AppendAsWrittenKeepsEarlierRows(true, t, row);
    assert START_DATE in appended.columns && END_DATE in appended.columns;
    assert appended.rows[i][DEVICE_ID] == Missing && appended.rows[i][COUNTRY] == Missing;
    MigrationFillsDeviceId(appended, parse, i);
    MigrationFillsCountry(appended, parse, i);
  }

  /** The discrepancy on one file: a reserved order from before 手機編號 and
      國家 existed loads with its phone and country filled in; once a new
      order is appended, it loads with both missing. */
  lemma AppendAsWrittenLosesLegacyCells(parse: Parser, createdAt: string, f: OrderForm)
    ensures var legacyRow := map[
        STATUS := Text(RESERVED), LEGACY_MODEL := Text("S25U 白色"),
        START_DATE := Day(Date(2025, 3, 1)), END_DATE := Day(Date(2025, 3, 3)), RENT := Num(1200)];
      var legacy := Table(legacyRow.Keys, [legacyRow]);
      var before := Migrated(legacy, parse);
      var after := Migrated(AppendAsWritten(true, legacy, OrderRow(createdAt, f)), parse);
      && before.Success? && after.Success?
      && before.value.rows[0][DEVICE_ID] == Text("S25U 白色")
      && before.value.rows[0][COUNTRY] == Text(DEFAULT_COUNTRY)
      && after.value.rows[0][DEVICE_ID] == Missing
      && after.value.rows[0][COUNTRY] == Missing
  {
    var legacyRow := map[
        STATUS := Text(RESERVED), LEGACY_MODEL := Text("S25U 白色"),
        START_DATE := Day(Date(2025, 3, 1)), END_DATE := Day(Date(2025, 3, 3)), RENT := Num(1200)];
    var legacy := Table(legacyRow.Keys, [legacyRow]);
    assert DEVICE_ID !in legacy.columns && COUNTRY !in legacy.columns && LEGACY_MODEL in legacy.columns;
    MigrationFillsDeviceId(legacy, parse, 0);
    MigrationFillsCountry(legacy, parse, 0);
    AppendAsWrittenBlanksLegacyRows(legacy, createdAt, f, parse, 0);
  }

  /** Padding to a wider header changes no lookup. */
  lemma PadKeepsLookups(row: Row, cols: set<string>, c: string)
    requires row.Keys <= cols
    ensures Lookup(Pad(row, cols), c) == Lookup(row, c)
  {
  }

  /** A canonical ledger with a new order after it is still canonical. */
  lemma ConcatOrderIsCanonical(m: Table, row: Row)
    requires Canonical(m) && row.Keys == ORDER_COLUMNS
    requires row[START_DATE].Day? && row[END_DATE].Day?
    ensures Canonical(Concat(m, row))
  {
    var r := Concat(m, row);
    forall i | 0 <= i < |r.rows|
      ensures Lookup(r.rows[i], START_DATE).Day? || Lookup(r.rows[i], START_DATE).Missing?
      ensures Lookup(r.rows[i], END_DATE).Day? || Lookup(r.rows[i], END_DATE).Missing?
    {
      if i < |m.rows| {
        PadKeepsLookups(m.rows[i], r.columns, START_DATE);
        PadKeepsLookups(m.rows[i], r.columns, END_DATE);
      }
    }
  }

  /** The corrected append completes the round trip: loading after a
      submission gives the ledger loaded before it, every cell as it was,
      followed by the new order. */
  lemma AppendLoadRoundTrip(fileExists: bool, t: Table, createdAt: string, f: OrderForm, parse: Parser)
    requires WellFormed(t)
    requires fileExists ==> Migrated(t, parse).Success?
    ensures var row := OrderRow(createdAt, f);
      var before := if fileExists then Migrated(t, parse).value.rows else [];
      var after := Migrated(Appended(fileExists, t, row, parse), parse);
      && after.Success?
      && |after.value.rows| == |before| + 1
      && (forall i, c :: 0 <= i < |before| && c in before[i] ==> after.value.rows[i][c] == before[i][c])
      && (forall c :: c in row ==> after.value.rows[|before|][c] == row[c])
  {
    var row := OrderRow(createdAt, f);
    if fileExists {
      var m := Migrated(t, parse).value;
      MigratedShape(t, parse);
      ConcatOrderIsCanonical(m, row);
      MigrationFixesCanonical(Concat(m, row), parse);
    } else {
      var only := Table(row.Keys, [row]);
      assert Canonical(only);
      MigrationFixesCanonical(only, parse);
    }
  }

  /** Padding keeps what the dashboard reads: the earlier rows and the
      new row read as before. */
  lemma ConcatKeepsCells(m: Table, row: Row)
    requires WellFormed(m)
    ensures var after := Concat(m, row).rows;
      && |after| == |m.rows| + 1
      && SameCells(after[..|m.rows|], m.rows)
      && SameCells([after[|m.rows|]], [row])
  {
    var after := Concat(m, row).rows;
    var n := |m.rows|;
    forall i, c | 0 <= i < n ensures Lookup(after[..n][i], c) == Lookup(m.rows[i], c) {
      PadKeepsLookups(m.rows[i], Concat(m, row).columns, c);
    }
    forall c ensures Lookup(after[n], c) == Lookup(row, c) {
      PadKeepsLookups(row, Concat(m, row).columns, c);
    }
  }

  /** A ledger with one more order: its share of the revenue and one more
      rental when it is picked up. */
  lemma ConcatUpdatesKpis(m: Table, row: Row)
    requires WellFormed(m)
    ensures var after := Concat(m, row).rows;
      && |after| == |m.rows| + 1
      && Revenue(after) == Revenue(m.rows) + RevenueShare(row)
      && ActiveRentals(after) == ActiveRentals(m.rows) + (if OnRent(row) then 1 else 0)
  {
    var after := Concat(m, row).rows;
    var n := |m.rows|;
    ConcatKeepsCells(m, row);
    assert after == after[..n] + [after[n]];
    RevenueReadsCellsOnly(after[..n], m.rows);
    RevenueReadsCellsOnly([after[n]], [row]);
    ActiveRentalsReadsCellsOnly(after[..n], m.rows);
    ActiveRentalsReadsCellsOnly([after[n]], [row]);
    RevenueConcat(after[..n], [after[n]]);
    ActiveRentalsConcat(after[..n], [after[n]]);
    OneOrderKpis(row);
  }

  /** After a submission the dashboard counts one more order, the new
      order's rent unless it is cancelled, and one more rental when it is
      picked up. */
  lemma AppendUpdatesKpis(t: Table, createdAt: string, f: OrderForm, parse: Parser)
    requires WellFormed(t) && Migrated(t, parse).Success?
    ensures var row := OrderRow(createdAt, f);
      var before := Migrated(t, parse).value.rows;
      var after := Migrated(Appended(true, t, row, parse), parse).value.rows;
      && Kpis(after).orders == Kpis(before).orders + 1
      && Kpis(after).revenue == Kpis(before).revenue + RevenueShare(row)
      && Kpis(after).onRent == Kpis(before).onRent + (if OnRent(row) then 1 else 0)
  {
    var row := OrderRow(createdAt, f);
    var m := Migrated(t, parse).value;
    MigratedShape(t, parse);
    ConcatOrderIsCanonical(m, row);
    MigrationFixesCanonical(Concat(m, row), parse);
    ConcatUpdatesKpis(m, row);
  }

  /** `df.drop(i)` on the freshly loaded ledger, whose labels are positions:
      one row fewer, earlier rows in place, later rows one place up. */
  function Dropped(t: Table, i: int): (r: Table)
    requires 0 <= i < |t.rows|
    ensures r.columns == t.columns && |r.rows| == |t.rows| - 1
    ensures forall j :: 0 <= j < i ==> r.rows[j] == t.rows[j]
    ensures forall j :: i <= j < |r.rows| ==> r.rows[j] == t.rows[j + 1]
    ensures WellFormed(t) ==> WellFormed(r)
  {
    Table(t.columns, t.rows[..i] + t.rows[i + 1..])
  }

  /** Deleting an order takes its share off the revenue, one off the order
      count, and one off the rentals when it was picked up. */
  lemma DeleteUpdatesKpis(t: Table, i: int)
    requires 0 <= i < |t.rows|
    ensures var before, after := Kpis(t.rows), Kpis(Dropped(t, i).rows);
      && after.orders == before.orders - 1
      && after.revenue == before.revenue - RevenueShare(t.rows[i])
      && after.onRent == before.onRent - (if OnRent(t.rows[i]) then 1 else 0)
  {
    var rows := t.rows;
    RevenueSplitAt(rows, i);
    RevenueConcat(rows[..i], rows[i + 1..]);
    WhereSplitAt(rows, i, OnRent);
    WhereSingle(rows[i], OnRent);
    WhereConcat(rows[..i], rows[i + 1..], OnRent);
  }

  lemma {:induction false} RowsOfConcat(v: seq<Labeled>, w: seq<Labeled>)
    ensures RowsOf(v + w) == RowsOf(v) + RowsOf(w)
  {
  }

  /** Stripping the labels of two orderings of one view gives two orderings
      of the same rows. */
  lemma {:induction false} RowsOfIgnoresOrder(v: seq<Labeled>, w: seq<Labeled>)
    requires multiset(v) == multiset(w)
    ensures multiset(RowsOf(v)) == multiset(RowsOf(w))
  {
    if v == [] {
      assert |w| == |multiset(w)| == 0;
    } else {
      var k := PermutationSplit(v, w);
      RowsOfIgnoresOrder(v[1..], w[..k] + w[k + 1..]);
      assert v == [v[0]] + v[1..];
      RowsOfConcat([v[0]], v[1..]);
      RowsOfConcat(w[..k] + [v[0]], w[k + 1..]);
      RowsOfConcat(w[..k], [v[0]]);
      RowsOfConcat(w[..k], w[k + 1..]);
    }
  }

  /** Saving the show-all view untouched writes the same orders, reordered
      newest first, and leaves every dashboard figure as it was. */
  lemma SaveUneditedShowAll(t: Table)
    requires WellFormed(t)
    ensures var saved := Saved(ShowAll, t, Edited(t.columns, View(t.rows, ShowAll))).value;
      && multiset(saved.rows) == multiset(t.rows)
      && Kpis(saved.rows) == Kpis(t.rows)
  {
    var v := View(t.rows, ShowAll);
    assert multiset(v) == multiset(Indexed(t.rows));
    RowsOfIgnoresOrder(v, Indexed(t.rows));
    assert RowsOf(Indexed(t.rows)) == t.rows;
    KpisIgnoreOrder(RowsOf(v), t.rows);
  }

  /** The cells of a submitted order that the dashboard reads. */
  lemma OrderRowCells(createdAt: string, f: OrderForm)
    ensures var row := OrderRow(createdAt, f);
      && Lookup(row, STATUS) == Text(f.status)
      && Lookup(row, DEVICE_ID) == Text(f.phone)
      && Lookup(row, RENT) == Num(f.rent)
  {
  }

  /** From an empty store, one reservation for 1200 makes a one-order
      ledger: revenue 1200, nothing picked up, that phone occupied. */
  lemma FirstOrderScenario(createdAt: string, start: Date, parse: Parser)
    ensures var f := OrderForm(RESERVED, "S25U 白色", start, None, "Alice", "0912345678", "女", 25,
                               DEFAULT_COUNTRY, "臺北市", "", 1200, 3000);
      var loaded := Migrated(Appended(false, Table({}, []), OrderRow(createdAt, f), parse), parse);
      && loaded.Success? && |loaded.value.rows| == 1
      && Revenue(loaded.value.rows) == 1200
      && ActiveRentals(loaded.value.rows) == 0
      && OccupiedDevices(loaded.value.rows) == {Text("S25U 白色")}
  {
    var f := OrderForm(RESERVED, "S25U 白色", start, None, "Alice", "0912345678", "女", 25,
                       DEFAULT_COUNTRY, "臺北市", "", 1200, 3000);
    var row := OrderRow(createdAt, f);
    var only := Table(row.Keys, [row]);
    assert Canonical(only);
    MigrationFixesCanonical(only, parse);
    OrderRowCells(createdAt, f);
    OneOrderKpis(row);
  }

  /** The ledger file. */
  class LedgerStore {
    var fileExists: bool
    var table: Table

    ghost predicate Valid()
      reads this
    {
      WellFormed(table) && (!fileExists ==> table == Table({}, []))
    }

    /** A deployment before the first order: no file. */
    constructor ()
      ensures Valid() && !fileExists
    {
      fileExists := false;
      table := Table({}, []);
    }

    /** Reads the file and runs the clean-up on it (app.py 141-158); no file
        means the welcome screen. */
    method Load(parse: Parser) returns (r: Result<Table, LoadError>)
      requires Valid()
      ensures !fileExists ==> r == Failure(NoLedger)
      ensures fileExists ==> r == Migrated(table, parse)
      ensures r.Success? ==> Canonical(r.value)
    {
      if !fileExists {
        return Failure(NoLedger);
      }
      var df := new Frame(table);
      var failure := df.Migrate(parse);
      if failure.Some? {
        return Failure(failure.value);
      }
      MigratedShape(table, parse);
      return Success(df.Value());
    }

    /** Submitting the form (app.py 107-135), corrected as `Appended`
        states: the first order creates the file, later ones go after the
        cleaned-up ledger. */
    method Append(createdAt: string, f: OrderForm, parse: Parser)
      requires Valid()
      modifies this
      ensures Valid() && fileExists
      ensures table == Appended(old(fileExists), old(table), OrderRow(createdAt, f), parse)
    {
      var row := OrderRow(createdAt, f);
      if !fileExists {
        table := Table(row.Keys, [row]);
      } else {
        var existing := table;
        var df := new Frame(table);
        var failure := df.Migrate(parse);
        if failure.None? {
          existing := df.Value();
        }
        table := Concat(existing, row);
      }
      fileExists := true;
    }

    /** Overwrites the whole file with `t`. */
    method ReplaceAll(t: Table)
      requires WellFormed(t)
      modifies this
      ensures Valid() && fileExists && table == t
    {
      fileExists := true;
      table := t;
    }

    /** The save button (app.py 215-222): in show-all mode the edited table
        becomes the file; in month mode the loaded frame takes the edits in
        place and is written back. When `update` refuses the edits nothing
        is written. */
    method Save(selector: Selector, df: Frame, edited: Edited) returns (saved: bool)
      requires Valid() && WellFormed(df.Value()) && EditedWellFormed(edited)
      modifies this, df
      ensures Valid()
      ensures saved <==> Saved(selector, old(df.Value()), edited).Success?
      ensures saved ==> fileExists && table == Saved(selector, old(df.Value()), edited).value
      ensures !saved ==> fileExists == old(fileExists) && table == old(table)
      ensures selector.InMonth? && saved ==> df.Value() == table
      ensures selector.ShowAll? || !saved ==> df.Value() == old(df.Value())
    {
      var final: Table;
      if selector.ShowAll? {
        final := Table(edited.columns, RowsOf(edited.rows));
      } else {
        var ok := df.Update(edited);
        if !ok {
          return false;
        }
        MonthSaveKeepsShape(old(df.Value()), selector.month, edited);
        final := df.Value();
      }
      ReplaceAll(final);
      return true;
    }

    /** The delete button (app.py 230-235): the loaded frame without row
        `i`, chosen from the options listing every label, is written back. */
    method DeleteAt(df: Frame, i: int)
      requires WellFormed(df.Value()) && 0 <= i < |df.rows|
      modifies this
      ensures Valid() && fileExists && table == Dropped(df.Value(), i)
    {
      ReplaceAll(Dropped(df.Value(), i));
    }
  }
}
