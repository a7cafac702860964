/** The clean-up the dashboard applies to every frame it loads (app.py
    146-158): it supplies the device-id and country columns older files
    lack and parses the two date columns, turning an unparseable date into
    the unknown-date marker instead of failing. */
module Migration {
  import opened Schema

  /** The date parser, left opaque: it reads a raw cell as a date or gives up. */
  type Parser = Cell -> Option<Date>

  /** Sets column `c` of every row to `value` of that row (a whole-column
      assignment `df[c] = ...`). */
  function SetColumn(rows: seq<Row>, c: string, value: Row -> Cell): (r: seq<Row>)
    ensures |r| == |rows|
  {
    seq(|rows|, i requires 0 <= i < |rows| => rows[i][c := value(rows[i])])
  }

  /** One date cell after `to_datetime(errors='coerce').dt.date`: a date
      stays itself, a missing value stays missing, anything else is parsed
      and becomes missing (NaT) when the parser gives up. */
  function ParseCell(parse: Parser, c: Cell): (r: Cell)
    ensures r.Day? || r.Missing?
    ensures c.Day? || c.Missing? ==> r == c
  {
    match c
    case Missing => Missing
    case Day(d) => Day(d)
    case _ => match parse(c)
      case Some(d) => Day(d)
      case None => Missing
  }

  /** Rule 1: a frame without 手機編號 gets it copied from the legacy
      手機型號 column, or filled with 未知型號 when that is absent too. */
  function WithDeviceId(t: Table): Table {
    if DEVICE_ID in t.columns then t
    else if LEGACY_MODEL in t.columns then
      Table(t.columns + {DEVICE_ID}, SetColumn(t.rows, DEVICE_ID, row => Lookup(row, LEGACY_MODEL)))
    else
      Table(t.columns + {DEVICE_ID}, SetColumn(t.rows, DEVICE_ID, row => Text(UNKNOWN_MODEL)))
  }

  /** Rule 2: a frame without 國家 gets 台灣 in every row. */
  function WithCountry(t: Table): Table {
    if COUNTRY in t.columns then t
    else Table(t.columns + {COUNTRY}, SetColumn(t.rows, COUNTRY, row => Text(DEFAULT_COUNTRY)))
  }

  /** Rule 3: both date columns parsed; indexing an absent date column is a
      KeyError in the script, which stops the page. */
  function WithParsedDates(t: Table, parse: Parser): Result<Table, LoadError> {
    if START_DATE !in t.columns then Failure(MissingColumn(START_DATE))
    else if END_DATE !in t.columns then Failure(MissingColumn(END_DATE))
    else
      var started := SetColumn(t.rows, START_DATE, row => ParseCell(parse, Lookup(row, START_DATE)));
      Success(Table(t.columns, SetColumn(started, END_DATE, row => ParseCell(parse, Lookup(row, END_DATE)))))
  }

  /** The whole migration, the three rules in the script's order. */
  function Migrated(t: Table, parse: Parser): (r: Result<Table, LoadError>)
    ensures r.Failure? <==> START_DATE !in t.columns || END_DATE !in t.columns
    ensures WellFormed(t) && r.Success? ==> WellFormed(r.value)
  {
    WithParsedDates(WithCountry(WithDeviceId(t)), parse)
  }

  /** The date columns hold only dates and unknown-date markers. */
  predicate DatesSettled(t: Table) {
    forall i :: 0 <= i < |t.rows| ==>
      (Lookup(t.rows[i], START_DATE).Day? || Lookup(t.rows[i], START_DATE).Missing?)
      && (Lookup(t.rows[i], END_DATE).Day? || Lookup(t.rows[i], END_DATE).Missing?)
  }

  /** The shape every migrated frame has. */
  predicate Canonical(t: Table) {
    && WellFormed(t)
    && {DEVICE_ID, COUNTRY, START_DATE, END_DATE} <= t.columns
    && DatesSettled(t)
  }

  /** Migration keeps every column and row and adds exactly the two
      canonical columns; a migrated frame is canonical. */
  lemma MigratedShape(t: Table, parse: Parser)
    requires WellFormed(t) && Migrated(t, parse).Success?
    ensures var m := Migrated(t, parse).value;
      && m.columns == t.columns + {DEVICE_ID, COUNTRY}
      && |m.rows| == |t.rows|
      && Canonical(m)
  {
    var m := Migrated(t, parse).value;
    forall i | 0 <= i < |m.rows|
      ensures Lookup(m.rows[i], START_DATE).Day? || Lookup(m.rows[i], START_DATE).Missing?
      ensures Lookup(m.rows[i], END_DATE).Day? || Lookup(m.rows[i], END_DATE).Missing?
    {
      assert START_DATE != END_DATE;
    }
  }

  /** Rule 1 row by row: an existing 手機編號 is kept, a missing one comes
      from 手機型號 when the frame has it and is 未知型號 otherwise. */
  lemma MigrationFillsDeviceId(t: Table, parse: Parser, i: int)
    requires WellFormed(t) && Migrated(t, parse).Success?
    requires 0 <= i < |t.rows|
    ensures var m := Migrated(t, parse).value;
      && |m.rows| == |t.rows|
      && (DEVICE_ID in t.columns ==> m.rows[i][DEVICE_ID] == t.rows[i][DEVICE_ID])
      && (DEVICE_ID !in t.columns && LEGACY_MODEL in t.columns ==> m.rows[i][DEVICE_ID] == t.rows[i][LEGACY_MODEL])
      && (DEVICE_ID !in t.columns && LEGACY_MODEL !in t.columns ==> m.rows[i][DEVICE_ID] == Text(UNKNOWN_MODEL))
  {
    assert DEVICE_ID != COUNTRY && DEVICE_ID != START_DATE && DEVICE_ID != END_DATE;
  }

  /** Rule 2 row by row: an existing 國家 is kept, a frame without one gets 台灣. */
  lemma MigrationFillsCountry(t: Table, parse: Parser, i: int)
    requires WellFormed(t) && Migrated(t, parse).Success?
    requires 0 <= i < |t.rows|
    ensures var m := Migrated(t, parse).value;
      && |m.rows| == |t.rows|
      && (COUNTRY in t.columns ==> m.rows[i][COUNTRY] == t.rows[i][COUNTRY])
      && (COUNTRY !in t.columns ==> m.rows[i][COUNTRY] == Text(DEFAULT_COUNTRY))
  {
    assert COUNTRY != START_DATE && COUNTRY != END_DATE;
  }

  /** No column is dropped and no cell outside the date columns changes,
      legacy columns included; date cells are replaced by their parse. */
  lemma MigrationKeepsCells(t: Table, parse: Parser, i: int, c: string)
    requires WellFormed(t) && Migrated(t, parse).Success?
    requires 0 <= i < |t.rows| && c in t.columns
    ensures var m := Migrated(t, parse).value;
      && |m.rows| == |t.rows| && c in m.rows[i]
      && (c != START_DATE && c != END_DATE ==> m.rows[i][c] == t.rows[i][c])
      && (c == START_DATE || c == END_DATE ==> m.rows[i][c] == ParseCell(parse, t.rows[i][c]))
  {
    MigratedShape(t, parse);
    assert START_DATE != END_DATE;
    var d := WithCountry(WithDeviceId(t));
    assert d.rows[i][c] == t.rows[i][c];
  }

  /** A canonical frame passes through the migration unchanged. */
  lemma MigrationFixesCanonical(t: Table, parse: Parser)
    requires Canonical(t)
    ensures Migrated(t, parse) == Success(t)
  {
    var started := SetColumn(t.rows, START_DATE, row => ParseCell(parse, Lookup(row, START_DATE)));
    var ended := SetColumn(started, END_DATE, row => ParseCell(parse, Lookup(row, END_DATE)));
    forall i | 0 <= i < |t.rows| ensures ended[i] == t.rows[i] {
      assert START_DATE != END_DATE;
      assert started[i] == t.rows[i];
    }
    assert ended == t.rows;
  }

  /** Migrating twice is migrating once. */
  lemma MigrationIdempotent(t: Table, parse: Parser)
    requires WellFormed(t) && Migrated(t, parse).Success?
    ensures Migrated(Migrated(t, parse).value, parse) == Migrated(t, parse)
  {
    MigratedShape(t, parse);
    MigrationFixesCanonical(Migrated(t, parse).value, parse);
  }
}
