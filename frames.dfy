/** The frame `df` one page view loads and then changes in place: the
    clean-up assignments (app.py 146-158) and `df.update` on save
    (app.py 219). */
module Frames {
  import opened Schema
  import opened Migration
  import opened Merge

  class Frame {
    var columns: set<string>
    var rows: seq<Row>

    /** The frame's current contents. */
    function Value(): Table
      reads this
    {
      Table(columns, rows)
    }

    /** `pd.read_csv` of a stored table. */
    constructor (t: Table)
      ensures Value() == t
    {
      columns := t.columns;
      rows := t.rows;
    }

    /** The clean-up block, one column assignment at a time; the returned
        error is the KeyError of indexing an absent date column. */
    method Migrate(parse: Parser) returns (failure: Option<LoadError>)
      modifies this
      ensures failure.None? <==> Migrated(old(Value()), parse).Success?
      ensures failure.None? ==> Value() == Migrated(old(Value()), parse).value
      ensures failure.Some? ==> Migrated(old(Value()), parse) == Failure(failure.value)
    {
      if DEVICE_ID !in columns {
        if LEGACY_MODEL in columns {
          rows := SetColumn(rows, DEVICE_ID, row => Lookup(row, LEGACY_MODEL));
        } else {
          rows := SetColumn(rows, DEVICE_ID, row => Text(UNKNOWN_MODEL));
        }
        columns := columns + {DEVICE_ID};
      }
      if COUNTRY !in columns {
        rows := SetColumn(rows, COUNTRY, row => Text(DEFAULT_COUNTRY));
        columns := columns + {COUNTRY};
      }
      if START_DATE !in columns {
        return Some(MissingColumn(START_DATE));
      }
      rows := SetColumn(rows, START_DATE, row => ParseCell(parse, Lookup(row, START_DATE)));
      if END_DATE !in columns {
        return Some(MissingColumn(END_DATE));
      }
      rows := SetColumn(rows, END_DATE, row => ParseCell(parse, Lookup(row, END_DATE)));
      return None;
    }

    /** `df.update(edited_df)`: overwrites, in place, the cells of the rows
        whose labels the edited table carries; refuses repeated labels and
        then leaves the frame as it was. */
    method Update(e: Edited) returns (ok: bool)
      modifies this
      ensures ok <==> DistinctLabels(e.rows)
      ensures ok ==> Value() == Updated(old(Value()), e).value
      ensures !ok ==> Value() == old(Value())
    {
      if !DistinctLabels(e.rows) {
        return false;
      }
      rows := Updated(Value(), e).value.rows;
      return true;
    }
  }
}
