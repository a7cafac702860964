/** The ledger as the rental dashboard holds it in memory: a table of cells
    keyed by column name (a pandas frame read from the CSV file), with the
    column names, status values and device catalogue the engine compares
    against. */
module Schema {

  datatype Option<+T> = None | Some(value: T)

  datatype Result<+T, +E> = Success(value: T) | Failure(error: E)

  /** A calendar date. Only the date parser produces one. */
  datatype Date = Date(year: int, month: int, day: int)

  /** The month bucket of a date, shown as 'YYYY-MM'. */
  datatype YearMonth = YearMonth(year: int, month: int)

  /** One cell of the table. `Missing` stands for every missing value pandas
      knows: an empty CSV field (NaN) and an unparseable date (NaT). */
  datatype Cell = Missing | Text(text: string) | Num(n: int) | Day(date: Date)

  /** One row: a cell per column name. */
  type Row = map<string, Cell>

  /** A frame: its header and its rows, in file order; a row's position is
      its label. */
  datatype Table = Table(columns: set<string>, rows: seq<Row>)

  /** Why loading the ledger gives no frame. */
  datatype LoadError =
    | NoLedger                        // the CSV file does not exist yet
    | MissingColumn(column: string)   // the script indexes a column the file lacks

  // Column names, as the CSV header spells them.
  const CREATED_AT: string := "建檔時間"
  const STATUS: string := "狀態"
  const DEVICE_ID: string := "手機編號"
  const LEGACY_MODEL: string := "手機型號"
  const START_DATE: string := "開始日期"
  const END_DATE: string := "結束日期"
  const NAME: string := "姓名"
  const PHONE: string := "電話"
  const GENDER: string := "性別"
  const AGE: string := "年齡"
  const COUNTRY: string := "國家"
  const CITY: string := "縣市"
  const CONCERT: string := "演唱會"
  const RENT: string := "租金"
  const DEPOSIT: string := "押金"

  // Order statuses.
  const RESERVED: string := "預約確認"
  const CHECKED_OUT: string := "已取機(租借中)"
  const RETURNED: string := "已歸還(結案)"
  const CANCELLED: string := "取消"

  // Defaults the migration fills in.
  const UNKNOWN_MODEL: string := "未知型號"
  const DEFAULT_COUNTRY: string := "台灣"

  /** The fleet of phones, configured in the script. */
  const PHONE_INVENTORY: seq<string> := [
    "S25U 白色",
    "S25U 綠色",
    "S25U 藍色",
    "S24U 藍色",
    "S23U 黑色",
    "iPhone 17 Pro 銀色"
  ]

  /** Every row carries exactly the header's columns, as a CSV read gives. */
  predicate WellFormed(t: Table) {
    forall i :: 0 <= i < |t.rows| ==> t.rows[i].Keys == t.columns
  }

  /** The cell of `row` under column `c`; missing when the row has no such column. */
  function Lookup(row: Row, c: string): Cell {
    if c in row then row[c] else Missing
  }

  /** `a` is the same day as `b` or later. */
  predicate DateAtLeast(a: Date, b: Date) {
    a.year > b.year
    || (a.year == b.year && a.month > b.month)
    || (a.year == b.year && a.month == b.month && a.day >= b.day)
  }

  /** `a` is a strictly later month than `b`; on four-digit years this is
      the order of their 'YYYY-MM' spellings. */
  predicate MonthAfter(a: YearMonth, b: YearMonth) {
    a.year > b.year || (a.year == b.year && a.month > b.month)
  }

  /** Splits a reordering `b` of `a` around one occurrence of `a[0]`. */
  lemma PermutationSplit<T>(a: seq<T>, b: seq<T>) returns (k: int)
    requires multiset(a) == multiset(b) && a != []
    ensures 0 <= k < |b| && b[k] == a[0]
    ensures b == b[..k] + [a[0]] + b[k + 1..]
    ensures multiset(a[1..]) == multiset(b[..k] + b[k + 1..])
  {
    assert a[0] in multiset(b);
    k :| 0 <= k < |b| && b[k] == a[0];
    assert b == b[..k] + [a[0]] + b[k + 1..];
    assert a == [a[0]] + a[1..];
    calc {
      multiset(a[1..]);
      multiset(a) - multiset{a[0]};
      multiset(b) - multiset{a[0]};
      multiset(b[..k]) + multiset{a[0]} + multiset(b[k + 1..]) - multiset{a[0]};
      multiset(b[..k] + b[k + 1..]);
    }
  }
}
