/** The month picker of the order editor (app.py 181-194): the list of
    months to choose from, and the rows shown for a choice. Every row shown
    keeps its index (its position in the ledger), which the save path later
    uses to put edits back. */
module MonthView {
  import opened Schema

  /** A row of a view together with its index in the full ledger. */
  datatype Labeled = Labeled(index: int, row: Row)

  /** The picker's value: 全部顯示 (show all) or one 'YYYY-MM'. */
  datatype Selector = ShowAll | InMonth(month: YearMonth)

  function StartOf(row: Row): Cell { Lookup(row, START_DATE) }

  /** The 'YYYY-MM' of a row's start date; none for an unknown date. */
  function MonthOf(row: Row): Option<YearMonth> {
    match StartOf(row)
    case Day(d) => Some(YearMonth(d.year, d.month))
    case _ => None
  }

  predicate StrictlyNewestFirst(ms: seq<YearMonth>) {
    forall i, j :: 0 <= i < j < |ms| ==> MonthAfter(ms[i], ms[j])
  }

  /** Adds one month to a strictly descending list of distinct months. */
  function InsertMonth(m: YearMonth, ms: seq<YearMonth>): (r: seq<YearMonth>)
    requires StrictlyNewestFirst(ms)
    ensures StrictlyNewestFirst(r)
    ensures forall x :: x in r <==> x == m || x in ms
  {
    if ms == [] then [m]
    else if m == ms[0] then ms
    else if MonthAfter(m, ms[0]) then [m] + ms
    else
      assert forall x :: x in ms[1..] ==> MonthAfter(ms[0], x) by {
        forall x | x in ms[1..] ensures MonthAfter(ms[0], x) {
          var k :| 0 <= k < |ms[1..]| && ms[1..][k] == x;
          assert ms[k + 1] == x;
        }
      }
      [ms[0]] + InsertMonth(m, ms[1..])
  }

  /** The picker's months: `sorted(unique(months), reverse=True)` over the
      rows' start dates, unknown dates dropped. */
  function Months(rows: seq<Row>): (r: seq<YearMonth>)
    ensures StrictlyNewestFirst(r)
  {
    if rows == [] then []
    else match MonthOf(rows[0])
      case None => Months(rows[1..])
      case Some(m) => InsertMonth(m, Months(rows[1..]))
  }

  /** The months offered are exactly the months of the parseable start
      dates, newest first, each once. */
  lemma {:induction false} MonthsAreTheRowsMonths(rows: seq<Row>, m: YearMonth)
    ensures StrictlyNewestFirst(Months(rows))
    ensures m in Months(rows) <==> exists i :: 0 <= i < |rows| && MonthOf(rows[i]) == Some(m)
  {
    if rows != [] {
      MonthsAreTheRowsMonths(rows[1..], m);
      if exists i :: 0 <= i < |rows| && MonthOf(rows[i]) == Some(m) {
        var i :| 0 <= i < |rows| && MonthOf(rows[i]) == Some(m);
        if i > 0 {
          assert rows[1..][i - 1] == rows[i];
        }
      }
      if exists i :: 0 <= i < |rows[1..]| && MonthOf(rows[1..][i]) == Some(m) {
        var i :| 0 <= i < |rows[1..]| && MonthOf(rows[1..][i]) == Some(m);
        assert rows[i + 1] == rows[1..][i];
      }
    }
  }

  /** The labeled rows of the first `n` positions that fall in month `m`,
      in ledger order. */
  function FilterUpTo(rows: seq<Row>, m: YearMonth, n: nat): (r: seq<Labeled>)
    requires n <= |rows|
    ensures forall j :: 0 <= j < |r| ==>
      0 <= r[j].index < n && r[j].row == rows[r[j].index] && MonthOf(r[j].row) == Some(m)
    ensures forall j, k :: 0 <= j < k < |r| ==> r[j].index < r[k].index
    ensures forall i :: 0 <= i < n && MonthOf(rows[i]) == Some(m) ==> Labeled(i, rows[i]) in r
  {
    if n == 0 then []
    else
      FilterUpTo(rows, m, n - 1)
      + (if MonthOf(rows[n - 1]) == Some(m) then [Labeled(n - 1, rows[n - 1])] else [])
  }

  /** `df[temp_df['月份'] == selected_month]`: the rows of one month, with
      their labels, in ledger order. */
  function FilterMonth(rows: seq<Row>, m: YearMonth): seq<Labeled> {
    FilterUpTo(rows, m, |rows|)
  }

  /** The whole ledger, each row labeled with its position. */
  function Indexed(rows: seq<Row>): (r: seq<Labeled>)
    ensures |r| == |rows|
  {
    seq(|rows|, i requires 0 <= i < |rows| => Labeled(i, rows[i]))
  }

  /** `a` may be listed before `b` when sorting by start date newest first:
      dated rows by date, rows with an unknown date after all dated ones. */
  predicate NoOlder(a: Labeled, b: Labeled) {
    match StartOf(a.row)
    case Day(x) => (match StartOf(b.row) case Day(y) => DateAtLeast(x, y) case _ => true)
    case _ => !StartOf(b.row).Day?
  }

  predicate NewestFirst(v: seq<Labeled>) {
    forall i, j :: 0 <= i < j < |v| ==> NoOlder(v[i], v[j])
  }

  lemma NoOlderTransitive(a: Labeled, b: Labeled, c: Labeled)
    requires NoOlder(a, b) && NoOlder(b, c)
    ensures NoOlder(a, c)
  {
  }

  lemma NoOlderTotal(a: Labeled, b: Labeled)
    ensures NoOlder(a, b) || NoOlder(b, a)
  {
  }

  /** `x`, no older than the head of a newest-first listing, can go first. */
  lemma PrependNewest(x: Labeled, v: seq<Labeled>)
    requires NewestFirst(v) && v != [] && NoOlder(x, v[0])
    ensures NewestFirst([x] + v)
  {
    forall j | 0 <= j < |v| ensures NoOlder(x, v[j]) {
      if j > 0 { NoOlderTransitive(x, v[0], v[j]); }
    }
  }

  /** When `x` is older than the head of `v`, the head stays first ahead of
      `x` inserted into the rest. */
  lemma HeadStaysNewest(x: Labeled, v: seq<Labeled>, rest: seq<Labeled>)
    requires NewestFirst(v) && v != [] && !NoOlder(x, v[0])
    requires NewestFirst(rest) && multiset(rest) == multiset(v[1..]) + multiset{x}
    ensures NewestFirst([v[0]] + rest)
  {
    forall y | y in rest ensures NoOlder(v[0], y) {
      assert y in multiset(rest);
      if y == x {
        NoOlderTotal(x, v[0]);
      } else {
        assert y in multiset(v[1..]);
        var k :| 0 <= k < |v[1..]| && v[1..][k] == y;
        assert v[k + 1] == y;
      }
    }
    forall j | 0 < j < |[v[0]] + rest| ensures NoOlder(([v[0]] + rest)[0], ([v[0]] + rest)[j]) {
      assert ([v[0]] + rest)[j] == rest[j - 1];
      assert rest[j - 1] in rest;
    }
  }

  /** Puts `x` into a newest-first listing. */
  function InsertByDate(x: Labeled, v: seq<Labeled>): (r: seq<Labeled>)
    requires NewestFirst(v)
    ensures NewestFirst(r)
    ensures multiset(r) == multiset(v) + multiset{x}
  {
    if v == [] then [x]
    else if NoOlder(x, v[0]) then
      PrependNewest(x, v);
      [x] + v
    else
      var rest := InsertByDate(x, v[1..]);
      HeadStaysNewest(x, v, rest);
      assert v == [v[0]] + v[1..];
      [v[0]] + rest
  }

  /** `sort_values(by='開始日期', ascending=False)`: pandas' sort is not
      stable, so any newest-first order of the same rows is admissible;
      this is one of them. */
  function SortNewestFirst(v: seq<Labeled>): (r: seq<Labeled>)
    ensures NewestFirst(r)
    ensures multiset(r) == multiset(v)
  {
    if v == [] then []
    else
      assert v == [v[0]] + v[1..];
      InsertByDate(v[0], SortNewestFirst(v[1..]))
  }

  /** The rows the editor shows for a picker value. */
  function View(rows: seq<Row>, selector: Selector): seq<Labeled> {
    match selector
    case ShowAll => SortNewestFirst(Indexed(rows))
    case InMonth(m) => FilterMonth(rows, m)
  }

  /** A month view holds exactly the rows whose start date falls in that
      month, each under its own index, in their ledger order. */
  lemma MonthViewIsExact(rows: seq<Row>, m: YearMonth, i: int)
    requires 0 <= i < |rows|
    ensures Labeled(i, rows[i]) in View(rows, InMonth(m)) <==> MonthOf(rows[i]) == Some(m)
    ensures forall x :: x in View(rows, InMonth(m)) ==> 0 <= x.index < |rows| && x.row == rows[x.index]
    ensures forall j, k :: 0 <= j < k < |View(rows, InMonth(m))| ==>
      View(rows, InMonth(m))[j].index < View(rows, InMonth(m))[k].index
  {
  }

  /** The show-all view lists every row once, under its own index, unknown
      start dates included, newest first with the unknown dates last. */
  lemma ShowAllListsEveryRow(rows: seq<Row>, i: int)
    requires 0 <= i < |rows|
    ensures multiset(View(rows, ShowAll)) == multiset(Indexed(rows))
    ensures Labeled(i, rows[i]) in View(rows, ShowAll)
    ensures NewestFirst(View(rows, ShowAll))
    ensures forall j, k :: 0 <= j < k < |View(rows, ShowAll)| && !StartOf(View(rows, ShowAll)[j].row).Day? ==>
      !StartOf(View(rows, ShowAll)[k].row).Day?
  {
    var v := View(rows, ShowAll);
    assert Indexed(rows)[i] == Labeled(i, rows[i]);
    assert Labeled(i, rows[i]) in multiset(Indexed(rows));
    assert Labeled(i, rows[i]) in multiset(v);
  }

  /** A row with an unknown start date is in no month's view and adds no
      month to the picker, yet stays in the show-all view. */
  lemma UndatedRowInNoMonth(rows: seq<Row>, i: int, m: YearMonth)
    requires 0 <= i < |rows| && !StartOf(rows[i]).Day?
    ensures forall x :: x in View(rows, InMonth(m)) ==> x.index != i
    ensures Labeled(i, rows[i]) in View(rows, ShowAll)
  {
    ShowAllListsEveryRow(rows, i);
  }
}
