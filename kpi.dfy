/** The four headline figures of the dashboard (app.py 161-164 and 170),
    each a mask-and-aggregate over the migrated ledger. */
module Kpi {
  import opened Schema

  /** The rows satisfying `keep`, in order: the frame `df[mask]`. */
  function Where(rows: seq<Row>, keep: Row -> bool): (r: seq<Row>)
    ensures |r| <= |rows|
    ensures forall x :: x in r <==> x in rows && keep(x)
  {
    if rows == [] then []
    else (if keep(rows[0]) then [rows[0]] else []) + Where(rows[1..], keep)
  }

  function Status(row: Row): Cell { Lookup(row, STATUS) }

  predicate NotCancelled(row: Row) { Status(row) != Text(CANCELLED) }

  predicate OnRent(row: Row) { Status(row) == Text(CHECKED_OUT) }

  predicate Occupying(row: Row) { Status(row) == Text(RESERVED) || Status(row) == Text(CHECKED_OUT) }

  /** A row's 租金 as the column sum sees it; a missing value is skipped. */
  function RentOf(row: Row): int {
    match Lookup(row, RENT)
    case Num(n) => n
    case _ => 0
  }

  /** `series.sum()` over the 租金 column. */
  function SumRent(rows: seq<Row>): int {
    if rows == [] then 0 else RentOf(rows[0]) + SumRent(rows[1..])
  }

  /** 總營收: the rent of every order that is not cancelled. */
  function Revenue(rows: seq<Row>): int {
    SumRent(Where(rows, NotCancelled))
  }

  /** 出租中: the number of orders picked up and not yet returned. */
  function ActiveRentals(rows: seq<Row>): nat {
    |Where(rows, OnRent)|
  }

  /** The set of device ids of the orders holding a phone (reserved or
      picked up); a missing id is one value like any other. */
  function OccupiedDevices(rows: seq<Row>): set<Cell> {
    set r | r in Where(rows, Occupying) :: Lookup(r, DEVICE_ID)
  }

  /** 庫存剩餘: catalogue size minus occupied ids, with no floor at zero and
      no look at the dates. */
  function AvailableEstimate(rows: seq<Row>): int {
    |PHONE_INVENTORY| - |OccupiedDevices(rows)|
  }

  /** The four figures together, as the metric row shows them. */
  datatype Dashboard = Dashboard(revenue: int, onRent: nat, available: int, orders: nat)

  function Kpis(rows: seq<Row>): Dashboard {
    Dashboard(Revenue(rows), ActiveRentals(rows), AvailableEstimate(rows), |rows|)
  }

  /** A row's share of the revenue. */
  function RevenueShare(row: Row): int {
    if NotCancelled(row) then RentOf(row) else 0
  }

  lemma {:induction false} WhereConcat(a: seq<Row>, b: seq<Row>, keep: Row -> bool)
    ensures Where(a + b, keep) == Where(a, keep) + Where(b, keep)
  {
    if a == [] {
      assert a + b == b;
    } else {
      assert (a + b)[1..] == a[1..] + b;
      WhereConcat(a[1..], b, keep);
    }
  }

  lemma {:induction false} SumRentConcat(a: seq<Row>, b: seq<Row>)
    ensures SumRent(a + b) == SumRent(a) + SumRent(b)
  {
    if a == [] {
      assert a + b == b;
    } else {
      assert (a + b)[1..] == a[1..] + b;
      SumRentConcat(a[1..], b);
    }
  }

  /** Revenue adds up over consecutive parts of the ledger. */
  lemma RevenueConcat(a: seq<Row>, b: seq<Row>)
    ensures Revenue(a + b) == Revenue(a) + Revenue(b)
  {
    WhereConcat(a, b, NotCancelled);
    SumRentConcat(Where(a, NotCancelled), Where(b, NotCancelled));
  }

  /** Revenue is the sum of every row's share: a cancelled row adds nothing,
      any other row adds exactly its rent. */
  lemma {:induction false} RevenueIsSumOfShares(rows: seq<Row>)
    ensures rows == [] ==> Revenue(rows) == 0
    ensures rows != [] ==> Revenue(rows) == RevenueShare(rows[0]) + Revenue(rows[1..])
  {
    if rows != [] {
      assert rows == [rows[0]] + rows[1..];
      RevenueConcat([rows[0]], rows[1..]);
      assert Where([rows[0]], NotCancelled) == (if NotCancelled(rows[0]) then [rows[0]] else []);
    }
  }

  /** A one-row frame keeps its row or nothing. */
  lemma WhereSingle(x: Row, keep: Row -> bool)
    ensures Where([x], keep) == (if keep(x) then [x] else [])
  {
    assert [x][1..] == [];
  }

  /** The rows kept by `keep` around position `i`. */
  lemma {:induction false} WhereSplitAt(rows: seq<Row>, i: int, keep: Row -> bool)
    requires 0 <= i < |rows|
    ensures Where(rows, keep) == Where(rows[..i], keep) + Where([rows[i]], keep) + Where(rows[i + 1..], keep)
  {
    assert rows == rows[..i] + [rows[i]] + rows[i + 1..];
    WhereConcat(rows[..i] + [rows[i]], rows[i + 1..], keep);
    WhereConcat(rows[..i], [rows[i]], keep);
  }

  /** Row `i`'s share, and the revenue before and after it. */
  lemma {:induction false} RevenueSplitAt(rows: seq<Row>, i: int)
    requires 0 <= i < |rows|
    ensures Revenue(rows) == Revenue(rows[..i]) + RevenueShare(rows[i]) + Revenue(rows[i + 1..])
  {
    assert rows == rows[..i] + [rows[i]] + rows[i + 1..];
    RevenueConcat(rows[..i] + [rows[i]], rows[i + 1..]);
    RevenueConcat(rows[..i], [rows[i]]);
    RevenueIsSumOfShares([rows[i]]);
  }

  /** Excluding all and only cancelled orders: changing row `i`'s rent to
      `v` moves the revenue by the difference exactly when the row is not
      cancelled. */
  lemma RevenueCountsExactlyUncancelled(rows: seq<Row>, i: int, v: int)
    requires 0 <= i < |rows|
    ensures var changed := rows[i := rows[i][RENT := Num(v)]];
      Revenue(changed) == Revenue(rows) + (if NotCancelled(rows[i]) then v - RentOf(rows[i]) else 0)
  {
    var changed := rows[i := rows[i][RENT := Num(v)]];
    assert changed[..i] == rows[..i] && changed[i + 1..] == rows[i + 1..];
    assert STATUS != RENT;
    assert Status(changed[i]) == Status(rows[i]) && RentOf(changed[i]) == v;
    RevenueSplitAt(rows, i);
    RevenueSplitAt(changed, i);
  }

  /** The rented-out count adds up over consecutive parts of the ledger. */
  lemma ActiveRentalsConcat(a: seq<Row>, b: seq<Row>)
    ensures ActiveRentals(a + b) == ActiveRentals(a) + ActiveRentals(b)
  {
    WhereConcat(a, b, OnRent);
  }

  /** A device id is occupied exactly when some reserved or picked-up order
      carries it; returned and cancelled orders never occupy a phone. */
  lemma OccupiedDevicesIff(rows: seq<Row>, c: Cell)
    ensures c in OccupiedDevices(rows) <==>
      exists i :: 0 <= i < |rows| && Occupying(rows[i]) && Lookup(rows[i], DEVICE_ID) == c
  {
    if c in OccupiedDevices(rows) {
      var r :| r in Where(rows, Occupying) && Lookup(r, DEVICE_ID) == c;
      var i :| 0 <= i < |rows| && rows[i] == r;
      assert Occupying(rows[i]) && Lookup(rows[i], DEVICE_ID) == c;
    }
    if exists i :: 0 <= i < |rows| && Occupying(rows[i]) && Lookup(rows[i], DEVICE_ID) == c {
      var i :| 0 <= i < |rows| && Occupying(rows[i]) && Lookup(rows[i], DEVICE_ID) == c;
      assert rows[i] in Where(rows, Occupying);
    }
  }

  /** Dropping a returned or cancelled order leaves the occupied set, and so
      the inventory estimate, as it was. */
  lemma ClosedOrderOccupiesNothing(rows: seq<Row>, i: int)
    requires 0 <= i < |rows|
    requires Status(rows[i]) == Text(RETURNED) || Status(rows[i]) == Text(CANCELLED)
    ensures OccupiedDevices(rows[..i] + rows[i+1..]) == OccupiedDevices(rows)
    ensures AvailableEstimate(rows[..i] + rows[i+1..]) == AvailableEstimate(rows)
  {
    var rest := rows[..i] + rows[i+1..];
    assert !Occupying(rows[i]);
    WhereSplitAt(rows, i, Occupying);
    WhereSingle(rows[i], Occupying);
    WhereConcat(rows[..i], rows[i+1..], Occupying);
    assert Where(rest, Occupying) == Where(rows, Occupying);
  }

  /** The occupied set has at most one id per occupying order. */
  lemma {:induction false} OccupiedAtMostOccupyingOrders(rows: seq<Row>)
    ensures |OccupiedDevices(rows)| <= |Where(rows, Occupying)|
  {
    if rows != [] {
      OccupiedAtMostOccupyingOrders(rows[1..]);
      var tail := OccupiedDevices(rows[1..]);
      if Occupying(rows[0]) {
        assert Where(rows, Occupying) == [rows[0]] + Where(rows[1..], Occupying);
        assert OccupiedDevices(rows) == tail + {Lookup(rows[0], DEVICE_ID)};
      } else {
        assert Where(rows, Occupying) == Where(rows[1..], Occupying);
      }
    }
  }

  /** The estimate is the catalogue size when nothing is occupied, never
      more, and drops by at most one per occupying order; it can go below
      zero. */
  lemma AvailableEstimateBounds(rows: seq<Row>)
    ensures AvailableEstimate(rows) <= |PHONE_INVENTORY|
    ensures AvailableEstimate(rows) >= |PHONE_INVENTORY| - |Where(rows, Occupying)|
    ensures Where(rows, Occupying) == [] ==> AvailableEstimate(rows) == |PHONE_INVENTORY|
  {
    OccupiedAtMostOccupyingOrders(rows);
  }

  /** An occupying first order adds its device id to the rest's set. */
  lemma OccupiedDevicesCons(rows: seq<Row>)
    requires rows != [] && Occupying(rows[0])
    ensures OccupiedDevices(rows) == {Lookup(rows[0], DEVICE_ID)} + OccupiedDevices(rows[1..])
  {
    assert Where(rows, Occupying) == [rows[0]] + Where(rows[1..], Occupying);
  }

  /** Occupying orders with pairwise different device ids: one id each. */
  lemma {:induction false} DistinctOrdersOccupyOneEach(rows: seq<Row>)
    requires forall k :: 0 <= k < |rows| ==> Occupying(rows[k])
    requires forall j, k :: 0 <= j < k < |rows| ==> Lookup(rows[j], DEVICE_ID) != Lookup(rows[k], DEVICE_ID)
    ensures |OccupiedDevices(rows)| == |rows|
  {
    if rows != [] {
      var tail := rows[1..];
      assert forall k :: 0 <= k < |tail| ==> tail[k] == rows[k + 1];
      DistinctOrdersOccupyOneEach(tail);
      var id := Lookup(rows[0], DEVICE_ID);
      OccupiedDevicesCons(rows);
      OccupiedDevicesIff(tail, id);
      assert id !in OccupiedDevices(tail);
    }
  }

  /** Each occupying order with its own device id takes one phone off the
      estimate, with no floor: seven of them put it at -1. */
  lemma AvailableEstimateOfDistinctOrders(rows: seq<Row>)
    requires forall k :: 0 <= k < |rows| ==> Occupying(rows[k])
    requires forall j, k :: 0 <= j < k < |rows| ==> Lookup(rows[j], DEVICE_ID) != Lookup(rows[k], DEVICE_ID)
    ensures AvailableEstimate(rows) == |PHONE_INVENTORY| - |rows|
    ensures |rows| == 7 ==> AvailableEstimate(rows) == -1
  {
    DistinctOrdersOccupyOneEach(rows);
  }

  lemma {:induction false} WhereAllKept(rows: seq<Row>, keep: Row -> bool)
    requires forall k :: 0 <= k < |rows| ==> keep(rows[k])
    ensures Where(rows, keep) == rows
  {
    if rows != [] {
      WhereAllKept(rows[1..], keep);
    }
  }
  lemma {:induction false} RevenueIgnoresOrder(a: seq<Row>, b: seq<Row>)
    requires multiset(a) == multiset(b)
    ensures Revenue(a) == Revenue(b)
  {
    if a == [] {
      assert |b| == |multiset(b)| == 0;
    } else {
      var k := PermutationSplit(a, b);
      RevenueIgnoresOrder(a[1..], b[..k] + b[k + 1..]);
      assert a == [a[0]] + a[1..];
      RevenueConcat([a[0]], a[1..]);
      RevenueConcat(b[..k] + [a[0]], b[k + 1..]);
      RevenueConcat(b[..k], [a[0]]);
      RevenueConcat(b[..k], b[k + 1..]);
    }
  }

  lemma {:induction false} ActiveRentalsIgnoreOrder(a: seq<Row>, b: seq<Row>)
    requires multiset(a) == multiset(b)
    ensures ActiveRentals(a) == ActiveRentals(b)
  {
    if a == [] {
      assert |b| == |multiset(b)| == 0;
    } else {
      var k := PermutationSplit(a, b);
      ActiveRentalsIgnoreOrder(a[1..], b[..k] + b[k + 1..]);
      assert a == [a[0]] + a[1..];
      ActiveRentalsConcat([a[0]], a[1..]);
      ActiveRentalsConcat(b[..k] + [a[0]], b[k + 1..]);
      ActiveRentalsConcat(b[..k], [a[0]]);
      ActiveRentalsConcat(b[..k], b[k + 1..]);
    }
  }

  /** A one-order ledger: its share of the revenue, one rental when it is
      picked up, and its device occupied exactly while reserved or picked up. */
  lemma OneOrderKpis(row: Row)
    ensures Revenue([row]) == RevenueShare(row)
    ensures ActiveRentals([row]) == (if OnRent(row) then 1 else 0)
    ensures OccupiedDevices([row]) == (if Occupying(row) then {Lookup(row, DEVICE_ID)} else {})
  {
    RevenueIsSumOfShares([row]);
    assert [row][1..] == [];
    assert Where([row], OnRent) == (if OnRent(row) then [row] else []);
    assert Where([row], Occupying) == (if Occupying(row) then [row] else []);
  }

  /** Two row sequences whose cells read alike, position by position. */
  ghost predicate SameCells(a: seq<Row>, b: seq<Row>) {
    |a| == |b| && forall i, c :: 0 <= i < |a| ==> Lookup(a[i], c) == Lookup(b[i], c)
  }

  lemma {:induction false} RevenueReadsCellsOnly(a: seq<Row>, b: seq<Row>)
    requires SameCells(a, b)
    ensures Revenue(a) == Revenue(b)
  {
    if a != [] {
      assert SameCells(a[1..], b[1..]) by {
        forall i, c | 0 <= i < |a[1..]| ensures Lookup(a[1..][i], c) == Lookup(b[1..][i], c) {
          assert a[1..][i] == a[i + 1] && b[1..][i] == b[i + 1];
        }
      }
      RevenueReadsCellsOnly(a[1..], b[1..]);
      assert Lookup(a[0], STATUS) == Lookup(b[0], STATUS) && Lookup(a[0], RENT) == Lookup(b[0], RENT);
      RevenueIsSumOfShares(a);
      RevenueIsSumOfShares(b);
    }
  }

  lemma {:induction false} ActiveRentalsReadsCellsOnly(a: seq<Row>, b: seq<Row>)
    requires SameCells(a, b)
    ensures ActiveRentals(a) == ActiveRentals(b)
  {
    if a != [] {
      assert SameCells(a[1..], b[1..]) by {
        forall i, c | 0 <= i < |a[1..]| ensures Lookup(a[1..][i], c) == Lookup(b[1..][i], c) {
          assert a[1..][i] == a[i + 1] && b[1..][i] == b[i + 1];
        }
      }
      ActiveRentalsReadsCellsOnly(a[1..], b[1..]);
      assert Lookup(a[0], STATUS) == Lookup(b[0], STATUS);
      assert a == [a[0]] + a[1..] && b == [b[0]] + b[1..];
      ActiveRentalsConcat([a[0]], a[1..]);
      ActiveRentalsConcat([b[0]], b[1..]);
    }
  }

  lemma OccupiedReadsCellsOnly(a: seq<Row>, b: seq<Row>)
    requires SameCells(a, b)
    ensures OccupiedDevices(a) == OccupiedDevices(b)
  {
    forall c ensures c in OccupiedDevices(a) ==> c in OccupiedDevices(b) {
      OccupiedDevicesIff(a, c);
      OccupiedDevicesIff(b, c);
      if c in OccupiedDevices(a) {
        var i :| 0 <= i < |a| && Occupying(a[i]) && Lookup(a[i], DEVICE_ID) == c;
        assert Lookup(a[i], STATUS) == Lookup(b[i], STATUS);
        assert Occupying(b[i]) && Lookup(b[i], DEVICE_ID) == c;
      }
    }
    forall c ensures c in OccupiedDevices(b) ==> c in OccupiedDevices(a) {
      OccupiedDevicesIff(a, c);
      OccupiedDevicesIff(b, c);
      if c in OccupiedDevices(b) {
        var i :| 0 <= i < |b| && Occupying(b[i]) && Lookup(b[i], DEVICE_ID) == c;
        assert Lookup(a[i], STATUS) == Lookup(b[i], STATUS);
        assert Occupying(a[i]) && Lookup(a[i], DEVICE_ID) == c;
      }
    }
  }

  /** The dashboard reads cells only: two ledgers whose rows hold the same
      values (a padded column is as good as an absent one) show the same
      figures. */
  lemma KpisReadCellsOnly(a: seq<Row>, b: seq<Row>)
    requires SameCells(a, b)
    ensures Kpis(a) == Kpis(b)
  {
    RevenueReadsCellsOnly(a, b);
    ActiveRentalsReadsCellsOnly(a, b);
    OccupiedReadsCellsOnly(a, b);
  }

  /** The dashboard does not depend on the order of the rows: any
      reordering of the ledger (such as the show-all save writes) shows the
      same four figures. */
  lemma KpisIgnoreOrder(a: seq<Row>, b: seq<Row>)
    requires multiset(a) == multiset(b)
    ensures Kpis(a) == Kpis(b)
  {
    assert |a| == |multiset(a)| == |multiset(b)| == |b|;
    forall x ensures x in a <==> x in b {
      assert x in a <==> x in multiset(a);
      assert x in b <==> x in multiset(b);
    }
    assert OccupiedDevices(a) == OccupiedDevices(b);
    RevenueIgnoresOrder(a, b);
    ActiveRentalsIgnoreOrder(a, b);
  }
}
