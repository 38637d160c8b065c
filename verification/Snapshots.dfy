/** Monthly snapshots: what one month of one household stores, and the catch-up job over many months. */
module Snapshots {
  import opened Money
  import opened Sums
  import opened Tables
  import opened Calendar
  import TradeReplay
  import opened Portfolio
  import opened Holdings
  import opened Ledger
  import opened Balances
  import opened Database

  const CATCHUP_MONTHS: nat := 12

  // ---- what a month is worth ----

  datatype Valued = Valued(currentPrice: real, valuation: real)

  /** The month's price under the item's current quote, or else its cost. */
  function ValueOf(book: Book, h: HoldingRow, month: int, prices: Prices): Valued {
    if h.item < |book.items| && (book.items[h.item].quote, month) in prices then
      var px := prices[(book.items[h.item].quote, month)];
      Valued(px, TradeReplay.Gross(h.quantity, px))
    else Valued(h.avgCost, h.cost)
  }

  /** The price under which the month's quotes file the item now, if there is one. */
  function PriceOf(book: Book, item: ItemId, month: int, prices: Prices): Option<real> {
    if item < |book.items| && (book.items[item].quote, month) in prices
    then Some(prices[(book.items[item].quote, month)]) else None
  }

  /** Quantity times price where the month has one; the row's average and cost where it has none. */
  predicate WorthAtMonth(book: Book, h: HoldingRow, month: int, prices: Prices, v: Valued) {
    match PriceOf(book, h.item, month, prices)
    case Some(px) => v.currentPrice == px && v.valuation == h.quantity * px
    case None => v.currentPrice == h.avgCost && v.valuation == h.cost
  }

  /** value_holdings_at_month: one lookup table for any number of holdings. */
  method ValueHoldingsAtMonth(book: Book, holdings: seq<HoldingRow>, month: int, prices: Prices)
    returns (valued: map<ItemId, Valued>)
    ensures forall i :: 0 <= i < |holdings| ==> holdings[i].item in valued
    ensures (forall i, j :: 0 <= i < j < |holdings| ==> holdings[i].item != holdings[j].item) ==>
            forall i :: 0 <= i < |holdings| ==>
              && WorthAtMonth(book, holdings[i], month, prices, valued[holdings[i].item])
              && valued[holdings[i].item] == ValueOf(book, holdings[i], month, prices)
  {
    valued := map[];
    for k := 0 to |holdings|
      invariant forall i :: 0 <= i < k ==> holdings[i].item in valued
      invariant (forall i, j :: 0 <= i < j < |holdings| ==> holdings[i].item != holdings[j].item) ==>
                forall i :: 0 <= i < k ==> valued[holdings[i].item] == ValueOf(book, holdings[i], month, prices)
    {
      valued := valued[holdings[k].item := ValueOf(book, holdings[k], month, prices)];
    }
  }

  /** The month-end holdings among the first n items, in item order. */
  function HoldingList(trades: seq<Trade>, a: AccountId, asOf: int, n: nat): seq<HoldingRow> {
    if n == 0 then []
    else
      HoldingList(trades, a, asOf, n - 1)
      + if NetUpTo(trades, a, n - 1, asOf) > 0.0 then [RowFor(trades, a, n - 1, asOf)] else []
  }

  function MonthHoldings(db: Db, a: AccountId, month: int): seq<HoldingRow> {
    HoldingList(db.book.trades, a, MonthEnd(month), |db.book.items|)
  }

  function ValuationAt(book: Book, month: int, prices: Prices): HoldingRow -> real {
    (h: HoldingRow) => ValueOf(book, h, month, prices).valuation
  }

  function MonthBalance(db: Db, a: AccountId, month: int, prices: Prices): real
    requires a < |db.accounts|
  {
    if !db.accounts[a].kind.Investment? then Balance(db.rows, a, db.accounts[a].startBalance, Some(MonthEnd(month)))
    else CashOf(db, a, Some(MonthEnd(month))) + Sum(MonthHoldings(db, a, month), ValuationAt(db.book, month, prices))
  }

  function InMonth(a: AccountId, month: int, kind: TxType): Row -> real {
    (r: Row) => if r.active && r.account == a && r.kind == kind && MonthOf(r.date) == month then r.amount else 0.0
  }

  /** The snapshot row of one account; its columns hold whole cents. */
  function SnapshotOf(db: Db, a: AccountId, month: int, prices: Prices): Snapshot
    requires a < |db.accounts|
  {
    Snapshot(
      a, month, RoundHalfUp(MonthBalance(db, a, month, prices)),
      RoundHalfUp(Sum(db.rows, InMonth(a, month, Income))),
      RoundHalfUp(Sum(db.rows, InMonth(a, month, Expense))),
      RoundHalfUp(Sum(db.rows, InMonth(a, month, FixedExpense))),
      true)
  }

  function HistoryOf(db: Db, a: AccountId, h: HoldingRow, month: int, prices: Prices): History
    requires a < |db.accounts|
  {
    var v := ValueOf(db.book, h, month, prices);
    History(
      db.accounts[a].household, a, h.item, month, h.quantity, h.avgCost, RoundHalfUp(v.currentPrice), h.cost,
      RoundHalfUp(v.valuation), true)
  }

  function HistoriesOf(db: Db, a: AccountId, month: int, prices: Prices): seq<History>
    requires a < |db.accounts|
  {
    var hs := MonthHoldings(db, a, month);
    if db.accounts[a].kind.Investment? then
      seq(|hs|, i requires 0 <= i < |hs| => HistoryOf(db, a, hs[i], month, prices))
    else []
  }

  // ---- one month of one household ----

  predicate ToSnap(db: Db, h: HouseholdId, a: AccountId) {
    InHousehold(db, a, h) && db.accounts[a].active && !db.accounts[a].archived
  }

  function Open(db: Db, h: HouseholdId, n: nat): seq<AccountId>
    requires n <= |db.accounts|
  {
    if n == 0 then [] else Open(db, h, n - 1) + if ToSnap(db, h, n - 1) then [n - 1] else []
  }

  /** The accounts of a household that a snapshot covers. */
  function OpenAccounts(db: Db, h: HouseholdId): seq<AccountId> {
    Open(db, h, |db.accounts|)
  }

  function NewSnapshots(db: Db, h: HouseholdId, month: int, prices: Prices, n: nat): seq<Snapshot>
    requires n <= |db.accounts|
  {
    if n == 0 then []
    else NewSnapshots(db, h, month, prices, n - 1)
         + if ToSnap(db, h, n - 1) then [SnapshotOf(db, n - 1, month, prices)] else []
  }

  function NewHistories(db: Db, h: HouseholdId, month: int, prices: Prices, n: nat): seq<History>
    requires n <= |db.accounts|
  {
    if n == 0 then []
    else NewHistories(db, h, month, prices, n - 1)
         + if ToSnap(db, h, n - 1) then HistoriesOf(db, n - 1, month, prices) else []
  }

  function KeepSnapshots(db: Db, s: seq<Snapshot>, h: HouseholdId, month: int): seq<Snapshot> {
    if s == [] then []
    else
      var x := s[|s| - 1];
      KeepSnapshots(db, s[..|s| - 1], h, month) + if InHousehold(db, x.account, h) && x.month == month then [] else [x]
  }

  function KeepHistories(s: seq<History>, h: HouseholdId, month: int): seq<History> {
    if s == [] then []
    else
      var x := s[|s| - 1];
      KeepHistories(s[..|s| - 1], h, month) + if x.household == h && x.month == month then [] else [x]
  }

  /** _build_and_save_snapshot */
  function BuildAndSave(db: Db, ar: Archive, h: HouseholdId, month: int, prices: Prices, replace: bool): Archive {
    Archive(
      (if replace then KeepSnapshots(db, ar.snapshots, h, month) else ar.snapshots)
        + NewSnapshots(db, h, month, prices, |db.accounts|),
      (if replace then KeepHistories(ar.histories, h, month) else ar.histories)
        + NewHistories(db, h, month, prices, |db.accounts|))
  }

  // ---- reading the archive ----

  function SnapsOf(s: seq<Snapshot>, a: AccountId, month: int): seq<Snapshot> {
    if s == [] then []
    else
      var x := s[|s| - 1];
      SnapsOf(s[..|s| - 1], a, month) + if x.active && x.account == a && x.month == month then [x] else []
  }

  function HistsOf(s: seq<History>, a: AccountId, month: int): seq<History> {
    if s == [] then []
    else
      var x := s[|s| - 1];
      HistsOf(s[..|s| - 1], a, month) + if x.active && x.account == a && x.month == month then [x] else []
  }

  /** has_active_for_month */
  predicate HasMonth(db: Db, ar: Archive, h: HouseholdId, month: int) {
    exists i :: 0 <= i < |ar.snapshots| &&
      ar.snapshots[i].active && ar.snapshots[i].month == month && InHousehold(db, ar.snapshots[i].account, h)
  }

  /** oldest_active_month over the first n rows. */
  function Oldest(db: Db, s: seq<Snapshot>, h: HouseholdId): Option<int> {
    if s == [] then None
    else
      var x := s[|s| - 1];
      var rest := Oldest(db, s[..|s| - 1], h);
      if x.active && InHousehold(db, x.account, h) && (rest.None? || x.month < rest.value) then Some(x.month) else rest
  }

  function Floor(db: Db, ar: Archive, h: HouseholdId, target: int): int {
    var oldest := Oldest(db, ar.snapshots, h);
    if oldest.Some? then oldest.value else target
  }

  // ---- the job ----

  /** One turn of the month loop: old months are filled if missing, the last two are always redone. */
  function VisitMonth(
      db: Db, ar: Archive, h: HouseholdId, month: int, floor: int, target: int, prices: Prices): Archive {
    if month < floor then ar
    else if HasMonth(db, ar, h, month) && month < target - 1 then ar
    else BuildAndSave(db, ar, h, month, prices, HasMonth(db, ar, h, month))
  }

  /** The last n months up to the target, newest first. */
  function VisitMonths(db: Db, ar: Archive, h: HouseholdId, floor: int, target: int, prices: Prices, n: nat): Archive {
    if n == 0 then ar
    else VisitMonth(db, VisitMonths(db, ar, h, floor, target, prices, n - 1), h, target - (n - 1), floor, target, prices)
  }

  function VisitHousehold(db: Db, ar: Archive, h: HouseholdId, target: int, prices: Prices): Archive {
    VisitMonths(db, ar, h, Floor(db, ar, h, target), target, prices, CATCHUP_MONTHS)
  }

  /** create_monthly_snapshots_for_all */
  function RunJob(db: Db, ar: Archive, households: seq<HouseholdId>, target: int, prices: Prices): Archive {
    if households == [] then ar
    else
      var n := |households| - 1;
      VisitHousehold(db, RunJob(db, ar, households[..n], target, prices), households[n], target, prices)
  }

  /** create_target_month_snapshot: the manual one, for the target month alone. */
  function RunManual(db: Db, ar: Archive, h: HouseholdId, target: int, prices: Prices): Archive {
    BuildAndSave(db, ar, h, target, prices, HasMonth(db, ar, h, target))
  }
}
