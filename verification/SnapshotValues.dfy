/** What the snapshot columns mean: holdings in any order, valuations batched or not, and how one month-end
    follows from the one before. */
module SnapshotValues {
  import opened Money
  import opened Sums
  import opened Tables
  import opened Calendar
  import opened TradeReplay
  import opened TradeTimeline
  import opened Portfolio
  import opened Holdings
  import opened Ledger
  import opened Balances
  import opened LedgerPages
  import opened Database
  import opened Snapshots

  // ---- the order of a group-by does not matter ----

  ghost predicate OncePerItem(s: seq<HoldingRow>) {
    forall i, j :: 0 <= i < j < |s| ==> s[i].item != s[j].item
  }

  lemma {:induction false} OnceIsOnce(s: seq<HoldingRow>)
    requires OncePerItem(s)
    ensures forall x :: multiset(s)[x] == if x in s then 1 else 0
  {
    if s != [] {
      var n := |s| - 1;
      OnceIsOnce(s[..n]);
      assert s == s[..n] + [s[n]];
      assert s[n] !in s[..n];
    }
  }

  /** Two answers of the holdings query hold the same rows the same number of times, so every total over them
      is the same. */
  lemma {:induction false} HoldingsInAnyOrder(
      trades: seq<Trade>, a: AccountId, asOf: int, s: seq<HoldingRow>, t: seq<HoldingRow>, f: HoldingRow -> real)
    requires HoldingsAt(trades, a, asOf, s) && HoldingsAt(trades, a, asOf, t)
    ensures multiset(s) == multiset(t)
    ensures Sum(s, f) == Sum(t, f)
  {
    HoldingsInclude(trades, a, asOf, s, t);
    HoldingsInclude(trades, a, asOf, t, s);
    OnceIsOnce(s);
    OnceIsOnce(t);
    SumInAnyOrder(s, t, f);
  }

  lemma HoldingsInclude(trades: seq<Trade>, a: AccountId, asOf: int, s: seq<HoldingRow>, t: seq<HoldingRow>)
    requires HoldingsAt(trades, a, asOf, s) && HoldingsAt(trades, a, asOf, t)
    ensures forall x :: x in s ==> x in t
  {
    forall x | x in s ensures x in t {
      var i :| 0 <= i < |s| && s[i] == x;
      assert Holdings.NetOf(trades, a, asOf)(x.item) > 0.0;
      var j :| 0 <= j < |t| && t[j].item == x.item;
      assert t[j] == RowOf(trades, a, asOf)(x.item) == x;
    }
  }

  /** Each of the first n items with shares left has its row, once, and no other item has one. */
  ghost predicate ListedBelow(net: ItemId -> real, row: ItemId -> HoldingRow, n: nat, s: seq<HoldingRow>) {
    && OncePerItem(s)
    && (forall i :: 0 <= i < |s| ==> s[i].item < n && net(s[i].item) > 0.0 && s[i] == row(s[i].item))
    && (forall item: ItemId :: item < n && net(item) > 0.0 ==> exists i :: 0 <= i < |s| && s[i].item == item)
  }

  lemma ListedOneFurther(net: ItemId -> real, row: ItemId -> HoldingRow, n: nat, s: seq<HoldingRow>)
    requires ListedBelow(net, row, n, s) && row(n).item == n
    ensures ListedBelow(net, row, n + 1, s + if net(n) > 0.0 then [row(n)] else [])
  {
    var more := s + if net(n) > 0.0 then [row(n)] else [];
    forall item: ItemId | item < n + 1 && net(item) > 0.0
      ensures exists i :: 0 <= i < |more| && more[i].item == item
    {
      if item == n {
        assert more[|s|].item == item;
      } else {
        var i :| 0 <= i < |s| && s[i].item == item;
        assert more[i].item == item;
      }
    }
  }

  ghost predicate ListComplete(trades: seq<Trade>, a: AccountId, asOf: int, n: nat) {
    ListedBelow(Holdings.NetOf(trades, a, asOf), RowOf(trades, a, asOf), n, HoldingList(trades, a, asOf, n))
  }

  lemma HoldingListGrows(trades: seq<Trade>, a: AccountId, asOf: int, n: nat)
    ensures ListComplete(trades, a, asOf, 0)
    ensures ListComplete(trades, a, asOf, n) ==> ListComplete(trades, a, asOf, n + 1)
  {
    if ListComplete(trades, a, asOf, n) {
      ListedOneFurther(
        Holdings.NetOf(trades, a, asOf), RowOf(trades, a, asOf), n, HoldingList(trades, a, asOf, n));
    }
  }

  lemma {:induction false} HoldingListIsComplete(trades: seq<Trade>, a: AccountId, asOf: int, n: nat)
    ensures ListComplete(trades, a, asOf, n)
  {
    if n == 0 {
      HoldingListGrows(trades, a, asOf, 0);
    } else {
      HoldingListIsComplete(trades, a, asOf, n - 1);
      HoldingListGrows(trades, a, asOf, n - 1);
    }
  }

  ghost predicate HeldOnly(b: Book, rows: seq<HoldingRow>, a: AccountId) {
    forall i :: 0 <= i < |rows| ==> rows[i].item < |b.items| && b.items[rows[i].item].account == a
  }

  /** The holdings in item order are an answer of the query. */
  lemma MonthHoldingsAnswer(db: Db, a: AccountId, month: int)
    requires RowsFit(db.book)
    ensures HoldingsAt(db.book.trades, a, MonthEnd(month), MonthHoldings(db, a, month))
    ensures OncePerItem(MonthHoldings(db, a, month)) && HeldOnly(db.book, MonthHoldings(db, a, month), a)
  {
    var trades, asOf, n := db.book.trades, MonthEnd(month), |db.book.items|;
    var s := MonthHoldings(db, a, month);
    HoldingListIsComplete(trades, a, asOf, n);
    forall item: ItemId | NetUpTo(trades, a, item, asOf) > 0.0
      ensures item < n && db.book.items[item].account == a
    {
      EmptyGroupNetsZero(trades, a, item, asOf);
      var t :| t in trades && Selected(t, a, asOf) && t.item == item;
      var j :| 0 <= j < |trades| && trades[j] == t;
    }
  }

  /** Whatever its order, an answer has each item once, and only items of the account. */
  lemma {:induction false} AnswerIsHeld(db: Db, a: AccountId, month: int, rows: seq<HoldingRow>)
    requires RowsFit(db.book) && HoldingsAt(db.book.trades, a, MonthEnd(month), rows)
    ensures OncePerItem(rows) && HeldOnly(db.book, rows, a)
    ensures multiset(rows) == multiset(MonthHoldings(db, a, month))
  {
    var own := MonthHoldings(db, a, month);
    MonthHoldingsAnswer(db, a, month);
    HoldingsInclude(db.book.trades, a, MonthEnd(month), rows, own);
    HoldingsInAnyOrder(db.book.trades, a, MonthEnd(month), rows, own, ValuationAt(db.book, month, map[]));
    forall i | 0 <= i < |rows| ensures rows[i].item < |db.book.items| && db.book.items[rows[i].item].account == a {
      assert rows[i] in rows;
      var j :| 0 <= j < |own| && own[j] == rows[i];
    }
  }

  /** The stored holdings of a month are what the replay holds at its end: an item has a row exactly when
      shares are left, and the row has their number and the value of the month's price or of their cost. */
  lemma {:induction false} StoredHoldingsFollowReplay(db: Db, a: AccountId, month: int, prices: Prices, item: ItemId)
    requires Sound(db.book) && a < |db.accounts| && db.accounts[a].kind.Investment?
    requires item < |db.book.items| && db.book.items[item].account == a
    ensures var held := Replay(UpTo(Timeline(db.book.trades, item), MonthEnd(month)));
            var stored := HistoriesOf(db, a, month, prices);
            && held.Some?
            && (held.value.qty > 0.0 <==> exists k :: 0 <= k < |stored| && stored[k].item == item)
            && forall k :: 0 <= k < |stored| && stored[k].item == item ==>
                 && stored[k].quantity == held.value.qty
                 && stored[k].valuation
                    == RoundHalfUp(ValueOf(db.book, RowFor(db.book.trades, a, item, MonthEnd(month)), month, prices).valuation)
  {
    var trades, asOf := db.book.trades, MonthEnd(month);
    var stored, rows := HistoriesOf(db, a, month, prices), MonthHoldings(db, a, month);
    QuantityFollowsReplay(db.book, item, asOf);
    HoldingListIsComplete(trades, a, asOf, |db.book.items|);
    if NetUpTo(trades, a, item, asOf) > 0.0 {
      assert Holdings.NetOf(trades, a, asOf)(item) > 0.0;
      var k :| 0 <= k < |rows| && rows[k].item == item;
      assert stored[k].item == item;
    }
    forall k | 0 <= k < |stored| && stored[k].item == item
      ensures rows[k] == RowFor(trades, a, item, asOf) && NetUpTo(trades, a, item, asOf) > 0.0
    {
      assert rows[k].item == item;
    }
  }

  // ---- what a stored row holds ----

  /** The columns of a stored holding, to the nearest cent each: average and cost of the aggregate with ties to
      even, month price and quantity times price with ties away from zero. */
  ghost predicate StoredAtMonth(db: Db, a: AccountId, month: int, prices: Prices, x: History) {
    var row := HoldingRow(x.item, x.quantity, x.avgPrice, x.cost);
    && a < |db.accounts| && x.household == db.accounts[a].household && x.account == a && x.month == month && x.active
    && ShowsTotals(row, db.book.trades, a, MonthEnd(month))
    && ValueColumns(PriceOf(db.book, x.item, month, prices), x)
  }

  /** Price and valuation of a stored holding. */
  ghost predicate ValueColumns(price: Option<real>, x: History) {
    match price
    case Some(px) => NearestAway(x.currentPrice, px) && NearestAway(x.valuation, Gross(x.quantity, px))
    case None => x.currentPrice == x.avgPrice && x.valuation == x.cost
  }

  lemma {:induction false} ValueColumnsAreNearest(
      db: Db, a: AccountId, h: HoldingRow, month: int, prices: Prices)
    requires a < |db.accounts| && WholeCents(h.avgCost) && WholeCents(h.cost)
    ensures ValueColumns(PriceOf(db.book, h.item, month, prices), HistoryOf(db, a, h, month, prices))
  {
    var v, x := ValueOf(db.book, h, month, prices), HistoryOf(db, a, h, month, prices);
    match PriceOf(db.book, h.item, month, prices)
    case Some(px) => PricedColumns(x, px);
    case None =>
      RoundingFixesWholeCents(h.avgCost);
      RoundingFixesWholeCents(h.cost);
  }

  lemma PricedColumns(x: History, px: real)
    requires x.currentPrice == RoundHalfUp(px) && x.valuation == RoundHalfUp(Gross(x.quantity, px))
    ensures ValueColumns(Some(px), x)
  {
    RoundedIsNearest(px, x.currentPrice);
    RoundedIsNearest(Gross(x.quantity, px), x.valuation);
  }

  lemma {:induction false} StoredRowIsNearest(db: Db, a: AccountId, h: HoldingRow, month: int, prices: Prices)
    requires a < |db.accounts| && ShowsTotals(h, db.book.trades, a, MonthEnd(month))
    ensures StoredAtMonth(db, a, month, prices, HistoryOf(db, a, h, month, prices))
  {
    ValueColumnsAreNearest(db, a, h, month, prices);
    var x := HistoryOf(db, a, h, month, prices);
    assert HoldingRow(x.item, x.quantity, x.avgPrice, x.cost) == h;
  }

  /** Every row the archive stores for an account and month holds that. */
  lemma {:induction false} StoredRowsAreNearest(db: Db, a: AccountId, month: int, prices: Prices, k: nat)
    requires a < |db.accounts| && RowsFit(db.book) && k < |HistoriesOf(db, a, month, prices)|
    ensures StoredAtMonth(db, a, month, prices, HistoriesOf(db, a, month, prices)[k])
  {
    var rows := MonthHoldings(db, a, month);
    MonthHoldingsAnswer(db, a, month);
    HoldingsShowTotals(db.book.trades, a, MonthEnd(month), rows);
    StoredRowIsNearest(db, a, rows[k], month, prices);
  }

  function MarketValue(book: Book, month: int, prices: Prices): HoldingRow -> real {
    (h: HoldingRow) => match PriceOf(book, h.item, month, prices) case Some(px) => h.quantity * px case None => 0.0
  }

  /** A month whose holdings are all priced is worth its cash and, for each holding, quantity times price. */
  lemma {:induction false} PricedMonthIsMarketValue(db: Db, a: AccountId, month: int, prices: Prices)
    requires a < |db.accounts| && db.accounts[a].kind.Investment?
    requires forall h :: h in MonthHoldings(db, a, month) ==> PriceOf(db.book, h.item, month, prices).Some?
    ensures MonthBalance(db, a, month, prices)
         == CashOf(db, a, Some(MonthEnd(month))) + Sum(MonthHoldings(db, a, month), MarketValue(db.book, month, prices))
  {
    var rows := MonthHoldings(db, a, month);
    forall h | h in rows
      ensures ValuationAt(db.book, month, prices)(h) == MarketValue(db.book, month, prices)(h)
    {
      assert WorthAtMonth(db.book, h, month, prices, ValueOf(db.book, h, month, prices));
    }
    SumSame(rows, ValuationAt(db.book, month, prices), MarketValue(db.book, month, prices));
  }

  // ---- one month-end and the next ----

  function SentIn(a: AccountId, month: int): Row -> real {
    (r: Row) => if r.active && r.kind.Transfer? && r.account == a && MonthOf(r.date) == month then r.amount else 0.0
  }

  function ReceivedIn(a: AccountId, month: int): Row -> real {
    (r: Row) => if r.active && r.kind.Transfer? && r.to == Some(a) && MonthOf(r.date) == month then r.amount else 0.0
  }

  function RevaluedIn(a: AccountId, month: int): Row -> real {
    (r: Row) =>
      if r.active && r.kind.Valuation? && r.account == a && MonthOf(r.date) == month
      then (if r.direction == Some(Increase) then r.amount else -r.amount)
      else 0.0
  }

  function SpentIn(a: AccountId, month: int): Row -> real {
    (r: Row) =>
      if r.active && r.account == a && (r.kind.Expense? || r.kind.FixedExpense?) && MonthOf(r.date) == month
      then r.amount else 0.0
  }

  lemma DayInNextMonth(day: int, month: int)
    requires RealDay(day)
    ensures day <= MonthEnd(month + 1) <==> day <= MonthEnd(month) || MonthOf(day) == month + 1
    ensures !(day <= MonthEnd(month) && MonthOf(day) == month + 1)
  {
    MonthIsRange(day, month + 1);
    MonthsAreAdjacent(day, month);
  }

  /** Every column up to a month-end is the column up to the previous one plus that of the month. */
  lemma {:induction false} ColumnsGrow(rows: seq<Row>, a: AccountId, month: int)
    requires forall r :: r in rows ==> RealDay(r.date)
    ensures var was, now := AccountTotals(rows, a, Some(MonthEnd(month))), AccountTotals(rows, a, Some(MonthEnd(month + 1)));
            && now.income == was.income + Sum(rows, InMonth(a, month + 1, Income))
            && now.expense == was.expense + Sum(rows, SpentIn(a, month + 1))
            && now.transferOut == was.transferOut + Sum(rows, SentIn(a, month + 1))
            && now.transferIn == was.transferIn + Sum(rows, ReceivedIn(a, month + 1))
            && now.valuationNet == was.valuationNet + Sum(rows, RevaluedIn(a, month + 1))
  {
    var m, p, q := month + 1, Some(MonthEnd(month)), Some(MonthEnd(month + 1));
    forall r | r in rows
      ensures IncomeOf(a, q)(r) == IncomeOf(a, p)(r) + InMonth(a, m, Income)(r)
      ensures ExpenseOf(a, q)(r) == ExpenseOf(a, p)(r) + SpentIn(a, m)(r)
      ensures SentOf(a, q)(r) == SentOf(a, p)(r) + SentIn(a, m)(r)
      ensures ReceivedOf(a, q)(r) == ReceivedOf(a, p)(r) + ReceivedIn(a, m)(r)
      ensures RevaluedOf(a, q)(r) == RevaluedOf(a, p)(r) + RevaluedIn(a, m)(r)
    {
      DayInNextMonth(r.date, month);
    }
    SumPlus(rows, IncomeOf(a, p), InMonth(a, m, Income), IncomeOf(a, q));
    SumPlus(rows, ExpenseOf(a, p), SpentIn(a, m), ExpenseOf(a, q));
    SumPlus(rows, SentOf(a, p), SentIn(a, m), SentOf(a, q));
    SumPlus(rows, ReceivedOf(a, p), ReceivedIn(a, m), ReceivedOf(a, q));
    SumPlus(rows, RevaluedOf(a, p), RevaluedIn(a, m), RevaluedOf(a, q));
  }

  /** Amounts and start balances are Numeric(_, 2) columns. */
  ghost predicate CentColumns(db: Db) {
    && (forall r :: r in db.rows ==> WholeCents(r.amount))
    && (forall i :: 0 <= i < |db.accounts| ==> WholeCents(db.accounts[i].startBalance))
  }

  lemma {:induction false} SumWhole<T>(s: seq<T>, f: T -> real)
    requires forall x :: x in s ==> WholeCents(f(x))
    ensures WholeCents(Sum(s, f))
  {
    if s == [] {
      WholeZero();
    } else {
      SumWhole(s[..|s| - 1], f);
      CentsAdd(Sum(s[..|s| - 1], f), f(s[|s| - 1]));
    }
  }

  /** Nothing is rounded away in the stored row of a cash account. */
  lemma CashSnapshotIsExact(db: Db, a: AccountId, month: int, prices: Prices)
    requires a < |db.accounts| && !db.accounts[a].kind.Investment? && CentColumns(db)
    ensures var s := SnapshotOf(db, a, month, prices);
            && s.balance == Balance(db.rows, a, db.accounts[a].startBalance, Some(MonthEnd(month)))
            && s.income == Sum(db.rows, InMonth(a, month, Income))
            && s.expense == Sum(db.rows, InMonth(a, month, Expense))
            && s.fixedExpense == Sum(db.rows, InMonth(a, month, FixedExpense))
  {
    WholeZero();
    TotalsAreWhole(db, a, Some(MonthEnd(month)));
    SumWhole(db.rows, InMonth(a, month, Income));
    SumWhole(db.rows, InMonth(a, month, Expense));
    SumWhole(db.rows, InMonth(a, month, FixedExpense));
    RoundingFixesWholeCents(MonthBalance(db, a, month, prices));
    RoundingFixesWholeCents(Sum(db.rows, InMonth(a, month, Income)));
    RoundingFixesWholeCents(Sum(db.rows, InMonth(a, month, Expense)));
    RoundingFixesWholeCents(Sum(db.rows, InMonth(a, month, FixedExpense)));
  }

  lemma TotalsAreWhole(db: Db, a: AccountId, to: Option<int>)
    requires a < |db.accounts| && CentColumns(db)
    ensures WholeCents(Balance(db.rows, a, db.accounts[a].startBalance, to))
  {
    WholeZero();
    forall r | r in db.rows ensures WholeCents(-r.amount) {
      CentsNegate(r.amount);
    }
    SumWhole(db.rows, IncomeOf(a, to));
    SumWhole(db.rows, ExpenseOf(a, to));
    SumWhole(db.rows, SentOf(a, to));
    SumWhole(db.rows, ReceivedOf(a, to));
    SumWhole(db.rows, RevaluedOf(a, to));
    var start, s := db.accounts[a].startBalance, AccountTotals(db.rows, a, to);
    CentsNegate(s.expense);
    CentsNegate(s.transferOut);
    CentsAdd(start, s.income);
    CentsAdd(start + s.income, -s.expense);
    CentsAdd(start + s.income - s.expense, -s.transferOut);
    CentsAdd(start + s.income - s.expense - s.transferOut, s.transferIn);
    CentsAdd(start + s.income - s.expense - s.transferOut + s.transferIn, s.valuationNet);
  }

  /** Consecutive month-ends of a cash account differ by the stored flows of the month and by the transfers
      and revaluations that no column stores. */
  lemma MonthEndsDifferByTheMonth(db: Db, a: AccountId, month: int, prices: Prices)
    requires a < |db.accounts| && !db.accounts[a].kind.Investment? && CentColumns(db)
    requires forall r :: r in db.rows ==> RealDay(r.date)
    ensures var was, now := SnapshotOf(db, a, month, prices), SnapshotOf(db, a, month + 1, prices);
            now.balance - was.balance
            == now.income - now.expense - now.fixedExpense
               - Sum(db.rows, SentIn(a, month + 1)) + Sum(db.rows, ReceivedIn(a, month + 1))
               + Sum(db.rows, RevaluedIn(a, month + 1))
  {
    CashSnapshotIsExact(db, a, month, prices);
    CashSnapshotIsExact(db, a, month + 1, prices);
    ColumnsGrow(db.rows, a, month);
    SumPlus(db.rows, InMonth(a, month + 1, Expense), InMonth(a, month + 1, FixedExpense), SpentIn(a, month + 1));
  }

  /** The stored balance is the top balance of that month's ledger, whatever the page size. */
  lemma {:induction false} SnapshotTopsTheLedger(db: Db, a: AccountId, month: int, prices: Prices, limit: nat)
    requires a < |db.accounts| && !db.accounts[a].kind.Investment? && CentColumns(db)
    requires UniqueIds(db.rows) && limit >= 1
    requires forall r :: r in db.rows ==> WellFormed(r) && RealDay(r.date)
    requires Listing(db.rows, a, Some(month), None) != []
    ensures var w := Walk(db.rows, a, db.accounts[a].startBalance, Some(month), None, limit);
            w != [] && w[0].balanceAfter == SnapshotOf(db, a, month, prices).balance
  {
    CashSnapshotIsExact(db, a, month, prices);
    WalkCloses(db.rows, a, db.accounts[a].startBalance, Some(month), limit);
  }
}
