/** Account balances: one account at a time, all of them from batched queries, and what they add up to. */
module Balances {
  import opened Money
  import opened Sums
  import opened Tables
  import opened TradeReplay
  import opened Portfolio
  import opened PortfolioLaws
  import opened Ledger
  import opened Database

  // ---- settlement sums ----

  datatype Settled = Settled(buy: real, sell: real)

  predicate Booked(t: Trade, a: AccountId, to: Option<int>) {
    t.active && t.account == a && (to.Some? ==> t.date <= to.value)
  }

  function SideOf(a: AccountId, to: Option<int>, side: Side): Trade -> real {
    (t: Trade) => if Booked(t, a, to) && t.side == side then Settlement(t) else 0.0
  }

  /** What the trades of an account took out and brought in, row by row. */
  function SettledOf(trades: seq<Trade>, a: AccountId, to: Option<int>): Settled {
    Settled(Sum(trades, SideOf(a, to, Buy)), Sum(trades, SideOf(a, to, Sell)))
  }

  lemma {:induction false} NoSuchTrades(trades: seq<Trade>, a: AccountId, to: Option<int>, side: Side)
    ensures (forall t :: t in trades && Booked(t, a, to) ==> t.side != side) ==> Sum(trades, SideOf(a, to, side)) == 0.0
  {
    if forall t :: t in trades && Booked(t, a, to) ==> t.side != side {
      SumZero(trades, SideOf(a, to, side));
    }
  }

  /** One account, grouped by side. */
  method SettledForAccount(trades: seq<Trade>, a: AccountId, to: Option<int>) returns (s: Settled)
    ensures s == SettledOf(trades, a, to)
  {
    var left := set t | t in trades && Booked(t, a, to) :: t.side;
    NoSuchTrades(trades, a, to, Buy);
    NoSuchTrades(trades, a, to, Sell);
    s := Settled(0.0, 0.0);
    while left != {}
      invariant s.buy == SettledOf(trades, a, to).buy || (s.buy == 0.0 && Side.Buy in left)
      invariant s.sell == SettledOf(trades, a, to).sell || (s.sell == 0.0 && Side.Sell in left)
      decreases left
    {
      var side :| side in left;
      var total := Sum(trades, SideOf(a, to, side));
      if side.Buy? {
        s := s.(buy := total);
      } else {
        s := s.(sell := total);
      }
      left := left - {side};
    }
  }

  /** Until a group is folded its total stands at zero; afterwards it is the row-by-row sum. */
  ghost predicate FoldedOrLeft(
    trades: seq<Trade>, base: map<AccountId, Settled>, ids: set<AccountId>, left: set<(AccountId, Side)>)
  {
    && base.Keys == ids
    && forall a :: a in ids ==>
         && (base[a].buy == SettledOf(trades, a, None).buy || (a, Side.Buy) in left)
         && (base[a].sell == SettledOf(trades, a, None).sell || (a, Side.Sell) in left)
  }

  function SideFolded(was: Settled, side: Side, total: real): Settled {
    if side.Buy? then was.(buy := total) else was.(sell := total)
  }

  lemma {:induction false} FoldSide(
      trades: seq<Trade>, base: map<AccountId, Settled>, ids: set<AccountId>, left: set<(AccountId, Side)>,
      a: AccountId, side: Side)
    requires FoldedOrLeft(trades, base, ids, left) && a in ids
    ensures FoldedOrLeft(
      trades, base[a := SideFolded(base[a], side, Sum(trades, SideOf(a, None, side)))], ids, left - {(a, side)})
  {
  }

  lemma NothingFolded(trades: seq<Trade>, ids: set<AccountId>)
    ensures FoldedOrLeft(trades, map a | a in ids :: Settled(0.0, 0.0), ids, SideGroups(trades, ids))
  {
    forall a | a in ids
      ensures SettledOf(trades, a, None).buy == 0.0 || (a, Side.Buy) in SideGroups(trades, ids)
      ensures SettledOf(trades, a, None).sell == 0.0 || (a, Side.Sell) in SideGroups(trades, ids)
    {
      NoSuchTrades(trades, a, None, Buy);
      NoSuchTrades(trades, a, None, Sell);
    }
  }

  function SideGroups(trades: seq<Trade>, ids: set<AccountId>): set<(AccountId, Side)> {
    set t | t in trades && t.account in ids && Booked(t, t.account, None) :: (t.account, t.side)
  }

  /** Several accounts, grouped by account and side: each gets what it would get alone. */
  method SettledForAccounts(trades: seq<Trade>, ids: set<AccountId>) returns (base: map<AccountId, Settled>)
    ensures base.Keys == ids
    ensures forall a :: a in ids ==> base[a] == SettledOf(trades, a, None)
  {
    base := map a | a in ids :: Settled(0.0, 0.0);
    var left := SideGroups(trades, ids);
    NothingFolded(trades, ids);
    while left != {}
      invariant left <= SideGroups(trades, ids)
      invariant FoldedOrLeft(trades, base, ids, left)
      decreases left
    {
      var g :| g in left;
      var total := Sum(trades, SideOf(g.0, None, g.1));
      FoldSide(trades, base, ids, left, g.0, g.1);
      if g.1.Buy? {
        base := base[g.0 := base[g.0].(buy := total)];
      } else {
        base := base[g.0 := base[g.0].(sell := total)];
      }
      left := left - {g};
    }
  }

  // ---- the balance of an account ----

  /** What list and detail pages show; only investment accounts have more than a balance. */
  datatype Summary =
    | Plain(balance: real)
    | Invested(balance: real, cash: real, cost: real, valuation: real, profitLoss: real, rate: real)

  function Rate(profitLoss: real, cost: real): real {
    if cost > 0.0 then profitLoss / cost * 100.0 else 0.0
  }

  function Investment(cash: real, cost: real, valuation: real): Summary {
    Invested(cash + valuation, cash, cost, valuation, valuation - cost, Rate(valuation - cost, cost))
  }

  predicate HeldOn(it: Item, a: AccountId) {
    it.active && it.account == a
  }

  function CostOn(a: AccountId): Item -> real {
    (it: Item) => if HeldOn(it, a) then Gross(it.quantity, it.avgPrice) else 0.0
  }

  function ValueOn(a: AccountId): Item -> real {
    (it: Item) => if HeldOn(it, a) then Gross(it.quantity, it.currentPrice) else 0.0
  }

  function CashOf(db: Db, a: AccountId, to: Option<int>): real
    requires a < |db.accounts|
  {
    var s := SettledOf(db.book.trades, a, to);
    Balance(db.rows, a, db.accounts[a].startBalance, to) - s.buy + s.sell
  }

  /** The current balance, as the rows mean it. */
  function SummaryNow(db: Db, a: AccountId): Summary
    requires a < |db.accounts|
  {
    if !db.accounts[a].kind.Investment? then Plain(Balance(db.rows, a, db.accounts[a].startBalance, None))
    else Investment(CashOf(db, a, None), Sum(db.book.items, CostOn(a)), Sum(db.book.items, ValueOn(a)))
  }

  function OnAccountItems(items: seq<Item>, a: AccountId): seq<Item> {
    if items == [] then []
    else
      var rest := OnAccountItems(items[..|items| - 1], a);
      if HeldOn(items[|items| - 1], a) then rest + [items[|items| - 1]] else rest
  }

  function ItemCost(it: Item): real { Gross(it.quantity, it.avgPrice) }

  function ItemValue(it: Item): real { Gross(it.quantity, it.currentPrice) }

  lemma {:induction false} OnAccountItemsSum(items: seq<Item>, a: AccountId)
    ensures Sum(OnAccountItems(items, a), ItemCost) == Sum(items, CostOn(a))
    ensures Sum(OnAccountItems(items, a), ItemValue) == Sum(items, ValueOn(a))
  {
    if items != [] {
      var n := |items| - 1;
      OnAccountItemsSum(items[..n], a);
      var rest := OnAccountItems(items[..n], a);
      assert (rest + [items[n]])[..|rest|] == rest;
    }
  }

  /** _calc_balance without as_of: three queries for one account. */
  method CalcBalance(db: Db, a: AccountId) returns (s: Summary)
    requires a < |db.accounts|
    ensures s == SummaryNow(db, a)
  {
    var account := db.accounts[a];
    var sums := SumForAccount(db.rows, a, None);
    var cash := CashFlow(account.startBalance, sums);
    if !account.kind.Investment? {
      return Plain(cash);
    }
    var settled := SettledForAccount(db.book.trades, a, None);
    cash := cash - settled.buy + settled.sell;
    var items := OnAccountItems(db.book.items, a);
    OnAccountItemsSum(db.book.items, a);
    s := Investment(cash, Sum(items, ItemCost), Sum(items, ItemValue));
  }

  datatype Sources = Sources(
    totals: map<AccountId, Totals>, settled: map<AccountId, Settled>, items: map<AccountId, seq<Item>>)

  /** _load_balance_sources: three queries for any number of accounts. */
  method LoadBalanceSources(db: Db, ids: seq<AccountId>) returns (s: Sources)
    requires forall a :: a in ids ==> a < |db.accounts|
    ensures s.totals.Keys == set a | a in ids
    ensures s.settled.Keys == s.items.Keys == set a | a in ids && db.accounts[a].kind.Investment?
    ensures forall a :: a in ids ==> s.totals[a] == AccountTotals(db.rows, a, None)
    ensures forall a :: a in s.settled ==> s.settled[a] == SettledOf(db.book.trades, a, None)
    ensures forall a :: a in s.items ==> s.items[a] == OnAccountItems(db.book.items, a)
  {
    var invested := set a | a in ids && db.accounts[a].kind.Investment?;
    var totals := SumForAccounts(db.rows, ids);
    var settled := SettledForAccounts(db.book.trades, invested);
    s := Sources(totals, settled, map a | a in invested :: OnAccountItems(db.book.items, a));
  }

  /** _build_balance */
  function BuildBalance(account: Account, a: AccountId, s: Sources): Summary
    requires a in s.totals
  {
    var cash := CashFlow(account.startBalance, s.totals[a]);
    if !account.kind.Investment? then Plain(cash)
    else
      var settled := if a in s.settled then s.settled[a] else Settled(0.0, 0.0);
      var items := if a in s.items then s.items[a] else [];
      Investment(cash - settled.buy + settled.sell, Sum(items, ItemCost), Sum(items, ItemValue))
  }

  /** What the batched queries tell about one of the accounts is what its own queries would tell. */
  ghost predicate Told(db: Db, a: AccountId, s: Sources) {
    && a < |db.accounts|
    && a in s.totals && s.totals[a] == AccountTotals(db.rows, a, None)
    && (db.accounts[a].kind.Investment? ==>
          && a in s.settled && s.settled[a] == SettledOf(db.book.trades, a, None)
          && a in s.items && s.items[a] == OnAccountItems(db.book.items, a))
  }

  /** Batched or alone, an account shows the same balance. */
  lemma BatchedIsSingle(db: Db, a: AccountId, s: Sources)
    requires Told(db, a, s)
    ensures BuildBalance(db.accounts[a], a, s) == SummaryNow(db, a)
  {
    OnAccountItemsSum(db.book.items, a);
  }

  /** list_accounts: every listed account gets the balance its own page shows. */
  method ListBalances(db: Db, ids: seq<AccountId>) returns (balances: seq<Summary>)
    requires forall i :: 0 <= i < |ids| ==> ids[i] < |db.accounts|
    ensures |balances| == |ids|
    ensures forall i :: 0 <= i < |ids| ==> balances[i] == SummaryNow(db, ids[i])
  {
    var sources := LoadBalanceSources(db, ids);
    forall i | 0 <= i < |ids| ensures Told(db, ids[i], sources) {
      assert ids[i] in ids;
    }
    balances := [];
    for i := 0 to |ids|
      invariant |balances| == i
      invariant forall j :: 0 <= j < i ==> balances[j] == SummaryNow(db, ids[j])
    {
      BatchedIsSingle(db, ids[i], sources);
      balances := balances + [BuildBalance(db.accounts[ids[i]], ids[i], sources)];
    }
  }

  /** Profit is what the holdings are worth beyond their cost, and the rate its percentage of the cost. */
  lemma {:induction false} InvestmentFigures(db: Db, a: AccountId)
    requires a < |db.accounts| && db.accounts[a].kind.Investment?
    ensures var s := SummaryNow(db, a);
            && s.Invested? && s.balance == s.cash + s.valuation && s.profitLoss == s.valuation - s.cost
            && (s.cost > 0.0 ==> s.rate * s.cost == 100.0 * s.profitLoss && (s.rate > 0.0 <==> s.valuation > s.cost))
            && (s.cost <= 0.0 ==> s.rate == 0.0)
  {
    var s := SummaryNow(db, a);
    if s.cost > 0.0 {
      RateScales(s.profitLoss, s.cost, s.rate);
    }
  }

  lemma RateScales(profitLoss: real, cost: real, rate: real)
    requires cost > 0.0 && rate == Rate(profitLoss, cost)
    ensures rate * cost == 100.0 * profitLoss && (rate > 0.0 <==> profitLoss > 0.0)
  {
    assert profitLoss / cost * cost == profitLoss;
  }

  // ---- where an investment account's cash went ----

  /** Deposits and flows, plus the stored realised result, less the replayed cost still held: that is the
      cash of an investment account, to half a cent for each SELL. */
  lemma {:induction false} InvestmentCashSplits(db: Db, a: AccountId, items: seq<ItemId>)
    requires a < |db.accounts| && Sound(db.book) && ItemsOf(db.book, a, items)
    ensures var deposits := Balance(db.rows, a, db.accounts[a].startBalance, None);
            var realised := Sum(db.book.trades, OnAccount(a, StoredPnl));
            var held := Sum(items, CostHeld(db.book.trades));
            Abs(CashOf(db, a, None) - (deposits + realised - held))
            <= HalfCents(Sum(db.book.trades, OnAccount(a, SellCount)))
  {
    var trades := db.book.trades;
    AccountConservesCash(db.book, a, items);
    forall t | t in trades
      ensures SideOf(a, None, Sell)(t) == OnAccount(a, CashMoved)(t) + SideOf(a, None, Buy)(t)
    {
      assert t.active && t.account == a ==> CashMoved(t) == if t.side.Sell? then Settlement(t) else -Settlement(t);
    }
    SumPlus(trades, OnAccount(a, CashMoved), SideOf(a, None, Buy), SideOf(a, None, Sell));
  }

  // ---- conservation of wealth ----

  /** No active transfer crosses the border of the set. */
  ghost predicate TransferClosed(rows: seq<Row>, ids: seq<AccountId>) {
    forall r :: r in rows && r.active && r.kind.Transfer? && r.to.Some? ==> (r.account in ids <==> r.to.value in ids)
  }

  function Earned(r: Row): real {
    match r.kind
    case Income => r.amount
    case Valuation => if r.direction == Some(Increase) then r.amount else -r.amount
    case Transfer => 0.0
    case _ => -r.amount
  }

  function EarnedBy(ids: seq<AccountId>): Row -> real {
    (r: Row) => if r.active && r.account in ids then Earned(r) else 0.0
  }

  function FlowsOf(ids: seq<AccountId>): Row -> real {
    (r: Row) =>
      if !r.active then 0.0
      else if r.kind.Transfer? then
        (if r.to.Some? && r.to.value in ids then r.amount else 0.0) - (if r.account in ids then r.amount else 0.0)
      else if r.account in ids then Earned(r)
      else 0.0
  }

  function StartOn(accounts: seq<Account>): AccountId -> real {
    (a: AccountId) => if a < |accounts| then accounts[a].startBalance else 0.0
  }

  function LedgerBalance(db: Db): AccountId -> real {
    (a: AccountId) => if a < |db.accounts| then Balance(db.rows, a, db.accounts[a].startBalance, None) else 0.0
  }

  lemma {:induction false} BalancesAreFlows(db: Db, ids: seq<AccountId>)
    requires forall i :: 0 <= i < |ids| ==> ids[i] < |db.accounts|
    requires Distinct(ids)
    requires forall r :: r in db.rows ==> WellFormed(r)
    ensures Sum(ids, LedgerBalance(db)) == Sum(ids, StartOn(db.accounts)) + Sum(db.rows, FlowsOf(ids))
  {
    if ids == [] {
      SumZero(db.rows, FlowsOf(ids));
    } else {
      var n := |ids| - 1;
      var a := ids[n];
      BalancesAreFlows(db, ids[..n]);
      SignRulesAgree(db.rows, a, db.accounts[a].startBalance, None);
      assert ids == ids[..n] + [a];
      SumPlus(db.rows, FlowsOf(ids[..n]), SignedOf(a, None), FlowsOf(ids));
    }
  }

  /** Transfers inside a closed set of accounts cancel: together the accounts hold their start balances,
      plus income, less expenses, plus revaluations. */
  lemma {:induction false} TransfersCancel(db: Db, ids: seq<AccountId>)
    requires forall i :: 0 <= i < |ids| ==> ids[i] < |db.accounts|
    requires Distinct(ids)
    requires forall r :: r in db.rows ==> WellFormed(r)
    requires TransferClosed(db.rows, ids)
    ensures Sum(ids, LedgerBalance(db)) == Sum(ids, StartOn(db.accounts)) + Sum(db.rows, EarnedBy(ids))
  {
    BalancesAreFlows(db, ids);
    SumSame(db.rows, FlowsOf(ids), EarnedBy(ids));
  }
}
