/** What a request needs to be accepted, what it then stores, and what a trade moves through the account. */
module RequestLaws {
  import opened Sums
  import opened Tables
  import TradeReplay
  import opened Portfolio
  import opened PortfolioLaws
  import opened Balances
  import opened Database
  import opened Snapshots
  import opened SnapshotLaws
  import opened Household
  import opened HouseholdLaws

  // ---- when a request is accepted ----

  ghost predicate Belongs(db: Db, h: HouseholdId, a: AccountId) {
    a < |db.accounts| && db.accounts[a].active && db.accounts[a].household == h
  }

  ghost predicate Manual(db: Db, a: AccountId) {
    a < |db.accounts| && db.accounts[a].kind in {RealEstate, Pension, Commodity, SavingsAsset}
  }

  /** Both ends are open accounts of the household. Only manual assets are revalued, and nothing is earned or
      spent on them; a transfer may go anywhere. */
  ghost predicate EndsFit(db: Db, h: HouseholdId, kind: TxType, a: AccountId, to: Option<AccountId>) {
    && Belongs(db, h, a) && (to.Some? ==> Belongs(db, h, to.value))
    && (kind.Valuation? ==> Manual(db, a) && (to.Some? ==> Manual(db, to.value)))
    && (kind in {Income, Expense, FixedExpense} ==> !Manual(db, a) && (to.Some? ==> !Manual(db, to.value)))
  }

  lemma ChecksAreExact(db: Db, h: HouseholdId, a: AccountId, to: Option<AccountId>, kind: TxType)
    ensures CheckAccounts(db, h, a, to, kind).None? <==> EndsFit(db, h, kind, a, to)
  {
  }

  ghost predicate RowAt(db: Db, h: HouseholdId, id: nat, i: nat) {
    && i < |db.rows| && db.rows[i].id == id && db.rows[i].active
    && db.rows[i].account < |db.accounts| && db.accounts[db.rows[i].account].household == h
  }

  /** What the edited row will say, and that an edited transfer has another account to go to. */
  ghost predicate EditFits(db: Db, h: HouseholdId, was: Row, c: RowChange) {
    var kind, a := if c.kind.Some? then c.kind.value else was.kind, if c.account.Some? then c.account.value else was.account;
    var to := if c.to.Some? then c.to else was.to;
    EndsFit(db, h, kind, a, to) && (kind.Transfer? ==> to.Some? && to.value != a)
  }

  ghost predicate Acceptable(w: World, q: Request) {
    match q
    case CreateRow(h, id, _, r) =>
      EndsFit(w.db, h, r.kind, r.account, r.to) && forall i :: 0 <= i < |w.db.rows| ==> w.db.rows[i].id != id
    case UpdateRow(h, id, c) => exists i: nat :: RowAt(w.db, h, id, i) && EditFits(w.db, h, w.db.rows[i], c)
    case DeleteRow(h, id) => exists i: nat :: RowAt(w.db, h, id, i)
    case CreateAccount(_, _, _) => true
    case UpdateAccount(h, a, _, _, _) => Belongs(w.db, h, a)
    case DeleteAccount(h, a) =>
      Belongs(w.db, h, a) && forall i :: 0 <= i < |w.db.book.items| && w.db.book.items[i].active ==>
                               w.db.book.items[i].account != a
    case CreateItem(h, a, _, _) => Belongs(w.db, h, a) && w.db.accounts[a].kind.Investment?
    case TradeOn(c) => Apply(w.db.book, c).Ok?
    case MonthlyJob(_, _, _) => true
    case ManualSnapshot(_, _, _) => true
  }

  lemma {:induction false} LocateFinds(rows: seq<Row>, id: nat, i: nat)
    requires i < |rows| && rows[i].id == id && rows[i].active
    ensures Locate(rows, id) < |rows|
  {
    if i < |rows| - 1 {
      LocateFinds(rows[..|rows| - 1], id, i);
    }
  }

  lemma {:induction false} LocatedIsTheOne(w: World, h: HouseholdId, id: nat, i: nat)
    requires Good(w) && RowAt(w.db, h, id, i)
    ensures Locate(w.db.rows, id) == i
  {
    LocateFinds(w.db.rows, id, i);
  }

  lemma {:induction false} RowEditAcceptedExactly(w: World, h: HouseholdId, id: nat, c: RowChange)
    requires Good(w)
    ensures UpdateTransaction(w, h, id, c).Ok? <==>
            exists i: nat :: RowAt(w.db, h, id, i) && EditFits(w.db, h, w.db.rows[i], c)
    ensures DeleteTransaction(w, h, id).Ok? <==> exists i: nat :: RowAt(w.db, h, id, i)
  {
    forall i: nat | RowAt(w.db, h, id, i) ensures Locate(w.db.rows, id) == i {
      LocatedIsTheOne(w, h, id, i);
    }
    var i := Locate(w.db.rows, id);
    assert (i < |w.db.rows| && InHousehold(w.db, w.db.rows[i].account, h)) <==> RowAt(w.db, h, id, i);
    if i < |w.db.rows| {
      var was := w.db.rows[i];
      ChecksAreExact(
        w.db, h, Or(c.account, was.account), if c.to.Some? then c.to else was.to, Or(c.kind, was.kind));
      assert UpdateTransaction(w, h, id, c).Ok? <==> RowAt(w.db, h, id, i) && EditFits(w.db, h, was, c);
    }
  }

  /** In every state that requests lead to, a request is accepted exactly under these conditions. */
  lemma {:induction false} AcceptedExactlyWhen(w: World, q: Request)
    requires Good(w) && Sent(q)
    ensures Step(w, q).Ok? <==> Acceptable(w, q)
  {
    match q
    case CreateRow(h, id, _, r) => ChecksAreExact(w.db, h, r.account, r.to, r.kind);
    case UpdateRow(h, id, c) => RowEditAcceptedExactly(w, h, id, c);
    case DeleteRow(h, id) => RowEditAcceptedExactly(w, h, id, RowChange(None, None, None, None, None, None));
    case _ =>
  }

  /** An item is dropped or archived only when no share of it is left. */
  lemma {:induction false} ItemChangeAcceptedExactly(b: Book, item: ItemId, c: Command)
    requires c == DropItem(item) || (c.EditItem? && c.item == item)
    ensures Apply(b, c).Ok? <==>
            && item < |b.items| && b.items[item].active
            && (c.DropItem? || c.archive == Some(true) ==> b.items[item].quantity <= 0.0)
    ensures Apply(b, c) == Err(NotFound) <==> !(item < |b.items| && b.items[item].active)
  {
  }

  // ---- what an accepted request stores ----

  /** The rows but the i-th, and the length of their table. */
  ghost predicate OnlyAt<T(!new)>(was: seq<T>, now: seq<T>, i: nat) {
    |now| == |was| && forall j :: 0 <= j < |was| && j != i ==> now[j] == was[j]
  }

  ghost predicate RowEdited(was: Row, now: Row, c: RowChange) {
    && Takes(now.kind, c.kind, was.kind) && Takes(now.amount, c.amount, was.amount)
    && Takes(now.date, c.date, was.date) && Takes(now.account, c.account, was.account)
    && (if now.kind.Transfer? then now.to == (if c.to.Some? then c.to else was.to) else now.to == None)
    && now.direction == (if c.direction.Some? then c.direction else was.direction)
    && now.id == was.id && now.reg == was.reg && now.active == was.active
  }

  ghost predicate StoredInRows(was: seq<Row>, now: seq<Row>, q: Request) {
    match q
    case CreateRow(_, id, reg, r) =>
      now == was + [Row(id, reg, r.date, r.kind, r.amount, r.account, r.to, r.direction, true)]
    case UpdateRow(_, id, c) =>
      exists i :: 0 <= i < |was| == |now| && was[i].id == id && was[i].active
                  && RowEdited(was[i], now[i], c) && OnlyAt(was, now, i)
    case DeleteRow(_, id) =>
      exists i :: 0 <= i < |was| == |now| && was[i].id == id && was[i].active
                  && now[i] == was[i].(active := false) && OnlyAt(was, now, i)
    case DeleteAccount(_, _) => true
    case _ => now == was
  }

  ghost predicate StoredInAccounts(was: seq<Account>, now: seq<Account>, q: Request) {
    match q
    case CreateAccount(h, kind, start) => now == was + [Account(h, kind, start, false, true)]
    case UpdateAccount(_, a, kind, start, archive) =>
      && a < |was| == |now| && OnlyAt(was, now, a)
      && Takes(now[a].kind, kind, was[a].kind) && Takes(now[a].startBalance, start, was[a].startBalance)
      && Takes(now[a].archived, archive, was[a].archived)
      && now[a].household == was[a].household && now[a].active == was[a].active
    case DeleteAccount(_, a) =>
      a < |was| == |now| && OnlyAt(was, now, a) && now[a] == was[a].(active := false)
    case _ => now == was
  }

  ghost predicate StoredInItems(was: seq<Item>, now: seq<Item>, q: Request) {
    match q
    case CreateItem(_, a, price, quote) => now == was + [Item(a, 0.0, 0.0, price, quote, false, true)]
    case TradeOn(EditItem(item, price, quote, archive)) =>
      && item < |was| == |now| && OnlyAt(was, now, item)
      && Takes(now[item].currentPrice, price, was[item].currentPrice)
      && Takes(now[item].quote, quote, was[item].quote) && Takes(now[item].archived, archive, was[item].archived)
      && now[item].account == was[item].account && now[item].active == was[item].active
      && now[item].quantity == was[item].quantity && now[item].avgPrice == was[item].avgPrice
    case TradeOn(DropItem(item)) =>
      item < |was| == |now| && OnlyAt(was, now, item) && now[item] == was[item].(active := false)
    case TradeOn(_) => |now| == |was|
    case _ => now == was
  }

  ghost predicate StoredInTrades(was: Book, now: Book, q: Request) {
    match q
    case TradeOn(BuyShares(item, o)) => OrderStored(was, now, item, Buy, o)
    case TradeOn(SellShares(item, o)) => OrderStored(was, now, item, Sell, o)
    case TradeOn(EditTrade(reg, c)) => EditStored(was, now, reg, c)
    case TradeOn(DropTrade(reg)) => DropStored(was, now, reg)
    case DeleteAccount(_, a) =>
      && |now.trades| == |was.trades|
      && forall j :: 0 <= j < |was.trades| ==>
           now.trades[j] == (if was.trades[j].account == a then was.trades[j].(active := false) else was.trades[j])
    case _ => now.trades == was.trades
  }

  lemma {:induction false} TradesAreStored(w: World, q: Request)
    requires Step(w, q).Ok?
    ensures StoredInTrades(w.db.book, After(w, q).db.book, q)
  {
    if q.TradeOn? {
      var b := w.db.book;
      match q.command
      case BuyShares(item, o) => OrderIsStored(b, item, o);
      case SellShares(item, o) => OrderIsStored(b, item, o);
      case EditTrade(reg, c) => ChangeIsStored(b, reg, c);
      case DropTrade(reg) => ChangeIsStored(b, reg, Change(None, None, None, None));
      case _ =>
    }
  }

  /** What an account and month hold in the archive: the job redoes the months that are due, the manual snapshot
      its one month, a deleted account loses its own, and every other request leaves the archive alone. */
  ghost predicate StoredInArchive(w: World, after: World, q: Request, a: AccountId, m: int) {
    match q
    case MonthlyJob(hs, target, prices) =>
      At(after.archive, a, m)
      == if Visited(w.db, hs, a) && DueNow(w.db, w.archive, w.db.accounts[a].household, target, m)
         then Recomputed(w.db, w.db.accounts[a].household, a, m, prices) else At(w.archive, a, m)
    case ManualSnapshot(h, target, prices) =>
      At(after.archive, a, m)
      == if m == target && InHousehold(w.db, a, h) then Recomputed(w.db, h, a, m, prices) else At(w.archive, a, m)
    case DeleteAccount(_, b) => At(after.archive, a, m) == if a == b then Stored([], []) else At(w.archive, a, m)
    case _ => after.archive == w.archive
  }

  lemma {:induction false} RequestsReachTheArchive(w: World, q: Request, a: AccountId, m: int)
    requires Good(w) && Sent(q) && Step(w, q).Ok?
    ensures StoredInArchive(w, After(w, q), q, a, m)
  {
    match q
    case MonthlyJob(hs, target, prices) =>
      JobClosedForm(w.db, w.archive, hs, target, prices);
      assert At(RunJob(w.db, w.archive, hs, target, prices), a, m)
          == AfterJob(w.db, w.archive, hs, target, prices, a, m);
    case ManualSnapshot(h, target, prices) =>
      ManualRewritesOneMonth(w.db, w.archive, h, target, prices, a, m);
    case DeleteAccount(_, b) => DeletingSparesOtherMonths(w, b, a, m);
    case _ =>
  }

  lemma {:induction false} RowsAreStored(w: World, q: Request)
    requires Sent(q) && Step(w, q).Ok?
    ensures StoredInRows(w.db.rows, After(w, q).db.rows, q)
  {
    var was, now := w.db.rows, After(w, q).db.rows;
    match q
    case UpdateRow(_, id, c) =>
      var i := Locate(was, id);
      assert RowEdited(was[i], now[i], c) && OnlyAt(was, now, i);
    case DeleteRow(_, id) =>
      var i := Locate(was, id);
      assert now[i] == was[i].(active := false) && OnlyAt(was, now, i);
    case _ =>
  }

  lemma {:induction false} AccountsAreStored(w: World, q: Request)
    requires Step(w, q).Ok?
    ensures StoredInAccounts(w.db.accounts, After(w, q).db.accounts, q)
  {
  }

  lemma {:induction false} ItemsAreStored(w: World, q: Request)
    requires Step(w, q).Ok?
    ensures StoredInItems(w.db.book.items, After(w, q).db.book.items, q)
  {
    if q.TradeOn? {
      var b := w.db.book;
      match q.command
      case BuyShares(item, o) => OrderIsStored(b, item, o);
      case SellShares(item, o) => OrderIsStored(b, item, o);
      case EditTrade(reg, c) => ChangeIsStored(b, reg, c);
      case DropTrade(reg) => ChangeIsStored(b, reg, Change(None, None, None, None));
      case _ =>
    }
  }

  /** What was asked for is what is stored: every column named, none other, and no other row, account, item
      or trade. */
  lemma {:induction false} RequestsStoreWhatTheySay(w: World, q: Request)
    requires Sent(q) && Step(w, q).Ok?
    ensures StoredInRows(w.db.rows, After(w, q).db.rows, q)
    ensures StoredInAccounts(w.db.accounts, After(w, q).db.accounts, q)
    ensures StoredInItems(w.db.book.items, After(w, q).db.book.items, q)
    ensures StoredInTrades(w.db.book, After(w, q).db.book, q)
  {
    TradesAreStored(w, q);
    RowsAreStored(w, q);
    AccountsAreStored(w, q);
    ItemsAreStored(w, q);
  }

  // ---- what a trade moves ----

  /** A BUY costs its gross amount and its fee, a SELL brings its gross amount less its fee. */
  function CashEffect(t: Trade, a: AccountId, to: Option<int>): real {
    if !t.active || t.account != a || (to.Some? && t.date > to.value) then 0.0
    else if t.side.Buy? then -(TradeReplay.Gross(t.quantity, t.price) + t.fee)
    else TradeReplay.Gross(t.quantity, t.price) - t.fee
  }

  lemma {:induction false} EffectIsSettled(t: Trade, a: AccountId, to: Option<int>)
    ensures SideOf(a, to, Sell)(t) - SideOf(a, to, Buy)(t) == CashEffect(t, a, to)
  {
  }

  function TradeCash(trades: seq<Trade>, a: AccountId, to: Option<int>): real {
    SettledOf(trades, a, to).sell - SettledOf(trades, a, to).buy
  }

  lemma {:induction false} SameEntriesSettle(was: seq<Trade>, now: seq<Trade>, a: AccountId, to: Option<int>)
    requires EntriesKept(was, now)
    ensures TradeCash(now, a, to) == TradeCash(was, a, to)
  {
    forall j | 0 <= j < |was|
      ensures SideOf(a, to, Buy)(was[j]) == SideOf(a, to, Buy)(now[j])
      ensures SideOf(a, to, Sell)(was[j]) == SideOf(a, to, Sell)(now[j])
    {
      assert SameEntry(was[j], now[j]);
    }
    SumMapped(was, now, SideOf(a, to, Buy), SideOf(a, to, Buy));
    SumMapped(was, now, SideOf(a, to, Sell), SideOf(a, to, Sell));
  }

  lemma {:induction false} OneMoreSettles(was: seq<Trade>, now: seq<Trade>, a: AccountId, to: Option<int>)
    requires |now| == |was| + 1 && EntriesKept(was, now[..|was|])
    ensures TradeCash(now, a, to) == TradeCash(was, a, to) + CashEffect(now[|was|], a, to)
  {
    var n := |was|;
    SameEntriesSettle(was, now[..n], a, to);
    assert now[..|now| - 1] == now[..n];
    EffectIsSettled(now[n], a, to);
  }

  lemma {:induction false} OneChangedSettles(was: seq<Trade>, now: seq<Trade>, reg: nat, a: AccountId, to: Option<int>)
    requires reg < |was| == |now|
    requires forall j :: 0 <= j < |was| && j != reg ==> SameEntry(was[j], now[j])
    ensures TradeCash(now, a, to) == TradeCash(was, a, to) - CashEffect(was[reg], a, to) + CashEffect(now[reg], a, to)
  {
    SameEntriesSettle(was[reg := now[reg]], now, a, to);
    SumReplaced(was, reg, now[reg], SideOf(a, to, Buy));
    SumReplaced(was, reg, now[reg], SideOf(a, to, Sell));
    EffectIsSettled(was[reg], a, to);
    EffectIsSettled(now[reg], a, to);
  }

  /** An accepted order takes from the cash of its account, or brings it, gross amount and fee, from its date
      on, and moves no other account. */
  lemma {:induction false} OrderMovesCash(w: World, item: ItemId, o: Order, a: AccountId, to: Option<int>)
    requires a < |w.db.accounts|
    ensures var buy := TradeOn(BuyShares(item, o));
            Step(w, buy).Ok? ==>
              && item < |w.db.book.items| && |After(w, buy).db.accounts| == |w.db.accounts|
              && CashOf(After(w, buy).db, a, to) - CashOf(w.db, a, to)
                 == if w.db.book.items[item].account == a && (to.Some? ==> o.date <= to.value)
                    then -(TradeReplay.Gross(o.quantity, o.price) + o.fee) else 0.0
    ensures var sell := TradeOn(SellShares(item, o));
            Step(w, sell).Ok? ==>
              && item < |w.db.book.items| && |After(w, sell).db.accounts| == |w.db.accounts|
              && CashOf(After(w, sell).db, a, to) - CashOf(w.db, a, to)
                 == if w.db.book.items[item].account == a && (to.Some? ==> o.date <= to.value)
                    then TradeReplay.Gross(o.quantity, o.price) - o.fee else 0.0
  {
    OrderIsStored(w.db.book, item, o);
    var buy, sell := TradeOn(BuyShares(item, o)), TradeOn(SellShares(item, o));
    if Step(w, buy).Ok? {
      OrderSettles(w.db.book, After(w, buy).db.book, item, Buy, o, a, to);
    }
    if Step(w, sell).Ok? {
      OrderSettles(w.db.book, After(w, sell).db.book, item, Sell, o, a, to);
    }
  }

  lemma {:induction false} OrderSettles(
      was: Book, now: Book, item: ItemId, side: Side, o: Order, a: AccountId, to: Option<int>)
    requires OrderStored(was, now, item, side, o)
    ensures TradeCash(now.trades, a, to) - TradeCash(was.trades, a, to)
         == if was.items[item].account != a || (to.Some? && o.date > to.value) then 0.0
            else if side.Buy? then -(TradeReplay.Gross(o.quantity, o.price) + o.fee) else TradeReplay.Gross(o.quantity, o.price) - o.fee
  {
    OneMoreSettles(was.trades, now.trades, a, to);
  }

  /** An accepted edit or drop undoes what the trade moved before and does what it says now. */
  lemma {:induction false} ChangeMovesCash(w: World, c: Command, a: AccountId, to: Option<int>)
    requires a < |w.db.accounts| && (c.EditTrade? || c.DropTrade?) && Step(w, TradeOn(c)).Ok?
    ensures var after := After(w, TradeOn(c)).db;
            && c.reg < |w.db.book.trades| == |after.book.trades| && |after.accounts| == |w.db.accounts|
            && CashOf(after, a, to) - CashOf(w.db, a, to)
               == CashEffect(after.book.trades[c.reg], a, to) - CashEffect(w.db.book.trades[c.reg], a, to)
  {
    var after := After(w, TradeOn(c)).db;
    ChangeIsStored(w.db.book, c.reg, if c.EditTrade? then c.change else Change(None, None, None, None));
    OneChangedSettles(w.db.book.trades, after.book.trades, c.reg, a, to);
  }
}
