/** What one request does to everybody else: deleting an account moves no other balance, and changes above a
    ledger cursor leave what lies below it alone. */
module HouseholdLaws {
  import opened Money
  import opened Sums
  import opened Tables
  import opened Calendar
  import opened TradeReplay
  import opened TradeTimeline
  import opened Portfolio
  import opened PortfolioLaws
  import opened Holdings
  import opened Ledger
  import opened LedgerPages
  import opened Balances
  import opened Database
  import opened Snapshots
  import opened SnapshotLaws
  import opened SnapshotValues
  import opened Household

  // ---- deleting an account ----

  /** Row by row the same, or a row that the account never saw. */
  ghost predicate SameFor(was: seq<Row>, now: seq<Row>, b: AccountId) {
    |was| == |now| && forall i :: 0 <= i < |was| ==> was[i] == now[i] || (!Touches(was[i], b) && !Touches(now[i], b))
  }

  lemma CascadeSparesOthers(accounts: seq<Account>, a: AccountId, b: AccountId, r: Row)
    requires RowFits(accounts, r) && Alive(accounts, b) && a != b
    ensures RowAfterDelete(accounts, a, r) == r || (!Touches(r, b) && !Touches(RowAfterDelete(accounts, a, r), b))
  {
  }

  lemma DeleteSparesRows(db: Db, a: AccountId, b: AccountId)
    requires RowsSound(db.accounts, db.rows) && Alive(db.accounts, b) && a != b
    ensures SameFor(db.rows, RowsAfterDelete(db, a), b)
  {
    var now := RowsAfterDelete(db, a);
    forall i | 0 <= i < |now|
      ensures db.rows[i] == now[i] || (!Touches(db.rows[i], b) && !Touches(now[i], b))
    {
      CascadeSparesOthers(db.accounts, a, b, db.rows[i]);
      assert now[i] == RowAfterDelete(db.accounts, a, db.rows[i]);
    }
  }

  lemma SameTotals(was: seq<Row>, now: seq<Row>, b: AccountId, to: Option<int>)
    requires SameFor(was, now, b)
    ensures AccountTotals(now, b, to) == AccountTotals(was, b, to)
  {
    SumMapped(was, now, IncomeOf(b, to), IncomeOf(b, to));
    SumMapped(was, now, ExpenseOf(b, to), ExpenseOf(b, to));
    SumMapped(was, now, SentOf(b, to), SentOf(b, to));
    SumMapped(was, now, ReceivedOf(b, to), ReceivedOf(b, to));
    SumMapped(was, now, RevaluedOf(b, to), RevaluedOf(b, to));
  }

  lemma {:induction false} SameListing(
      was: seq<Row>, now: seq<Row>, b: AccountId, month: Option<int>, below: Option<Key>)
    requires SameFor(was, now, b)
    ensures Listing(now, b, month, below) == Listing(was, b, month, below)
  {
    if was != [] {
      SameListing(was[..|was| - 1], now[..|now| - 1], b, month, below);
    }
  }

  lemma SameTrades(book: Book, a: AccountId, b: AccountId, f: Trade -> real)
    requires forall t: Trade :: t.account != b ==> f(t) == 0.0
    requires a != b
    ensures Sum(CloseTrades(book, a).trades, f) == Sum(book.trades, f)
  {
    SumMapped(book.trades, CloseTrades(book, a).trades, f, f);
  }

  lemma SameSettled(book: Book, a: AccountId, b: AccountId, to: Option<int>)
    requires a != b
    ensures SettledOf(CloseTrades(book, a).trades, b, to) == SettledOf(book.trades, b, to)
  {
    SameTrades(book, a, b, SideOf(b, to, Buy));
    SameTrades(book, a, b, SideOf(b, to, Sell));
  }

  lemma SameHolding(book: Book, a: AccountId, b: AccountId, asOf: int, item: ItemId)
    requires a != b
    ensures NetUpTo(CloseTrades(book, a).trades, b, item, asOf) == NetUpTo(book.trades, b, item, asOf)
    ensures MeanCostUpTo(CloseTrades(book, a).trades, b, item, asOf) == MeanCostUpTo(book.trades, b, item, asOf)
  {
    SameTrades(book, a, b, InGroup(b, item, asOf, TradeReplay.Signed));
    SameTrades(book, a, b, InGroup(b, item, asOf, BoughtAmount));
    SameTrades(book, a, b, InGroup(b, item, asOf, BoughtQty));
  }

  lemma SameHoldingRow(book: Book, a: AccountId, b: AccountId, asOf: int, item: ItemId)
    requires a != b
    ensures RowFor(CloseTrades(book, a).trades, b, item, asOf) == RowFor(book.trades, b, item, asOf)
  {
    SameHolding(book, a, b, asOf, item);
  }

  lemma {:induction false} SameHoldingList(book: Book, a: AccountId, b: AccountId, asOf: int, n: nat)
    requires a != b
    ensures HoldingList(CloseTrades(book, a).trades, b, asOf, n) == HoldingList(book.trades, b, asOf, n)
  {
    if n > 0 {
      SameHoldingList(book, a, b, asOf, n - 1);
      SameHolding(book, a, b, asOf, n - 1);
      SameHoldingRow(book, a, b, asOf, n - 1);
    }
  }

  lemma SameMonthValue(was: Db, now: Db, a: AccountId, b: AccountId, month: int, prices: Prices)
    requires a != b && now.book == CloseTrades(was.book, a)
    ensures Sum(MonthHoldings(now, b, month), ValuationAt(now.book, month, prices))
         == Sum(MonthHoldings(was, b, month), ValuationAt(was.book, month, prices))
  {
    SameHoldingList(was.book, a, b, MonthEnd(month), |was.book.items|);
    assert now.book.items == was.book.items;
    forall x ensures ValueOf(now.book, x, month, prices) == ValueOf(was.book, x, month, prices) {
    }
    SumSame(MonthHoldings(was, b, month), ValuationAt(now.book, month, prices), ValuationAt(was.book, month, prices));
  }

  lemma SameCash(was: Db, now: Db, a: AccountId, b: AccountId, to: Option<int>)
    requires a != b && b < |was.accounts| <= |now.accounts| && now.accounts[b] == was.accounts[b]
    requires now.book == CloseTrades(was.book, a) && SameFor(was.rows, now.rows, b)
    ensures CashOf(now, b, to) == CashOf(was, b, to)
    ensures AccountTotals(now.rows, b, to) == AccountTotals(was.rows, b, to)
  {
    SameTotals(was.rows, now.rows, b, to);
    SameSettled(was.book, a, b, to);
  }

  lemma SameSummary(was: Db, now: Db, a: AccountId, b: AccountId)
    requires a != b && b < |was.accounts| <= |now.accounts| && now.accounts[b] == was.accounts[b]
    requires now.book == CloseTrades(was.book, a) && SameFor(was.rows, now.rows, b)
    ensures SummaryNow(now, b) == SummaryNow(was, b)
  {
    SameCash(was, now, a, b, None);
  }

  lemma SameMonthBalance(was: Db, now: Db, a: AccountId, b: AccountId, month: int, prices: Prices)
    requires a != b && b < |was.accounts| <= |now.accounts| && now.accounts[b] == was.accounts[b]
    requires now.book == CloseTrades(was.book, a) && SameFor(was.rows, now.rows, b)
    ensures MonthBalance(now, b, month, prices) == MonthBalance(was, b, month, prices)
  {
    SameCash(was, now, a, b, Some(MonthEnd(month)));
    SameMonthValue(was, now, a, b, month, prices);
  }

  /** The archived months of the deleted account go, and no other's. */
  lemma DeletingSparesOtherMonths(w: World, a: AccountId, b: AccountId, month: int)
    requires a < |w.db.accounts|
    ensures At(AccountDeleted(w, a).archive, b, month) == if b == a then Stored([], []) else At(w.archive, b, month)
  {
    ClosedSnaps(w.archive.snapshots, a, b, month);
    ClosedHists(w.archive.histories, a, b, month);
  }

  /** Deleting an account leaves every other ACTIVE account its balance, now and at every month-end, and its
      whole ledger. */
  lemma {:induction false} DeletingMovesNobodyElse(
      w: World, h: HouseholdId, a: AccountId, b: AccountId, month: int, prices: Prices,
      view: Option<int>, below: Option<Key>)
    requires Good(w) && Step(w, DeleteAccount(h, a)).Ok? && b != a && Alive(w.db.accounts, b)
    ensures var after := After(w, DeleteAccount(h, a));
            && Alive(after.db.accounts, b)
            && SummaryNow(after.db, b) == SummaryNow(w.db, b)
            && MonthBalance(after.db, b, month, prices) == MonthBalance(w.db, b, month, prices)
            && Listing(after.db.rows, b, view, below) == Listing(w.db.rows, b, view, below)
  {
    var after := AccountDeleted(w, a);
    DeleteSparesRows(w.db, a, b);
    SameSummary(w.db, after.db, a, b);
    SameMonthBalance(w.db, after.db, a, b, month, prices);
    SameListing(w.db.rows, after.db.rows, b, view, below);
  }

  /** Of the rows of the deleted account, exactly the transfers whose other end is ACTIVE and the valuations
      stay ACTIVE. */
  lemma WhatOutlivesItsAccount(w: World, h: HouseholdId, a: AccountId, i: nat)
    requires Good(w) && Step(w, DeleteAccount(h, a)).Ok?
    requires i < |w.db.rows| && w.db.rows[i].active && Touches(w.db.rows[i], a)
    ensures var r := w.db.rows[i];
            After(w, DeleteAccount(h, a)).db.rows[i].active <==>
            r.kind.Valuation? || (r.kind.Transfer? && Alive(w.db.accounts, if r.account == a then r.to.value else r.account))
  {
    assert RowFits(w.db.accounts, w.db.rows[i]);
  }

  lemma HundredIsWhole()
    ensures WholeCents(100.0) && WholeCents(5.0) && WholeCents(1.0) && WholeCents(0.0)
  {
    assert (100.0 * 100.0).Floor == 10000 && (5.0 * 100.0).Floor == 500;
    assert (1.0 * 100.0).Floor == 100 && (0.0 * 100.0).Floor == 0;
  }

  const House: Account := Account(0, RealEstate, 100.0, false, true)
  const Revalued: Row := Row(0, 0, 0, Valuation, 5.0, 0, None, Some(Increase), true)

  function HouseWorld(rows: seq<Row>): World {
    World(Db([House], rows, Book([], [])), Archive([], []))
  }

  lemma HouseIsCreated()
    ensures Run(Empty, [CreateAccount(0, RealEstate, 100.0)]) == HouseWorld([])
  {
    RunOneMore(Empty, [], CreateAccount(0, RealEstate, 100.0));
  }

  lemma HouseIsRevalued()
    ensures After(HouseWorld([]), CreateRow(0, 0, 0, NewRow(Valuation, 5.0, 0, 0, None, Some(Increase))))
         == HouseWorld([Revalued])
  {
    assert [] + [Revalued] == [Revalued];
  }

  lemma HouseIsDeleted()
    ensures var w := After(HouseWorld([Revalued]), DeleteAccount(0, 0));
            |w.db.rows| == 1 && w.db.rows[0].active && !Alive(w.db.accounts, w.db.rows[0].account)
  {
    assert !HasItems(HouseWorld([Revalued]).db, 0);
  }

  /** So an ACTIVE valuation can be left on a deleted account: create one, revalue it, delete it. */
  lemma ValuationCanOutliveItsAccount() returns (qs: seq<Request>)
    ensures forall i :: 0 <= i < |qs| ==> Sent(qs[i])
    ensures var w := Run(Empty, qs);
            |w.db.rows| == 1 && w.db.rows[0].active && !Alive(w.db.accounts, w.db.rows[0].account)
  {
    var q0 := CreateAccount(0, RealEstate, 100.0);
    var q1 := CreateRow(0, 0, 0, NewRow(Valuation, 5.0, 0, 0, None, Some(Increase)));
    var q2 := DeleteAccount(0, 0);
    HundredIsWhole();
    qs := [q0] + [q1] + [q2];
    HouseIsCreated();
    RunOneMore(Empty, [q0], q1);
    HouseIsRevalued();
    RunOneMore(Empty, [q0] + [q1], q2);
    HouseIsDeleted();
  }

  lemma {:induction false} RunOneMore(w: World, qs: seq<Request>, q: Request)
    ensures Run(w, qs + [q]) == After(Run(w, qs), q)
  {
    assert (qs + [q])[..|qs|] == qs;
  }

  // ---- when every valuation stands ----

  ghost predicate ValuationStands(accounts: seq<Account>, r: Row) {
    r.active && r.kind.Valuation? ==> Alive(accounts, r.account)
  }

  ghost predicate ValuationsStand(db: Db) {
    forall i :: 0 <= i < |db.rows| ==> ValuationStands(db.accounts, db.rows[i])
  }

  ghost predicate HasValuations(db: Db, a: AccountId) {
    exists i :: 0 <= i < |db.rows| && db.rows[i].active && db.rows[i].kind.Valuation? && db.rows[i].account == a
  }

  /** The guard that delete_account lacks; it concerns no other request. */
  ghost predicate DeleteFits(w: World, q: Request) {
    q.DeleteAccount? && Step(w, q).Ok? ==> !HasValuations(w.db, q.account)
  }

  lemma {:induction false} DeleteKeepsValuationsExactlyWhen(w: World, h: HouseholdId, a: AccountId)
    requires ValuationsStand(w.db) && Step(w, DeleteAccount(h, a)).Ok?
    ensures ValuationsStand(AccountDeleted(w, a).db) <==> !HasValuations(w.db, a)
  {
    var db, after := w.db, AccountDeleted(w, a).db;
    forall i | 0 <= i < |db.rows|
      ensures ValuationStands(after.accounts, after.rows[i]) <==>
              !(db.rows[i].active && db.rows[i].kind.Valuation? && db.rows[i].account == a)
    {
      assert ValuationStands(db.accounts, db.rows[i]);
      assert after.rows[i] == RowAfterDelete(db.accounts, a, db.rows[i]);
    }
  }

  /** Every other request checks the account of the row it writes, or deactivates none. */
  lemma {:induction false} OthersKeepValuations(w: World, q: Request)
    requires ValuationsStand(w.db) && !q.DeleteAccount?
    ensures ValuationsStand(After(w, q).db)
  {
    var after := After(w, q).db;
    forall i | 0 <= i < |after.rows| ensures ValuationStands(after.accounts, after.rows[i]) {
      if i < |w.db.rows| {
        assert ValuationStands(w.db.accounts, w.db.rows[i]);
      }
    }
  }

  /** At the start of a run and after each of its requests. */
  ghost predicate ValuationsStandThroughout(w: World, qs: seq<Request>) {
    ValuationsStand(Run(w, qs).db) && (qs != [] ==> ValuationsStandThroughout(w, qs[..|qs| - 1]))
  }

  /** Each deletion of an account meets none with an ACTIVE valuation. */
  ghost predicate DeletesFit(w: World, qs: seq<Request>) {
    qs != [] ==>
      && DeletesFit(w, qs[..|qs| - 1])
      && DeleteFits(Run(w, qs[..|qs| - 1]), qs[|qs| - 1])
  }

  /** All along a run every ACTIVE valuation is on an ACTIVE account exactly when no account is deleted with
      an ACTIVE valuation on it. */
  lemma {:induction false} RunKeepsValuationsExactlyWhen(w: World, qs: seq<Request>)
    requires ValuationsStand(w.db)
    ensures ValuationsStandThroughout(w, qs) <==> DeletesFit(w, qs)
  {
    if qs != [] {
      var rest, q := qs[..|qs| - 1], qs[|qs| - 1];
      RunKeepsValuationsExactlyWhen(w, rest);
      if ValuationsStandThroughout(w, rest) {
        var met := Run(w, rest);
        if q.DeleteAccount? && Step(met, q).Ok? {
          DeleteKeepsValuationsExactlyWhen(met, q.household, q.account);
        } else if !q.DeleteAccount? {
          OthersKeepValuations(met, q);
        }
      }
    }
  }

  // ---- what a transaction request moves ----

  lemma RowsFormed(accounts: seq<Account>, rows: seq<Row>)
    requires RowsSound(accounts, rows)
    ensures forall r :: r in rows ==> WellFormed(r)
  {
    forall r | r in rows ensures WellFormed(r) {
      var i :| 0 <= i < |rows| && rows[i] == r;
      assert RowFits(accounts, r);
    }
  }

  lemma RowsAreWellFormed(w: World)
    requires Good(w)
    ensures UniqueIds(w.db.rows)
    ensures forall r :: r in w.db.rows ==> WellFormed(r) && RealDay(r.date) && WholeCents(r.amount)
  {
    forall r | r in w.db.rows ensures WellFormed(r) && RealDay(r.date) && WholeCents(r.amount) {
      var i :| 0 <= i < |w.db.rows| && w.db.rows[i] == r;
      assert RowFits(w.db.accounts, r) && FitsColumns(Some(r.date), Some(r.amount));
    }
  }

  /** Creating a row moves each balance, to any day, by what the row's ledger entry shows; no other moves. */
  lemma CreatingMovesBalances(
      w: World, h: HouseholdId, id: nat, reg: int, r: NewRow, b: AccountId, start: real, to: Option<int>)
    requires Good(w) && GoodNewRow(r) && CreateTransaction(w, h, id, reg, r).Ok?
    ensures Balance(After(w, CreateRow(h, id, reg, r)).db.rows, b, start, to)
         == Balance(w.db.rows, b, start, to) + SignedOf(b, to)(RowOfRequest(id, reg, r))
  {
    var q := CreateRow(h, id, reg, r);
    CreateKeepsRows(w, h, id, reg, r);
    RowsFormed(w.db.accounts, w.db.rows);
    RowsFormed(w.db.accounts, After(w, q).db.rows);
    SignRulesAgree(w.db.rows, b, start, to);
    SignRulesAgree(After(w, q).db.rows, b, start, to);
    SumOneMore(w.db.rows, RowOfRequest(id, reg, r), SignedOf(b, to));
  }

  /** A transfer takes its amount from one account and gives it to the other. */
  lemma TransferMovesItsAmount(w: World, h: HouseholdId, id: nat, reg: int, r: NewRow, b: AccountId, start: real)
    requires Good(w) && GoodNewRow(r) && r.kind.Transfer? && CreateTransaction(w, h, id, reg, r).Ok?
    ensures Balance(After(w, CreateRow(h, id, reg, r)).db.rows, b, start, None) - Balance(w.db.rows, b, start, None)
         == if b == r.account then -r.amount else if Some(b) == r.to then r.amount else 0.0
  {
    CreatingMovesBalances(w, h, id, reg, r, b, start, None);
  }

  /** Editing a row moves each balance from what the row showed to what it shows now. */
  lemma {:induction false} UpdatingMovesBalances(
      w: World, h: HouseholdId, id: nat, c: RowChange, b: AccountId, start: real, to: Option<int>)
    requires Good(w) && GoodRowChange(c) && UpdateTransaction(w, h, id, c).Ok?
    ensures var was := w.db.rows[Locate(w.db.rows, id)];
            Balance(After(w, UpdateRow(h, id, c)).db.rows, b, start, to)
            == Balance(w.db.rows, b, start, to) - SignedOf(b, to)(was) + SignedOf(b, to)(Merged(was, c))
  {
    var q, i := UpdateRow(h, id, c), Locate(w.db.rows, id);
    UpdateKeepsRows(w, h, id, c);
    RowsFormed(w.db.accounts, w.db.rows);
    RowsFormed(w.db.accounts, After(w, q).db.rows);
    SignRulesAgree(w.db.rows, b, start, to);
    SignRulesAgree(After(w, q).db.rows, b, start, to);
    SumReplaced(w.db.rows, i, Merged(w.db.rows[i], c), SignedOf(b, to));
  }

  /** Deleting a row undoes it. */
  lemma {:induction false} DeletingMovesBalances(
      w: World, h: HouseholdId, id: nat, b: AccountId, start: real, to: Option<int>)
    requires Good(w) && DeleteTransaction(w, h, id).Ok?
    ensures Balance(After(w, DeleteRow(h, id)).db.rows, b, start, to)
         == Balance(w.db.rows, b, start, to) - SignedOf(b, to)(w.db.rows[Locate(w.db.rows, id)])
  {
    var q, i := DeleteRow(h, id), Locate(w.db.rows, id);
    DeleteKeepsRows(w, h, id);
    RowsFormed(w.db.accounts, w.db.rows);
    RowsFormed(w.db.accounts, After(w, q).db.rows);
    SignRulesAgree(w.db.rows, b, start, to);
    SignRulesAgree(After(w, q).db.rows, b, start, to);
    SumReplaced(w.db.rows, i, w.db.rows[i].(active := false), SignedOf(b, to));
  }

  // ---- a new account ----

  lemma NothingOnNewAccount(w: World, to: Option<int>)
    requires Good(w)
    ensures var a := |w.db.accounts|;
            && AccountTotals(w.db.rows, a, to) == Zero
            && SettledOf(w.db.book.trades, a, to) == Settled(0.0, 0.0)
            && Sum(w.db.book.items, CostOn(a)) == 0.0 && Sum(w.db.book.items, ValueOn(a)) == 0.0
  {
    var a := |w.db.accounts|;
    forall r | r in w.db.rows ensures !Touches(r, a) {
      var i :| 0 <= i < |w.db.rows| && w.db.rows[i] == r;
      assert RowFits(w.db.accounts, w.db.rows[i]);
    }
    SumZero(w.db.rows, IncomeOf(a, to));
    SumZero(w.db.rows, ExpenseOf(a, to));
    SumZero(w.db.rows, SentOf(a, to));
    SumZero(w.db.rows, ReceivedOf(a, to));
    SumZero(w.db.rows, RevaluedOf(a, to));
    SumZero(w.db.book.trades, SideOf(a, to, Buy));
    SumZero(w.db.book.trades, SideOf(a, to, Sell));
    SumZero(w.db.book.items, CostOn(a));
    SumZero(w.db.book.items, ValueOn(a));
  }

  /** The figures shown for an account just created are what its page will compute. */
  lemma NewAccountShowsItsStart(w: World, h: HouseholdId, kind: AccountType, start: real)
    requires Good(w)
    ensures SummaryNow(After(w, CreateAccount(h, kind, start)).db, |w.db.accounts|)
         == if kind.Investment? then Invested(start, start, 0.0, 0.0, 0.0, 0.0) else Plain(start)
  {
    NothingOnNewAccount(w, None);
  }

  // ---- changes above a ledger cursor ----

  /** A transaction request whose row stays, before and after, out of what lies below the key. */
  ghost predicate StaysAbove(w: World, q: Request, a: AccountId, key: Key) {
    var after := After(w, q);
    match q
    case CreateRow(_, _, _, _) =>
      |after.db.rows| > |w.db.rows| ==> !LedgerPages.Listed(after.db.rows[|w.db.rows|], a, None, Some(key))
    case UpdateRow(_, id, _) =>
      Locate(w.db.rows, id) < |w.db.rows| <= |after.db.rows| && Step(w, q).Ok? ==>
        && !LedgerPages.Listed(w.db.rows[Locate(w.db.rows, id)], a, None, Some(key))
        && !LedgerPages.Listed(after.db.rows[Locate(w.db.rows, id)], a, None, Some(key))
    case DeleteRow(_, id) =>
      Locate(w.db.rows, id) < |w.db.rows| && Step(w, q).Ok? ==>
        !LedgerPages.Listed(w.db.rows[Locate(w.db.rows, id)], a, None, Some(key))
    case DeleteAccount(_, other) => other != a
    case UpdateAccount(_, other, _, newStart, _) => other == a ==> newStart.None?
    case _ => true
  }

  lemma StepAboveCursor(w: World, q: Request, a: AccountId, key: Key)
    requires Good(w) && Sent(q) && Alive(w.db.accounts, a) && StaysAbove(w, q, a, key)
    ensures ChangedAbove(w.db.rows, After(w, q).db.rows, a, key)
  {
    if Step(w, q).Ok? {
      match q
      case DeleteAccount(h, other) =>
        DeleteSparesRows(w.db, other, a);
      case _ =>
    }
  }

  lemma StaysAlive(w: World, q: Request, a: AccountId, key: Key)
    requires Alive(w.db.accounts, a) && StaysAbove(w, q, a, key)
    ensures Alive(After(w, q).db.accounts, a)
    ensures After(w, q).db.accounts[a].startBalance == w.db.accounts[a].startBalance
  {
  }

  /** Any run of requests that keep above the cursor. */
  ghost predicate RunAbove(w: World, qs: seq<Request>, a: AccountId, key: Key) {
    forall k :: 0 <= k < |qs| ==> Sent(qs[k]) && StaysAbove(Run(w, qs[..k]), qs[k], a, key)
  }

  lemma {:induction false} RunAboveCursor(w: World, qs: seq<Request>, a: AccountId, key: Key)
    requires Good(w) && Alive(w.db.accounts, a) && RunAbove(w, qs, a, key)
    ensures ChangedAbove(w.db.rows, Run(w, qs).db.rows, a, key)
    ensures Good(Run(w, qs)) && Alive(Run(w, qs).db.accounts, a)
    ensures Run(w, qs).db.accounts[a].startBalance == w.db.accounts[a].startBalance
  {
    if qs != [] {
      var n := |qs| - 1;
      forall k | 0 <= k < n ensures Sent(qs[..n][k]) && StaysAbove(Run(w, qs[..n][..k]), qs[..n][k], a, key) {
        assert qs[..n][..k] == qs[..k];
      }
      RunAboveCursor(w, qs[..n], a, key);
      var before := Run(w, qs[..n]);
      assert StaysAbove(before, qs[n], a, key);
      StepAboveCursor(before, qs[n], a, key);
      StepKeepsGood(before, qs[n]);
      StaysAlive(before, qs[n], a, key);
      ChangesAboveCompose(w.db.rows, before.db.rows, Run(w, qs).db.rows, a, key);
    }
  }

  /** Whatever happens above the cursor between two page requests, going on from it shows what a fresh
      ledger shows below it. */
  lemma {:induction false} CarrySurvivesRequests(
      w: World, qs: seq<Request>, a: AccountId, month: Option<int>, c: Cursor, limit: nat)
    requires Good(w) && Alive(w.db.accounts, a) && RunAbove(w, qs, a, c.key) && limit >= 1
    requires Issued(w.db.rows, a, w.db.accounts[a].startBalance, month, c)
    ensures Alive(Run(w, qs).db.accounts, a) && UniqueIds(Run(w, qs).db.rows)
    ensures var now, start := Run(w, qs).db.rows, Run(w, qs).db.accounts[a].startBalance;
            ContinuesBelow(Walk(now, a, start, month, None, limit), Walk(now, a, start, month, Some(c), limit), c.key)
  {
    RunAboveCursor(w, qs, a, c.key);
    RowsAreWellFormed(Run(w, qs));
    CarryStaysGood(
      w.db.rows, Run(w, qs).db.rows, a, w.db.accounts[a].startBalance, month, c, limit);
  }

  // ---- the laws of the tables, at the end of any run ----

  /** After any run, accounts that no active transfer leaves hold together what they started with and earned. */
  lemma {:induction false} RunsConserveWealth(qs: seq<Request>, ids: seq<AccountId>)
    requires forall i :: 0 <= i < |qs| ==> Sent(qs[i])
    requires forall i :: 0 <= i < |ids| ==> ids[i] < |Run(Empty, qs).db.accounts|
    requires Distinct(ids)
    requires TransferClosed(Run(Empty, qs).db.rows, ids)
    ensures var db := Run(Empty, qs).db;
            Sum(ids, LedgerBalance(db)) == Sum(ids, StartOn(db.accounts)) + Sum(db.rows, EarnedBy(ids))
  {
    EmptyIsGood();
    RunKeepsGood(Empty, qs);
    RowsAreWellFormed(Run(Empty, qs));
    TransfersCancel(Run(Empty, qs).db, ids);
  }

  /** After any run, an ACTIVE transfer has an ACTIVE end, and ACTIVE income and expenses an ACTIVE account. */
  lemma {:induction false} RunsKeepRowsStanding(qs: seq<Request>, i: nat)
    requires forall k :: 0 <= k < |qs| ==> Sent(qs[k])
    requires i < |Run(Empty, qs).db.rows| && Run(Empty, qs).db.rows[i].active
    ensures var db, r := Run(Empty, qs).db, Run(Empty, qs).db.rows[i];
            && (r.kind.Transfer? ==> Alive(db.accounts, r.account) || (r.to.Some? && Alive(db.accounts, r.to.value)))
            && (r.kind.Income? || r.kind.Expense? || r.kind.FixedExpense? ==> Alive(db.accounts, r.account))
  {
    EmptyIsGood();
    RunKeepsGood(Empty, qs);
    assert RowStands(Run(Empty, qs).db.accounts, Run(Empty, qs).db.rows[i]);
  }

  /** After any run, an item says what replaying its ACTIVE trades says: its quantity, its average to the cent,
      the result stored with each SELL, and, once traded, whether it is ACTIVE. */
  lemma {:induction false} RunsKeepItemsReplayed(qs: seq<Request>, item: ItemId)
    requires forall k :: 0 <= k < |qs| ==> Sent(qs[k])
    requires item < |Run(Empty, qs).db.book.items|
    ensures var book := Run(Empty, qs).db.book;
            var s, it := Timeline(book.trades, item), book.items[item];
            && Replay(s).Some? && it.quantity == Replay(s).value.qty
            && it.avgPrice == RoundHalfUp(Average(Replay(s).value))
            && Mark(s) == s
            && (Traded(book.trades, item) ==> (it.active <==> it.quantity > 0.0))
  {
    EmptyIsGood();
    RunKeepsGood(Empty, qs);
    assert Canonical(Run(Empty, qs).db.book, item);
  }

  /** Two histories that end with the same ACTIVE trades of an item end with the same item and results,
      whatever was entered, edited or deleted on the way and in whatever order. */
  lemma {:induction false} HistoriesAgreeOnActiveTrades(
      p: seq<Request>, i: ItemId, q: seq<Request>, j: ItemId)
    requires forall k :: 0 <= k < |p| ==> Sent(p[k])
    requires forall k :: 0 <= k < |q| ==> Sent(q[k])
    requires i < |Run(Empty, p).db.book.items| && j < |Run(Empty, q).db.book.items|
    requires SameDays(Timeline(Run(Empty, p).db.book.trades, i), Timeline(Run(Empty, q).db.book.trades, j))
    ensures var a, b := Run(Empty, p).db.book, Run(Empty, q).db.book;
            var s, u := Timeline(a.trades, i), Timeline(b.trades, j);
            && a.items[i].quantity == b.items[j].quantity && a.items[i].avgPrice == b.items[j].avgPrice
            && |s| == |u|
            && forall k :: 0 <= k < |s| && s[k].side.Sell? ==> s[k].pnl == u[k].pnl && s[k].basis == u[k].basis
  {
    EmptyIsGood();
    RunKeepsGood(Empty, p);
    RunKeepsGood(Empty, q);
    StateFollowsFromActiveTrades(Run(Empty, p).db.book, i, Run(Empty, q).db.book, j);
  }

  // ---- the ledger and the month-ends of any run ----

  lemma {:induction false} RunsFitColumns(qs: seq<Request>)
    requires forall k :: 0 <= k < |qs| ==> Sent(qs[k])
    ensures var db := Run(Empty, qs).db;
            && CentColumns(db) && UniqueIds(db.rows)
            && forall r :: r in db.rows ==> WellFormed(r) && RealDay(r.date)
  {
    EmptyIsGood();
    RunKeepsGood(Empty, qs);
    var w := Run(Empty, qs);
    RowsAreWellFormed(w);
    forall a | 0 <= a < |w.db.accounts| ensures WholeCents(w.db.accounts[a].startBalance) {
      assert FitsColumns(None, Some(w.db.accounts[a].startBalance));
    }
  }

  /** After any run, for every account, view and page size, the walk starts from the balance at the end of the
      view and undoing its last row gives the balance before it. */
  lemma {:induction false} RunsCloseTheLedger(qs: seq<Request>, a: AccountId, month: Option<int>, limit: nat)
    requires (forall k :: 0 <= k < |qs| ==> Sent(qs[k])) && limit >= 1
    requires a < |Run(Empty, qs).db.accounts| && Listing(Run(Empty, qs).db.rows, a, month, None) != []
    ensures var db := Run(Empty, qs).db;
            var start := db.accounts[a].startBalance;
            && UniqueIds(db.rows)
            && var w := Walk(db.rows, a, start, month, None, limit);
               && w != []
               && w[0].balanceAfter == Balance(db.rows, a, start, ViewEnd(month))
               && w[|w| - 1].balanceAfter - w[|w| - 1].signed == BalanceBefore(db.rows, a, start, month)
  {
    RunsFitColumns(qs);
    var db := Run(Empty, qs).db;
    WalkCloses(db.rows, a, db.accounts[a].startBalance, month, limit);
  }

  /** After any run, consecutive month-ends of a cash account differ by the month, and a month-end is the top
      balance of a non-empty month's ledger. */
  lemma {:induction false} RunsDifferByTheMonth(qs: seq<Request>, a: AccountId, month: int, prices: Prices, limit: nat)
    requires (forall k :: 0 <= k < |qs| ==> Sent(qs[k])) && limit >= 1
    requires a < |Run(Empty, qs).db.accounts| && !Run(Empty, qs).db.accounts[a].kind.Investment?
    ensures var db := Run(Empty, qs).db;
            var was, now := SnapshotOf(db, a, month, prices), SnapshotOf(db, a, month + 1, prices);
            now.balance - was.balance
            == now.income - now.expense - now.fixedExpense
               - Sum(db.rows, SentIn(a, month + 1)) + Sum(db.rows, ReceivedIn(a, month + 1))
               + Sum(db.rows, RevaluedIn(a, month + 1))
    ensures var db := Run(Empty, qs).db;
            && UniqueIds(db.rows)
            && var w := Walk(db.rows, a, db.accounts[a].startBalance, Some(month), None, limit);
               Listing(db.rows, a, Some(month), None) != [] ==>
                 w != [] && w[0].balanceAfter == SnapshotOf(db, a, month, prices).balance
  {
    RunsFitColumns(qs);
    var db := Run(Empty, qs).db;
    MonthEndsDifferByTheMonth(db, a, month, prices);
    if Listing(db.rows, a, Some(month), None) != [] {
      SnapshotTopsTheLedger(db, a, month, prices, limit);
    }
  }
}
