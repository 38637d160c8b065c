/** The monthly job as it runs: rows deleted and saved in place, month by month, household by household. */
module SnapshotService {
  import opened Money
  import opened Sums
  import opened Tables
  import opened Calendar
  import opened Portfolio
  import opened Holdings
  import opened Ledger
  import opened Balances
  import opened Database
  import opened Snapshots
  import opened SnapshotValues
  import opened ArchiveOrder

  /** _calc_balance as of a month-end. */
  method CalcBalanceAt(db: Db, a: AccountId, month: int, prices: Prices) returns (balance: real)
    requires a < |db.accounts| && RowsFit(db.book)
    ensures balance == MonthBalance(db, a, month, prices)
  {
    var account := db.accounts[a];
    var asOf := MonthEnd(month);
    var sums := SumForAccount(db.rows, a, Some(asOf));
    balance := CashFlow(account.startBalance, sums);
    if account.kind.Investment? {
      var settled := SettledForAccount(db.book.trades, a, Some(asOf));
      balance := balance - settled.buy + settled.sell;
      var holdings := AsofHoldingsByAccount(db.book.trades, a, asOf);
      var valued := ValueHoldingsAtMonth(db.book, holdings, month, prices);
      var valuation := TotalValuation(db.book, holdings, month, prices, valued);
      MonthHoldingsAnswer(db, a, month);
      HoldingsInAnyOrder(
        db.book.trades, a, asOf, holdings, MonthHoldings(db, a, month), ValuationAt(db.book, month, prices));
      balance := balance + valuation;
    }
  }

  method TotalValuation(
      book: Book, holdings: seq<HoldingRow>, month: int, prices: Prices, valued: map<ItemId, Valued>)
    returns (total: real)
    requires forall i :: 0 <= i < |holdings| ==>
      holdings[i].item in valued && valued[holdings[i].item] == ValueOf(book, holdings[i], month, prices)
    ensures total == Sum(holdings, ValuationAt(book, month, prices))
  {
    total := 0.0;
    for k := 0 to |holdings|
      invariant total == Sum(holdings[..k], ValuationAt(book, month, prices))
    {
      assert holdings[..k + 1][..k] == holdings[..k];
      total := total + valued[holdings[k].item].valuation;
    }
    assert holdings[..|holdings|] == holdings;
  }

  datatype Monthly = Monthly(income: real, expense: real, fixedExpense: real)

  function MonthlyOf(rows: seq<Row>, a: AccountId, month: int): Monthly {
    Monthly(
      Sum(rows, InMonth(a, month, Income)), Sum(rows, InMonth(a, month, Expense)),
      Sum(rows, InMonth(a, month, FixedExpense)))
  }

  function MonthKinds(rows: seq<Row>, a: AccountId, month: int): set<TxType> {
    set r | r in rows && r.active && r.account == a && MonthOf(r.date) == month
            && (r.kind.Income? || r.kind.Expense? || r.kind.FixedExpense?) :: r.kind
  }

  lemma {:induction false} NoSuchKind(rows: seq<Row>, a: AccountId, month: int, kind: TxType)
    requires kind.Income? || kind.Expense? || kind.FixedExpense?
    ensures kind !in MonthKinds(rows, a, month) ==> Sum(rows, InMonth(a, month, kind)) == 0.0
  {
    if kind !in MonthKinds(rows, a, month) {
      SumZero(rows, InMonth(a, month, kind));
    }
  }

  /** sum_by_account_for_month: grouped by kind. */
  method SumByAccountForMonth(rows: seq<Row>, a: AccountId, month: int) returns (s: Monthly)
    ensures s == MonthlyOf(rows, a, month)
  {
    var left := MonthKinds(rows, a, month);
    NoSuchKind(rows, a, month, Income);
    NoSuchKind(rows, a, month, Expense);
    NoSuchKind(rows, a, month, FixedExpense);
    s := Monthly(0.0, 0.0, 0.0);
    ghost var all := MonthlyOf(rows, a, month);
    while left != {}
      invariant left <= MonthKinds(rows, a, month)
      invariant s.income == if Income in left then 0.0 else all.income
      invariant s.expense == if Expense in left then 0.0 else all.expense
      invariant s.fixedExpense == if FixedExpense in left then 0.0 else all.fixedExpense
      decreases left
    {
      var kind :| kind in left;
      var total := Sum(rows, InMonth(a, month, kind));
      if kind.Income? {
        s := s.(income := s.income + total);
      } else if kind.Expense? {
        s := s.(expense := s.expense + total);
      } else {
        s := s.(fixedExpense := s.fixedExpense + total);
      }
      left := left - {kind};
    }
  }

  // ---- the holdings of a household, account by account ----

  datatype Held = Held(account: AccountId, rows: seq<HoldingRow>)

  predicate Invests(db: Db, h: HouseholdId, a: AccountId) {
    ToSnap(db, h, a) && db.accounts[a].kind.Investment?
  }

  /** What the queries answered for the investment accounts among the first n, account by account. */
  ghost predicate Answered(db: Db, h: HouseholdId, month: int, n: nat, held: seq<Held>)
    requires n <= |db.accounts|
  {
    if n == 0 then held == []
    else if Invests(db, h, n - 1) then
      && held != [] && held[|held| - 1].account == n - 1
      && HoldingsAt(db.book.trades, n - 1, MonthEnd(month), held[|held| - 1].rows)
      && Answered(db, h, month, n - 1, held[..|held| - 1])
    else Answered(db, h, month, n - 1, held)
  }

  function AllRows(held: seq<Held>): seq<HoldingRow> {
    if held == [] then [] else AllRows(held[..|held| - 1]) + held[|held| - 1].rows
  }

  function HistoriesFor(db: Db, a: AccountId, rows: seq<HoldingRow>, month: int, prices: Prices): seq<History>
    requires a < |db.accounts|
  {
    seq(|rows|, i requires 0 <= i < |rows| => HistoryOf(db, a, rows[i], month, prices))
  }

  lemma {:induction false} AllRowsGrow(held: seq<Held>, x: Held)
    ensures AllRows(held + [x]) == AllRows(held) + x.rows
  {
    assert (held + [x])[..|held|] == held;
  }

  ghost predicate HeldBefore(b: Book, rows: seq<HoldingRow>, n: nat) {
    forall i :: 0 <= i < |rows| ==> rows[i].item < |b.items| && b.items[rows[i].item].account < n
  }

  ghost predicate HeldOnce(b: Book, held: seq<Held>, n: nat) {
    OncePerItem(AllRows(held)) && HeldBefore(b, AllRows(held), n)
  }

  /** No item is held on two accounts, so one lookup table serves the whole household. */
  lemma {:induction false} HouseholdHoldsOnce(db: Db, h: HouseholdId, month: int, n: nat, held: seq<Held>)
    requires RowsFit(db.book) && n <= |db.accounts| && Answered(db, h, month, n, held)
    ensures HeldOnce(db.book, held, n)
  {
    if n > 0 {
      var rest := AnsweredBefore(db, h, month, n - 1, held);
      HouseholdHoldsOnce(db, h, month, n - 1, rest);
      OneAccountHoldsMore(db, h, month, n - 1, held, rest);
    }
  }

  lemma {:induction false} OneAccountHoldsMore(
      db: Db, h: HouseholdId, month: int, n: nat, held: seq<Held>, rest: seq<Held>)
    requires RowsFit(db.book) && n < |db.accounts| && Answered(db, h, month, n + 1, held)
    requires if Invests(db, h, n) then held != [] && rest == held[..|held| - 1] else rest == held
    requires HeldOnce(db.book, rest, n)
    ensures HeldOnce(db.book, held, n + 1)
  {
    if Invests(db, h, n) {
      AnswerIsHeld(db, n, month, held[|held| - 1].rows);
      OneMoreHolder(db.book, rest, held[|held| - 1]);
      assert held == rest + [held[|held| - 1]];
    }
  }

  lemma {:induction false} OneMoreHolder(b: Book, held: seq<Held>, x: Held)
    requires OncePerItem(AllRows(held)) && OncePerItem(x.rows)
    requires HeldBefore(b, AllRows(held), x.account) && HeldOnly(b, x.rows, x.account)
    ensures OncePerItem(AllRows(held + [x])) && HeldBefore(b, AllRows(held + [x]), x.account + 1)
  {
    AllRowsGrow(held, x);
  }

  lemma {:induction false} RowsAreMembers(held: seq<Held>, k: nat)
    requires k < |held|
    ensures forall x :: x in held[k].rows ==> x in AllRows(held)
  {
    var n := |held| - 1;
    if k < n {
      RowsAreMembers(held[..n], k);
    }
  }

  function HistoriesOfHeld(db: Db, held: seq<Held>, month: int, prices: Prices): seq<History>
    requires forall i :: 0 <= i < |held| ==> held[i].account < |db.accounts|
  {
    if held == [] then []
    else
      var n := |held| - 1;
      HistoriesOfHeld(db, held[..n], month, prices) + HistoriesFor(db, held[n].account, held[n].rows, month, prices)
  }

  lemma {:induction false} AnsweredFits(db: Db, h: HouseholdId, month: int, n: nat, held: seq<Held>)
    requires n <= |db.accounts| && Answered(db, h, month, n, held)
    ensures forall i :: 0 <= i < |held| ==> held[i].account < n
  {
    if n > 0 {
      AnsweredFits(db, h, month, n - 1, if Invests(db, h, n - 1) then held[..|held| - 1] else held);
    }
  }

  lemma {:induction false} HistoriesGrow(db: Db, held: seq<Held>, x: Held, month: int, prices: Prices)
    requires x.account < |db.accounts| && forall i :: 0 <= i < |held| ==> held[i].account < |db.accounts|
    ensures HistoriesOfHeld(db, held + [x], month, prices)
         == HistoriesOfHeld(db, held, month, prices) + HistoriesFor(db, x.account, x.rows, month, prices)
  {
    assert (held + [x])[..|held|] == held;
  }

  /** Holdings in another order give the same histories in another order. */
  lemma {:induction false} HistoriesInAnyOrder(
      db: Db, a: AccountId, s: seq<HoldingRow>, t: seq<HoldingRow>, month: int, prices: Prices)
    requires a < |db.accounts| && multiset(s) == multiset(t)
    ensures multiset(HistoriesFor(db, a, s, month, prices)) == multiset(HistoriesFor(db, a, t, month, prices))
  {
    if s == [] {
      assert |multiset(t)| == |t|;
    } else {
      var n := |s| - 1;
      var k := SameRest(s, t);
      var rest := t[..k] + t[k + 1..];
      HistoriesInAnyOrder(db, a, s[..n], rest, month, prices);
      OneHistoryLess(db, a, s, n, month, prices);
      OneHistoryLess(db, a, t, k, month, prices);
      assert s[..n] + s[n + 1..] == s[..n];
    }
  }

  lemma {:induction false} OneHistoryLess(
      db: Db, a: AccountId, s: seq<HoldingRow>, k: nat, month: int, prices: Prices)
    requires a < |db.accounts| && k < |s|
    ensures multiset(HistoriesFor(db, a, s, month, prices))
         == multiset(HistoriesFor(db, a, s[..k] + s[k + 1..], month, prices))
            + multiset{HistoryOf(db, a, s[k], month, prices)}
  {
    var hs := HistoriesFor(db, a, s, month, prices);
    WithoutOne(hs, k);
    assert hs[..k] + hs[k + 1..] == HistoriesFor(db, a, s[..k] + s[k + 1..], month, prices);
  }

  /** The histories built from the answers are those of the specification, up to order. */
  ghost predicate HistoriesMatch(db: Db, h: HouseholdId, month: int, prices: Prices, n: nat, held: seq<Held>)
    requires n <= |db.accounts|
  {
    && (forall i :: 0 <= i < |held| ==> held[i].account < |db.accounts|)
    && multiset(HistoriesOfHeld(db, held, month, prices)) == multiset(NewHistories(db, h, month, prices, n))
  }

  /** Through the queries, in whatever order they answer, or through the specification: the same histories. */
  lemma {:induction false} AnsweredHistories(
      db: Db, h: HouseholdId, month: int, prices: Prices, n: nat, held: seq<Held>)
    requires RowsFit(db.book) && n <= |db.accounts| && Answered(db, h, month, n, held)
    ensures HistoriesMatch(db, h, month, prices, n, held)
  {
    if n > 0 {
      var rest := AnsweredBefore(db, h, month, n - 1, held);
      AnsweredHistories(db, h, month, prices, n - 1, rest);
      OneAccountMore(db, h, month, prices, n - 1, held, rest);
    }
  }

  lemma {:induction false} AnsweredBefore(db: Db, h: HouseholdId, month: int, n: nat, held: seq<Held>)
    returns (rest: seq<Held>)
    requires n < |db.accounts| && Answered(db, h, month, n + 1, held)
    ensures Answered(db, h, month, n, rest)
    ensures if Invests(db, h, n) then held != [] && rest == held[..|held| - 1] else rest == held
  {
    rest := if Invests(db, h, n) then held[..|held| - 1] else held;
  }

  lemma {:induction false} OneAccountMore(
      db: Db, h: HouseholdId, month: int, prices: Prices, n: nat, held: seq<Held>, rest: seq<Held>)
    requires RowsFit(db.book) && n < |db.accounts| && Answered(db, h, month, n + 1, held)
    requires if Invests(db, h, n) then held != [] && rest == held[..|held| - 1] else rest == held
    requires HistoriesMatch(db, h, month, prices, n, rest)
    ensures HistoriesMatch(db, h, month, prices, n + 1, held)
  {
    if Invests(db, h, n) {
      OneMoreAnswer(db, h, month, prices, n, rest, held[|held| - 1]);
      assert held == rest + [held[|held| - 1]];
    } else {
      NothingInvested(db, h, month, prices, n);
    }
  }

  lemma {:induction false} NothingInvested(db: Db, h: HouseholdId, month: int, prices: Prices, n: nat)
    requires n < |db.accounts| && !Invests(db, h, n)
    ensures NewHistories(db, h, month, prices, n + 1) == NewHistories(db, h, month, prices, n)
  {
    var rest := NewHistories(db, h, month, prices, n);
    assert rest + [] == rest;
  }

  lemma {:induction false} OneMoreAnswer(
      db: Db, h: HouseholdId, month: int, prices: Prices, n: nat, rest: seq<Held>, x: Held)
    requires RowsFit(db.book) && n < |db.accounts| && Invests(db, h, n) && x.account == n
    requires HoldingsAt(db.book.trades, n, MonthEnd(month), x.rows)
    requires HistoriesMatch(db, h, month, prices, n, rest)
    ensures HistoriesMatch(db, h, month, prices, n + 1, rest + [x])
  {
    var own := MonthHoldings(db, n, month);
    AnswerIsHeld(db, n, month, x.rows);
    HistoriesInAnyOrder(db, n, x.rows, own, month, prices);
    HistoriesGrow(db, rest, x, month, prices);
    assert HistoriesFor(db, n, own, month, prices) == HistoriesOf(db, n, month, prices);
  }

  ghost predicate ValuesOf(book: Book, rows: seq<HoldingRow>, month: int, prices: Prices, valued: map<ItemId, Valued>) {
    forall i :: 0 <= i < |rows| ==>
      rows[i].item in valued && valued[rows[i].item] == ValueOf(book, rows[i], month, prices)
  }

  lemma {:induction false} NothingToSnap(db: Db, h: HouseholdId, month: int, prices: Prices, n: nat)
    requires n <= |db.accounts| && Open(db, h, n) == []
    ensures NewSnapshots(db, h, month, prices, n) == [] && NewHistories(db, h, month, prices, n) == []
  {
    if n > 0 {
      NothingToSnap(db, h, month, prices, n - 1);
    }
  }

  lemma {:induction false} OpenFits(db: Db, h: HouseholdId, n: nat)
    requires n <= |db.accounts|
    ensures forall i :: 0 <= i < |Open(db, h, n)| ==> Open(db, h, n)[i] < n
  {
    if n > 0 {
      OpenFits(db, h, n - 1);
    }
  }

  lemma SnapshotsStep(db: Db, h: HouseholdId, month: int, prices: Prices, n: nat, rest: seq<AccountId>)
    requires n < |db.accounts| && rest == Open(db, h, n)
    requires SnapshotsFor(db, rest, month, prices) == NewSnapshots(db, h, month, prices, n)
    ensures SnapshotsFor(db, Open(db, h, n + 1), month, prices) == NewSnapshots(db, h, month, prices, n + 1)
  {
    if ToSnap(db, h, n) {
      assert Open(db, h, n + 1) == rest + [n];
      SnapshotsGrow(db, rest, n, month, prices);
    } else {
      assert Open(db, h, n + 1) == rest;
    }
  }

  lemma {:induction false} SnapshotsAgree(db: Db, h: HouseholdId, month: int, prices: Prices, n: nat)
    requires n <= |db.accounts|
    ensures SnapshotsFor(db, Open(db, h, n), month, prices) == NewSnapshots(db, h, month, prices, n)
  {
    if n > 0 {
      SnapshotsAgree(db, h, month, prices, n - 1);
      SnapshotsStep(db, h, month, prices, n - 1, Open(db, h, n - 1));
    }
  }

  function SnapshotsFor(db: Db, accounts: seq<AccountId>, month: int, prices: Prices): seq<Snapshot> {
    if accounts == [] then []
    else
      var n := |accounts| - 1;
      SnapshotsFor(db, accounts[..n], month, prices)
      + if accounts[n] < |db.accounts| then [SnapshotOf(db, accounts[n], month, prices)] else []
  }

  lemma {:induction false} SnapshotsGrow(db: Db, accounts: seq<AccountId>, a: AccountId, month: int, prices: Prices)
    requires a < |db.accounts|
    ensures SnapshotsFor(db, accounts + [a], month, prices)
         == SnapshotsFor(db, accounts, month, prices) + [SnapshotOf(db, a, month, prices)]
  {
    assert (accounts + [a])[..|accounts|] == accounts;
  }

  class ArchiveService {
    var snapshots: seq<Snapshot>
    var histories: seq<History>

    constructor ()
      ensures Contents() == Archive([], [])
    {
      snapshots, histories := [], [];
    }

    function Contents(): Archive
      reads this
    {
      Archive(snapshots, histories)
    }

    /** snapshot_household_portfolio: what the holdings queries answer, in whatever order. */
    method SnapshotHouseholdPortfolio(db: Db, h: HouseholdId, month: int, prices: Prices, replace: bool)
      requires RowsFit(db.book)
      modifies this`histories
      ensures multiset(histories)
           == multiset(if replace then KeepHistories(old(histories), h, month) else old(histories))
              + multiset(NewHistories(db, h, month, prices, |db.accounts|))
    {
      if replace {
        histories := KeepHistories(histories, h, month);
      }
      var perAccount, all := HouseholdHoldings(db, h, month);
      var valued := ValueHoldingsAtMonth(db.book, all, month, prices);
      HouseholdHoldsOnce(db, h, month, |db.accounts|, perAccount);
      AnsweredFits(db, h, month, |db.accounts|, perAccount);
      var added := BuildHistories(db, perAccount, month, prices, valued);
      AnsweredHistories(db, h, month, prices, |db.accounts|, perAccount);
      histories := histories + added;
    }

    method HouseholdHoldings(db: Db, h: HouseholdId, month: int) returns (perAccount: seq<Held>, all: seq<HoldingRow>)
      ensures Answered(db, h, month, |db.accounts|, perAccount) && all == AllRows(perAccount)
    {
      perAccount, all := [], [];
      for a := 0 to |db.accounts|
        invariant Answered(db, h, month, a, perAccount)
        invariant all == AllRows(perAccount)
      {
        if Invests(db, h, a) {
          var holdings := AsofHoldingsByAccount(db.book.trades, a, MonthEnd(month));
          AllRowsGrow(perAccount, Held(a, holdings));
          assert (perAccount + [Held(a, holdings)])[..|perAccount|] == perAccount;
          perAccount := perAccount + [Held(a, holdings)];
          all := all + holdings;
        }
      }
    }

    method BuildHistories(db: Db, held: seq<Held>, month: int, prices: Prices, valued: map<ItemId, Valued>)
      returns (built: seq<History>)
      requires forall i :: 0 <= i < |held| ==> held[i].account < |db.accounts|
      requires ValuesOf(db.book, AllRows(held), month, prices, valued)
      ensures built == HistoriesOfHeld(db, held, month, prices)
    {
      built := [];
      for k := 0 to |held|
        invariant built == HistoriesOfHeld(db, held[..k], month, prices)
      {
        RowsAreMembers(held, k);
        var own := BuildAccountHistories(db, held[k], AllRows(held), month, prices, valued);
        assert held[..k + 1][..k] == held[..k];
        built := built + own;
      }
      assert held[..|held|] == held;
    }

    method BuildAccountHistories(
        db: Db, held: Held, ghost all: seq<HoldingRow>, month: int, prices: Prices, valued: map<ItemId, Valued>)
      returns (built: seq<History>)
      requires held.account < |db.accounts|
      requires ValuesOf(db.book, all, month, prices, valued) && forall x :: x in held.rows ==> x in all
      ensures built == HistoriesFor(db, held.account, held.rows, month, prices)
    {
      built := [];
      for i := 0 to |held.rows|
        invariant |built| == i
        invariant forall j :: 0 <= j < i ==> built[j] == HistoryOf(db, held.account, held.rows[j], month, prices)
      {
        var row := held.rows[i];
        assert row in all;
        ghost var k :| 0 <= k < |all| && all[k] == row;
        assert valued[all[k].item] == ValueOf(db.book, all[k], month, prices);
        var v := valued[row.item];
        built := built + [History(
          db.accounts[held.account].household, held.account, row.item, month, row.quantity, row.avgCost,
          RoundHalfUp(v.currentPrice), row.cost, RoundHalfUp(v.valuation), true)];
      }
    }

    method BuildSnapshots(db: Db, accounts: seq<AccountId>, month: int, prices: Prices) returns (saved: seq<Snapshot>)
      requires RowsFit(db.book) && forall i :: 0 <= i < |accounts| ==> accounts[i] < |db.accounts|
      ensures saved == SnapshotsFor(db, accounts, month, prices)
    {
      saved := [];
      for i := 0 to |accounts|
        invariant saved == SnapshotsFor(db, accounts[..i], month, prices)
      {
        var row := BuildSnapshot(db, accounts[i], month, prices);
        assert accounts[..i + 1] == accounts[..i] + [accounts[i]];
        SnapshotsGrow(db, accounts[..i], accounts[i], month, prices);
        saved := saved + [row];
      }
      assert accounts[..|accounts|] == accounts;
    }

    method BuildSnapshot(db: Db, a: AccountId, month: int, prices: Prices) returns (row: Snapshot)
      requires RowsFit(db.book) && a < |db.accounts|
      ensures row == SnapshotOf(db, a, month, prices)
    {
      var balance := CalcBalanceAt(db, a, month, prices);
      var monthly := SumByAccountForMonth(db.rows, a, month);
      row := Snapshot(
        a, month, RoundHalfUp(balance), RoundHalfUp(monthly.income), RoundHalfUp(monthly.expense),
        RoundHalfUp(monthly.fixedExpense), true);
    }

    /** _build_and_save_snapshot */
    method BuildAndSaveSnapshot(db: Db, h: HouseholdId, month: int, prices: Prices, replace: bool)
      requires RowsFit(db.book)
      modifies this
      ensures Loose(Contents()) == Loose(BuildAndSave(db, old(Contents()), h, month, prices, replace))
    {
      if replace {
        snapshots := KeepSnapshots(db, snapshots, h, month);
      }
      var accounts := OpenAccounts(db, h);
      if accounts == [] {
        NothingToSnap(db, h, month, prices, |db.accounts|);
        assert snapshots + [] == snapshots && histories + [] == histories;
        if replace {
          SnapshotHouseholdPortfolio(db, h, month, prices, true);
        }
      } else {
        OpenFits(db, h, |db.accounts|);
        var saved := BuildSnapshots(db, accounts, month, prices);
        SnapshotsAgree(db, h, month, prices, |db.accounts|);
        snapshots := snapshots + saved;
        SnapshotHouseholdPortfolio(db, h, month, prices, replace);
      }
    }

    /** create_monthly_snapshots_for_all */
    method CreateMonthlySnapshotsForAll(db: Db, households: seq<HouseholdId>, target: int, prices: Prices)
      requires RowsFit(db.book)
      modifies this
      ensures Loose(Contents()) == Loose(RunJob(db, old(Contents()), households, target, prices))
    {
      for k := 0 to |households|
        invariant Loose(Contents()) == Loose(RunJob(db, old(Contents()), households[..k], target, prices))
      {
        assert households[..k + 1][..k] == households[..k];
        HouseholdInAnyOrder(
          db, Contents(), RunJob(db, old(Contents()), households[..k], target, prices), households[k], target, prices);
        CatchUp(db, households[k], target, prices);
      }
      assert households[..|households|] == households;
    }

    method CatchUp(db: Db, h: HouseholdId, target: int, prices: Prices)
      requires RowsFit(db.book)
      modifies this
      ensures Loose(Contents()) == Loose(VisitHousehold(db, old(Contents()), h, target, prices))
    {
      CatchUpMonths(db, h, Floor(db, Contents(), h, target), target, prices, CATCHUP_MONTHS);
    }

    /** The last n months of one household, newest first. */
    method CatchUpMonths(db: Db, h: HouseholdId, floor: int, target: int, prices: Prices, n: nat)
      requires RowsFit(db.book)
      modifies this
      ensures Loose(Contents()) == Visits(db, old(Contents()), h, floor, target, prices, n)
    {
      ghost var trace := [Contents()];
      for i := 0 to n
        invariant |trace| == i + 1 && trace[0] == old(Contents()) && trace[i] == Contents()
        invariant forall k :: 0 <= k < i ==> Turned(db, h, target - k, floor, target, prices, trace[k], trace[k + 1])
      {
        CatchUpMonth(db, h, target - i, floor, target, prices);
        trace := trace + [Contents()];
      }
      TurnsAreVisits(db, h, floor, target, prices, trace);
    }

    method CatchUpMonth(db: Db, h: HouseholdId, month: int, floor: int, target: int, prices: Prices)
      requires RowsFit(db.book)
      modifies this
      ensures Turned(db, h, month, floor, target, prices, old(Contents()), Contents())
    {
      if month < floor {
        return;
      }
      var stored := HasMonth(db, Contents(), h, month);
      if stored && month < target - 1 {
        return;
      }
      BuildAndSaveSnapshot(db, h, month, prices, stored);
    }

    /** create_target_month_snapshot */
    method CreateTargetMonthSnapshot(db: Db, h: HouseholdId, target: int, prices: Prices)
      requires RowsFit(db.book)
      modifies this
      ensures Loose(Contents()) == Loose(RunManual(db, old(Contents()), h, target, prices))
    {
      BuildAndSaveSnapshot(db, h, target, prices, HasMonth(db, Contents(), h, target));
    }
  }
}
