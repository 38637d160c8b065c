/** Storing a month and reading it back on the wealth page: what the cash loses, and what a month adds up to. */
module WealthLaws {
  import opened Money
  import opened Sums
  import opened Tables
  import opened Calendar
  import opened Holdings
  import opened Balances
  import opened Database
  import opened Snapshots
  import opened SnapshotLaws
  import opened Wealth

  function StoredValue(h: History): real { h.valuation }

  // ---- the lossy round trip of one account ----

  lemma {:induction false} RoundedTotal(hs: seq<History>, rows: seq<HoldingRow>, value: HoldingRow -> real)
    requires |hs| == |rows| && forall i :: 0 <= i < |hs| ==> hs[i].valuation == RoundHalfUp(value(rows[i]))
    ensures Abs(Sum(hs, StoredValue) - Sum(rows, value)) <= HalfCents(|hs| as real)
  {
    if hs != [] {
      var n := |hs| - 1;
      RoundedTotal(hs[..n], rows[..n], value);
      ErrorsAdd(Sum(hs[..n], StoredValue), Sum(rows[..n], value), n as real, hs[n].valuation, value(rows[n]), 1.0);
    }
  }

  /** Taking the stored valuations off the stored balance leaves the month-end cash, to half a cent per
      stored row; before the columns round, it leaves exactly that. */
  lemma BalanceLessHoldingsIsCash(db: Db, a: AccountId, month: int, prices: Prices)
    requires a < |db.accounts| && db.accounts[a].kind.Investment?
    ensures var cash := CashOf(db, a, Some(MonthEnd(month)));
            var stored := HistoriesOf(db, a, month, prices);
            && MonthBalance(db, a, month, prices)
               - Sum(MonthHoldings(db, a, month), ValuationAt(db.book, month, prices)) == cash
            && Abs(SnapshotOf(db, a, month, prices).balance - Sum(stored, StoredValue) - cash)
               <= HalfCents(|stored| as real + 1.0)
  {
    var stored, rows := HistoriesOf(db, a, month, prices), MonthHoldings(db, a, month);
    var value := ValuationAt(db.book, month, prices);
    RoundedTotal(stored, rows, value);
    BoundsAdd(
      SnapshotOf(db, a, month, prices).balance, MonthBalance(db, a, month, prices), Sum(stored, StoredValue),
      Sum(rows, value), |stored| as real);
  }

  lemma BoundsAdd(x: real, y: real, u: real, v: real, n: real)
    requires Abs(x - y) <= HALF_CENT && Abs(u - v) <= HalfCents(n)
    ensures Abs(x - u - (y - v)) <= HalfCents(n + 1.0)
  {
  }

  // ---- the rows the page reads ----

  predicate InRange(month: int, from: int, to: int) {
    from <= month <= to
  }

  /** The household's ACTIVE snapshots of a range of months. */
  function SnapshotsIn(db: Db, s: seq<Snapshot>, h: HouseholdId, from: int, to: int): seq<Snapshot> {
    if s == [] then []
    else
      var x, rest := s[|s| - 1], SnapshotsIn(db, s[..|s| - 1], h, from, to);
      if x.active && InHousehold(db, x.account, h) && InRange(x.month, from, to) then rest + [x] else rest
  }

  /** The household's ACTIVE histories of a range of months. */
  function HistoriesIn(s: seq<History>, h: HouseholdId, from: int, to: int): seq<History> {
    if s == [] then []
    else
      var x, rest := s[|s| - 1], HistoriesIn(s[..|s| - 1], h, from, to);
      if x.active && x.household == h && InRange(x.month, from, to) then rest + [x] else rest
  }

  lemma {:induction false} SnapsInRange(
      db: Db, s: seq<Snapshot>, h: HouseholdId, from: int, to: int, a: AccountId, m: int)
    requires InRange(m, from, to)
    ensures SnapsOf(SnapshotsIn(db, s, h, from, to), a, m) == if InHousehold(db, a, h) then SnapsOf(s, a, m) else []
  {
    if s != [] {
      var n := |s| - 1;
      SnapsInRange(db, s[..n], h, from, to, a, m);
      OneSnap(SnapshotsIn(db, s[..n], h, from, to), s[n], a, m);
      assert s == s[..n] + [s[n]];
      OneSnap(s[..n], s[n], a, m);
    }
  }

  lemma {:induction false} SnapshotsInMembers(db: Db, s: seq<Snapshot>, h: HouseholdId, from: int, to: int)
    ensures forall x :: x in SnapshotsIn(db, s, h, from, to) <==>
              x in s && x.active && InHousehold(db, x.account, h) && InRange(x.month, from, to)
  {
    if s != [] {
      SnapshotsInMembers(db, s[..|s| - 1], h, from, to);
      assert s == s[..|s| - 1] + [s[|s| - 1]];
    }
  }

  lemma {:induction false} HistoriesInMembers(s: seq<History>, h: HouseholdId, from: int, to: int)
    ensures forall x :: x in HistoriesIn(s, h, from, to) <==>
              x in s && x.active && x.household == h && InRange(x.month, from, to)
  {
    if s != [] {
      HistoriesInMembers(s[..|s| - 1], h, from, to);
      assert s == s[..|s| - 1] + [s[|s| - 1]];
    }
  }

  lemma {:induction false} FiledIsStored(s: seq<History>, h: HouseholdId, from: int, to: int, a: AccountId, m: int)
    requires InRange(m, from, to)
    requires forall x :: x in s && x.account == a ==> x.household == h
    ensures Sum(HistoriesIn(s, h, from, to), Filed(m, a)) == Sum(HistsOf(s, a, m), StoredValue)
  {
    if s != [] {
      var n := |s| - 1;
      FiledIsStored(s[..n], h, from, to, a, m);
      SumOneMore(HistoriesIn(s[..n], h, from, to), s[n], Filed(m, a));
      OneHist(s[..n], s[n], a, m);
      assert s == s[..n] + [s[n]];
      SumOneMore(HistsOf(s[..n], a, m), s[n], StoredValue);
    }
  }

  /** Right after the job, the page recovers the month-end cash of every account in every month it wrote, to
      half a cent for each row stored for the account and month. */
  lemma {:induction false} PageRecoversCash(
      db: Db, ar: Archive, households: seq<HouseholdId>, target: int, prices: Prices, a: AccountId, m: int,
      from: int, to: int)
    requires ArchiveSound(db, ar) && Distinct(households) && Visited(db, households, a)
    requires ToSnap(db, db.accounts[a].household, a) && db.accounts[a].kind.Investment?
    requires DueNow(db, ar, db.accounts[a].household, target, m) && InRange(m, from, to)
    ensures var after := RunJob(db, ar, households, target, prices);
            var page := HistoriesIn(after.histories, db.accounts[a].household, from, to);
            && |At(after, a, m).snaps| == 1
            && Abs(Recovered(db.accounts, page, At(after, a, m).snaps[0]) - CashOf(db, a, Some(MonthEnd(m))))
               <= HalfCents(|At(after, a, m).hists| as real + 1.0)
  {
    var after, h := RunJob(db, ar, households, target, prices), db.accounts[a].household;
    JobClosedForm(db, ar, households, target, prices);
    assert At(after, a, m) == AfterJob(db, ar, households, target, prices, a, m) == Recomputed(db, h, a, m, prices);
    forall x | x in after.histories && x.account == a ensures x.household == h {
      assert HistoryFits(db, x);
    }
    FiledIsStored(after.histories, h, from, to, a, m);
    BalanceLessHoldingsIsCash(db, a, m, prices);
  }

  // ---- the slices of a month total its balances ----

  function BalanceIn(m: int): Snapshot -> real {
    (s: Snapshot) => if s.month == m then s.balance else 0.0
  }

  function InvestedIn(accounts: seq<Account>, ss: seq<Snapshot>, m: int): set<AccountId> {
    set s | s in ss && s.month == m && KindOf(accounts, s.account) == Some(Investment) :: s.account
  }

  function FiledOnAny(m: int, ids: set<AccountId>): History -> real {
    (h: History) => if h.month == m && h.account in ids then h.valuation else 0.0
  }

  lemma {:induction false} OnePerAccount(ss: seq<Snapshot>, m: int, x: Snapshot)
    requires x.active && x.month == m && |SnapsOf(ss + [x], x.account, m)| <= 1
    ensures forall s :: s in ss && s.active && s.month == m ==> s.account != x.account
  {
    OneSnap(ss, x, x.account, m);
    SnapsFound(ss, x.account, m);
  }

  lemma {:induction false} RecoveredTotal(accounts: seq<Account>, hs: seq<History>, ss: seq<Snapshot>, m: int)
    requires forall s :: s in ss ==> s.active
    requires forall a :: |SnapsOf(ss, a, m)| <= 1
    ensures Sum(ss, RecoveredParts(accounts, hs, m))
         == Sum(ss, BalanceIn(m)) - Sum(hs, FiledOnAny(m, InvestedIn(accounts, ss, m)))
  {
    if ss == [] {
      SumZero(hs, FiledOnAny(m, InvestedIn(accounts, ss, m)));
    } else {
      var n := |ss| - 1;
      var rest, x := ss[..n], ss[n];
      assert ss == rest + [x];
      forall a ensures |SnapsOf(rest, a, m)| <= 1 {
        OneSnap(rest, x, a, m);
      }
      RecoveredTotal(accounts, hs, rest, m);
      TakeOneMore(accounts, hs, rest, x, m);
    }
  }

  lemma {:induction false} TakeOneMore(
      accounts: seq<Account>, hs: seq<History>, rest: seq<Snapshot>, x: Snapshot, m: int)
    requires x.active && forall s :: s in rest ==> s.active
    requires |SnapsOf(rest + [x], x.account, m)| <= 1
    ensures Sum(hs, FiledOnAny(m, InvestedIn(accounts, rest + [x], m)))
         == Sum(hs, FiledOnAny(m, InvestedIn(accounts, rest, m)))
            + if x.month == m && KindOf(accounts, x.account) == Some(Investment) then Sum(hs, Filed(m, x.account)) else 0.0
  {
    var was, now := InvestedIn(accounts, rest, m), InvestedIn(accounts, rest + [x], m);
    if x.month == m && KindOf(accounts, x.account) == Some(Investment) {
      OnePerAccount(rest, m, x);
      assert x.account !in was;
      assert now == was + {x.account};
      SumPlus(hs, FiledOnAny(m, was), Filed(m, x.account), FiledOnAny(m, now));
    } else {
      assert now == was;
    }
  }

  /** Valuations filed on an account that is not, or no longer, an investment account. */
  function FiledElsewhere(accounts: seq<Account>, m: int): History -> real {
    (h: History) =>
      if h.month == m && KindOf(accounts, h.account) != Some(Investment) then h.valuation else 0.0
  }

  /** Stored holdings and recovered cash together are the stored balances of the month, plus exactly the
      holdings filed on accounts that have since stopped being investment accounts: those count twice. */
  lemma {:induction false} SlicesTotalTheMonth(db: Db, ar: Archive, h: HouseholdId, from: int, to: int, m: int)
    requires ArchiveSound(db, ar) && InRange(m, from, to)
    ensures var ss, hs := SnapshotsIn(db, ar.snapshots, h, from, to), HistoriesIn(ar.histories, h, from, to);
            Sum(hs, FiledIn(m)) + Sum(ss, RecoveredParts(db.accounts, hs, m))
            == Sum(ss, BalanceIn(m)) + Sum(hs, FiledElsewhere(db.accounts, m))
  {
    var ss, hs := SnapshotsIn(db, ar.snapshots, h, from, to), HistoriesIn(ar.histories, h, from, to);
    SnapshotsInMembers(db, ar.snapshots, h, from, to);
    forall a ensures |SnapsOf(ss, a, m)| <= 1 {
      SnapsInRange(db, ar.snapshots, h, from, to, a, m);
      assert MonthSound(ar, a, m);
    }
    RecoveredTotal(db.accounts, hs, ss, m);
    var invested := InvestedIn(db.accounts, ss, m);
    forall x | x in hs && x.month == m
      ensures x.account in invested <==> KindOf(db.accounts, x.account) == Some(Investment)
    {
      HistoriesInMembers(ar.histories, h, from, to);
      BackedInRange(db, ar, h, from, to, x);
    }
    SumPlus(hs, FiledOnAny(m, invested), FiledElsewhere(db.accounts, m), FiledIn(m));
  }

  lemma {:induction false} HistsFound(s: seq<History>, x: History)
    requires x in s && x.active
    ensures HistsOf(s, x.account, x.month) != []
  {
    var n := |s| - 1;
    assert s == s[..n] + [s[n]];
    if x in s[..n] {
      HistsFound(s[..n], x);
    }
  }

  /** Behind an ACTIVE history stands the snapshot of its account and month, and the page reads it. */
  lemma {:induction false} BackedInRange(db: Db, ar: Archive, h: HouseholdId, from: int, to: int, x: History)
    requires ArchiveSound(db, ar) && x in ar.histories && x.active && x.household == h && InRange(x.month, from, to)
    ensures exists s :: s in SnapshotsIn(db, ar.snapshots, h, from, to) && s.account == x.account && s.month == x.month
  {
    HistsFound(ar.histories, x);
    assert HistoryFits(db, x) && MonthSound(ar, x.account, x.month);
    SnapsFound(ar.snapshots, x.account, x.month);
    var s :| s in ar.snapshots && s.active && s.account == x.account && s.month == x.month;
    SnapshotsInMembers(db, ar.snapshots, h, from, to);
    assert s in SnapshotsIn(db, ar.snapshots, h, from, to);
  }
}
