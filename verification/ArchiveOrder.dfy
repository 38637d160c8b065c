/** The archive up to the order of its history rows: the holdings query answers in an open order, and nothing
    the job does or anybody reads depends on it. */
module ArchiveOrder {
  import opened Sums
  import opened Tables
  import opened Database
  import opened Snapshots
  import opened SnapshotLaws

  datatype Unordered = Unordered(snapshots: seq<Snapshot>, histories: multiset<History>)

  function Loose(ar: Archive): Unordered {
    Unordered(ar.snapshots, multiset(ar.histories))
  }

  lemma {:induction false} KeepCounts(s: seq<History>, h: HouseholdId, month: int, x: History)
    ensures multiset(KeepHistories(s, h, month))[x]
         == if x.household == h && x.month == month then 0 else multiset(s)[x]
  {
    if s != [] {
      var n := |s| - 1;
      KeepCounts(s[..n], h, month, x);
      assert s == s[..n] + [s[n]];
      var kept := KeepHistories(s[..n], h, month);
      assert KeepHistories(s, h, month) == if s[n].household == h && s[n].month == month then kept else kept + [s[n]];
    }
  }

  lemma {:induction false} KeepInAnyOrder(s: seq<History>, t: seq<History>, h: HouseholdId, month: int)
    requires multiset(s) == multiset(t)
    ensures multiset(KeepHistories(s, h, month)) == multiset(KeepHistories(t, h, month))
  {
    forall x ensures multiset(KeepHistories(s, h, month))[x] == multiset(KeepHistories(t, h, month))[x] {
      KeepCounts(s, h, month, x);
      KeepCounts(t, h, month, x);
    }
  }

  lemma {:induction false} BuildInAnyOrder(
      db: Db, x: Archive, y: Archive, h: HouseholdId, month: int, prices: Prices, replace: bool)
    requires Loose(x) == Loose(y)
    ensures Loose(BuildAndSave(db, x, h, month, prices, replace))
         == Loose(BuildAndSave(db, y, h, month, prices, replace))
  {
    if replace {
      KeepInAnyOrder(x.histories, y.histories, h, month);
    }
  }

  lemma {:induction false} VisitInAnyOrder(
      db: Db, x: Archive, y: Archive, h: HouseholdId, month: int, floor: int, target: int, prices: Prices)
    requires Loose(x) == Loose(y)
    ensures Loose(VisitMonth(db, x, h, month, floor, target, prices))
         == Loose(VisitMonth(db, y, h, month, floor, target, prices))
  {
    BuildInAnyOrder(db, x, y, h, month, prices, HasMonth(db, x, h, month));
  }

  /** What n turns of the month loop come to, up to order. */
  function Visits(db: Db, x: Archive, h: HouseholdId, floor: int, target: int, prices: Prices, n: nat): Unordered {
    Loose(VisitMonths(db, x, h, floor, target, prices, n))
  }

  lemma {:induction false} VisitsGrow(
      db: Db, x: Archive, h: HouseholdId, floor: int, target: int, prices: Prices, n: nat)
    ensures VisitMonths(db, x, h, floor, target, prices, n + 1)
         == VisitMonth(db, VisitMonths(db, x, h, floor, target, prices, n), h, target - n, floor, target, prices)
  {
  }

  /** One turn of the month loop, up to order. */
  ghost predicate Turned(
    db: Db, h: HouseholdId, month: int, floor: int, target: int, prices: Prices, before: Archive, after: Archive)
  {
    Loose(after) == Loose(VisitMonth(db, before, h, month, floor, target, prices))
  }

  lemma {:induction false} OneMoreVisit(
      db: Db, x: Archive, h: HouseholdId, floor: int, target: int, prices: Prices, n: nat, before: Archive,
      after: Archive)
    requires Loose(before) == Visits(db, x, h, floor, target, prices, n)
    requires after == VisitMonth(db, before, h, target - n, floor, target, prices)
    ensures Loose(after) == Visits(db, x, h, floor, target, prices, n + 1)
  {
    var same := VisitMonths(db, x, h, floor, target, prices, n);
    VisitInAnyOrder(db, before, same, h, target - n, floor, target, prices);
    VisitsGrow(db, x, h, floor, target, prices, n);
  }

  /** A chain of such turns comes to what the month loop does. */
  lemma {:induction false} TurnsAreVisits(
      db: Db, h: HouseholdId, floor: int, target: int, prices: Prices, trace: seq<Archive>)
    requires trace != []
    requires forall k :: 0 <= k < |trace| - 1 ==>
               Turned(db, h, target - k, floor, target, prices, trace[k], trace[k + 1])
    ensures Loose(trace[|trace| - 1]) == Visits(db, trace[0], h, floor, target, prices, |trace| - 1)
  {
    var n := |trace| - 1;
    if n > 0 {
      TurnsAreVisits(db, h, floor, target, prices, trace[..n]);
      LastTurn(db, trace[0], h, floor, target, prices, n - 1, trace[n - 1], trace[n]);
    }
  }

  lemma {:induction false} LastTurn(
      db: Db, x: Archive, h: HouseholdId, floor: int, target: int, prices: Prices, n: nat, before: Archive,
      after: Archive)
    requires Loose(before) == Visits(db, x, h, floor, target, prices, n)
    requires Turned(db, h, target - n, floor, target, prices, before, after)
    ensures Loose(after) == Visits(db, x, h, floor, target, prices, n + 1)
  {
    OneMoreVisit(
      db, x, h, floor, target, prices, n, before, VisitMonth(db, before, h, target - n, floor, target, prices));
  }

  lemma {:induction false} VisitsInAnyOrder(
      db: Db, x: Archive, y: Archive, h: HouseholdId, floor: int, target: int, prices: Prices, n: nat)
    requires Loose(x) == Loose(y)
    ensures Visits(db, x, h, floor, target, prices, n) == Visits(db, y, h, floor, target, prices, n)
  {
    if n > 0 {
      VisitsInAnyOrder(db, x, y, h, floor, target, prices, n - 1);
      SameVisit(db, x, y, h, floor, target, prices, n - 1, VisitMonths(db, x, h, floor, target, prices, n - 1));
    }
  }

  lemma {:induction false} SameVisit(
      db: Db, x: Archive, y: Archive, h: HouseholdId, floor: int, target: int, prices: Prices, n: nat, before: Archive)
    requires Loose(before) == Visits(db, x, h, floor, target, prices, n)
    requires Loose(before) == Visits(db, y, h, floor, target, prices, n)
    ensures Visits(db, x, h, floor, target, prices, n + 1) == Visits(db, y, h, floor, target, prices, n + 1)
  {
    var after := VisitMonth(db, before, h, target - n, floor, target, prices);
    OneMoreVisit(db, x, h, floor, target, prices, n, before, after);
    OneMoreVisit(db, y, h, floor, target, prices, n, before, after);
  }

  lemma {:induction false} HouseholdInAnyOrder(
      db: Db, x: Archive, y: Archive, h: HouseholdId, target: int, prices: Prices)
    requires Loose(x) == Loose(y)
    ensures Loose(VisitHousehold(db, x, h, target, prices)) == Loose(VisitHousehold(db, y, h, target, prices))
  {
    VisitsInAnyOrder(db, x, y, h, Floor(db, x, h, target), target, prices, CATCHUP_MONTHS);
  }

  lemma {:induction false} ReadCounts(s: seq<History>, a: AccountId, m: int, x: History)
    ensures multiset(HistsOf(s, a, m))[x] == if x.active && x.account == a && x.month == m then multiset(s)[x] else 0
  {
    if s != [] {
      var n := |s| - 1;
      ReadCounts(s[..n], a, m, x);
      assert s == s[..n] + [s[n]];
      OneHist(s[..n], s[n], a, m);
    }
  }

  /** Reading an account and month gives the same snapshots, the same histories up to order, and so the same
      totals over them. */
  lemma {:induction false} ReadsTheSame(x: Archive, y: Archive, a: AccountId, m: int, f: History -> real)
    requires Loose(x) == Loose(y)
    ensures At(x, a, m).snaps == At(y, a, m).snaps
    ensures multiset(At(x, a, m).hists) == multiset(At(y, a, m).hists)
    ensures Sum(At(x, a, m).hists, f) == Sum(At(y, a, m).hists, f)
  {
    forall h ensures multiset(At(x, a, m).hists)[h] == multiset(At(y, a, m).hists)[h] {
      ReadCounts(x.histories, a, m, h);
      ReadCounts(y.histories, a, m, h);
    }
    SumInAnyOrder(At(x, a, m).hists, At(y, a, m).hists, f);
  }
}
