/** What the monthly job leaves behind, whatever it found: the archive read account by account and month by
    month has a closed form, and the promises of the job follow from it. */
module SnapshotLaws {
  import opened Tables
  import opened Database
  import opened Snapshots

  /** The ACTIVE rows of one account and month. */
  datatype Stored = Stored(snaps: seq<Snapshot>, hists: seq<History>)

  function At(ar: Archive, a: AccountId, month: int): Stored {
    Stored(SnapsOf(ar.snapshots, a, month), HistsOf(ar.histories, a, month))
  }

  /** What the month is worth to the account now. */
  function Recomputed(db: Db, h: HouseholdId, a: AccountId, month: int, prices: Prices): Stored {
    if ToSnap(db, h, a)
    then Stored([SnapshotOf(db, a, month, prices)], HistoriesOf(db, a, month, prices))
    else Stored([], [])
  }

  ghost predicate SnapshotFits(db: Db, x: Snapshot) {
    x.account < |db.accounts|
  }

  ghost predicate HistoryFits(db: Db, x: History) {
    InHousehold(db, x.account, x.household)
  }

  /** At most one ACTIVE snapshot per account and month, and no ACTIVE history without one. */
  ghost predicate MonthSound(ar: Archive, a: AccountId, month: int) {
    |At(ar, a, month).snaps| <= 1 && (At(ar, a, month).hists != [] ==> At(ar, a, month).snaps != [])
  }

  ghost predicate ArchiveSound(db: Db, ar: Archive) {
    && (forall x :: x in ar.snapshots ==> SnapshotFits(db, x))
    && (forall x :: x in ar.histories ==> HistoryFits(db, x))
    && (forall a: AccountId, m: int :: MonthSound(ar, a, m))
  }

  // ---- reading what one rebuilt month stores ----

  lemma {:induction false} SnapsConcat(s: seq<Snapshot>, t: seq<Snapshot>, a: AccountId, m: int)
    ensures SnapsOf(s + t, a, m) == SnapsOf(s, a, m) + SnapsOf(t, a, m)
  {
    if t == [] {
      assert s + t == s;
    } else {
      SnapsConcat(s, t[..|t| - 1], a, m);
      assert (s + t)[..|s + t| - 1] == s + t[..|t| - 1];
    }
  }

  lemma {:induction false} HistsConcat(s: seq<History>, t: seq<History>, a: AccountId, m: int)
    ensures HistsOf(s + t, a, m) == HistsOf(s, a, m) + HistsOf(t, a, m)
  {
    if t == [] {
      assert s + t == s;
    } else {
      HistsConcat(s, t[..|t| - 1], a, m);
      assert (s + t)[..|s + t| - 1] == s + t[..|t| - 1];
    }
  }

  lemma {:induction false} KeptSnapsFit(db: Db, s: seq<Snapshot>, h: HouseholdId, month: int)
    requires forall x :: x in s ==> SnapshotFits(db, x)
    ensures forall x :: x in KeepSnapshots(db, s, h, month) ==> SnapshotFits(db, x)
  {
    if s != [] {
      KeptSnapsFit(db, s[..|s| - 1], h, month);
    }
  }

  lemma {:induction false} KeptHistsFit(db: Db, s: seq<History>, h: HouseholdId, month: int)
    requires forall x :: x in s ==> HistoryFits(db, x)
    ensures forall x :: x in KeepHistories(s, h, month) ==> HistoryFits(db, x)
  {
    if s != [] {
      KeptHistsFit(db, s[..|s| - 1], h, month);
    }
  }

  lemma {:induction false} OneSnap(s: seq<Snapshot>, x: Snapshot, a: AccountId, m: int)
    ensures SnapsOf(s + [x], a, m)
         == if x.active && x.account == a && x.month == m then SnapsOf(s, a, m) + [x] else SnapsOf(s, a, m)
  {
    assert (s + [x])[..|s|] == s;
  }

  lemma {:induction false} OneHist(s: seq<History>, x: History, a: AccountId, m: int)
    ensures HistsOf(s + [x], a, m)
         == if x.active && x.account == a && x.month == m then HistsOf(s, a, m) + [x] else HistsOf(s, a, m)
  {
    assert (s + [x])[..|s|] == s;
  }

  lemma {:induction false} KeptSnaps(db: Db, s: seq<Snapshot>, h: HouseholdId, month: int, a: AccountId, m: int)
    ensures SnapsOf(KeepSnapshots(db, s, h, month), a, m)
         == if m == month && InHousehold(db, a, h) then [] else SnapsOf(s, a, m)
  {
    if s != [] {
      var n := |s| - 1;
      KeptSnaps(db, s[..n], h, month, a, m);
      var kept := KeepSnapshots(db, s[..n], h, month);
      OneSnap(kept, s[n], a, m);
      assert KeepSnapshots(db, s, h, month)
          == if InHousehold(db, s[n].account, h) && s[n].month == month then kept else kept + [s[n]];
    }
  }

  lemma {:induction false} KeptHists(db: Db, s: seq<History>, h: HouseholdId, month: int, a: AccountId, m: int)
    requires forall x :: x in s ==> HistoryFits(db, x)
    ensures HistsOf(KeepHistories(s, h, month), a, m)
         == if m == month && InHousehold(db, a, h) then [] else HistsOf(s, a, m)
  {
    if s != [] {
      var n := |s| - 1;
      KeptHists(db, s[..n], h, month, a, m);
      var kept := KeepHistories(s[..n], h, month);
      OneHist(kept, s[n], a, m);
      assert KeepHistories(s, h, month)
          == if s[n].household == h && s[n].month == month then kept else kept + [s[n]];
      assert HistoryFits(db, s[n]);
    }
  }

  lemma SnapsStep(db: Db, h: HouseholdId, month: int, prices: Prices, n: nat, a: AccountId, m: int, rest: seq<Snapshot>)
    requires n < |db.accounts| && rest == NewSnapshots(db, h, month, prices, n)
    ensures SnapsOf(NewSnapshots(db, h, month, prices, n + 1), a, m)
         == SnapsOf(rest, a, m)
            + if ToSnap(db, h, n) && a == n && m == month then [SnapshotOf(db, n, month, prices)] else []
  {
    if ToSnap(db, h, n) {
      OneSnap(rest, SnapshotOf(db, n, month, prices), a, m);
    } else {
      assert NewSnapshots(db, h, month, prices, n + 1) == rest;
    }
  }

  lemma {:induction false} NewSnaps(db: Db, h: HouseholdId, month: int, prices: Prices, n: nat, a: AccountId, m: int)
    requires n <= |db.accounts|
    ensures SnapsOf(NewSnapshots(db, h, month, prices, n), a, m)
         == if m == month && a < n && ToSnap(db, h, a) then [SnapshotOf(db, a, month, prices)] else []
  {
    if n > 0 {
      NewSnaps(db, h, month, prices, n - 1, a, m);
      SnapsStep(db, h, month, prices, n - 1, a, m, NewSnapshots(db, h, month, prices, n - 1));
    }
  }

  lemma {:induction false} OneOwner(s: seq<History>, owner: AccountId, month: int, a: AccountId, m: int)
    requires OwnedBy(s, owner, month)
    ensures HistsOf(s, a, m) == if a == owner && m == month then s else []
  {
    if s != [] {
      OneOwner(s[..|s| - 1], owner, month, a, m);
      assert s == s[..|s| - 1] + [s[|s| - 1]];
    }
  }

  ghost predicate OwnedBy(s: seq<History>, owner: AccountId, month: int) {
    forall i :: 0 <= i < |s| ==> s[i].active && s[i].account == owner && s[i].month == month
  }

  lemma OwnHistories(db: Db, a: AccountId, month: int, prices: Prices)
    requires a < |db.accounts|
    ensures OwnedBy(HistoriesOf(db, a, month, prices), a, month)
  {
  }

  lemma {:induction false} OwnThen(
      rest: seq<History>, own: seq<History>, owner: AccountId, month: int, a: AccountId, m: int)
    requires OwnedBy(own, owner, month)
    ensures HistsOf(rest + own, a, m) == HistsOf(rest, a, m) + if a == owner && m == month then own else []
  {
    OneOwner(own, owner, month, a, m);
    HistsConcat(rest, own, a, m);
  }

  lemma HistsStep(db: Db, h: HouseholdId, month: int, prices: Prices, n: nat, a: AccountId, m: int, rest: seq<History>)
    requires n < |db.accounts| && rest == NewHistories(db, h, month, prices, n)
    ensures HistsOf(NewHistories(db, h, month, prices, n + 1), a, m)
         == HistsOf(rest, a, m)
            + if ToSnap(db, h, n) && a == n && m == month then HistoriesOf(db, n, month, prices) else []
  {
    if ToSnap(db, h, n) {
      OwnHistories(db, n, month, prices);
      OwnThen(rest, HistoriesOf(db, n, month, prices), n, month, a, m);
    } else {
      assert NewHistories(db, h, month, prices, n + 1) == rest;
    }
  }

  /** What the first n accounts leave under an account and month. */
  function NewFor(db: Db, h: HouseholdId, month: int, prices: Prices, n: nat, a: AccountId, m: int): seq<History>
    requires n <= |db.accounts|
  {
    if m == month && a < n && ToSnap(db, h, a) then HistoriesOf(db, a, month, prices) else []
  }

  lemma NewForGrows(db: Db, h: HouseholdId, month: int, prices: Prices, n: nat, a: AccountId, m: int)
    requires n < |db.accounts|
    ensures NewFor(db, h, month, prices, n + 1, a, m)
         == NewFor(db, h, month, prices, n, a, m)
            + if ToSnap(db, h, n) && a == n && m == month then HistoriesOf(db, n, month, prices) else []
  {
  }

  ghost predicate NewReads(db: Db, h: HouseholdId, month: int, prices: Prices, n: nat, a: AccountId, m: int)
    requires n <= |db.accounts|
  {
    HistsOf(NewHistories(db, h, month, prices, n), a, m) == NewFor(db, h, month, prices, n, a, m)
  }

  lemma {:induction false} NewReadsNone(db: Db, h: HouseholdId, month: int, prices: Prices, a: AccountId, m: int)
    ensures NewReads(db, h, month, prices, 0, a, m)
  {
  }

  lemma {:induction false} NewReadsOneMore(
      db: Db, h: HouseholdId, month: int, prices: Prices, n: nat, a: AccountId, m: int)
    requires n < |db.accounts| && NewReads(db, h, month, prices, n, a, m)
    ensures NewReads(db, h, month, prices, n + 1, a, m)
  {
    HistsStep(db, h, month, prices, n, a, m, NewHistories(db, h, month, prices, n));
    NewForGrows(db, h, month, prices, n, a, m);
  }

  lemma {:induction false} NewHists(db: Db, h: HouseholdId, month: int, prices: Prices, n: nat, a: AccountId, m: int)
    requires n <= |db.accounts|
    ensures NewReads(db, h, month, prices, n, a, m)
  {
    if n == 0 {
      NewReadsNone(db, h, month, prices, a, m);
    } else {
      NewHists(db, h, month, prices, n - 1, a, m);
      NewReadsOneMore(db, h, month, prices, n - 1, a, m);
    }
  }

  lemma {:induction false} NewSnapsFit(db: Db, h: HouseholdId, month: int, prices: Prices, n: nat)
    requires n <= |db.accounts|
    ensures forall x :: x in NewSnapshots(db, h, month, prices, n) ==> SnapshotFits(db, x)
  {
    if n > 0 {
      NewSnapsFit(db, h, month, prices, n - 1);
    }
  }

  lemma {:induction false} NewHistsFit(db: Db, h: HouseholdId, month: int, prices: Prices, n: nat)
    requires n <= |db.accounts|
    ensures forall x :: x in NewHistories(db, h, month, prices, n) ==> HistoryFits(db, x)
  {
    if n > 0 {
      NewHistsFit(db, h, month, prices, n - 1);
      var own := HistoriesOf(db, n - 1, month, prices);
      forall x | x in own ensures HistoryFits(db, x) {
        var i :| 0 <= i < |own| && own[i] == x;
      }
    }
  }

  lemma {:induction false} SnapsFound(s: seq<Snapshot>, a: AccountId, m: int)
    ensures SnapsOf(s, a, m) != [] <==> exists x :: x in s && x.active && x.account == a && x.month == m
  {
    if s != [] {
      var n := |s| - 1;
      SnapsFound(s[..n], a, m);
      assert s == s[..n] + [s[n]];
    }
  }

  /** The household has a month exactly when one of its accounts does. */
  lemma MonthIsAccountMonths(db: Db, ar: Archive, h: HouseholdId, m: int)
    ensures HasMonth(db, ar, h, m) <==> exists a :: InHousehold(db, a, h) && At(ar, a, m).snaps != []
  {
    if HasMonth(db, ar, h, m) {
      var i :| 0 <= i < |ar.snapshots| &&
        ar.snapshots[i].active && ar.snapshots[i].month == m && InHousehold(db, ar.snapshots[i].account, h);
      var x := ar.snapshots[i];
      SnapsFound(ar.snapshots, x.account, m);
      assert x in ar.snapshots && x.active;
      assert At(ar, x.account, m).snaps != [];
    }
    if exists a :: InHousehold(db, a, h) && At(ar, a, m).snaps != [] {
      var a :| InHousehold(db, a, h) && At(ar, a, m).snaps != [];
      SnapsFound(ar.snapshots, a, m);
      var x :| x in ar.snapshots && x.active && x.account == a && x.month == m;
      var i :| 0 <= i < |ar.snapshots| && ar.snapshots[i] == x;
    }
  }

  lemma {:induction false} RebuiltSnaps(
      db: Db, ar: Archive, h: HouseholdId, month: int, prices: Prices, a: AccountId, m: int)
    ensures var after := BuildAndSave(db, ar, h, month, prices, HasMonth(db, ar, h, month));
            SnapsOf(after.snapshots, a, m)
            == if m == month && InHousehold(db, a, h) then Recomputed(db, h, a, month, prices).snaps
               else SnapsOf(ar.snapshots, a, m)
  {
    var added := NewSnapshots(db, h, month, prices, |db.accounts|);
    NewSnaps(db, h, month, prices, |db.accounts|, a, m);
    if HasMonth(db, ar, h, month) {
      KeptSnaps(db, ar.snapshots, h, month, a, m);
      SnapsConcat(KeepSnapshots(db, ar.snapshots, h, month), added, a, m);
    } else {
      SnapsConcat(ar.snapshots, added, a, m);
      MonthIsAccountMonths(db, ar, h, month);
      assert InHousehold(db, a, h) ==> At(ar, a, month).snaps == [];
    }
  }

  lemma {:induction false} ReplacedHists(
      db: Db, ar: Archive, h: HouseholdId, month: int, prices: Prices, a: AccountId, m: int)
    requires ArchiveSound(db, ar)
    ensures HistsOf(BuildAndSave(db, ar, h, month, prices, true).histories, a, m)
         == if m == month && InHousehold(db, a, h) then NewFor(db, h, month, prices, |db.accounts|, a, m)
            else HistsOf(ar.histories, a, m)
  {
    var added := NewHistories(db, h, month, prices, |db.accounts|);
    NewHists(db, h, month, prices, |db.accounts|, a, m);
    KeptHists(db, ar.histories, h, month, a, m);
    HistsConcat(KeepHistories(ar.histories, h, month), added, a, m);
  }

  lemma {:induction false} AddedHists(
      db: Db, ar: Archive, h: HouseholdId, month: int, prices: Prices, a: AccountId, m: int)
    requires ArchiveSound(db, ar) && !HasMonth(db, ar, h, month)
    ensures HistsOf(BuildAndSave(db, ar, h, month, prices, false).histories, a, m)
         == if m == month && InHousehold(db, a, h) then NewFor(db, h, month, prices, |db.accounts|, a, m)
            else HistsOf(ar.histories, a, m)
  {
    NewHists(db, h, month, prices, |db.accounts|, a, m);
    HistsConcat(ar.histories, NewHistories(db, h, month, prices, |db.accounts|), a, m);
    NoHistoryYet(db, ar, h, month, a);
  }

  lemma {:induction false} RebuiltHists(
      db: Db, ar: Archive, h: HouseholdId, month: int, prices: Prices, a: AccountId, m: int)
    requires ArchiveSound(db, ar)
    ensures var after := BuildAndSave(db, ar, h, month, prices, HasMonth(db, ar, h, month));
            HistsOf(after.histories, a, m)
            == if m == month && InHousehold(db, a, h) then NewFor(db, h, month, prices, |db.accounts|, a, m)
               else HistsOf(ar.histories, a, m)
  {
    if HasMonth(db, ar, h, month) {
      ReplacedHists(db, ar, h, month, prices, a, m);
    } else {
      AddedHists(db, ar, h, month, prices, a, m);
    }
  }

  lemma {:induction false} NoHistoryYet(db: Db, ar: Archive, h: HouseholdId, month: int, a: AccountId)
    requires ArchiveSound(db, ar) && !HasMonth(db, ar, h, month)
    ensures InHousehold(db, a, h) ==> HistsOf(ar.histories, a, month) == []
  {
    MonthIsAccountMonths(db, ar, h, month);
    assert MonthSound(ar, a, month);
    assert InHousehold(db, a, h) ==> At(ar, a, month).snaps == [];
  }

  /** Rebuilding a month puts the recomputed rows there, for this household, and changes nothing else. */
  lemma RebuiltMonth(db: Db, ar: Archive, h: HouseholdId, month: int, prices: Prices, a: AccountId, m: int)
    requires ArchiveSound(db, ar)
    ensures At(BuildAndSave(db, ar, h, month, prices, HasMonth(db, ar, h, month)), a, m)
         == if m == month && InHousehold(db, a, h) then Recomputed(db, h, a, month, prices) else At(ar, a, m)
  {
    RebuiltSnaps(db, ar, h, month, prices, a, m);
    RebuiltHists(db, ar, h, month, prices, a, m);
  }

  lemma RebuiltIsSound(db: Db, ar: Archive, h: HouseholdId, month: int, prices: Prices)
    requires ArchiveSound(db, ar)
    ensures ArchiveSound(db, BuildAndSave(db, ar, h, month, prices, HasMonth(db, ar, h, month)))
  {
    var after := BuildAndSave(db, ar, h, month, prices, HasMonth(db, ar, h, month));
    var n := |db.accounts|;
    NewSnapsFit(db, h, month, prices, n);
    NewHistsFit(db, h, month, prices, n);
    KeptSnapsFit(db, ar.snapshots, h, month);
    KeptHistsFit(db, ar.histories, h, month);
    forall a: AccountId, m: int ensures MonthSound(after, a, m) {
      RebuiltMonth(db, ar, h, month, prices, a, m);
      assert MonthSound(ar, a, m);
    }
  }

  // ---- the closed form of the job ----

  /** The months the job writes: none before the first ever stored, and of those more than a month before the
      target only the missing ones. */
  predicate Due(db: Db, ar: Archive, h: HouseholdId, floor: int, target: int, n: int, m: int) {
    target - n < m <= target && floor <= m && (HasMonth(db, ar, h, m) ==> m >= target - 1)
  }

  lemma SameMonths(db: Db, ar: Archive, after: Archive, h: HouseholdId, m: int)
    requires forall a: AccountId :: InHousehold(db, a, h) ==> At(after, a, m) == At(ar, a, m)
    ensures HasMonth(db, after, h, m) == HasMonth(db, ar, h, m)
  {
    MonthIsAccountMonths(db, ar, h, m);
    MonthIsAccountMonths(db, after, h, m);
  }

  function AfterTurns(
      db: Db, ar: Archive, h: HouseholdId, floor: int, target: int, prices: Prices, n: nat, a: AccountId, m: int): Stored
  {
    if InHousehold(db, a, h) && Due(db, ar, h, floor, target, n, m) then Recomputed(db, h, a, m, prices) else At(ar, a, m)
  }

  /** After n turns of the loop, the months among the n that were due hold the recomputed rows. */
  lemma {:induction false} VisitedMonths(
      db: Db, ar: Archive, h: HouseholdId, floor: int, target: int, prices: Prices, n: nat)
    requires ArchiveSound(db, ar)
    ensures ArchiveSound(db, VisitMonths(db, ar, h, floor, target, prices, n))
    ensures forall a: AccountId, m: int ::
              At(VisitMonths(db, ar, h, floor, target, prices, n), a, m)
              == AfterTurns(db, ar, h, floor, target, prices, n, a, m)
  {
    if n > 0 {
      VisitedMonths(db, ar, h, floor, target, prices, n - 1);
      OneMoreTurn(db, ar, VisitMonths(db, ar, h, floor, target, prices, n - 1), h, floor, target, prices, n);
    }
  }

  lemma OneMoreTurn(
      db: Db, ar: Archive, before: Archive, h: HouseholdId, floor: int, target: int, prices: Prices, n: nat)
    requires n > 0 && ArchiveSound(db, before)
    requires forall a: AccountId, m: int ::
               At(before, a, m) == AfterTurns(db, ar, h, floor, target, prices, n - 1, a, m)
    ensures var after := VisitMonth(db, before, h, target - (n - 1), floor, target, prices);
            && ArchiveSound(db, after)
            && forall a: AccountId, m: int :: At(after, a, m) == AfterTurns(db, ar, h, floor, target, prices, n, a, m)
  {
    var month := target - (n - 1);
    var after := VisitMonth(db, before, h, month, floor, target, prices);
    SameMonths(db, ar, before, h, month);
    if Due(db, ar, h, floor, target, n, month) {
      RebuiltIsSound(db, before, h, month, prices);
    }
    forall a: AccountId, m: int ensures At(after, a, m) == AfterTurns(db, ar, h, floor, target, prices, n, a, m) {
      if Due(db, ar, h, floor, target, n, month) {
        RebuiltMonth(db, before, h, month, prices, a, m);
      }
    }
  }

  lemma {:induction false} OldestIsLeast(db: Db, s: seq<Snapshot>, h: HouseholdId)
    ensures Oldest(db, s, h).Some? ==> HasMonth(db, Archive(s, []), h, Oldest(db, s, h).value)
    ensures forall m :: HasMonth(db, Archive(s, []), h, m) ==> Oldest(db, s, h).Some? && Oldest(db, s, h).value <= m
  {
    if s != [] {
      var n := |s| - 1;
      OldestIsLeast(db, s[..n], h);
      var was := Oldest(db, s[..n], h);
      if was.Some? {
        var i :| 0 <= i < n && s[..n][i].active && s[..n][i].month == was.value && InHousehold(db, s[..n][i].account, h);
        assert s[i].active && s[i].month == was.value && InHousehold(db, s[i].account, h);
      }
      forall m | HasMonth(db, Archive(s, []), h, m)
        ensures Oldest(db, s, h).Some? && Oldest(db, s, h).value <= m
      {
        var i :| 0 <= i < |s| && s[i].active && s[i].month == m && InHousehold(db, s[i].account, h);
        if i < n {
          assert s[..n][i].active && s[..n][i].month == m && InHousehold(db, s[..n][i].account, h);
          assert HasMonth(db, Archive(s[..n], []), h, m);
        }
      }
    }
  }

  /** The floor is the first month stored; where there is none it is the target. */
  lemma FloorIsFirstMonth(db: Db, ar: Archive, h: HouseholdId, target: int)
    ensures forall m :: HasMonth(db, ar, h, m) ==> Floor(db, ar, h, target) <= m
    ensures HasMonth(db, ar, h, Floor(db, ar, h, target))
         || (Floor(db, ar, h, target) == target && forall m :: !HasMonth(db, ar, h, m))
  {
    OldestIsLeast(db, ar.snapshots, h);
    forall m ensures HasMonth(db, ar, h, m) == HasMonth(db, Archive(ar.snapshots, []), h, m) {
      assert At(ar, 0, m).snaps == At(Archive(ar.snapshots, []), 0, m).snaps;
      HasMonthReadsSnapshots(db, ar, h, m);
    }
  }

  lemma HasMonthReadsSnapshots(db: Db, ar: Archive, h: HouseholdId, m: int)
    ensures HasMonth(db, ar, h, m) == HasMonth(db, Archive(ar.snapshots, []), h, m)
  {
    MonthIsAccountMonths(db, ar, h, m);
    MonthIsAccountMonths(db, Archive(ar.snapshots, []), h, m);
    assert forall a: AccountId :: At(ar, a, m).snaps == At(Archive(ar.snapshots, []), a, m).snaps;
  }

  lemma SameFloor(db: Db, ar: Archive, after: Archive, h: HouseholdId, target: int)
    requires forall a: AccountId, m: int :: InHousehold(db, a, h) ==> At(after, a, m) == At(ar, a, m)
    ensures Floor(db, after, h, target) == Floor(db, ar, h, target)
    ensures forall m :: HasMonth(db, after, h, m) == HasMonth(db, ar, h, m)
  {
    forall m ensures HasMonth(db, after, h, m) == HasMonth(db, ar, h, m) {
      SameMonths(db, ar, after, h, m);
    }
    FloorIsFirstMonth(db, ar, h, target);
    FloorIsFirstMonth(db, after, h, target);
  }

  predicate DueNow(db: Db, ar: Archive, h: HouseholdId, target: int, m: int) {
    Due(db, ar, h, Floor(db, ar, h, target), target, CATCHUP_MONTHS, m)
  }

  predicate Visited(db: Db, households: seq<HouseholdId>, a: AccountId) {
    a < |db.accounts| && db.accounts[a].household in households
  }

  /** What an account and month hold after the job: recomputed if its household was visited and the month was
      due in the archive the job found, and what they held before otherwise. */
  function AfterJob(
      db: Db, ar: Archive, households: seq<HouseholdId>, target: int, prices: Prices, a: AccountId, m: int): Stored
  {
    if Visited(db, households, a) && DueNow(db, ar, db.accounts[a].household, target, m)
    then Recomputed(db, db.accounts[a].household, a, m, prices)
    else At(ar, a, m)
  }

  lemma {:induction false} JobClosedForm(
      db: Db, ar: Archive, households: seq<HouseholdId>, target: int, prices: Prices)
    requires ArchiveSound(db, ar) && Distinct(households)
    ensures var after := RunJob(db, ar, households, target, prices);
            && ArchiveSound(db, after)
            && forall a: AccountId, m: int :: At(after, a, m) == AfterJob(db, ar, households, target, prices, a, m)
  {
    if households != [] {
      var n := |households| - 1;
      var h := households[n];
      JobClosedForm(db, ar, households[..n], target, prices);
      var before := RunJob(db, ar, households[..n], target, prices);
      forall a: AccountId, m: int | InHousehold(db, a, h) ensures At(before, a, m) == At(ar, a, m) {
        assert !Visited(db, households[..n], a);
      }
      SameFloor(db, ar, before, h, target);
      VisitedMonths(db, before, h, Floor(db, before, h, target), target, prices, CATCHUP_MONTHS);
      var after := RunJob(db, ar, households, target, prices);
      forall a: AccountId, m: int ensures At(after, a, m) == AfterJob(db, ar, households, target, prices, a, m) {
        assert households == households[..n] + [h];
      }
    }
  }

  // ---- what the job promises ----

  /** Each visited household with an open account has every month from its first (or eleven before the
      target, if later) to the target. */
  lemma {:induction false} WindowIsComplete(
      db: Db, ar: Archive, households: seq<HouseholdId>, target: int, prices: Prices, a: AccountId, m: int)
    requires ArchiveSound(db, ar) && Distinct(households)
    requires Visited(db, households, a) && ToSnap(db, db.accounts[a].household, a)
    requires Floor(db, ar, db.accounts[a].household, target) <= m && target - 11 <= m <= target
    ensures HasMonth(db, RunJob(db, ar, households, target, prices), db.accounts[a].household, m)
  {
    var h := db.accounts[a].household;
    var after := RunJob(db, ar, households, target, prices);
    JobClosedForm(db, ar, households, target, prices);
    MonthIsAccountMonths(db, after, h, m);
    if DueNow(db, ar, h, target, m) {
      assert At(after, a, m) == Recomputed(db, h, a, m, prices);
    } else {
      forall b: AccountId | InHousehold(db, b, h) ensures At(after, b, m) == At(ar, b, m) {
        assert At(after, b, m) == AfterJob(db, ar, households, target, prices, b, m);
      }
      SameMonths(db, ar, after, h, m);
    }
  }

  /** In a month the job writes, the accounts of its household have rows exactly if they are open. */
  lemma {:induction false} DueMonthsHoldOpenAccounts(
      db: Db, ar: Archive, households: seq<HouseholdId>, target: int, prices: Prices, a: AccountId, m: int)
    requires ArchiveSound(db, ar) && Distinct(households)
    requires Visited(db, households, a) && DueNow(db, ar, db.accounts[a].household, target, m)
    ensures var stored := At(RunJob(db, ar, households, target, prices), a, m);
            if db.accounts[a].active && !db.accounts[a].archived
            then stored == Stored([SnapshotOf(db, a, m, prices)], HistoriesOf(db, a, m, prices))
            else stored == Stored([], [])
  {
    JobClosedForm(db, ar, households, target, prices);
    assert At(RunJob(db, ar, households, target, prices), a, m) == AfterJob(db, ar, households, target, prices, a, m);
  }

  /** A month that was not there before lies in the window and not before the first month stored. */
  lemma {:induction false} NothingIsCreatedEarlier(
      db: Db, ar: Archive, households: seq<HouseholdId>, target: int, prices: Prices, h: HouseholdId, m: int)
    requires ArchiveSound(db, ar) && Distinct(households)
    requires !HasMonth(db, ar, h, m) && HasMonth(db, RunJob(db, ar, households, target, prices), h, m)
    ensures h in households && Floor(db, ar, h, target) <= m && target - 11 <= m <= target
  {
    var after := RunJob(db, ar, households, target, prices);
    JobClosedForm(db, ar, households, target, prices);
    MonthIsAccountMonths(db, ar, h, m);
    MonthIsAccountMonths(db, after, h, m);
    var a :| InHousehold(db, a, h) && At(after, a, m).snaps != [];
    assert At(after, a, m) == AfterJob(db, ar, households, target, prices, a, m);
  }

  /** A month already stored that lies before the last two keeps every row it had. */
  lemma {:induction false} OldMonthsAreKept(
      db: Db, ar: Archive, households: seq<HouseholdId>, target: int, prices: Prices, a: AccountId, m: int)
    requires ArchiveSound(db, ar) && Distinct(households)
    requires a < |db.accounts| && HasMonth(db, ar, db.accounts[a].household, m) && m < target - 1
    ensures At(RunJob(db, ar, households, target, prices), a, m) == At(ar, a, m)
  {
    JobClosedForm(db, ar, households, target, prices);
    assert At(RunJob(db, ar, households, target, prices), a, m) == AfterJob(db, ar, households, target, prices, a, m);
  }

  lemma {:induction false} FloorDoesNotFall(
      db: Db, ar: Archive, households: seq<HouseholdId>, target: int, prices: Prices, h: HouseholdId)
    requires ArchiveSound(db, ar) && Distinct(households)
    ensures Floor(db, ar, h, target) <= Floor(db, RunJob(db, ar, households, target, prices), h, target)
  {
    var after := RunJob(db, ar, households, target, prices);
    var floor := Floor(db, ar, h, target);
    FloorIsFirstMonth(db, ar, h, target);
    FloorIsFirstMonth(db, after, h, target);
    forall m | HasMonth(db, after, h, m) ensures floor <= m {
      if !HasMonth(db, ar, h, m) {
        NothingIsCreatedEarlier(db, ar, households, target, prices, h, m);
      }
    }
    if floor > target {
      JobClosedForm(db, ar, households, target, prices);
      forall a: AccountId, m: int | InHousehold(db, a, h) ensures At(after, a, m) == At(ar, a, m) {
        assert At(after, a, m) == AfterJob(db, ar, households, target, prices, a, m);
      }
      SameFloor(db, ar, after, h, target);
    }
  }

  /** A month that a second run would write is one that the first run wrote. */
  lemma {:induction false} DueAgainWasDue(
      db: Db, ar: Archive, households: seq<HouseholdId>, target: int, prices: Prices, h: HouseholdId, m: int)
    requires ArchiveSound(db, ar) && Distinct(households)
    requires DueNow(db, RunJob(db, ar, households, target, prices), h, target, m)
    ensures DueNow(db, ar, h, target, m)
  {
    var after := RunJob(db, ar, households, target, prices);
    FloorDoesNotFall(db, ar, households, target, prices, h);
    if HasMonth(db, ar, h, m) && m < target - 1 {
      JobClosedForm(db, ar, households, target, prices);
      forall a: AccountId | InHousehold(db, a, h) ensures At(after, a, m) == At(ar, a, m) {
        OldMonthsAreKept(db, ar, households, target, prices, a, m);
      }
      SameMonths(db, ar, after, h, m);
    }
  }

  /** Running the job again over the same data changes no stored value. */
  lemma {:induction false} SecondRunChangesNothing(
      db: Db, ar: Archive, households: seq<HouseholdId>, target: int, prices: Prices, a: AccountId, m: int)
    requires ArchiveSound(db, ar) && Distinct(households)
    ensures var once := RunJob(db, ar, households, target, prices);
            At(RunJob(db, once, households, target, prices), a, m) == At(once, a, m)
  {
    var once := RunJob(db, ar, households, target, prices);
    JobClosedForm(db, ar, households, target, prices);
    JobClosedForm(db, once, households, target, prices);
    assert At(once, a, m) == AfterJob(db, ar, households, target, prices, a, m);
    if Visited(db, households, a) && DueNow(db, once, db.accounts[a].household, target, m) {
      DueAgainWasDue(db, ar, households, target, prices, db.accounts[a].household, m);
    }
  }

  /** The manual snapshot recomputes the target month of its household, however often it is taken. */
  lemma ManualRewritesOneMonth(
      db: Db, ar: Archive, h: HouseholdId, target: int, prices: Prices, a: AccountId, m: int)
    requires ArchiveSound(db, ar)
    ensures var once := RunManual(db, ar, h, target, prices);
            && ArchiveSound(db, once)
            && At(once, a, m) == (if m == target && InHousehold(db, a, h) then Recomputed(db, h, a, m, prices) else At(ar, a, m))
            && At(RunManual(db, once, h, target, prices), a, m) == At(once, a, m)
  {
    RebuiltMonth(db, ar, h, target, prices, a, m);
    RebuiltIsSound(db, ar, h, target, prices);
    RebuiltMonth(db, RunManual(db, ar, h, target, prices), h, target, prices, a, m);
  }
}
