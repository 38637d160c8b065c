/** Holdings archived while an account was an investment account count twice on the wealth page once it is
    declared something else. */
module RetypedHoldings {
  import opened Money
  import opened Sums
  import opened Tables
  import opened Calendar
  import opened TradeReplay
  import opened TradeTimeline
  import opened Portfolio
  import opened Holdings
  import opened Database
  import opened Snapshots
  import opened SnapshotLaws
  import opened Household
  import opened HouseholdLaws
  import opened Wealth
  import opened WealthLaws

  lemma {:induction false} OneMoreElsewhere(page: seq<History>, was: seq<Account>, a: AccountId, now: Account, m: int)
    requires a < |was| && was[a].kind.Investment? && !now.kind.Investment?
    ensures Sum(page, FiledElsewhere(was[a := now], m)) == Sum(page, FiledElsewhere(was, m)) + Sum(page, Filed(m, a))
  {
    SumPlus(page, FiledElsewhere(was, m), Filed(m, a), FiledElsewhere(was[a := now], m));
  }

  lemma {:induction false} PageFilesTheAccount(
      w: World, h: HouseholdId, a: AccountId, m: int, prices: Prices, from: int, to: int)
    requires Good(w) && ToSnap(w.db, h, a) && InRange(m, from, to)
    ensures var page := HistoriesIn(RunManual(w.db, w.archive, h, m, prices).histories, h, from, to);
            Sum(page, Filed(m, a)) == Sum(HistoriesOf(w.db, a, m, prices), StoredValue)
  {
    var after := RunManual(w.db, w.archive, h, m, prices);
    ManualRewritesOneMonth(w.db, w.archive, h, m, prices, a, m);
    assert At(after, a, m) == Recomputed(w.db, h, a, m, prices);
    forall x | x in after.histories && x.account == a ensures x.household == h {
      assert HistoryFits(w.db, x);
    }
    FiledIsStored(after.histories, h, from, to, a, m);
  }

  function SnapThenRetype(w: World, h: HouseholdId, a: AccountId, kind: AccountType, m: int, prices: Prices): World {
    After(After(w, ManualSnapshot(h, m, prices)), UpdateAccount(h, a, Some(kind), None, None))
  }

  lemma {:induction false} RetypedWorld(
      w: World, h: HouseholdId, a: AccountId, kind: AccountType, m: int, prices: Prices)
    requires Usable(w.db, h, a)
    ensures var after := SnapThenRetype(w, h, a, kind, m, prices);
            && after.archive == RunManual(w.db, w.archive, h, m, prices)
            && after.db.accounts == w.db.accounts[a := w.db.accounts[a].(kind := kind)]
  {
  }

  /** Retyping an investment account right after a snapshot raises what the page counts twice by exactly the
      valuations stored for the account. */
  lemma {:induction false} RetypingCountsTwice(
      w: World, h: HouseholdId, a: AccountId, kind: AccountType, m: int, prices: Prices, from: int, to: int)
    requires Good(w) && ToSnap(w.db, h, a) && w.db.accounts[a].kind.Investment? && !kind.Investment?
    requires InRange(m, from, to)
    ensures var after := SnapThenRetype(w, h, a, kind, m, prices);
            var page := HistoriesIn(after.archive.histories, h, from, to);
            Sum(page, FiledElsewhere(after.db.accounts, m))
            == Sum(page, FiledElsewhere(w.db.accounts, m)) + Sum(HistoriesOf(w.db, a, m, prices), StoredValue)
  {
    var after := SnapThenRetype(w, h, a, kind, m, prices);
    RetypedWorld(w, h, a, kind, m, prices);
    PageFilesTheAccount(w, h, a, m, prices, from, to);
    OneMoreElsewhere(
      HistoriesIn(after.archive.histories, h, from, to), w.db.accounts, a, w.db.accounts[a].(kind := kind), m);
  }

  // ---- a run that gets there ----

  const Bought: Trade := Trade(0, 0, 0, Buy, 1.0, 100.0, 0.0, 0, true, None, None)
  const Broker: Account := Account(0, Investment, 0.0, false, true)

  function Held(quantity: real, average: real, trades: seq<Trade>): World {
    World(Db([Broker], [], Book([Item(0, quantity, average, 100.0, 0, false, true)], trades)), Archive([], []))
  }

  lemma {:induction false} BoughtAlone()
    ensures Timeline([Bought], 0) == [Bought] && Replay([Bought]) == Some(Holding(1.0, 100.0))
    ensures Average(Holding(1.0, 100.0)) == 100.0 && RoundHalfUp(100.0) == 100.0 && RoundHalfEven(100.0) == 100.0
  {
    assert [Bought][..0] == [];
    assert Timeline([], 0) == [] && Replay([]) == Some(Nothing);
    assert [] + [Bought] == [Bought];
    HundredIsWhole();
    RoundingFixesWholeCents(100.0);
  }

  lemma {:induction false} BuyingFills()
    ensures After(Held(0.0, 0.0, []), TradeOn(BuyShares(0, Order(1.0, 100.0, 0.0, 0)))) == Held(1.0, 100.0, [Bought])
  {
    var b := Held(0.0, 0.0, []).db.book;
    BoughtAlone();
    assert b.trades + [NewTrade(b, 0, Buy, Order(1.0, 100.0, 0.0, 0))] == [Bought];
    var b1 := b.(trades := [Bought]);
    assert MapRows([Bought], Marker([Bought], 0)) == [Bought];
    assert b1.items[0 := Restated(b1.items[0], Holding(1.0, 100.0))] == Held(1.0, 100.0, [Bought]).db.book.items;
  }

  lemma {:induction false} OneTradeAlone(asOf: int, f: Trade -> real)
    requires asOf >= 0
    ensures Sum([Bought], InGroup(0, 0, asOf, f)) == f(Bought)
  {
    SumOneMore([], Bought, InGroup(0, 0, asOf, f));
    assert [] + [Bought] == [Bought];
  }

  lemma {:induction false} OneShareIsWorthItsCost()
    ensures var db := Held(1.0, 100.0, [Bought]).db;
            Sum(HistoriesOf(db, 0, 0, map[]), StoredValue) == 100.0
  {
    var db := Held(1.0, 100.0, [Bought]).db;
    var asOf := MonthEnd(0);
    BoughtAlone();
    OneTradeAlone(asOf, TradeReplay.Signed);
    OneTradeAlone(asOf, BoughtAmount);
    OneTradeAlone(asOf, BoughtQty);
    assert MeanCostUpTo([Bought], 0, 0, asOf) == 100.0;
    var row := RowFor([Bought], 0, 0, asOf);
    assert row.cost == 100.0;
    assert HoldingList([Bought], 0, asOf, 0) == [] && [] + [row] == [row];
    assert MonthHoldings(db, 0, 0) == HoldingList([Bought], 0, asOf, 0 + 1) == [row];
    var stored := HistoriesOf(db, 0, 0, map[]);
    assert |stored| == 1 && stored[0].valuation == 100.0;
    assert stored[..0] == [];
    assert Sum(stored, StoredValue) == Sum(stored[..0], StoredValue) + StoredValue(stored[0]);
  }

  function Purchase(): seq<Request> {
    [CreateAccount(0, Investment, 0.0), CreateItem(0, 0, 100.0, 0), TradeOn(BuyShares(0, Order(1.0, 100.0, 0.0, 0)))]
  }

  lemma {:induction false} PurchaseIsSent()
    ensures forall k :: 0 <= k < |Purchase()| ==> Sent(Purchase()[k])
  {
    HundredIsWhole();
  }

  lemma {:induction false} BrokerOpens()
    ensures After(After(Empty, Purchase()[0]), Purchase()[1]) == Held(0.0, 0.0, [])
  {
    assert After(Empty, Purchase()[0]).db.accounts == [Broker];
    var w := After(After(Empty, Purchase()[0]), Purchase()[1]);
    assert w.db.book.items == Held(0.0, 0.0, []).db.book.items;
  }

  lemma {:induction false} BrokerBuys()
    ensures Run(Empty, Purchase()) == Held(1.0, 100.0, [Bought])
  {
    var q0, q1, q2 := Purchase()[0], Purchase()[1], Purchase()[2];
    RunOneMore(Empty, [], q0);
    RunOneMore(Empty, [q0], q1);
    RunOneMore(Empty, [q0, q1], q2);
    assert [] + [q0] == [q0] && [q0] + [q1] == [q0, q1] && [q0, q1] + [q2] == Purchase();
    BrokerOpens();
    BuyingFills();
  }

  lemma {:induction false} HeldCountsTwice(w: World, prices: Prices)
    requires Good(w) && w.db.accounts == [Broker]
    ensures var after := SnapThenRetype(w, 0, 0, Living, 0, prices);
            Sum(HistoriesIn(after.archive.histories, 0, 0, 0), FiledElsewhere(after.db.accounts, 0))
            == Sum(HistoriesOf(w.db, 0, 0, prices), StoredValue)
  {
    var after := SnapThenRetype(w, 0, 0, Living, 0, prices);
    RetypingCountsTwice(w, 0, 0, Living, 0, prices, 0, 0);
    RetypedWorld(w, 0, 0, Living, 0, prices);
    RebuiltIsSound(w.db, w.archive, 0, 0, prices);
    NothingElsewhereYet(HistoriesIn(after.archive.histories, 0, 0, 0), after.archive.histories, w);
  }

  lemma {:induction false} PurchaseHolds(w: World)
    requires w == Run(Empty, Purchase())
    ensures Good(w) && w.db.accounts == [Broker] && Sum(HistoriesOf(w.db, 0, 0, map[]), StoredValue) == 100.0
  {
    PurchaseIsSent();
    EmptyIsGood();
    RunKeepsGood(Empty, Purchase());
    BrokerBuys();
    OneShareIsWorthItsCost();
  }

  lemma {:induction false} RunTwoMore(w: World, qs: seq<Request>, p: Request, q: Request)
    ensures Run(w, qs + [p] + [q]) == After(After(Run(w, qs), p), q)
  {
    RunOneMore(w, qs, p);
    RunOneMore(w, qs + [p], q);
  }

  function Snap(): Request {
    ManualSnapshot(0, 0, map[])
  }

  function Retype(): Request {
    UpdateAccount(0, 0, Some(Living), None, None)
  }

  lemma {:induction false} StoryIsSent()
    ensures var qs := Purchase() + [Snap()] + [Retype()]; forall k :: 0 <= k < |qs| ==> Sent(qs[k])
  {
    PurchaseIsSent();
  }

  /** Open an account, buy one share for 100, take a snapshot, declare the account an everyday one: the page
      counts the 100 twice. */
  lemma {:induction false} RetypedHoldingsCountTwice() returns (qs: seq<Request>)
    ensures forall k :: 0 <= k < |qs| ==> Sent(qs[k])
    ensures var w := Run(Empty, qs);
            Sum(HistoriesIn(w.archive.histories, 0, 0, 0), FiledElsewhere(w.db.accounts, 0)) == 100.0
  {
    qs := Purchase() + [Snap()] + [Retype()];
    StoryIsSent();
    RunTwoMore(Empty, Purchase(), Snap(), Retype());
    StoryCountsTwice(Run(Empty, Purchase()));
  }

  lemma {:induction false} StoryCountsTwice(w: World)
    requires w == Run(Empty, Purchase())
    ensures var after := After(After(w, Snap()), Retype());
            Sum(HistoriesIn(after.archive.histories, 0, 0, 0), FiledElsewhere(after.db.accounts, 0)) == 100.0
  {
    PurchaseHolds(w);
    HeldCountsTwice(w, map[]);
  }

  lemma {:induction false} NothingElsewhereYet(page: seq<History>, all: seq<History>, w: World)
    requires page == HistoriesIn(all, 0, 0, 0) && w.db.accounts == [Broker]
    requires forall x :: x in all ==> HistoryFits(w.db, x)
    ensures Sum(page, FiledElsewhere(w.db.accounts, 0)) == 0.0
  {
    HistoriesInMembers(all, 0, 0, 0);
    SumZero(page, FiledElsewhere(w.db.accounts, 0));
  }
}
