/** Month-end holdings: a group-by over the trades dated up to a day, compared with the replay. */
module Holdings {
  import opened Money
  import opened Sums
  import opened Tables
  import opened TradeReplay
  import opened TradeTimeline
  import opened Portfolio

  datatype HoldingRow = HoldingRow(item: ItemId, quantity: real, avgCost: real, cost: real)

  // ---- the aggregate ----

  predicate Selected(t: Trade, account: AccountId, asOf: int) {
    t.active && t.account == account && t.date <= asOf
  }

  function InGroup(account: AccountId, item: ItemId, asOf: int, f: Trade -> real): Trade -> real {
    (t: Trade) => if Selected(t, account, asOf) && t.item == item then f(t) else 0.0
  }

  function BoughtQty(t: Trade): real {
    if t.side.Buy? then t.quantity else 0.0
  }

  function BoughtAmount(t: Trade): real {
    if t.side.Buy? then Settlement(t) else 0.0
  }

  function NetUpTo(trades: seq<Trade>, account: AccountId, item: ItemId, asOf: int): real {
    Sum(trades, InGroup(account, item, asOf, Signed))
  }

  /** The unrounded average cost of the shares bought so far, whether or not they were sold again. */
  function MeanCost(boughtAmount: real, boughtQty: real): real {
    if boughtQty > 0.0 then boughtAmount / boughtQty else 0.0
  }

  function MeanCostUpTo(trades: seq<Trade>, account: AccountId, item: ItemId, asOf: int): real {
    MeanCost(
      Sum(trades, InGroup(account, item, asOf, BoughtAmount)),
      Sum(trades, InGroup(account, item, asOf, BoughtQty)))
  }

  function RowFor(trades: seq<Trade>, account: AccountId, item: ItemId, asOf: int): HoldingRow {
    var q, a := NetUpTo(trades, account, item, asOf), MeanCostUpTo(trades, account, item, asOf);
    HoldingRow(item, q, RoundHalfEven(a), RoundHalfEven(Gross(q, a)))
  }

  /** Leaving the items of `left` aside, each with shares left has its row, once, and no other item has one. */
  ghost predicate Listed(
    net: ItemId -> real, row: ItemId -> HoldingRow, left: set<ItemId>, holdings: seq<HoldingRow>)
  {
    && (forall i, j :: 0 <= i < j < |holdings| ==> holdings[i].item != holdings[j].item)
    && (forall i :: 0 <= i < |holdings| ==>
          var item := holdings[i].item;
          item !in left && net(item) > 0.0 && holdings[i] == row(item))
    && (forall item :: item !in left && net(item) > 0.0 ==> exists i :: 0 <= i < |holdings| && holdings[i].item == item)
  }

  function NetOf(trades: seq<Trade>, account: AccountId, asOf: int): ItemId -> real {
    (item: ItemId) => NetUpTo(trades, account, item, asOf)
  }

  function RowOf(trades: seq<Trade>, account: AccountId, asOf: int): ItemId -> HoldingRow {
    (item: ItemId) => RowFor(trades, account, item, asOf)
  }

  ghost predicate HoldingsAt(trades: seq<Trade>, account: AccountId, asOf: int, holdings: seq<HoldingRow>) {
    Listed(NetOf(trades, account, asOf), RowOf(trades, account, asOf), {}, holdings)
  }

  /** A row shows the net quantity, the fee-inclusive amount paid per share bought, and that mean times the
      quantity, both to the nearest cent. */
  ghost predicate ShowsTotals(h: HoldingRow, trades: seq<Trade>, account: AccountId, asOf: int) {
    var amount := Sum(trades, InGroup(account, h.item, asOf, BoughtAmount));
    var bought := Sum(trades, InGroup(account, h.item, asOf, BoughtQty));
    var mean := if bought > 0.0 then amount / bought else 0.0;
    && h.quantity == Sum(trades, InGroup(account, h.item, asOf, Signed))
    && NearestEven(h.avgCost, mean) && NearestEven(h.cost, Gross(h.quantity, mean))
  }

  lemma {:induction false} RowShowsTotals(trades: seq<Trade>, account: AccountId, item: ItemId, asOf: int)
    ensures ShowsTotals(RowFor(trades, account, item, asOf), trades, account, asOf)
  {
    var q, a := NetUpTo(trades, account, item, asOf), MeanCostUpTo(trades, account, item, asOf);
    EvenIsNearest(a, RoundHalfEven(a));
    EvenIsNearest(Gross(q, a), RoundHalfEven(Gross(q, a)));
  }

  lemma {:induction false} HoldingsShowTotals(
      trades: seq<Trade>, account: AccountId, asOf: int, holdings: seq<HoldingRow>)
    requires HoldingsAt(trades, account, asOf, holdings)
    ensures forall i :: 0 <= i < |holdings| ==> ShowsTotals(holdings[i], trades, account, asOf)
  {
    forall i | 0 <= i < |holdings| ensures ShowsTotals(holdings[i], trades, account, asOf) {
      RowShowsTotals(trades, account, holdings[i].item, asOf);
    }
  }

  lemma ListedOneMore(
      net: ItemId -> real, row: ItemId -> HoldingRow, left: set<ItemId>, holdings: seq<HoldingRow>, item: ItemId)
    requires Listed(net, row, left, holdings) && item in left && row(item).item == item
    ensures Listed(net, row, left - {item}, if net(item) > 0.0 then holdings + [row(item)] else holdings)
  {
    var more := if net(item) > 0.0 then holdings + [row(item)] else holdings;
    forall other | other !in left - {item} && net(other) > 0.0
      ensures exists i :: 0 <= i < |more| && more[i].item == other
    {
      if other == item {
        assert more[|holdings|].item == other;
      } else {
        var i :| 0 <= i < |holdings| && holdings[i].item == other;
        assert more[i].item == other;
      }
    }
  }

  method AsofHoldingsByAccount(trades: seq<Trade>, account: AccountId, asOf: int) returns (holdings: seq<HoldingRow>)
    ensures HoldingsAt(trades, account, asOf, holdings)
    ensures forall i :: 0 <= i < |holdings| ==> ShowsTotals(holdings[i], trades, account, asOf)
  {
    var groups := set t | t in trades && Selected(t, account, asOf) :: t.item;
    ghost var net, row := NetOf(trades, account, asOf), RowOf(trades, account, asOf);
    forall item | item !in groups ensures net(item) == 0.0 {
      EmptyGroupNetsZero(trades, account, item, asOf);
    }
    holdings := [];
    while groups != {}
      invariant Listed(net, row, groups, holdings)
      decreases groups
    {
      var item :| item in groups;
      ListedOneMore(net, row, groups, holdings, item);
      var qty := NetUpTo(trades, account, item, asOf);
      if qty > 0.0 {
        holdings := holdings + [RowFor(trades, account, item, asOf)];
      }
      groups := groups - {item};
    }
    HoldingsShowTotals(trades, account, asOf, holdings);
  }

  lemma EmptyGroupNetsZero(trades: seq<Trade>, account: AccountId, item: ItemId, asOf: int)
    ensures (forall t :: t in trades && Selected(t, account, asOf) ==> t.item != item)
            ==> NetUpTo(trades, account, item, asOf) == 0.0
  {
    if forall t :: t in trades && Selected(t, account, asOf) ==> t.item != item {
      SumZero(trades, InGroup(account, item, asOf, Signed));
    }
  }

  // ---- the aggregate sees a prefix of the timeline ----

  function UpTo(s: seq<Trade>, asOf: int): (p: seq<Trade>)
    ensures p <= s
    ensures s != [] && s[|s| - 1].date > asOf ==> |p| < |s|
  {
    if s == [] || s[|s| - 1].date <= asOf then s else UpTo(s[..|s| - 1], asOf)
  }

  function Dated(asOf: int, f: Trade -> real): Trade -> real {
    (t: Trade) => if t.date <= asOf then f(t) else 0.0
  }

  lemma {:induction false} UpToIsDated(s: seq<Trade>, asOf: int, f: Trade -> real)
    requires Ordered(s)
    ensures UpTo(s, asOf) <= s
    ensures Sum(s, Dated(asOf, f)) == Sum(UpTo(s, asOf), f)
  {
    if s != [] {
      var n := |s| - 1;
      if s[n].date <= asOf {
        forall t | t in s ensures t.date <= asOf {
          var i :| 0 <= i < |s| && s[i] == t;
          assert i < n ==> Earlier(s[i], s[n]);
        }
        SumSame(s, Dated(asOf, f), f);
      } else {
        UpToIsDated(s[..n], asOf, f);
      }
    }
  }

  lemma {:induction false} GroupIsPrefix(b: Book, item: ItemId, asOf: int, f: Trade -> real)
    requires RowsFit(b) && item < |b.items|
    ensures Sum(b.trades, InGroup(b.items[item].account, item, asOf, f)) == Sum(UpTo(Timeline(b.trades, item), asOf), f)
  {
    TimelineOrdered(b.trades, item);
    TimelineSum(b.trades, item, Dated(asOf, f), InGroup(b.items[item].account, item, asOf, f));
    UpToIsDated(Timeline(b.trades, item), asOf, f);
  }

  lemma {:induction false} PrefixReplays(b: Book, item: ItemId, asOf: int)
    requires Sound(b) && item < |b.items|
    ensures var p := UpTo(Timeline(b.trades, item), asOf); GoodTrades(p) && Replay(p).Some?
  {
    var s := Timeline(b.trades, item);
    TimelineIsGood(b, item);
    UpToIsDated(s, asOf, Signed);
    assert Canonical(b, item);
    var k := |UpTo(s, asOf)|;
    assert UpTo(s, asOf) == s[..k];
    PrefixMustReplay(s, k);
  }

  /** On every day the aggregate quantity is what the replay of the trades up to that day holds: never
      negative, so an item is absent exactly when that replay holds nothing. */
  lemma {:induction false} QuantityFollowsReplay(b: Book, item: ItemId, asOf: int)
    requires Sound(b) && item < |b.items|
    ensures var p := Replay(UpTo(Timeline(b.trades, item), asOf));
            var q := NetUpTo(b.trades, b.items[item].account, item, asOf);
            p.Some? && q == p.value.qty && q >= 0.0
  {
    PrefixReplays(b, item, asOf);
    var p := UpTo(Timeline(b.trades, item), asOf);
    GroupIsPrefix(b, item, asOf, Signed);
    ReplayQuantityIsNet(p);
    ReplayStaysNonNegative(p);
  }

  // ---- when the aggregate average is the moving average ----

  function SoldBasis(ts: seq<Trade>): real {
    if ts == [] then 0.0
    else
      var n := |ts| - 1;
      SoldBasis(ts[..n]) + if ts[n].side.Sell? then Released(Before(ts, n), ts[n].quantity) else 0.0
  }

  function SoldQty(t: Trade): real {
    if t.side.Sell? then t.quantity else 0.0
  }

  lemma {:induction false} ReplaySplits(ts: seq<Trade>)
    requires Replay(ts).Some?
    ensures Replay(ts).value.cost == Sum(ts, BoughtAmount) - SoldBasis(ts)
    ensures Replay(ts).value.qty == Sum(ts, BoughtQty) - Sum(ts, SoldQty)
  {
    if ts != [] {
      ReplaySplits(ts[..|ts| - 1]);
    }
  }

  lemma {:induction false} SoldIsNonNegative(ts: seq<Trade>)
    requires GoodTrades(ts)
    ensures Sum(ts, SoldQty) >= 0.0
  {
    if ts != [] {
      assert GoodTrade(ts[|ts| - 1]);
      SoldIsNonNegative(ts[..|ts| - 1]);
    }
  }

  // ---- when they agree ----

  /** The average cost of all shares bought: all the aggregate has to go by. */
  function MeanSoFar(ts: seq<Trade>): real {
    MeanCost(Sum(ts, BoughtAmount), Sum(ts, BoughtQty))
  }

  /** As far as shares are left, the aggregate's average is the replay's. */
  ghost predicate Agrees(ts: seq<Trade>) {
    Replay(ts).Some? && (Replay(ts).value.qty > 0.0 ==> MeanSoFar(ts) == Average(Replay(ts).value))
  }

  ghost predicate AgreesThroughout(ts: seq<Trade>) {
    forall k :: 0 <= k <= |ts| ==> Agrees(ts[..k])
  }

  /** Once shares have been sold, every BUY costs, fees included, what the shares bought before it cost on
      average. No replay is needed to check it. */
  ghost predicate RebuysAtTheMean(ts: seq<Trade>)
    requires GoodTrades(ts)
  {
    forall k :: 0 <= k < |ts| ==> BoughtAtTheMean(ts[..k], ts[k])
  }

  ghost predicate BoughtAtTheMean(before: seq<Trade>, t: Trade)
    requires GoodTrade(t)
  {
    t.side.Buy? && Sum(before, SoldQty) > 0.0 ==> UnitCost(t) == MeanSoFar(before)
  }

  /** From cost c of q shares, with amount A paid for b > q shares at the same average, adding g for x shares
      keeps the averages equal exactly when g / x is that average; with no share left, exactly when it is A / b. */
  lemma {:induction false} AddingAtTheMean(q: real, c: real, b: real, amount: real, x: real, g: real)
    requires 0.0 <= q < b && 0.0 < x
    requires if q > 0.0 then MeanCost(amount, b) == Average(Holding(q, c)) else c == 0.0
    ensures MeanCost(amount + g, b + x) == Average(Holding(q + x, c + g)) <==> g / x == MeanCost(amount, b)
  {
    var mean, u, v := amount / b, (amount + g) / (b + x), (c + g) / (q + x);
    assert mean * b == amount && u * (b + x) == amount + g && v * (q + x) == c + g;
    assert c == mean * q by {
      if q > 0.0 {
        assert c / q * q == c;
      }
    }
    if g / x == mean {
      assert g == mean * x;
      assert (u - mean) * (b + x) == 0.0;
      assert (v - mean) * (q + x) == 0.0;
    }
    if u == v {
      assert u * (b - q) == mean * (b - q);
      assert (u - mean) * (b - q) == 0.0;
      assert g == mean * x;
      assert g / x * x == g;
    }
  }

  /** Where the averages agree and shares have been sold, one more BUY keeps them equal exactly when it is made
      at the mean: at the moving average if shares are left, at the mean of everything bought if none is. */
  lemma {:induction false} RebuyAgreesExactlyAtTheMean(ts: seq<Trade>, t: Trade)
    requires GoodTrades(ts) && GoodTrade(t) && t.side.Buy? && Agrees(ts) && Sum(ts, SoldQty) > 0.0
    ensures Agrees(ts + [t]) <==> UnitCost(t) == MeanSoFar(ts)
    ensures Replay(ts).value.qty > 0.0 ==> (Agrees(ts + [t]) <==> UnitCost(t) == Average(Replay(ts).value))
  {
    var h := Replay(ts).value;
    ReplaySplits(ts);
    ReplayStaysNonNegative(ts);
    assert (ts + [t])[..|ts|] == ts;
    AddingAtTheMean(h.qty, h.cost, Sum(ts, BoughtQty), Sum(ts, BoughtAmount), t.quantity, BoughtAmount(t));
  }

  /** A first BUY after nothing but BUYs, and a SELL that leaves shares, never separate them. */
  lemma {:induction false} OtherTradesKeepAgreement(ts: seq<Trade>, t: Trade)
    requires GoodTrades(ts) && GoodTrade(t) && Agrees(ts) && Replay(ts + [t]).Some?
    requires t.side.Buy? ==> Sum(ts, SoldQty) == 0.0
    ensures Agrees(ts + [t])
  {
    assert (ts + [t])[..|ts|] == ts;
    ReplayStaysNonNegative(ts);
    if t.side.Buy? {
      ReplaySplits(ts);
      NothingSoldNothingReleased(ts);
    } else if Replay(ts + [t]).value.qty > 0.0 {
      SellKeepsAverage(ts, t);
    }
  }

  lemma {:induction false} NothingSoldNothingReleased(ts: seq<Trade>)
    requires GoodTrades(ts) && Sum(ts, SoldQty) == 0.0
    ensures SoldBasis(ts) == 0.0
  {
    if ts != [] {
      assert GoodTrade(ts[|ts| - 1]);
      SoldIsNonNegative(ts[..|ts| - 1]);
      NothingSoldNothingReleased(ts[..|ts| - 1]);
    }
  }

  /** The two averages agree all along a history exactly when it rebuys at the mean only. */
  lemma {:induction false} MeanIsMovingAverageExactlyWhen(ts: seq<Trade>)
    requires GoodTrades(ts) && Replay(ts).Some?
    ensures AgreesThroughout(ts) <==> RebuysAtTheMean(ts)
  {
    if ts == [] {
      assert ts[..0] == [];
    } else {
      var n := |ts| - 1;
      MeanIsMovingAverageExactlyWhen(ts[..n]);
      OneTradeLonger(ts);
      assert ts == ts[..n] + [ts[n]];
      assert GoodTrade(ts[n]);
      if AgreesThroughout(ts[..n]) {
        assert Agrees(ts[..n][..n]) && ts[..n][..n] == ts[..n];
        OneTradeAgreesExactlyWhen(ts[..n], ts[n]);
      }
    }
  }

  lemma {:induction false} OneTradeAgreesExactlyWhen(ts: seq<Trade>, t: Trade)
    requires GoodTrades(ts) && GoodTrade(t) && Agrees(ts) && Replay(ts + [t]).Some?
    ensures Agrees(ts + [t]) <==> BoughtAtTheMean(ts, t)
  {
    SoldIsNonNegative(ts);
    if t.side.Buy? && Sum(ts, SoldQty) > 0.0 {
      RebuyAgreesExactlyAtTheMean(ts, t);
    } else {
      OtherTradesKeepAgreement(ts, t);
    }
  }

  lemma {:induction false} OneTradeLonger(ts: seq<Trade>)
    requires ts != [] && GoodTrades(ts)
    ensures AgreesThroughout(ts) <==> AgreesThroughout(ts[..|ts| - 1]) && Agrees(ts)
    ensures var n := |ts| - 1;
            RebuysAtTheMean(ts) <==> (RebuysAtTheMean(ts[..n]) && BoughtAtTheMean(ts[..n], ts[n]))
  {
    var n := |ts| - 1;
    assert ts[..|ts|] == ts;
    assert forall k :: 0 <= k <= n ==> ts[..n][..k] == ts[..k];
    if RebuysAtTheMean(ts) {
      assert BoughtAtTheMean(ts[..n], ts[n]);
      forall k | 0 <= k < n ensures BoughtAtTheMean(ts[..n][..k], ts[..n][k]) {
        assert BoughtAtTheMean(ts[..k], ts[k]);
      }
    }
    if RebuysAtTheMean(ts[..n]) && BoughtAtTheMean(ts[..n], ts[n]) {
      forall k | 0 <= k < |ts| ensures BoughtAtTheMean(ts[..k], ts[k]) {
        if k < n {
          assert BoughtAtTheMean(ts[..n][..k], ts[..n][k]);
        }
      }
    }
    if AgreesThroughout(ts) {
      forall k | 0 <= k <= n ensures Agrees(ts[..n][..k]) {
        assert Agrees(ts[..k]);
      }
    }
    if AgreesThroughout(ts[..n]) && Agrees(ts) {
      forall k | 0 <= k <= |ts| ensures Agrees(ts[..k]) {
        if k <= n {
          assert Agrees(ts[..n][..k]);
        }
      }
    }
  }

  /** On each day where the aggregate is asked, it shows the moving average. */
  ghost predicate AgreesOnDay(b: Book, item: ItemId, asOf: int)
    requires item < |b.items|
  {
    var p := Replay(UpTo(Timeline(b.trades, item), asOf));
    p.Some? && (p.value.qty > 0.0 ==>
      MeanCostUpTo(b.trades, b.items[item].account, item, asOf) == Average(p.value))
  }

  lemma {:induction false} DayIsPrefix(b: Book, item: ItemId, asOf: int)
    requires RowsFit(b) && item < |b.items|
    ensures AgreesOnDay(b, item, asOf) <==> Agrees(UpTo(Timeline(b.trades, item), asOf))
  {
    GroupIsPrefix(b, item, asOf, BoughtAmount);
    GroupIsPrefix(b, item, asOf, BoughtQty);
  }

  /** On such a day an item's row shows what the replay holds: its shares, and to the nearest cent their average
      and their cost. */
  lemma {:induction false} RowsShowTheReplay(b: Book, item: ItemId, asOf: int, holdings: seq<HoldingRow>, i: nat)
    requires Sound(b) && item < |b.items| && AgreesOnDay(b, item, asOf)
    requires HoldingsAt(b.trades, b.items[item].account, asOf, holdings) && i < |holdings| && holdings[i].item == item
    ensures var held := Replay(UpTo(Timeline(b.trades, item), asOf)).value;
            && holdings[i].quantity == held.qty > 0.0
            && NearestEven(holdings[i].avgCost, held.cost / held.qty) && NearestEven(holdings[i].cost, held.cost)
  {
    var account := b.items[item].account;
    var held := Replay(UpTo(Timeline(b.trades, item), asOf)).value;
    QuantityFollowsReplay(b, item, asOf);
    RowShowsTotals(b.trades, account, item, asOf);
    assert NetOf(b.trades, account, asOf)(item) > 0.0;
    MeanOfHolding(held.qty, held.cost, MeanCostUpTo(b.trades, account, item, asOf));
  }

  /** In a sound book: an item whose trades up to a day rebuy at the mean has on that day the moving average. */
  lemma {:induction false} RebuyingAtTheMeanAgrees(b: Book, item: ItemId, asOf: int)
    requires Sound(b) && item < |b.items|
    ensures var p := UpTo(Timeline(b.trades, item), asOf);
            GoodTrades(p) && (RebuysAtTheMean(p) ==> AgreesOnDay(b, item, asOf))
  {
    var p := UpTo(Timeline(b.trades, item), asOf);
    PrefixReplays(b, item, asOf);
    DayIsPrefix(b, item, asOf);
    MeanIsMovingAverageExactlyWhen(p);
    assert p[..|p|] == p;
    assert RebuysAtTheMean(p) ==> Agrees(p[..|p|]);
  }

  // ---- day by day ----

  /** The holding that the aggregate makes out of its totals. */
  function Shown(ts: seq<Trade>): Holding {
    Holding(Net(ts), Gross(Net(ts), MeanSoFar(ts)))
  }

  function Through(h: Holding, day: seq<Trade>): Holding {
    if day == [] then h else Advance(Through(h, day[..|day| - 1]), day[|day| - 1])
  }

  /** The day's trades alone, replayed from what the aggregate shows the evening before, end at what it shows
      that evening. The history before the day enters with its totals only. */
  ghost predicate DayKeepsMean(eve: seq<Trade>, day: seq<Trade>) {
    Through(Shown(eve), day) == Shown(eve + day)
  }

  /** What was there before the last day with a trade. */
  function Eve(ts: seq<Trade>): (eve: seq<Trade>)
    requires ts != []
    ensures |eve| < |ts| && eve <= ts
  {
    UpTo(ts, ts[|ts| - 1].date - 1)
  }

  ghost predicate DaysKeepMean(ts: seq<Trade>)
    decreases |ts|
  {
    ts != [] ==> DaysKeepMean(Eve(ts)) && DayKeepsMean(Eve(ts), ts[|Eve(ts)|..])
  }

  ghost predicate EveningsAgree(ts: seq<Trade>)
    decreases |ts|
  {
    Agrees(ts) && (ts != [] ==> EveningsAgree(Eve(ts)))
  }

  lemma {:induction false} UpToTwice(s: seq<Trade>, late: int, early: int)
    requires early <= late
    ensures UpTo(UpTo(s, late), early) == UpTo(s, early)
  {
    if s != [] && s[|s| - 1].date > late {
      UpToTwice(s[..|s| - 1], late, early);
    }
  }

  ghost predicate AgreesUpTo(s: seq<Trade>, asOf: int) {
    Agrees(UpTo(s, asOf))
  }

  ghost predicate EveryDayAgrees(s: seq<Trade>) {
    forall asOf :: AgreesUpTo(s, asOf)
  }

  lemma {:induction false} OneDayMore(s: seq<Trade>)
    requires s != []
    ensures EveryDayAgrees(s) <==> Agrees(s) && EveryDayAgrees(Eve(s))
  {
    var last := s[|s| - 1].date;
    if EveryDayAgrees(s) {
      assert AgreesUpTo(s, last);
      forall asOf ensures AgreesUpTo(Eve(s), asOf) {
        if asOf < last {
          UpToTwice(s, last - 1, asOf);
          assert AgreesUpTo(s, asOf);
        } else {
          UpToTwice(s, last - 1, last - 1);
          AllOfIt(Eve(s), last - 1, asOf);
          assert AgreesUpTo(s, last - 1);
        }
      }
    }
    if Agrees(s) && EveryDayAgrees(Eve(s)) {
      forall asOf ensures AgreesUpTo(s, asOf) {
        if asOf < last {
          UpToTwice(s, last - 1, asOf);
          assert AgreesUpTo(Eve(s), asOf);
        }
      }
    }
  }

  lemma {:induction false} AllOfIt(s: seq<Trade>, early: int, late: int)
    requires early <= late && UpTo(s, early) == s
    ensures UpTo(s, late) == s
  {
  }

  /** Asking on every day is asking in the evening of each day with a trade. */
  lemma {:induction false} DaysAreEvenings(s: seq<Trade>)
    ensures EveryDayAgrees(s) <==> EveningsAgree(s)
    decreases |s|
  {
    if s == [] {
      forall asOf ensures AgreesUpTo(s, asOf) {
      }
    } else {
      OneDayMore(s);
      DaysAreEvenings(Eve(s));
    }
  }

  lemma MeanOfHolding(q: real, cost: real, mean: real)
    requires q > 0.0
    ensures mean == Average(Holding(q, cost)) <==> cost == Gross(q, mean)
  {
    assert Average(Holding(q, cost)) * q == cost;
    if cost == Gross(q, mean) {
      assert (mean - Average(Holding(q, cost))) * q == 0.0;
    }
  }

  lemma {:induction false} AgreesIsShown(ts: seq<Trade>)
    requires GoodTrades(ts) && Replay(ts).Some?
    ensures Agrees(ts) <==> Replay(ts).value == Shown(ts)
  {
    var h := Replay(ts).value;
    ReplayQuantityIsNet(ts);
    ReplayStaysNonNegative(ts);
    if h.qty > 0.0 {
      MeanOfHolding(h.qty, h.cost, MeanSoFar(ts));
    }
  }

  lemma {:induction false} ReplayThrough(ts: seq<Trade>, k: nat)
    requires k <= |ts| && Replay(ts).Some?
    ensures Replay(ts[..k]).Some? && Replay(ts).value == Through(Replay(ts[..k]).value, ts[k..])
    decreases |ts|
  {
    if k == |ts| {
      assert ts[..k] == ts;
    } else {
      var init := ts[..|ts| - 1];
      ReplayThrough(init, k);
      assert init[..k] == ts[..k] && ts[k..][..|ts| - 1 - k] == init[k..];
    }
  }

  lemma {:induction false} EveningsAgreeExactlyWhen(ts: seq<Trade>)
    requires GoodTrades(ts) && Replay(ts).Some?
    ensures EveningsAgree(ts) <==> DaysKeepMean(ts)
    decreases |ts|
  {
    if ts == [] {
      assert Agrees(ts);
    } else {
      var eve, day := Eve(ts), ts[|Eve(ts)|..];
      assert eve == ts[..|eve|] && eve + day == ts;
      ReplayThrough(ts, |eve|);
      EveningsAgreeExactlyWhen(eve);
      AgreesIsShown(ts);
      AgreesIsShown(eve);
    }
  }

  /** The aggregate shows the moving average of an item on every day exactly when each day with a trade,
      replayed alone from its totals of the evening before, ends at its totals of that evening. */
  lemma {:induction false} EveryDayAgreesExactlyWhen(b: Book, item: ItemId)
    requires Sound(b) && item < |b.items|
    ensures (forall asOf :: AgreesOnDay(b, item, asOf)) <==> DaysKeepMean(Timeline(b.trades, item))
  {
    var s := Timeline(b.trades, item);
    TimelineIsGood(b, item);
    assert Canonical(b, item);
    DaysArePrefixes(b, item);
    DaysAreEvenings(s);
    EveningsAgreeExactlyWhen(s);
  }

  lemma {:induction false} DaysArePrefixes(b: Book, item: ItemId)
    requires RowsFit(b) && item < |b.items|
    ensures (forall asOf :: AgreesOnDay(b, item, asOf)) <==> EveryDayAgrees(Timeline(b.trades, item))
  {
    forall asOf ensures AgreesOnDay(b, item, asOf) <==> AgreesUpTo(Timeline(b.trades, item), asOf) {
      DayIsPrefix(b, item, asOf);
    }
  }

  // -- days that sell after they buy

  ghost predicate NoBuyAfterSell(ts: seq<Trade>) {
    forall i, j :: 0 <= i < j < |ts| && ts[i].side.Sell? ==> ts[j].side.Sell?
  }

  lemma {:induction false} ThroughBuys(h: Holding, day: seq<Trade>)
    requires forall i :: 0 <= i < |day| ==> day[i].side.Buy?
    ensures Through(h, day) == Holding(h.qty + Sum(day, BoughtQty), h.cost + Sum(day, BoughtAmount))
  {
    if day != [] {
      ThroughBuys(h, day[..|day| - 1]);
    }
  }

  lemma {:induction false} ThroughNets(h: Holding, day: seq<Trade>)
    ensures Through(h, day).qty == h.qty + Net(day)
  {
    if day != [] {
      ThroughNets(h, day[..|day| - 1]);
    }
  }

  ghost predicate Enough(h: Holding, day: seq<Trade>) {
    Through(h, day).qty >= 0.0 && (day != [] ==> Enough(h, day[..|day| - 1]))
  }

  lemma {:induction false} ReplayedHasEnough(eve: seq<Trade>, day: seq<Trade>)
    requires GoodTrades(eve + day) && Replay(eve + day).Some?
    ensures Enough(Shown(eve), day)
    ensures Through(Shown(eve), day).qty == Net(eve + day) >= 0.0
  {
    ReplayQuantityIsNet(eve + day);
    ReplayStaysNonNegative(eve + day);
    ThroughNets(Shown(eve), day);
    SumConcat(eve, day, Signed);
    if day != [] {
      assert (eve + day)[..|eve + day| - 1] == eve + day[..|day| - 1];
      ReplayedHasEnough(eve, day[..|day| - 1]);
    }
  }

  lemma {:induction false} BoughtIsNonNegative(ts: seq<Trade>)
    requires GoodTrades(ts)
    ensures Sum(ts, BoughtQty) >= 0.0 && Sum(ts, BoughtAmount) >= 0.0
    ensures Sum(ts, BoughtQty) == 0.0 ==> Sum(ts, BoughtAmount) == 0.0
  {
    if ts != [] {
      var t := ts[|ts| - 1];
      assert GoodTrade(t);
      GrossIsPositive(t);
      BoughtIsNonNegative(ts[..|ts| - 1]);
    }
  }

  ghost predicate InProportion(left: Holding, all: Holding) {
    && 0.0 <= left.qty <= all.qty && 0.0 <= left.cost
    && (left.qty == 0.0 ==> left.cost == 0.0)
    && (left.qty > 0.0 ==> Average(left) == Average(all))
  }

  /** Buying first, a day sells at the average of all it then has. */
  lemma {:induction false} ThroughKeepsProportion(h: Holding, day: seq<Trade>)
    requires GoodTrades(day) && NoBuyAfterSell(day) && Enough(h, day)
    requires h.qty >= 0.0 && h.cost >= 0.0 && (h.qty == 0.0 ==> h.cost == 0.0)
    ensures InProportion(Through(h, day), Holding(h.qty + Sum(day, BoughtQty), h.cost + Sum(day, BoughtAmount)))
  {
    if day != [] {
      var rest, t := day[..|day| - 1], day[|day| - 1];
      assert GoodTrade(t);
      if t.side.Sell? {
        ThroughKeepsProportion(h, rest);
        SellKeepsProportion(Through(h, rest), t.quantity);
      } else {
        ThroughBuys(h, day);
        BoughtIsNonNegative(day);
      }
    }
  }

  /** With q of b shares left at the mean, amount paid for b, and g for x more: what is left of them all is at
      the new mean exactly when nothing had been sold, or the x were bought at the mean, or nothing is left. */
  lemma {:induction false} LeftAtTheMean(q: real, b: real, amount: real, x: real, g: real, left: Holding)
    requires 0.0 <= q <= b && 0.0 <= x
    requires (b == 0.0 ==> amount == 0.0) && (x == 0.0 ==> g == 0.0)
    requires InProportion(left, Holding(q + x, Gross(q, MeanCost(amount, b)) + g))
    ensures left.cost == Gross(left.qty, MeanCost(amount + g, b + x))
            <==> q == b || g == Gross(x, MeanCost(amount, b)) || left.qty == 0.0
  {
    if left.qty > 0.0 {
      var mean := MeanCost(amount, b);
      var all := Holding(q + x, Gross(q, mean) + g);
      MeanOfHolding(left.qty, left.cost, MeanCost(amount + g, b + x));
      MeanOfBought(b, amount);
      if q < b && x > 0.0 {
        if q > 0.0 {
          MeanOfHolding(q, Gross(q, mean), mean);
        }
        AddingAtTheMean(q, Gross(q, mean), b, amount, x, g);
        MeanOfHolding(x, g, mean);
      } else if q < b {
        MeanOfHolding(q, Gross(q, mean), mean);
      }
    }
  }

  lemma MeanOfBought(b: real, amount: real)
    requires b >= 0.0 && (b == 0.0 ==> amount == 0.0)
    ensures Gross(b, MeanCost(amount, b)) == amount
  {
  }

  lemma {:induction false} NetIsBoughtLessSold(ts: seq<Trade>)
    ensures Net(ts) == Sum(ts, BoughtQty) - Sum(ts, SoldQty)
  {
    if ts != [] {
      NetIsBoughtLessSold(ts[..|ts| - 1]);
    }
  }

  /** Nothing had been sold before the day, or what it buys costs together what as many shares bought before
      did on average, or it leaves nothing. */
  ghost predicate DayRebuysAtTheMean(eve: seq<Trade>, day: seq<Trade>) {
    || Sum(eve, SoldQty) == 0.0
    || Sum(day, BoughtAmount) == Gross(Sum(day, BoughtQty), MeanSoFar(eve))
    || Net(eve + day) == 0.0
  }

  /** That is what a day must do that sells only after it has bought. */
  lemma {:induction false} BuyingFirstKeepsMeanExactlyWhen(eve: seq<Trade>, day: seq<Trade>)
    requires GoodTrades(eve + day) && Replay(eve + day).Some? && NoBuyAfterSell(day)
    ensures DayKeepsMean(eve, day) <==> DayRebuysAtTheMean(eve, day)
  {
    GoodParts(eve, day);
    ReplayedHasEnough(eve, day);
    EveIsHeld(eve, day);
    ThroughKeepsProportion(Shown(eve), day);
    BoughtIsNonNegative(eve);
    BoughtIsNonNegative(day);
    SoldIsNonNegative(eve);
    NetIsBoughtLessSold(eve);
    SumConcat(eve, day, BoughtQty);
    SumConcat(eve, day, BoughtAmount);
    LeftAtTheMean(
      Net(eve), Sum(eve, BoughtQty), Sum(eve, BoughtAmount), Sum(day, BoughtQty), Sum(day, BoughtAmount),
      Through(Shown(eve), day));
  }

  lemma GoodParts(eve: seq<Trade>, day: seq<Trade>)
    requires GoodTrades(eve + day)
    ensures GoodTrades(eve) && GoodTrades(day)
  {
    assert forall i :: 0 <= i < |eve| ==> (eve + day)[i] == eve[i];
    assert forall i :: 0 <= i < |day| ==> (eve + day)[|eve| + i] == day[i];
  }

  lemma {:induction false} EveIsHeld(eve: seq<Trade>, day: seq<Trade>)
    requires GoodTrades(eve + day) && Replay(eve + day).Some?
    ensures Shown(eve).qty >= 0.0 && Shown(eve).cost >= 0.0 && (Shown(eve).qty == 0.0 ==> Shown(eve).cost == 0.0)
  {
    GoodParts(eve, day);
    PrefixMustReplay(eve + day, |eve|);
    assert (eve + day)[..|eve|] == eve;
    ReplayQuantityIsNet(eve);
    ReplayStaysNonNegative(eve);
    BoughtIsNonNegative(eve);
    NonNegativeProduct(Net(eve), MeanSoFar(eve));
  }

  lemma NonNegativeProduct(x: real, y: real)
    requires x >= 0.0 && y >= 0.0
    ensures Gross(x, y) >= 0.0 && (x == 0.0 ==> Gross(x, y) == 0.0)
  {
  }

  ghost predicate DaysBuyFirst(ts: seq<Trade>)
    decreases |ts|
  {
    ts != [] ==> DaysBuyFirst(Eve(ts)) && NoBuyAfterSell(ts[|Eve(ts)|..])
  }

  ghost predicate DaysRebuyAtTheMean(ts: seq<Trade>)
    decreases |ts|
  {
    ts != [] ==> DaysRebuyAtTheMean(Eve(ts)) && DayRebuysAtTheMean(Eve(ts), ts[|Eve(ts)|..])
  }

  lemma {:induction false} BuyingFirstDaysKeepMean(ts: seq<Trade>)
    requires GoodTrades(ts) && Replay(ts).Some? && DaysBuyFirst(ts)
    ensures DaysKeepMean(ts) <==> DaysRebuyAtTheMean(ts)
    decreases |ts|
  {
    if ts != [] {
      var eve, day := Eve(ts), ts[|Eve(ts)|..];
      assert eve == ts[..|eve|] && eve + day == ts;
      PrefixMustReplay(ts, |eve|);
      BuyingFirstDaysKeepMean(eve);
      BuyingFirstKeepsMeanExactlyWhen(eve, day);
    }
  }

  /** So for an item whose days sell only after they have bought no replay is needed to tell: totals per day do. */
  lemma {:induction false} BuyingFirstDaysAgreeExactlyWhen(b: Book, item: ItemId)
    requires Sound(b) && item < |b.items| && DaysBuyFirst(Timeline(b.trades, item))
    ensures (forall asOf :: AgreesOnDay(b, item, asOf)) <==> DaysRebuyAtTheMean(Timeline(b.trades, item))
  {
    EveryDayAgreesExactlyWhen(b, item);
    TimelineIsGood(b, item);
    assert Canonical(b, item);
    BuyingFirstDaysKeepMean(Timeline(b.trades, item));
  }

  // -- one trade a day

  ghost predicate DistinctDates(s: seq<Trade>) {
    forall i, j :: 0 <= i < j < |s| ==> s[i].date != s[j].date
  }

  lemma {:induction false} EveOfSingle(ts: seq<Trade>)
    requires Ordered(ts) && DistinctDates(ts) && ts != []
    ensures Eve(ts) == ts[..|ts| - 1]
  {
    var n := |ts| - 1;
    if n > 0 {
      assert Earlier(ts[n - 1], ts[n]) && ts[n - 1].date != ts[n].date;
      assert UpTo(ts[..n], ts[n].date - 1) == ts[..n];
    }
  }

  lemma {:induction false} SingleKeepsMeanExactlyWhen(eve: seq<Trade>, t: Trade)
    requires GoodTrades(eve + [t]) && Replay(eve + [t]).Some? && GoodTrade(t)
    ensures DayKeepsMean(eve, [t]) <==> BoughtAtTheMean(eve, t)
  {
    var day := [t];
    BuyingFirstKeepsMeanExactlyWhen(eve, day);
    GoodParts(eve, day);
    SoldIsNonNegative(eve);
    SumOneMore([], t, BoughtQty);
    SumOneMore([], t, BoughtAmount);
    assert [] + [t] == day;
    if t.side.Buy? {
      MeanOfHolding(t.quantity, BoughtAmount(t), MeanSoFar(eve));
      EveIsHeld(eve, day);
      SumOneMore(eve, t, Signed);
    }
  }

  /** With one trade a day, days keep the mean exactly when every BUY after a SELL is made at the mean. */
  lemma {:induction false} SingleTradesKeepMeanExactlyWhen(ts: seq<Trade>)
    requires GoodTrades(ts) && Replay(ts).Some? && Ordered(ts) && DistinctDates(ts)
    ensures DaysKeepMean(ts) <==> RebuysAtTheMean(ts)
    decreases |ts|
  {
    if ts != [] {
      var n := |ts| - 1;
      EveOfSingle(ts);
      SingleTradesKeepMeanExactlyWhen(ts[..n]);
      assert ts == ts[..n] + [ts[n]] && ts[n..] == [ts[n]];
      assert GoodTrade(ts[n]);
      SingleKeepsMeanExactlyWhen(ts[..n], ts[n]);
      OneTradeLonger(ts);
    }
  }

  lemma {:induction false} OnlySellsSell(ts: seq<Trade>)
    requires forall i :: 0 <= i < |ts| ==> ts[i].side.Buy?
    ensures Sum(ts, SoldQty) == 0.0
  {
    if ts != [] {
      OnlySellsSell(ts[..|ts| - 1]);
    }
  }

  /** In particular as long as no BUY follows a SELL. */
  lemma {:induction false} MeanIsMovingAverageBeforeRebuying(b: Book, item: ItemId, asOf: int)
    requires Sound(b) && item < |b.items| && NoBuyAfterSell(UpTo(Timeline(b.trades, item), asOf))
    ensures AgreesOnDay(b, item, asOf)
  {
    var p := UpTo(Timeline(b.trades, item), asOf);
    RebuyingAtTheMeanAgrees(b, item, asOf);
    forall k | 0 <= k < |p| ensures BoughtAtTheMean(p[..k], p[k]) {
      if p[k].side.Buy? {
        OnlySellsSell(p[..k]);
      }
    }
  }

  /** So any BUY off the mean after a SELL separates them, as here: buy 2 at 100, sell 1, buy 1 at 200 leaves
      the replay at 150 and the aggregate at 400/3. */
  lemma {:induction false} RebuyingSeparatesTheAverages() returns (ts: seq<Trade>)
    ensures GoodTrades(ts) && Replay(ts).Some? && Replay(ts).value.qty > 0.0
    ensures !RebuysAtTheMean(ts) && !Agrees(ts)
  {
    var b0 := Trade(0, 0, 0, Buy, 2.0, 100.0, 0.0, 1, true, None, None);
    var s1 := Trade(1, 0, 0, Sell, 1.0, 150.0, 0.0, 2, true, None, None);
    var b2 := Trade(2, 0, 0, Buy, 1.0, 200.0, 0.0, 3, true, None, None);
    var p1, p2 := [b0], [b0, s1];
    assert p1[..0] == [] && p2[..1] == p1;
    assert Replay(p1) == Some(Holding(2.0, 200.0));
    assert Replay(p2) == Some(Holding(1.0, 100.0));
    assert Sum(p1, SoldQty) == 0.0 && Sum(p1, BoughtQty) == 2.0 && Sum(p1, BoughtAmount) == 200.0;
    assert Sum(p2, SoldQty) == 1.0 && Sum(p2, BoughtQty) == 2.0 && Sum(p2, BoughtAmount) == 200.0;
    ts := p2 + [b2];
    assert ts[..2] == p2;
    RebuyAgreesExactlyAtTheMean(p2, b2);
  }
}
