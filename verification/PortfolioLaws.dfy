/** What the trade commands promise over whole books: acceptance, independence of history, conservation. */
module PortfolioLaws {
  import opened Money
  import opened Sums
  import opened Tables
  import opened TradeReplay
  import opened TradeTimeline
  import opened Portfolio

  // ---- acceptance ----

  /** A recalculation fails exactly when some prefix of the timeline is short; the later check of the
      final quantity never decides anything. */
  lemma {:induction false} RecalcAcceptedExactly(b: Book, item: ItemId)
    requires RowsFit(b) && item < |b.items|
    ensures Recalc(b, item).Ok? <==> NeverShort(Timeline(b.trades, item))
    ensures Replay(Timeline(b.trades, item)).Some? ==> Recalc(b, item).Ok?
  {
    var s := Timeline(b.trades, item);
    TimelineIsGood(b, item);
    AcceptedExactlyWhenNeverShort(s);
    if Replay(s).Some? {
      ReplayStaysNonNegative(s);
    }
  }

  lemma NetOfSplice(s: seq<Trade>, k: nat, t: Trade, j: nat)
    requires k <= |s| && j <= |s| + 1
    ensures Net((s[..k] + [t] + s[k..])[..j]) == if j <= k then Net(s[..j]) else Net(s[..j - 1]) + Signed(t)
  {
    var u := s[..k] + [t] + s[k..];
    if j <= k {
      assert u[..j] == s[..j];
    } else {
      assert u[..j] == s[..k] + [t] + s[k..j - 1];
      SumConcat(s[..k] + [t], s[k..j - 1], Signed);
      SumConcat(s[..k], [t], Signed);
      SumConcat(s[..k], s[k..j - 1], Signed);
      assert s[..j - 1] == s[..k] + s[k..j - 1];
      assert [t][..0] == [];
      assert Sum([t], Signed) == Signed(t);
    }
  }

  /** A trade slipped in at position k shifts every holding from k on. */
  lemma NeverShortSpliced(s: seq<Trade>, k: nat, t: Trade)
    requires k <= |s|
    ensures NeverShort(s[..k] + [t] + s[k..]) <==>
            && (forall j :: 0 <= j <= k ==> Net(s[..j]) >= 0.0)
            && (forall j :: k <= j <= |s| ==> Net(s[..j]) + Signed(t) >= 0.0)
  {
    var u := s[..k] + [t] + s[k..];
    if NeverShort(u) {
      forall j | 0 <= j <= k ensures Net(s[..j]) >= 0.0 {
        NetOfSplice(s, k, t, j);
        assert Net(u[..j]) >= 0.0;
      }
      forall j | k <= j <= |s| ensures Net(s[..j]) + Signed(t) >= 0.0 {
        NetOfSplice(s, k, t, j + 1);
        assert Net(u[..j + 1]) >= 0.0;
      }
    } else {
      var j :| 0 <= j <= |u| && Net(u[..j]) < 0.0;
      NetOfSplice(s, k, t, j);
      assert Net(s[..if j <= k then j else j - 1]) + (if j <= k then 0.0 else Signed(t)) < 0.0;
    }
  }

  lemma {:induction false} SoundIsNeverShort(b: Book, item: ItemId)
    requires Sound(b) && item < |b.items|
    ensures NeverShort(Timeline(b.trades, item))
    ensures b.items[item].quantity == Net(Timeline(b.trades, item))
  {
    var s := Timeline(b.trades, item);
    assert Canonical(b, item);
    TimelineIsGood(b, item);
    AcceptedExactlyWhenNeverShort(s);
    ReplayQuantityIsNet(s);
  }

  /** A BUY on a live item is never rejected, however far back it is dated. */
  lemma BuyIsNeverRejected(b: Book, item: ItemId, o: Order)
    requires Sound(b) && Live(b, item) && GoodOrder(o)
    ensures Apply(b, BuyShares(item, o)).Ok?
  {
    var t := NewTrade(b, item, Buy, o);
    var s := Timeline(b.trades, item);
    AppendedFits(b, item, t);
    SoundIsNeverShort(b, item);
    NeverShortSpliced(s, Rank(t, s), t);
    RecalcAcceptedExactly(b.(trades := b.trades + [t]), item);
  }

  /** The smallest holding from a date on, as a condition on one order. */
  ghost predicate FitsFromThenOn(s: seq<Trade>, t: Trade) {
    forall j :: Rank(t, s) <= j <= |s| ==> t.quantity <= Net(s[..j])
  }

  /** A SELL is accepted exactly when the item is live and the shares are there from its date on. */
  lemma {:induction false} SellAcceptedExactly(b: Book, item: ItemId, o: Order)
    requires Sound(b) && GoodOrder(o)
    ensures Apply(b, SellShares(item, o)).Ok? <==>
            Live(b, item) && FitsFromThenOn(Timeline(b.trades, item), NewTrade(b, item, Sell, o))
  {
    if Live(b, item) {
      var t := NewTrade(b, item, Sell, o);
      AppendedFits(b, item, t);
      SoundIsNeverShort(b, item);
      RecalcAcceptedExactly(b.(trades := b.trades + [t]), item);
      SellFitsExactly(Timeline(b.trades, item), t);
    }
  }

  lemma {:induction false} SellFitsExactly(s: seq<Trade>, t: Trade)
    requires NeverShort(s) && t.side.Sell? && t.quantity > 0.0
    ensures NeverShort(Insert(t, s)) <==> FitsFromThenOn(s, t)
    ensures FitsFromThenOn(s, t) ==> t.quantity <= Net(s)
  {
    NeverShortSpliced(s, Rank(t, s), t);
    assert s[..|s|] == s;
    if FitsFromThenOn(s, t) {
      assert t.quantity <= Net(s[..|s|]);
    }
  }

  /** A SELL dated no earlier than any active trade is accepted exactly when it fits the stored quantity. */
  lemma LatestSellAcceptedExactly(b: Book, item: ItemId, o: Order)
    requires Sound(b) && GoodOrder(o) && Live(b, item)
    requires forall t :: t in b.trades && ActiveOf(t, item) ==> t.date <= o.date
    ensures Apply(b, SellShares(item, o)).Ok? <==> o.quantity <= b.items[item].quantity
  {
    var t := NewTrade(b, item, Sell, o);
    var s := Timeline(b.trades, item);
    LatestGoesLast(b, item, t);
    SellAcceptedExactly(b, item, o);
    SoundIsNeverShort(b, item);
    assert s[..|s|] == s;
  }

  lemma {:induction false} LatestGoesLast(b: Book, item: ItemId, t: Trade)
    requires RowsFit(b) && t.reg == |b.trades|
    requires forall x :: x in b.trades && ActiveOf(x, item) ==> x.date <= t.date
    ensures Rank(t, Timeline(b.trades, item)) == |Timeline(b.trades, item)|
  {
    var s := Timeline(b.trades, item);
    TimelineMembers(b.trades, item);
    assert s != [] ==> s[|s| - 1] in s;
  }

  // ---- deleting a trade ----

  lemma TimelineWithout(b: Book, reg: nat) returns (k: nat)
    requires Sound(b) && reg < |b.trades| && b.trades[reg].active
    ensures var t := b.trades[reg];
            var s := Timeline(b.trades, t.item);
            k < |s| && s[k] == t &&
            Timeline(b.trades[reg := t.(active := false)], t.item) == s[..k] + s[k + 1..]
  {
    var t := b.trades[reg];
    var s := Timeline(b.trades, t.item);
    var trades := b.trades[reg := t.(active := false)];
    var rest := Timeline(trades, t.item);
    TimelineMembers(b.trades, t.item);
    TimelineMembers(trades, t.item);
    TimelineOrdered(b.trades, t.item);
    TimelineOrdered(trades, t.item);
    assert t in b.trades && t in s;
    k :| 0 <= k < |s| && s[k] == t;
    var cut := s[..k] + s[k + 1..];
    CutMembers(s, k);
    forall x ensures x in rest <==> x in cut {
      if x in trades && ActiveOf(x, t.item) {
        var j :| 0 <= j < |trades| && trades[j] == x;
        assert j != reg && b.trades[j] == x && x != t;
        assert x in b.trades;
      }
      if x in b.trades && x != t {
        var j :| 0 <= j < |b.trades| && b.trades[j] == x;
        assert trades[j] == x;
      }
    }
    OrderedIsUnique(rest, cut);
  }

  lemma CutMembers(s: seq<Trade>, k: nat)
    requires Ordered(s) && k < |s|
    ensures Ordered(s[..k] + s[k + 1..])
    ensures forall x :: x in s[..k] + s[k + 1..] <==> x in s && x != s[k]
  {
    var cut := s[..k] + s[k + 1..];
    forall i | 0 <= i < |cut| ensures cut[i] in s && cut[i] != s[k] {
      var j := if i < k then i else i + 1;
      assert cut[i] == s[j];
    }
    forall x | x in s && x != s[k] ensures x in cut {
      var j :| 0 <= j < |s| && s[j] == x;
      assert cut[if j < k then j else j - 1] == x;
    }
  }

  lemma CutSellIsNeverShort(s: seq<Trade>, k: nat)
    requires NeverShort(s) && k < |s| && s[k].side.Sell? && s[k].quantity > 0.0
    ensures NeverShort(s[..k] + s[k + 1..])
  {
    var cut := s[..k] + s[k + 1..];
    assert s == cut[..k] + [s[k]] + cut[k..];
    NeverShortSpliced(cut, k, s[k]);
  }

  /** Deleting a SELL is never rejected. */
  lemma DroppedSellIsNeverRejected(b: Book, reg: nat)
    requires Sound(b) && reg < |b.trades| && b.trades[reg].active && b.trades[reg].side.Sell?
    ensures Apply(b, DropTrade(reg)).Ok?
  {
    var t := b.trades[reg];
    var s := Timeline(b.trades, t.item);
    var k := TimelineWithout(b, reg);
    SoundIsNeverShort(b, t.item);
    CutSellIsNeverShort(s, k);
    RecalcAcceptedExactly(b.(trades := b.trades[reg := t.(active := false)]), t.item);
  }

  /** A drop or an edit is accepted exactly when the changed timeline is never short. */
  lemma RowChangeAcceptedExactly(b: Book, c: Command)
    requires Sound(b) && Admitted(c) && (c.EditTrade? || c.DropTrade?)
    requires c.reg < |b.trades| && b.trades[c.reg].active
    ensures var t := b.trades[c.reg];
            var t' := if c.EditTrade? then Changed(t, c.change) else t.(active := false);
            Apply(b, c).Ok? <==> NeverShort(Timeline(b.trades[c.reg := t'], t.item))
  {
    var t := b.trades[c.reg];
    var t' := if c.EditTrade? then Changed(t, c.change) else t.(active := false);
    RecalcAcceptedExactly(b.(trades := b.trades[c.reg := t']), t.item);
  }

  // ---- the stored state depends on the active trades alone ----

  /** What the user entered: neither stamps nor results, and not which item it is. */
  function Bare(): Trade -> Trade {
    (t: Trade) => t.(reg := 0, item := 0, account := 0, pnl := None, basis := None)
  }

  /** The trades of one day, in the order of entry. */
  function OnDay(s: seq<Trade>, day: int): seq<Trade> {
    if s == [] then []
    else
      var n := |s| - 1;
      if s[n].date == day then OnDay(s[..n], day) + [s[n]] else OnDay(s[..n], day)
  }

  /** Day by day the same trades were entered, in the same order within the day; in what order the days were
      filled, and what else was entered in between, is open. */
  ghost predicate SameDays(s: seq<Trade>, u: seq<Trade>) {
    forall day :: MapRows(OnDay(s, day), Bare()) == MapRows(OnDay(u, day), Bare())
  }

  lemma {:induction false} OnDayMembers(s: seq<Trade>, day: int)
    ensures forall t :: t in OnDay(s, day) <==> t in s && t.date == day
  {
    if s != [] {
      OnDayMembers(s[..|s| - 1], day);
      assert s == s[..|s| - 1] + [s[|s| - 1]];
    }
  }

  /** The last day of one timeline is no later than the last day of the other. */
  lemma LastDayCovered(s: seq<Trade>, u: seq<Trade>)
    requires Ordered(u) && SameDays(s, u) && s != []
    ensures u != [] && s[|s| - 1].date <= u[|u| - 1].date
  {
    var day := s[|s| - 1].date;
    OnDayMembers(s, day);
    OnDayMembers(u, day);
    assert s[|s| - 1] in OnDay(s, day);
    assert |MapRows(OnDay(s, day), Bare())| == |MapRows(OnDay(u, day), Bare())|;
    var t := OnDay(u, day)[0];
    assert t in OnDay(u, day);
    var k :| 0 <= k < |u| && u[k] == t;
    assert k < |u| - 1 ==> Earlier(u[k], u[|u| - 1]);
  }

  lemma SameLast(s: seq<Trade>, u: seq<Trade>)
    requires SameDays(s, u) && s != [] && u != [] && s[|s| - 1].date == u[|u| - 1].date
    ensures Bare()(s[|s| - 1]) == Bare()(u[|u| - 1])
    ensures SameDays(s[..|s| - 1], u[..|u| - 1])
  {
    var m, n, day := |s| - 1, |u| - 1, s[|s| - 1].date;
    var p, q := OnDay(s[..m], day), OnDay(u[..n], day);
    assert OnDay(s, day) == p + [s[m]] && OnDay(u, day) == q + [u[n]];
    assert MapRows(OnDay(s, day), Bare()) == MapRows(OnDay(u, day), Bare());
    assert |MapRows(p + [s[m]], Bare())| == |MapRows(q + [u[n]], Bare())|;
    assert MapRows(p + [s[m]], Bare())[|p|] == MapRows(q + [u[n]], Bare())[|q|];
    forall d ensures MapRows(OnDay(s[..m], d), Bare()) == MapRows(OnDay(u[..n], d), Bare()) {
      assert MapRows(OnDay(s, d), Bare()) == MapRows(OnDay(u, d), Bare());
      if d == day {
        assert MapRows(p, Bare()) == MapRows(p + [s[m]], Bare())[..|p|];
        assert MapRows(q, Bare()) == MapRows(q + [u[n]], Bare())[..|q|];
      } else {
        assert OnDay(s, d) == OnDay(s[..m], d) && OnDay(u, d) == OnDay(u[..n], d);
      }
    }
  }

  /** So the timelines agree trade by trade. */
  lemma {:induction false} SameDaysSameTrades(s: seq<Trade>, u: seq<Trade>)
    requires Ordered(s) && Ordered(u) && SameDays(s, u)
    ensures MapRows(s, Bare()) == MapRows(u, Bare())
  {
    if s != [] {
      LastDayCovered(s, u);
      LastDayCovered(u, s);
      SameLast(s, u);
      SameDaysSameTrades(s[..|s| - 1], u[..|u| - 1]);
      assert MapRows(s, Bare()) == MapRows(s[..|s| - 1], Bare()) + [Bare()(s[|s| - 1])];
      assert MapRows(u, Bare()) == MapRows(u[..|u| - 1], Bare()) + [Bare()(u[|u| - 1])];
    } else if u != [] {
      LastDayCovered(u, s);
    }
  }

  /** Two sound books whose items have day by day the same active trades store the same item and the same
      results, whatever commands led there, in whatever order the days were entered, and whatever other rows
      moved the stamps. */
  lemma {:induction false} StateFollowsFromActiveTrades(a: Book, i: ItemId, b: Book, j: ItemId)
    requires Sound(a) && Sound(b) && i < |a.items| && j < |b.items|
    requires SameDays(Timeline(a.trades, i), Timeline(b.trades, j))
    ensures a.items[i].quantity == b.items[j].quantity && a.items[i].avgPrice == b.items[j].avgPrice
    ensures Traded(a.trades, i) && Traded(b.trades, j) ==> a.items[i].active == b.items[j].active
    ensures var s, u := Timeline(a.trades, i), Timeline(b.trades, j);
            |s| == |u| && forall k :: 0 <= k < |s| ==>
              SameFacts(s[k], u[k]) && s[k].date == u[k].date
              && (s[k].side.Sell? ==> s[k].pnl == u[k].pnl && s[k].basis == u[k].basis)
  {
    var s, u := Timeline(a.trades, i), Timeline(b.trades, j);
    TimelineIsGood(a, i);
    TimelineIsGood(b, j);
    assert Canonical(a, i) && Canonical(b, j);
    SameDaysSameTrades(s, u);
    assert |MapRows(s, Bare())| == |MapRows(u, Bare())|;
    forall k | 0 <= k < |s| ensures SameFacts(s[k], u[k]) && s[k].date == u[k].date {
      assert MapRows(s, Bare())[k] == MapRows(u, Bare())[k];
    }
    ReplayReadsFacts(s, u);
    SameResults(s, u);
  }

  lemma SameResults(s: seq<Trade>, u: seq<Trade>)
    requires |s| == |u| && Mark(s) == s && Mark(u) == u
    requires forall k :: 0 <= k < |s| ==> SameFacts(s[k], u[k])
    ensures forall k :: 0 <= k < |s| && s[k].side.Sell? ==> s[k].pnl == u[k].pnl && s[k].basis == u[k].basis
  {
    forall k | 0 <= k < |s| && s[k].side.Sell? ensures s[k].pnl == u[k].pnl && s[k].basis == u[k].basis {
      ReplayReadsFacts(s[..k], u[..k]);
      assert s[k] == Mark(s)[k] && u[k] == Mark(u)[k];
    }
  }

  // ---- what is stored, to the cent ----

  lemma {:induction false} SellMeetsEnough(s: seq<Trade>, k: nat)
    requires Replay(s).Some? && k < |s| && s[k].side.Sell?
    ensures s[k].quantity <= Before(s, k).qty
  {
    PrefixMustReplay(s, k + 1);
    PrefixMustReplay(s, k);
    ReplayStep(s, k);
  }

  /** A SELL met at this average holds the cost it released and its result. */
  ghost predicate HoldsResults(t: Trade, avg: real) {
    && t.basis.Some? && NearestAway(t.basis.value, avg * t.quantity)
    && t.pnl.Some? && NearestAway(t.pnl.value, (t.price - avg) * t.quantity - t.fee)
  }

  lemma {:induction false} MarkedIsNearest(h: Holding, avg: real, t: Trade)
    requires t.side.Sell? && t == Marked(h, t) && h.qty > 0.0 && avg == h.cost / h.qty
    ensures HoldsResults(t, avg)
  {
    SellArithmetic(h, avg, t);
    RoundedIsNearest(avg * t.quantity, t.basis.value);
    RoundedIsNearest((t.price - avg) * t.quantity - t.fee, t.pnl.value);
  }

  /** The stored average and results are the nearest cents of what the replay says, ties away from zero. */
  lemma {:induction false} StoredResultsAreNearest(b: Book, item: ItemId, k: nat)
    requires Sound(b) && item < |b.items|
    requires k < |Timeline(b.trades, item)| && Timeline(b.trades, item)[k].side.Sell?
    ensures var s := Timeline(b.trades, item); var h := Before(s, k);
            h.qty > 0.0 && HoldsResults(s[k], h.cost / h.qty)
  {
    var s := Timeline(b.trades, item);
    TimelineIsGood(b, item);
    assert Canonical(b, item) && GoodTrade(s[k]);
    SellMeetsEnough(s, k);
    assert s[k] == Mark(s)[k];
    MarkedIsNearest(Before(s, k), Before(s, k).cost / Before(s, k).qty, s[k]);
  }

  lemma {:induction false} StoredAverageIsNearest(b: Book, item: ItemId)
    requires Sound(b) && item < |b.items|
    ensures var it, held := b.items[item], Replay(Timeline(b.trades, item));
            && held.Some? && it.quantity == held.value.qty
            && NearestAway(it.avgPrice, if it.quantity > 0.0 then held.value.cost / held.value.qty else 0.0)
  {
    assert Canonical(b, item);
    HalfUpIsAway(Average(Replay(Timeline(b.trades, item)).value));
  }

  // ---- what was ordered is what is stored ----

  lemma {:induction false} RecalcKeepsEntries(b: Book, item: ItemId)
    requires item < |b.items| && Recalc(b, item).Ok?
    ensures EntriesKept(b.trades, Recalc(b, item).value.trades)
    ensures ItemsKept(b, Recalc(b, item).value, item)
  {
    var now := Recalc(b, item).value;
    var m := Marker(Timeline(b.trades, item), item);
    forall j | 0 <= j < |b.trades| ensures SameEntry(b.trades[j], now.trades[j]) {
      assert now.trades[j] == m(b.trades[j]);
    }
  }

  /** An accepted order adds one ACTIVE trade with everything the order says, on the item and its account, and
      leaves what was entered before. */
  lemma {:induction false} OrderIsStored(b: Book, item: ItemId, o: Order)
    ensures Apply(b, BuyShares(item, o)).Ok? ==> OrderStored(b, Apply(b, BuyShares(item, o)).value, item, Buy, o)
    ensures Apply(b, SellShares(item, o)).Ok? ==> OrderStored(b, Apply(b, SellShares(item, o)).value, item, Sell, o)
  {
    if Apply(b, BuyShares(item, o)).Ok? {
      RecalcKeepsEntries(b.(trades := b.trades + [NewTrade(b, item, Buy, o)]), item);
    }
    if Apply(b, SellShares(item, o)).Ok? {
      RecalcKeepsEntries(b.(trades := b.trades + [NewTrade(b, item, Sell, o)]), item);
    }
  }

  /** An accepted edit changes exactly the named columns of one trade, an accepted drop its status. */
  lemma {:induction false} ChangeIsStored(b: Book, reg: nat, c: Change)
    ensures Apply(b, EditTrade(reg, c)).Ok? ==> EditStored(b, Apply(b, EditTrade(reg, c)).value, reg, c)
    ensures Apply(b, DropTrade(reg)).Ok? ==> DropStored(b, Apply(b, DropTrade(reg)).value, reg)
  {
    if Apply(b, EditTrade(reg, c)).Ok? {
      RowChangeKeepsEntries(b, reg, Changed(b.trades[reg], c));
    }
    if Apply(b, DropTrade(reg)).Ok? {
      RowChangeKeepsEntries(b, reg, b.trades[reg].(active := false));
    }
  }

  lemma {:induction false} RowChangeKeepsEntries(b: Book, reg: nat, t: Trade)
    requires reg < |b.trades| && AfterRowChange(b, reg, t).Ok?
    ensures EntriesKept(b.trades[reg := t], AfterRowChange(b, reg, t).value.trades)
    ensures ItemsKept(b, AfterRowChange(b, reg, t).value, t.item)
  {
    if t.item < |b.items| {
      RecalcKeepsEntries(b.(trades := b.trades[reg := t]), t.item);
    }
  }

  // ---- conservation over an account ----

  function OnAccount(account: AccountId, f: Trade -> real): Trade -> real {
    (t: Trade) => if t.active && t.account == account then f(t) else 0.0
  }

  function OnItem(item: ItemId, f: Trade -> real): Trade -> real {
    (t: Trade) => if ActiveOf(t, item) then f(t) else 0.0
  }

  function OnItems(items: seq<ItemId>, f: Trade -> real): Trade -> real {
    (t: Trade) => if t.active && t.item in items then f(t) else 0.0
  }

  function ItemTotal(trades: seq<Trade>, f: Trade -> real): ItemId -> real {
    (item: ItemId) => Sum(Timeline(trades, item), f)
  }

  function CostHeld(trades: seq<Trade>): ItemId -> real {
    (item: ItemId) => var r := Replay(Timeline(trades, item)); if r.Some? then r.value.cost else 0.0
  }

  /** Totals over the trades of several items split into the items' own totals. */
  lemma {:induction false} SplitByItem(trades: seq<Trade>, items: seq<ItemId>, f: Trade -> real)
    requires Distinct(items)
    ensures Sum(trades, OnItems(items, f)) == Sum(items, ItemTotal(trades, f))
  {
    if items == [] {
      SumZero(trades, OnItems(items, f));
    } else {
      var n := |items| - 1;
      SplitByItem(trades, items[..n], f);
      TimelineSum(trades, items[n], f, OnItem(items[n], f));
      assert items == items[..n] + [items[n]];
      SumPlus(trades, OnItems(items[..n], f), OnItem(items[n], f), OnItems(items, f));
    }
  }

  /** `items` lists, once each, every item whose trades were booked on the account. */
  ghost predicate ItemsOf(b: Book, account: AccountId, items: seq<ItemId>) {
    && Distinct(items)
    && forall item: ItemId :: item in items <==> item < |b.items| && b.items[item].account == account
  }

  lemma {:induction false} AccountTotal(b: Book, account: AccountId, items: seq<ItemId>, f: Trade -> real)
    requires RowsFit(b) && ItemsOf(b, account, items)
    ensures Sum(b.trades, OnAccount(account, f)) == Sum(items, ItemTotal(b.trades, f))
  {
    SplitByItem(b.trades, items, f);
    SumSame(b.trades, OnAccount(account, f), OnItems(items, f));
  }

  /** The cash an account's trades moved is its stored realised result less the cost it still holds,
      to half a cent for each SELL. */
  lemma {:induction false} AccountConservesCash(b: Book, account: AccountId, items: seq<ItemId>)
    requires Sound(b) && ItemsOf(b, account, items)
    ensures Abs(Sum(b.trades, OnAccount(account, CashMoved))
                - (Sum(b.trades, OnAccount(account, StoredPnl)) - Sum(items, CostHeld(b.trades))))
            <= HalfCents(Sum(b.trades, OnAccount(account, SellCount)))
  {
    AccountTotal(b, account, items, CashMoved);
    AccountTotal(b, account, items, StoredPnl);
    AccountTotal(b, account, items, SellCount);
    assert forall i :: 0 <= i < |items| ==> items[i] in items;
    ItemsConserveCash(b, items);
  }

  lemma {:induction false} ItemConservesCash(b: Book, item: ItemId)
    requires Sound(b) && item < |b.items|
    ensures var t := b.trades;
            Abs(ItemTotal(t, CashMoved)(item) - (ItemTotal(t, StoredPnl)(item) - CostHeld(t)(item)))
            <= HalfCents(ItemTotal(t, SellCount)(item))
  {
    var s := Timeline(b.trades, item);
    assert Canonical(b, item);
    ReplayConservesCash(s);
    SellsAreCounted(s);
  }

  /** What one more item adds keeps the bound. */
  lemma OneMoreTotal(
      items: seq<ItemId>, cash: ItemId -> real, pnl: ItemId -> real, held: ItemId -> real, sells: ItemId -> real)
    requires items != []
    requires var init := items[..|items| - 1];
             Abs(Sum(init, cash) - (Sum(init, pnl) - Sum(init, held))) <= HalfCents(Sum(init, sells))
    requires var x := items[|items| - 1]; Abs(cash(x) - (pnl(x) - held(x))) <= HalfCents(sells(x))
    ensures Abs(Sum(items, cash) - (Sum(items, pnl) - Sum(items, held))) <= HalfCents(Sum(items, sells))
  {
    var init, x := items[..|items| - 1], items[|items| - 1];
    ErrorsAdd(
      Sum(init, cash), Sum(init, pnl) - Sum(init, held), Sum(init, sells), cash(x), pnl(x) - held(x), sells(x));
  }

  lemma {:induction false} ItemsConserveCash(b: Book, items: seq<ItemId>)
    requires Sound(b) && forall i :: 0 <= i < |items| ==> items[i] < |b.items|
    ensures Abs(Sum(items, ItemTotal(b.trades, CashMoved))
                - (Sum(items, ItemTotal(b.trades, StoredPnl)) - Sum(items, CostHeld(b.trades))))
            <= HalfCents(Sum(items, ItemTotal(b.trades, SellCount)))
  {
    if items != [] {
      var n := |items| - 1;
      ItemsConserveCash(b, items[..n]);
      ItemConservesCash(b, items[n]);
      OneMoreTotal(
        items, ItemTotal(b.trades, CashMoved), ItemTotal(b.trades, StoredPnl), CostHeld(b.trades),
        ItemTotal(b.trades, SellCount));
    }
  }
}
