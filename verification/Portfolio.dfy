/** Trade commands: each changes the table, then replays the whole item and stores what the replay says. */
module Portfolio {
  import opened Money
  import opened Tables
  import opened TradeReplay
  import opened TradeTimeline

  datatype Book = Book(items: seq<Item>, trades: seq<Trade>)

  datatype Order = Order(quantity: real, price: real, fee: real, date: int)

  datatype Change = Change(
    quantity: Option<real>, price: Option<real>, fee: Option<real>, date: Option<int>)

  datatype Command =
    | BuyShares(item: ItemId, order: Order)
    | SellShares(item: ItemId, order: Order)
    | EditTrade(reg: nat, change: Change)
    | DropTrade(reg: nat)
    | DropItem(item: ItemId)
    | EditItem(item: ItemId, currentPrice: Option<real>, quote: Option<nat>, archive: Option<bool>)

  // ---- what the request schemas let through ----

  predicate GoodOrder(o: Order) {
    o.quantity > 0.0 && o.price > 0.0 && o.fee >= 0.0
  }

  predicate GoodChange(c: Change) {
    && (c.quantity.Some? ==> c.quantity.value > 0.0)
    && (c.price.Some? ==> c.price.value > 0.0)
    && (c.fee.Some? ==> c.fee.value >= 0.0)
  }

  predicate Admitted(c: Command) {
    match c
    case BuyShares(_, o) => GoodOrder(o)
    case SellShares(_, o) => GoodOrder(o)
    case EditTrade(_, ch) => GoodChange(ch)
    case EditItem(_, p, _, _) => p.Some? ==> p.value >= 0.0
    case _ => true
  }

  // ---- recalculation ----

  /** How many trades of an ordered timeline come before t. */
  function Position(s: seq<Trade>, t: Trade): (k: nat)
    ensures k <= |s|
  {
    if s == [] then 0
    else if Earlier(s[|s| - 1], t) then |s|
    else Position(s[..|s| - 1], t)
  }

  /** The rewrite one replay of timeline s makes on the item's active rows. */
  function Marker(s: seq<Trade>, item: ItemId): Trade -> Trade {
    (t: Trade) =>
      if ActiveOf(t, item) then
        var r := Replay(s[..Position(s, t)]);
        Marked(if r.Some? then r.value else Nothing, t)
      else t
  }

  function Restated(it: Item, h: Holding): Item {
    it.(quantity := h.qty, avgPrice := RoundHalfUp(Average(h)), active := h.qty > 0.0)
  }

  function Recalc(b: Book, item: ItemId): Result<Book>
    requires item < |b.items|
  {
    var s := Timeline(b.trades, item);
    match Replay(s)
    case None => Err(BadRequest)
    case Some(h) =>
      if h.qty < 0.0 then Err(BadRequest)
      else Ok(Book(b.items[item := Restated(b.items[item], h)], MapRows(b.trades, Marker(s, item))))
  }

  // ---- commands ----

  predicate Live(b: Book, item: ItemId) {
    item < |b.items| && b.items[item].active
  }

  function NewTrade(b: Book, item: ItemId, side: Side, o: Order): Trade
    requires item < |b.items|
  {
    Trade(|b.trades|, item, b.items[item].account, side, o.quantity, o.price, o.fee, o.date, true, None, None)
  }

  function Or<T>(o: Option<T>, current: T): T {
    if o.Some? then o.value else current
  }

  function Changed(t: Trade, c: Change): Trade {
    t.(quantity := Or(c.quantity, t.quantity), price := Or(c.price, t.price), fee := Or(c.fee, t.fee),
       date := Or(c.date, t.date))
  }

  function ItemEdited(it: Item, price: Option<real>, quote: Option<nat>, archive: Option<bool>): Item {
    it.(currentPrice := Or(price, it.currentPrice), quote := Or(quote, it.quote), archived := Or(archive, it.archived))
  }

  function AfterRowChange(b: Book, reg: nat, t: Trade): Result<Book>
    requires reg < |b.trades|
  {
    var b1 := b.(trades := b.trades[reg := t]);
    if t.item < |b.items| then Recalc(b1, t.item) else Ok(b1)
  }

  /** An error leaves the book as it was: the request's transaction rolls back. */
  function Apply(b: Book, c: Command): Result<Book> {
    match c
    case BuyShares(item, o) =>
      if !Live(b, item) then Err(NotFound)
      else Recalc(b.(trades := b.trades + [NewTrade(b, item, Buy, o)]), item)
    case SellShares(item, o) =>
      if !Live(b, item) then Err(NotFound)
      else if o.quantity > b.items[item].quantity then Err(BadRequest)
      else Recalc(b.(trades := b.trades + [NewTrade(b, item, Sell, o)]), item)
    case EditTrade(reg, ch) =>
      if reg >= |b.trades| || !b.trades[reg].active then Err(NotFound)
      else AfterRowChange(b, reg, Changed(b.trades[reg], ch))
    case DropTrade(reg) =>
      if reg >= |b.trades| || !b.trades[reg].active then Err(NotFound)
      else AfterRowChange(b, reg, b.trades[reg].(active := false))
    case DropItem(item) =>
      if !Live(b, item) then Err(NotFound)
      else if b.items[item].quantity > 0.0 then Err(HasHoldings)
      else Ok(b.(items := b.items[item := b.items[item].(active := false)]))
    case EditItem(item, p, q, a) =>
      if !Live(b, item) then Err(NotFound)
      else if a == Some(true) && b.items[item].quantity > 0.0 then Err(HasHoldings)
      else
        var it := b.items[item];
        Ok(b.(items := b.items[item := ItemEdited(it, p, q, a)]))
  }

  /** create_portfolio: an empty item on the account; items are only appended. */
  function AddItem(b: Book, account: AccountId, currentPrice: real, quote: nat): Book {
    b.(items := b.items + [Item(account, 0.0, 0.0, currentPrice, quote, false, true)])
  }

  function Retire(account: AccountId): Trade -> Trade {
    (t: Trade) => if t.account == account && t.active then t.(active := false) else t
  }

  /** The trade part of deleting an account. */
  function CloseTrades(b: Book, account: AccountId): Book {
    b.(trades := MapRows(b.trades, Retire(account)))
  }

  // ---- what a command leaves of what users entered ----

  /** The same up to the results of a replay. */
  predicate SameEntry(t: Trade, u: Trade) {
    t.(pnl := None, basis := None) == u.(pnl := None, basis := None)
  }

  ghost predicate EntriesKept(was: seq<Trade>, now: seq<Trade>) {
    |now| == |was| && forall j :: 0 <= j < |was| ==> SameEntry(was[j], now[j])
  }

  /** Of the items only one may change, and of it only quantity, average and status. */
  ghost predicate ItemsKept(was: Book, now: Book, item: ItemId) {
    && |now.items| == |was.items|
    && forall i :: 0 <= i < |was.items| ==>
         if i == item then
           var it := was.items[i];
           now.items[i] == it.(
             quantity := now.items[i].quantity, avgPrice := now.items[i].avgPrice, active := now.items[i].active)
         else now.items[i] == was.items[i]
  }

  ghost predicate OrderStored(was: Book, now: Book, item: ItemId, side: Side, o: Order) {
    && item < |was.items| && ItemsKept(was, now, item)
    && |now.trades| == |was.trades| + 1 && EntriesKept(was.trades, now.trades[..|was.trades|])
    && var t := now.trades[|was.trades|];
       && t.active && t.side == side && t.item == item && t.account == was.items[item].account
       && t.quantity == o.quantity && t.price == o.price && t.fee == o.fee && t.date == o.date
       && t.reg == |was.trades|
  }

  predicate Takes<T(==)>(now: T, asked: Option<T>, was: T) {
    match asked
    case Some(x) => now == x
    case None => now == was
  }

  ghost predicate OthersKept(was: Book, now: Book, reg: nat) {
    && reg < |was.trades| == |now.trades| && ItemsKept(was, now, was.trades[reg].item)
    && forall j :: 0 <= j < |was.trades| && j != reg ==> SameEntry(was.trades[j], now.trades[j])
  }

  ghost predicate EditStored(was: Book, now: Book, reg: nat, c: Change) {
    && OthersKept(was, now, reg)
    && var t, u := was.trades[reg], now.trades[reg];
       && Takes(u.quantity, c.quantity, t.quantity) && Takes(u.price, c.price, t.price)
       && Takes(u.fee, c.fee, t.fee) && Takes(u.date, c.date, t.date)
       && u.item == t.item && u.account == t.account && u.side == t.side && u.active == t.active && u.reg == t.reg
  }

  ghost predicate DropStored(was: Book, now: Book, reg: nat) {
    OthersKept(was, now, reg) && was.trades[reg].active && SameEntry(now.trades[reg], was.trades[reg].(active := false))
  }

  // ---- the invariant: every item says what a replay of its active trades says ----

  ghost predicate Traded(trades: seq<Trade>, item: ItemId) {
    exists j :: 0 <= j < |trades| && trades[j].item == item
  }

  ghost predicate Canonical(b: Book, item: ItemId)
    requires item < |b.items|
  {
    var s, it := Timeline(b.trades, item), b.items[item];
    && Replay(s).Some?
    && it.quantity == Replay(s).value.qty
    && it.avgPrice == RoundHalfUp(Average(Replay(s).value))
    && Mark(s) == s
    && (it.quantity > 0.0 ==> it.active)
    && (Traded(b.trades, item) && it.active ==> it.quantity > 0.0)
  }

  ghost predicate RowsFit(b: Book) {
    && Stamped(b.trades)
    && forall j :: 0 <= j < |b.trades| ==>
         && GoodTrade(b.trades[j])
         && b.trades[j].item < |b.items|
         && b.trades[j].account == b.items[b.trades[j].item].account
  }

  ghost predicate Sound(b: Book) {
    && RowsFit(b)
    && forall item :: 0 <= item < |b.items| ==> Canonical(b, item)
  }

  lemma {:induction false} TimelineIsGood(b: Book, item: ItemId)
    requires RowsFit(b)
    ensures GoodTrades(Timeline(b.trades, item)) && Ordered(Timeline(b.trades, item))
  {
    var s := Timeline(b.trades, item);
    TimelineOrdered(b.trades, item);
    TimelineMembers(b.trades, item);
    forall i | 0 <= i < |s| ensures GoodTrade(s[i]) {
      assert s[i] in s;
    }
  }

  // ---- recalculation re-establishes the invariant for its item and touches no other ----

  lemma {:induction false} PositionInTimeline(s: seq<Trade>, k: nat)
    requires Ordered(s) && k < |s|
    ensures Position(s, s[k]) == k
  {
    var n := |s| - 1;
    if k < n {
      PositionInTimeline(s[..n], k);
    } else {
      PositionPastEarlier(s[..n], s[n]);
    }
  }

  lemma {:induction false} PositionPastEarlier(s: seq<Trade>, t: Trade)
    requires forall i :: 0 <= i < |s| ==> Earlier(s[i], t)
    ensures Position(s, t) == |s|
  {
  }

  lemma {:induction false} MarkerMarks(b: Book, item: ItemId)
    requires RowsFit(b)
    ensures var s := Timeline(b.trades, item);
            Timeline(MapRows(b.trades, Marker(s, item)), item) == Mark(s)
  {
    var s := Timeline(b.trades, item);
    var m := Marker(s, item);
    TimelineOrdered(b.trades, item);
    TimelineMembers(b.trades, item);
    TimelineOfRewritten(b.trades, m, item);
    forall k | 0 <= k < |s| ensures m(s[k]) == Mark(s)[k] {
      assert s[k] in s;
      PositionInTimeline(s, k);
    }
  }

  lemma RecalcFits(b: Book, item: ItemId)
    requires RowsFit(b) && item < |b.items| && Recalc(b, item).Ok?
    ensures RowsFit(Recalc(b, item).value)
  {
    var s := Timeline(b.trades, item);
    MarkKeepsFacts(s);
  }

  lemma RecalcIsCanonical(b: Book, item: ItemId)
    requires RowsFit(b) && item < |b.items| && Recalc(b, item).Ok?
    ensures RowsFit(Recalc(b, item).value)
    ensures Canonical(Recalc(b, item).value, item)
  {
    var s := Timeline(b.trades, item);
    RecalcFits(b, item);
    MarkerMarks(b, item);
    MarkKeepsFacts(s);
    MarkIsStable(s);
  }

  lemma {:induction false} RecalcLeavesOthers(b: Book, item: ItemId, other: ItemId)
    requires item < |b.items| && Recalc(b, item).Ok? && other != item
    ensures var b' := Recalc(b, item).value;
            && Timeline(b'.trades, other) == Timeline(b.trades, other)
            && (Traded(b'.trades, other) <==> Traded(b.trades, other))
  {
    var b' := Recalc(b, item).value;
    assert forall j :: 0 <= j < |b.trades| ==> b'.trades[j].item == b.trades[j].item;
    TimelineIgnores(b.trades, b'.trades, other);
  }

  /** Changing rows of one item and replaying it keeps a sound book sound. */
  lemma {:induction false} ReplayRepairs(b: Book, trades: seq<Trade>, item: ItemId)
    requires Sound(b) && item < |b.items|
    requires RowsFit(b.(trades := trades))
    requires forall other :: other != item ==> Timeline(trades, other) == Timeline(b.trades, other)
    requires forall other :: other != item && Traded(trades, other) ==> Traded(b.trades, other)
    requires Recalc(b.(trades := trades), item).Ok?
    ensures Sound(Recalc(b.(trades := trades), item).value)
  {
    var b1 := b.(trades := trades);
    var b2 := Recalc(b1, item).value;
    RecalcIsCanonical(b1, item);
    forall other | 0 <= other < |b2.items| ensures Canonical(b2, other) {
      if other != item {
        RecalcLeavesOthers(b1, item, other);
        assert Canonical(b, other);
      }
    }
  }

  lemma ApplyKeepsSound(b: Book, c: Command)
    requires Sound(b) && Admitted(c) && Apply(b, c).Ok?
    ensures Sound(Apply(b, c).value)
  {
    match c
    case BuyShares(item, o) => AppendKeepsSound(b, item, NewTrade(b, item, Buy, o));
    case SellShares(item, o) => AppendKeepsSound(b, item, NewTrade(b, item, Sell, o));
    case EditTrade(reg, ch) => ChangeKeepsSound(b, reg, Changed(b.trades[reg], ch));
    case DropTrade(reg) => ChangeKeepsSound(b, reg, b.trades[reg].(active := false));
    case DropItem(item) => ItemEditKeepsSound(b, item, b.items[item].(active := false));
    case EditItem(item, p, q, a) =>
      var it := b.items[item];
      ItemEditKeepsSound(b, item, ItemEdited(it, p, q, a));
  }

  lemma {:induction false} AppendedFits(b: Book, item: ItemId, t: Trade)
    requires Sound(b) && item < |b.items| && GoodTrade(t)
    requires t.item == item && t.account == b.items[item].account && t.reg == |b.trades|
    ensures RowsFit(b.(trades := b.trades + [t]))
    ensures t.active ==> Timeline(b.trades + [t], item) == Insert(t, Timeline(b.trades, item))
  {
    assert (b.trades + [t])[..|b.trades|] == b.trades;
  }

  lemma ChangedFits(b: Book, reg: nat, t: Trade)
    requires Sound(b) && reg < |b.trades| && GoodTrade(t)
    requires t.item == b.trades[reg].item && t.account == b.trades[reg].account && t.reg == reg
    ensures RowsFit(b.(trades := b.trades[reg := t]))
  {
  }

  lemma AppendKeepsSound(b: Book, item: ItemId, t: Trade)
    requires Sound(b) && item < |b.items| && GoodTrade(t)
    requires t.item == item && t.account == b.items[item].account && t.reg == |b.trades|
    requires Recalc(b.(trades := b.trades + [t]), item).Ok?
    ensures Sound(Recalc(b.(trades := b.trades + [t]), item).value)
  {
    var trades := b.trades + [t];
    assert trades[..|b.trades|] == b.trades;
    ReplayRepairs(b, trades, item);
  }

  lemma ChangeKeepsSound(b: Book, reg: nat, t: Trade)
    requires Sound(b) && reg < |b.trades| && GoodTrade(t)
    requires t.item == b.trades[reg].item && t.account == b.trades[reg].account && t.reg == reg
    requires AfterRowChange(b, reg, t).Ok?
    ensures Sound(AfterRowChange(b, reg, t).value)
  {
    var trades := b.trades[reg := t];
    forall other | other != t.item ensures Timeline(trades, other) == Timeline(b.trades, other) {
      TimelineIgnores(trades, b.trades, other);
    }
    forall other | Traded(trades, other) ensures Traded(b.trades, other) {
      var j :| 0 <= j < |trades| && trades[j].item == other;
      assert b.trades[j].item == other;
    }
    ReplayRepairs(b, trades, t.item);
  }

  lemma ItemEditKeepsSound(b: Book, item: ItemId, it: Item)
    requires Sound(b) && item < |b.items|
    requires it.account == b.items[item].account && it.quantity == b.items[item].quantity
    requires it.avgPrice == b.items[item].avgPrice
    requires it.active == b.items[item].active || (!it.active && it.quantity <= 0.0)
    ensures Sound(b.(items := b.items[item := it]))
  {
    var b' := b.(items := b.items[item := it]);
    forall other | 0 <= other < |b'.items| ensures Canonical(b', other) {
      assert Canonical(b, other);
    }
  }

  lemma AddItemKeepsSound(b: Book, account: AccountId, price: real, quote: nat)
    requires Sound(b)
    ensures Sound(AddItem(b, account, price, quote))
  {
    var b' := AddItem(b, account, price, quote);
    forall item | 0 <= item < |b'.items| ensures Canonical(b', item) {
      if item == |b.items| {
        TimelineMembers(b.trades, item);
        FirstIsMember(Timeline(b.trades, item));
        RoundingFixesWholeCents(0.0);
      } else {
        assert Canonical(b, item);
      }
    }
  }

  lemma CloseTradesKeepsSound(b: Book, account: AccountId)
    requires Sound(b)
    requires forall item: ItemId :: Live(b, item) ==> b.items[item].account != account
    ensures Sound(CloseTrades(b, account))
  {
    var b' := CloseTrades(b, account);
    forall item | 0 <= item < |b'.items| ensures Canonical(b', item) {
      assert Canonical(b, item);
      assert Traded(b'.trades, item) ==> Traded(b.trades, item) by {
        if Traded(b'.trades, item) {
          var j :| 0 <= j < |b'.trades| && b'.trades[j].item == item;
          assert b.trades[j].item == item;
        }
      }
      if b.items[item].account != account {
        TimelineIgnores(b.trades, b'.trades, item);
      } else {
        ClosedItemIsEmpty(b, account, item);
      }
    }
  }

  lemma {:induction false} ClosedItemIsEmpty(b: Book, account: AccountId, item: ItemId)
    requires Sound(b) && item < |b.items| && b.items[item].account == account && !b.items[item].active
    ensures Timeline(CloseTrades(b, account).trades, item) == []
    ensures b.items[item].quantity == 0.0 && b.items[item].avgPrice == RoundHalfUp(Average(Nothing))
  {
    var trades := CloseTrades(b, account).trades;
    TimelineMembers(trades, item);
    FirstIsMember(Timeline(trades, item));
    assert Canonical(b, item);
    TimelineIsGood(b, item);
    ReplayStaysNonNegative(Timeline(b.trades, item));
  }
}
