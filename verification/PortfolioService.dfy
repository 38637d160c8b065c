/** The service as it runs: rows and items change in place, and a failed request rolls back. */
module PortfolioService {
  import opened Tables
  import opened TradeReplay
  import opened TradeTimeline
  import opened Portfolio
  import opened PortfolioLaws

  /** What a request leaves behind, and what it answers. */
  function Committed(b: Book, r: Result<Book>): Book {
    if r.Ok? then r.value else b
  }

  predicate Answers(error: Option<Error>, r: Result<Book>) {
    match error
    case None => r.Ok?
    case Some(e) => r == Err(e)
  }

  class Service {
    var items: seq<Item>
    var trades: seq<Trade>

    constructor ()
      ensures Contents() == Book([], []) && Sound(Contents())
    {
      items, trades := [], [];
    }

    function Contents(): Book
      reads this
    {
      Book(items, trades)
    }

    method Buy(item: ItemId, o: Order) returns (error: Option<Error>)
      requires Sound(Contents()) && GoodOrder(o)
      modifies this
      ensures Sound(Contents())
      ensures Contents() == Committed(old(Contents()), Apply(old(Contents()), BuyShares(item, o)))
      ensures Answers(error, Apply(old(Contents()), BuyShares(item, o)))
      ensures error.None? ==> OrderStored(old(Contents()), Contents(), item, Side.Buy, o)
    {
      OrderIsStored(Contents(), item, o);
      if item >= |items| || !items[item].active {
        return Some(NotFound);
      }
      error := Append(item, NewTrade(Contents(), item, Side.Buy, o), BuyShares(item, o));
    }

    method Sell(item: ItemId, o: Order) returns (error: Option<Error>)
      requires Sound(Contents()) && GoodOrder(o)
      modifies this
      ensures Sound(Contents())
      ensures Contents() == Committed(old(Contents()), Apply(old(Contents()), SellShares(item, o)))
      ensures Answers(error, Apply(old(Contents()), SellShares(item, o)))
      ensures error.None? ==> OrderStored(old(Contents()), Contents(), item, Side.Sell, o)
    {
      OrderIsStored(Contents(), item, o);
      if item >= |items| || !items[item].active {
        return Some(NotFound);
      }
      if o.quantity > items[item].quantity {
        return Some(BadRequest);
      }
      error := Append(item, NewTrade(Contents(), item, Side.Sell, o), SellShares(item, o));
    }

    method UpdateTransaction(reg: nat, change: Change) returns (error: Option<Error>)
      requires Sound(Contents()) && GoodChange(change)
      modifies this
      ensures Sound(Contents())
      ensures Contents() == Committed(old(Contents()), Apply(old(Contents()), EditTrade(reg, change)))
      ensures Answers(error, Apply(old(Contents()), EditTrade(reg, change)))
      ensures error.None? ==> EditStored(old(Contents()), Contents(), reg, change)
    {
      ChangeIsStored(Contents(), reg, change);
      if reg >= |trades| || !trades[reg].active {
        return Some(NotFound);
      }
      error := Store(reg, Changed(trades[reg], change), EditTrade(reg, change));
    }

    method DeleteTransaction(reg: nat) returns (error: Option<Error>)
      requires Sound(Contents())
      modifies this
      ensures Sound(Contents())
      ensures Contents() == Committed(old(Contents()), Apply(old(Contents()), DropTrade(reg)))
      ensures Answers(error, Apply(old(Contents()), DropTrade(reg)))
      ensures error.None? ==> DropStored(old(Contents()), Contents(), reg)
    {
      ChangeIsStored(Contents(), reg, Change(None, None, None, None));
      if reg >= |trades| || !trades[reg].active {
        return Some(NotFound);
      }
      error := Store(reg, trades[reg].(active := false), DropTrade(reg));
    }

    /** Save a new row, replay, and roll back if the replay refuses. */
    method Append(item: ItemId, t: Trade, ghost c: Command) returns (error: Option<Error>)
      requires Sound(Contents()) && Admitted(c) && item < |items| && GoodTrade(t)
      requires t.item == item && t.account == items[item].account && t.reg == |trades|
      requires Apply(Contents(), c) == Recalc(Book(items, trades + [t]), item)
      modifies this
      ensures Sound(Contents())
      ensures Contents() == Committed(old(Contents()), Apply(old(Contents()), c))
      ensures Answers(error, Apply(old(Contents()), c))
    {
      ghost var b := Contents();
      var savedItems, savedTrades := items, trades;
      AppendedFits(b, item, t);
      trades := trades + [t];
      var ok := RecalcItem(item);
      if ok {
        ApplyKeepsSound(b, c);
        return None;
      }
      items, trades := savedItems, savedTrades;
      error := Some(BadRequest);
    }

    /** Store a changed row, replay its item, and roll back if the replay refuses. */
    method Store(reg: nat, t: Trade, ghost c: Command) returns (error: Option<Error>)
      requires Sound(Contents()) && Admitted(c) && reg < |trades| && GoodTrade(t)
      requires t.item == trades[reg].item && t.account == trades[reg].account && t.reg == reg
      requires Apply(Contents(), c) == AfterRowChange(Contents(), reg, t)
      modifies this
      ensures Sound(Contents())
      ensures Contents() == Committed(old(Contents()), Apply(old(Contents()), c))
      ensures Answers(error, Apply(old(Contents()), c))
    {
      ghost var b := Contents();
      var savedItems, savedTrades := items, trades;
      ChangedFits(b, reg, t);
      trades := trades[reg := t];
      var ok := RecalcItem(t.item);
      if ok {
        ApplyKeepsSound(b, c);
        return None;
      }
      items, trades := savedItems, savedTrades;
      error := Some(BadRequest);
    }

    /** Read the item's active trades in order, replay them, and write the results through. */
    method RecalcItem(item: ItemId) returns (ok: bool)
      requires item < |items| && RowsFit(Contents())
      modifies this
      ensures if ok then Recalc(old(Contents()), item) == Ok(Contents())
              else Recalc(old(Contents()), item) == Err(BadRequest)
    {
      var s := Timeline(trades, item);
      var txs := new Trade[|s|](i requires 0 <= i < |s| => s[i]);
      assert txs[..] == s;
      var r := RecomputeRealizedPnl(txs);
      if r.None? || r.value.qty < 0.0 {
        return false;
      }
      WriteThrough(item, s, txs[..]);
      items := items[item := Restated(items[item], r.value)];
      ok := true;
    }

    method WriteThrough(item: ItemId, s: seq<Trade>, marked: seq<Trade>)
      requires RowsFit(Contents()) && s == Timeline(trades, item) && marked == Mark(s)
      modifies this`trades
      ensures trades == MapRows(old(trades), Marker(s, item))
    {
      ghost var was, m := trades, Marker(s, item);
      TimelineOrdered(was, item);
      TimelineMembers(was, item);
      MarkerMarks(Contents(), item);
      TimelineOfRewritten(was, m, item);
      for i := 0 to |marked|
        invariant |trades| == |was|
        invariant forall j :: 0 <= j < |was| ==>
          trades[j] == if ActiveOf(was[j], item) && Position(s, was[j]) < i then m(was[j]) else was[j]
      {
        var t := marked[i];
        assert t == m(s[i]) by {
          assert MapRows(s, m)[i] == m(s[i]);
        }
        assert s[i] in s && was[t.reg] == s[i];
        PositionInTimeline(s, i);
        forall j | 0 <= j < |was| && ActiveOf(was[j], item) && Position(s, was[j]) == i ensures j == t.reg {
          InTimelineAt(was, item, j);
        }
        trades := trades[t.reg := t];
      }
      forall j | 0 <= j < |was| && ActiveOf(was[j], item) ensures Position(s, was[j]) < |s| {
        InTimelineAt(was, item, j);
      }
    }
  }

  lemma {:induction false} InTimelineAt(table: seq<Trade>, item: ItemId, j: nat)
    requires Stamped(table) && j < |table| && ActiveOf(table[j], item)
    ensures var s := Timeline(table, item); var k := Position(s, table[j]);
            k < |s| && s[k] == table[j]
  {
    var s := Timeline(table, item);
    TimelineOrdered(table, item);
    TimelineMembers(table, item);
    assert table[j] in table && table[j] in s;
    var k :| 0 <= k < |s| && s[k] == table[j];
    PositionInTimeline(s, k);
  }
}
