/**
 * Moving-average replay of one item's trades in time order.
 * The running cost is an exact real: the 28-digit rounding of Decimal division is not modelled.
 */
module TradeReplay {
  import opened Money
  import opened Sums
  import opened Tables

  /** What the schemas require of every stored trade. */
  predicate GoodTrade(t: Trade) {
    t.quantity > 0.0 && t.price > 0.0 && t.fee >= 0.0
  }

  predicate GoodTrades(ts: seq<Trade>) {
    forall i :: 0 <= i < |ts| ==> GoodTrade(ts[i])
  }

  datatype Holding = Holding(qty: real, cost: real)

  const Nothing := Holding(0.0, 0.0)

  function Average(h: Holding): real {
    if h.qty > 0.0 then h.cost / h.qty else 0.0
  }

  function Gross(quantity: real, price: real): real {
    quantity * price
  }

  /** The cost that leaves a holding with `quantity` of its shares. */
  function Released(h: Holding, quantity: real): real {
    Average(h) * quantity
  }

  predicate Fits(h: Holding, t: Trade) {
    t.side.Sell? ==> t.quantity <= h.qty
  }

  function Advance(h: Holding, t: Trade): Holding {
    match t.side
    case Buy => Holding(h.qty + t.quantity, h.cost + (Gross(t.quantity, t.price) + t.fee))
    case Sell => Holding(h.qty - t.quantity, h.cost - Released(h, t.quantity))
  }

  /** None is BAD_REQUEST: some SELL is larger than the holding it meets. */
  function Replay(ts: seq<Trade>): Option<Holding> {
    if ts == [] then Some(Nothing)
    else
      var last := ts[|ts| - 1];
      match Replay(ts[..|ts| - 1])
      case None => None
      case Some(h) => if Fits(h, last) then Some(Advance(h, last)) else None
  }

  /** The holding that the k-th trade meets. */
  function Before(ts: seq<Trade>, k: nat): Holding
    requires k < |ts|
  {
    var r := Replay(ts[..k]);
    if r.Some? then r.value else Nothing
  }

  // ---- what a SELL realises ----

  function ExactPnl(h: Holding, quantity: real, price: real, fee: real): real {
    (price - Average(h)) * quantity - fee
  }

  /** The row as the replay rewrites it. */
  function Marked(h: Holding, t: Trade): Trade {
    match t.side
    case Buy => t
    case Sell => t.(
      basis := Some(RoundHalfUp(Released(h, t.quantity))),
      pnl := Some(RoundHalfUp(ExactPnl(h, t.quantity, t.price, t.fee))))
  }

  function Mark(ts: seq<Trade>): seq<Trade> {
    seq(|ts|, k requires 0 <= k < |ts| => Marked(Before(ts, k), ts[k]))
  }

  lemma MarkPrefix(ts: seq<Trade>, k: nat)
    requires k < |ts|
    ensures Mark(ts[..k + 1]) == Mark(ts[..k]) + [Marked(Before(ts, k), ts[k])]
  {
    forall i | 0 <= i <= k ensures Mark(ts[..k + 1])[i] == Marked(Before(ts, i), ts[i]) {
      assert ts[..k + 1][..i] == ts[..i];
    }
    forall i | 0 <= i < k ensures Mark(ts[..k])[i] == Marked(Before(ts, i), ts[i]) {
      assert ts[..k][..i] == ts[..i];
    }
  }

  /** The columns a replay reads; it writes only `pnl` and `basis`. */
  predicate SameFacts(a: Trade, b: Trade) {
    a.side == b.side && a.quantity == b.quantity && a.price == b.price && a.fee == b.fee
  }

  lemma {:induction false} ReplayReadsFacts(a: seq<Trade>, b: seq<Trade>)
    requires |a| == |b|
    requires forall i :: 0 <= i < |a| ==> SameFacts(a[i], b[i])
    ensures Replay(a) == Replay(b)
  {
    if a != [] {
      var n := |a| - 1;
      ReplayReadsFacts(a[..n], b[..n]);
      AdvanceReadsFacts(Before(a, n), a[n], b[n]);
    }
  }

  lemma AdvanceReadsFacts(h: Holding, a: Trade, b: Trade)
    requires SameFacts(a, b)
    ensures Fits(h, a) == Fits(h, b) && Advance(h, a) == Advance(h, b)
  {
  }

  lemma {:induction false} MarkKeepsFacts(ts: seq<Trade>)
    ensures forall i :: 0 <= i < |ts| ==> SameFacts(Mark(ts)[i], ts[i])
    ensures Replay(Mark(ts)) == Replay(ts)
  {
    ReplayReadsFacts(Mark(ts), ts);
  }

  lemma MarkedTwice(h: Holding, t: Trade)
    ensures Marked(h, Marked(h, t)) == Marked(h, t)
  {
  }

  lemma MarkIsStable(ts: seq<Trade>)
    ensures Mark(Mark(ts)) == Mark(ts)
  {
    var ms := Mark(ts);
    MarkKeepsFacts(ts);
    forall k | 0 <= k < |ts| ensures Mark(ms)[k] == ms[k] {
      ReplayReadsFacts(ms[..k], ts[..k]);
      MarkedTwice(Before(ts, k), ts[k]);
    }
  }

  lemma ReplayStep(ts: seq<Trade>, k: nat)
    requires k < |ts| && Replay(ts[..k]).Some?
    ensures Replay(ts[..k + 1])
         == if Fits(Before(ts, k), ts[k]) then Some(Advance(Before(ts, k), ts[k])) else None
  {
    assert ts[..k + 1][..k] == ts[..k];
  }

  /** The loop's inline arithmetic, in the words of the specification. */
  lemma BuyArithmetic(h: Holding, t: Trade)
    requires t.side.Buy?
    ensures Advance(h, t) == Holding(h.qty + t.quantity, h.cost + (t.quantity * t.price + t.fee))
  {
    assert t.quantity * t.price == Gross(t.quantity, t.price);
  }

  lemma SellArithmetic(h: Holding, avg: real, t: Trade)
    requires t.side.Sell? && avg == if h.qty > 0.0 then h.cost / h.qty else 0.0
    ensures Advance(h, t) == Holding(h.qty - t.quantity, h.cost - avg * t.quantity)
    ensures Marked(h, t) == t.(
      basis := Some(RoundHalfUp(avg * t.quantity)),
      pnl := Some(RoundHalfUp((t.price - avg) * t.quantity - t.fee)))
  {
    assert Average(h) == avg && avg * t.quantity == Released(h, t.quantity);
    assert (t.price - avg) * t.quantity - t.fee == ExactPnl(h, t.quantity, t.price, t.fee);
  }

  /** The replay loop: it stops at the first SELL that does not fit, else it has rewritten every row. */
  method RecomputeRealizedPnl(txs: array<Trade>) returns (r: Option<Holding>)
    modifies txs
    ensures r == Replay(old(txs[..]))
    ensures r.Some? ==> txs[..] == Mark(old(txs[..]))
  {
    ghost var was := txs[..];
    var runningQty, runningCost := 0.0, 0.0;
    var i := 0;
    while i < txs.Length
      invariant 0 <= i <= txs.Length
      invariant Replay(was[..i]) == Some(Holding(runningQty, runningCost))
      invariant forall j :: 0 <= j < i ==> txs[j] == Marked(Before(was, j), was[j])
      invariant forall j :: i <= j < txs.Length ==> txs[j] == was[j]
    {
      var t := txs[i];
      ReplayStep(was, i);
      ghost var held := Holding(runningQty, runningCost);
      if t.side.Buy? {
        BuyArithmetic(held, t);
        runningQty := runningQty + t.quantity;
        runningCost := runningCost + (t.quantity * t.price + t.fee);
      } else {
        if t.quantity > runningQty {
          PrefixMustReplay(was, i + 1);
          return None;
        }
        var runningAvg := if runningQty > 0.0 then runningCost / runningQty else 0.0;
        SellArithmetic(held, runningAvg, t);
        txs[i] := t.(
          basis := Some(RoundHalfUp(runningAvg * t.quantity)),
          pnl := Some(RoundHalfUp((t.price - runningAvg) * t.quantity - t.fee)));
        runningCost := runningCost - runningAvg * t.quantity;
        runningQty := runningQty - t.quantity;
      }
      i := i + 1;
    }
    assert was[..i] == was;
    r := Some(Holding(runningQty, runningCost));
  }

  lemma {:induction false} PrefixMustReplay(ts: seq<Trade>, k: nat)
    requires k <= |ts|
    ensures Replay(ts[..k]).None? ==> Replay(ts).None?
    decreases |ts|
  {
    if k < |ts| {
      PrefixMustReplay(ts[..|ts| - 1], k);
      assert ts[..|ts| - 1][..k] == ts[..k];
    } else {
      assert ts[..k] == ts;
    }
  }

  // ---- when the replay is accepted ----

  function Signed(t: Trade): real {
    if t.side.Buy? then t.quantity else -t.quantity
  }

  function Net(ts: seq<Trade>): real {
    Sum(ts, Signed)
  }

  lemma {:induction false} ReplayQuantityIsNet(ts: seq<Trade>)
    ensures Replay(ts).Some? ==> Replay(ts).value.qty == Net(ts)
  {
    if ts != [] {
      ReplayQuantityIsNet(ts[..|ts| - 1]);
    }
  }

  /** Accepted exactly when the holding never goes below zero on the way. */
  ghost predicate NeverShort(ts: seq<Trade>) {
    forall k :: 0 <= k <= |ts| ==> Net(ts[..k]) >= 0.0
  }

  lemma {:induction false} AcceptedExactlyWhenNeverShort(ts: seq<Trade>)
    requires GoodTrades(ts)
    ensures Replay(ts).Some? <==> NeverShort(ts)
  {
    if ts != [] {
      var n := |ts| - 1;
      var init := ts[..n];
      AcceptedExactlyWhenNeverShort(init);
      ReplayQuantityIsNet(init);
      NeverShortSplits(ts);
      assert Net(ts) == Net(init) + Signed(ts[n]);
      if NeverShort(init) {
        assert Net(init[..n]) >= 0.0 && init[..n] == init;
        assert Replay(init).Some? && Replay(init).value.qty == Net(init);
        assert GoodTrade(ts[n]);
        assert Fits(Replay(init).value, ts[n]) <==> Net(ts) >= 0.0;
      }
    }
  }

  lemma NeverShortSplits(ts: seq<Trade>)
    requires ts != []
    ensures NeverShort(ts) <==> NeverShort(ts[..|ts| - 1]) && Net(ts) >= 0.0
  {
    var init := ts[..|ts| - 1];
    assert forall k :: 0 <= k < |ts| ==> init[..k] == ts[..k];
    assert ts[..|ts|] == ts;
    if NeverShort(ts) {
      forall k | 0 <= k <= |init| ensures Net(init[..k]) >= 0.0 {
        assert Net(ts[..k]) >= 0.0;
      }
      assert Net(ts[..|ts|]) >= 0.0;
    }
    if NeverShort(init) && Net(ts) >= 0.0 {
      forall k | 0 <= k <= |ts| ensures Net(ts[..k]) >= 0.0 {
        assert k < |ts| ==> Net(init[..k]) >= 0.0;
      }
    }
  }

  // ---- bounds on quantity, cost and average ----

  lemma SellKeepsProportion(h: Holding, q: real)
    requires h.qty > 0.0 && 0.0 < q <= h.qty && h.cost >= 0.0
    ensures 0.0 <= Released(h, q) <= h.cost
    ensures q == h.qty ==> Released(h, q) == h.cost
    ensures q < h.qty ==> Average(Holding(h.qty - q, h.cost - Released(h, q))) == Average(h)
  {
    var a := Average(h);
    assert a * h.qty == h.cost;
    assert a >= 0.0;
    assert a * q <= a * h.qty;
    if q < h.qty {
      assert h.cost - a * q == a * (h.qty - q);
    }
  }

  lemma GrossIsPositive(t: Trade)
    requires GoodTrade(t)
    ensures Gross(t.quantity, t.price) > 0.0
  {
  }

  lemma {:induction false} ReplayStaysNonNegative(ts: seq<Trade>)
    requires GoodTrades(ts) && Replay(ts).Some?
    ensures Replay(ts).value.qty >= 0.0 && Replay(ts).value.cost >= 0.0
    ensures Replay(ts).value.qty == 0.0 ==> Replay(ts).value.cost == 0.0
  {
    if ts != [] {
      var init, t := ts[..|ts| - 1], ts[|ts| - 1];
      ReplayStaysNonNegative(init);
      assert GoodTrade(t);
      if t.side.Sell? {
        SellKeepsProportion(Replay(init).value, t.quantity);
      } else {
        GrossIsPositive(t);
      }
    }
  }

  /** A SELL that leaves shares behind leaves their average where it was. */
  lemma {:induction false} SellKeepsAverage(ts: seq<Trade>, t: Trade)
    requires GoodTrades(ts + [t]) && t.side.Sell?
    requires Replay(ts + [t]).Some? && Replay(ts + [t]).value.qty > 0.0
    ensures Replay(ts).Some? && Average(Replay(ts + [t]).value) == Average(Replay(ts).value)
  {
    assert (ts + [t])[..|ts|] == ts;
    assert GoodTrade((ts + [t])[|ts|]);
    var h := Replay(ts).value;
    assert Replay(ts + [t]) == Some(Advance(h, t));
    ReplayStaysNonNegative(ts);
    SellKeepsProportion(h, t.quantity);
  }

  function UnitCost(t: Trade): real
    requires GoodTrade(t)
  {
    (Gross(t.quantity, t.price) + t.fee) / t.quantity
  }

  /** Indices of BUYs whose unit costs bracket the average. */
  lemma {:induction false} AverageIsBracketedByBuys(ts: seq<Trade>) returns (lo: nat, hi: nat)
    requires GoodTrades(ts) && Replay(ts).Some? && Replay(ts).value.qty > 0.0
    ensures lo < |ts| && hi < |ts| && ts[lo].side.Buy? && ts[hi].side.Buy?
    ensures UnitCost(ts[lo]) <= Average(Replay(ts).value) <= UnitCost(ts[hi])
  {
    var n := |ts| - 1;
    var init, t := ts[..n], ts[n];
    assert GoodTrade(t);
    var h := Replay(init).value;
    ReplayStaysNonNegative(init);
    if t.side.Sell? {
      lo, hi := AverageIsBracketedByBuys(init);
      SellKeepsProportion(h, t.quantity);
    } else if h.qty == 0.0 {
      lo, hi := n, n;
    } else {
      var lo0, hi0 := AverageIsBracketedByBuys(init);
      WeightedAverageBetween(h, t);
      lo := if UnitCost(t) <= UnitCost(ts[lo0]) then n else lo0;
      hi := if UnitCost(t) >= UnitCost(ts[hi0]) then n else hi0;
    }
  }

  lemma WeightedAverageBetween(h: Holding, t: Trade)
    requires GoodTrade(t) && t.side.Buy? && h.qty > 0.0
    ensures var a := Average(Advance(h, t));
            (Average(h) <= a || UnitCost(t) <= a) && (a <= Average(h) || a <= UnitCost(t))
  {
    var u, v, a := Average(h), UnitCost(t), Average(Advance(h, t));
    assert u * h.qty == h.cost && v * t.quantity == Gross(t.quantity, t.price) + t.fee;
    assert a * (h.qty + t.quantity) == u * h.qty + v * t.quantity;
    BetweenTheTwo(a, u, v, h.qty, t.quantity);
  }

  lemma BetweenTheTwo(a: real, u: real, v: real, p: real, q: real)
    requires p > 0.0 && q > 0.0 && a * (p + q) == u * p + v * q
    ensures (u <= a || v <= a) && (a <= u || a <= v)
  {
    assert (a - u) * p == (v - a) * q;
  }

  // ---- conservation ----

  /** What the trade moved through the account: a BUY takes gross plus fee, a SELL brings gross less fee. */
  function Settlement(t: Trade): real {
    match t.side
    case Buy => Gross(t.quantity, t.price) + t.fee
    case Sell => Gross(t.quantity, t.price) - t.fee
  }

  function CashMoved(t: Trade): real {
    if t.side.Sell? then Settlement(t) else -Settlement(t)
  }

  function StoredPnl(t: Trade): real {
    if t.side.Sell? && t.pnl.Some? then t.pnl.value else 0.0
  }

  function SellCount(t: Trade): real {
    if t.side.Sell? then 1.0 else 0.0
  }

  /** The SELLs of a history, by their positions. */
  ghost function Sells(ts: seq<Trade>): set<int> {
    set i | 0 <= i < |ts| && ts[i].side.Sell?
  }

  lemma {:induction false} SellsAreCounted(ts: seq<Trade>)
    ensures Sum(ts, SellCount) == |Sells(ts)| as real
  {
    if ts != [] {
      var n := |ts| - 1;
      SellsAreCounted(ts[..n]);
      assert Sells(ts) == Sells(ts[..n]) + if ts[n].side.Sell? then {n} else {};
    } else {
      assert Sells(ts) == {};
    }
  }

  lemma PnlSplits(h: Holding, quantity: real, price: real, fee: real)
    ensures ExactPnl(h, quantity, price, fee) == Gross(quantity, price) - fee - Released(h, quantity)
  {
  }

  /** One trade moves cash by its stored result less the cost it adds, to half a cent if it is a SELL. */
  lemma StepConservesCash(h: Holding, t: Trade)
    ensures Abs(CashMoved(t) - (StoredPnl(Marked(h, t)) - (Advance(h, t).cost - h.cost))) <= HalfCents(SellCount(t))
  {
    PnlSplits(h, t.quantity, t.price, t.fee);
  }

  /** What one trade adds to the totals of the history before it. */
  lemma {:induction false} CashSums(ts: seq<Trade>)
    requires ts != [] && Replay(ts).Some?
    ensures var n := |ts| - 1;
            && Replay(ts[..n]).Some? && Replay(ts).value == Advance(Before(ts, n), ts[n])
            && Sum(ts, CashMoved) == Sum(ts[..n], CashMoved) + CashMoved(ts[n])
            && Sum(ts, SellCount) == Sum(ts[..n], SellCount) + SellCount(ts[n])
            && Sum(Mark(ts), StoredPnl) == Sum(Mark(ts[..n]), StoredPnl) + StoredPnl(Marked(Before(ts, n), ts[n]))
  {
    var n := |ts| - 1;
    MarkPrefix(ts, n);
    assert ts[..n + 1] == ts;
    SumOneMore(Mark(ts[..n]), Marked(Before(ts, n), ts[n]), StoredPnl);
  }

  /** What is left over of a history and of one more trade adds up, and so do their errors. */
  lemma CashSteps(
      cash: real, pnl: real, held: real, count: real, moved: real, stored: real, left: real, one: real)
    requires Abs(cash - (pnl - held)) <= HalfCents(count)
    requires Abs(moved - (stored - (left - held))) <= HalfCents(one)
    ensures Abs(cash + moved - (pnl + stored - left)) <= HalfCents(count + one)
  {
    ErrorsAdd(cash, pnl - held, count, moved, stored - (left - held), one);
  }

  /** Cash out is the stored results less the cost still held, to half a cent a SELL. */
  ghost predicate CashConserved(ts: seq<Trade>)
    requires Replay(ts).Some?
  {
    Abs(Sum(ts, CashMoved) - (Sum(Mark(ts), StoredPnl) - Replay(ts).value.cost)) <= HalfCents(Sum(ts, SellCount))
  }

  lemma {:induction false} OneMoreConservesCash(ts: seq<Trade>)
    requires ts != [] && Replay(ts).Some? && Replay(ts[..|ts| - 1]).Some? && CashConserved(ts[..|ts| - 1])
    ensures CashConserved(ts)
  {
    var n := |ts| - 1;
    var init, t, h := ts[..n], ts[n], Before(ts, n);
    StepConservesCash(h, t);
    CashSums(ts);
    CashSteps(
      Sum(init, CashMoved), Sum(Mark(init), StoredPnl), h.cost, Sum(init, SellCount),
      CashMoved(t), StoredPnl(Marked(h, t)), Advance(h, t).cost, SellCount(t));
  }

  /** Every replayed history conserves cash. */
  lemma {:induction false} ReplayConservesCash(ts: seq<Trade>)
    requires Replay(ts).Some?
    ensures Abs(Sum(ts, CashMoved) - (Sum(Mark(ts), StoredPnl) - Replay(ts).value.cost))
            <= HalfCents(|Sells(ts)| as real)
  {
    SellsAreCounted(ts);
    if ts == [] {
      assert Mark(ts) == [];
    } else {
      ReplayConservesCash(ts[..|ts| - 1]);
      SellsAreCounted(ts[..|ts| - 1]);
      OneMoreConservesCash(ts);
    }
  }
}
