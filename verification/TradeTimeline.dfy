/** The ordered read behind a replay: one item's active trades by (tx_date, frst_reg_dt). */
module TradeTimeline {
  import opened Sums
  import opened Tables

  predicate Earlier(a: Trade, b: Trade) {
    a.date < b.date || (a.date == b.date && a.reg < b.reg)
  }

  ghost predicate Ordered(s: seq<Trade>) {
    forall i, j :: 0 <= i < j < |s| ==> Earlier(s[i], s[j])
  }

  function Insert(t: Trade, s: seq<Trade>): seq<Trade> {
    if s == [] || !Earlier(t, s[|s| - 1]) then s + [t]
    else Insert(t, s[..|s| - 1]) + [s[|s| - 1]]
  }

  predicate ActiveOf(t: Trade, item: ItemId) {
    t.active && t.item == item
  }

  function Timeline(table: seq<Trade>, item: ItemId): seq<Trade> {
    if table == [] then []
    else
      var t := table[|table| - 1];
      var rest := Timeline(table[..|table| - 1], item);
      if ActiveOf(t, item) then Insert(t, rest) else rest
  }

  /** Rows are only appended: the creation stamp of a row is its position. */
  ghost predicate Stamped(table: seq<Trade>) {
    forall j :: 0 <= j < |table| ==> table[j].reg == j
  }

  // ---- insertion ----

  function Rank(t: Trade, s: seq<Trade>): (k: nat)
    ensures k <= |s|
    ensures Insert(t, s) == s[..k] + [t] + s[k..]
  {
    if s == [] || !Earlier(t, s[|s| - 1]) then
      assert s[..|s|] + [t] + s[|s|..] == s + [t];
      |s|
    else
      var init := s[..|s| - 1];
      var k := Rank(t, init);
      assert init[..k] == s[..k] && init[k..] + [s[|s| - 1]] == s[k..];
      k
  }

  lemma {:induction false} InsertMembers(t: Trade, s: seq<Trade>)
    ensures forall x :: x in Insert(t, s) <==> x == t || x in s
  {
    var k := Rank(t, s);
    assert s == s[..k] + s[k..];
  }

  lemma {:induction false} InsertOrders(t: Trade, s: seq<Trade>)
    requires Ordered(s)
    requires forall x :: x in s ==> x.reg != t.reg
    ensures Ordered(Insert(t, s))
  {
    if s != [] && Earlier(t, s[|s| - 1]) {
      var init := s[..|s| - 1];
      InsertOrders(t, init);
      InsertMembers(t, init);
      var r := Insert(t, init);
      forall i | 0 <= i < |r| ensures Earlier(r[i], s[|s| - 1]) {
        assert r[i] in r;
      }
    } else if s != [] {
      assert s[|s| - 1].reg != t.reg;
    }
  }

  // ---- the timeline is the ordered set of active rows ----

  lemma {:induction false} TimelineMembers(table: seq<Trade>, item: ItemId)
    ensures forall x :: x in Timeline(table, item) <==> x in table && ActiveOf(x, item)
  {
    if table != [] {
      var n := |table| - 1;
      TimelineMembers(table[..n], item);
      InsertMembers(table[n], Timeline(table[..n], item));
      assert table == table[..n] + [table[n]];
    }
  }

  lemma {:induction false} TimelineOrdered(table: seq<Trade>, item: ItemId)
    requires Stamped(table)
    ensures Ordered(Timeline(table, item))
    ensures OldestFirst(Timeline(table, item))
  {
    if table != [] {
      var n := |table| - 1;
      TimelineOrdered(table[..n], item);
      TimelineMembers(table[..n], item);
      if ActiveOf(table[n], item) {
        InsertOrders(table[n], Timeline(table[..n], item));
      }
    }
  }

  /** By date, and on one day by creation. */
  ghost predicate OldestFirst(s: seq<Trade>) {
    forall i, j :: 0 <= i < j < |s| ==> s[i].date <= s[j].date && (s[i].date == s[j].date ==> s[i].reg < s[j].reg)
  }

  /** Rows of other items, and rows that are not active, leave no trace. */
  lemma {:induction false} TimelineIgnores(a: seq<Trade>, b: seq<Trade>, item: ItemId)
    requires |a| == |b|
    requires forall j :: 0 <= j < |a| ==> a[j] == b[j] || (!ActiveOf(a[j], item) && !ActiveOf(b[j], item))
    ensures Timeline(a, item) == Timeline(b, item)
  {
    if a != [] {
      var n := |a| - 1;
      TimelineIgnores(a[..n], b[..n], item);
    }
  }

  /** A total over an item's active rows does not depend on their order. */
  lemma {:induction false} TimelineSum(table: seq<Trade>, item: ItemId, f: Trade -> real, g: Trade -> real)
    requires forall t :: t in table ==> g(t) == if ActiveOf(t, item) then f(t) else 0.0
    ensures Sum(Timeline(table, item), f) == Sum(table, g)
  {
    if table != [] {
      var n := |table| - 1;
      TimelineSum(table[..n], item, f, g);
      if ActiveOf(table[n], item) {
        InsertSum(table[n], Timeline(table[..n], item), f);
      }
    }
  }

  lemma {:induction false} InsertSum(t: Trade, s: seq<Trade>, f: Trade -> real)
    ensures Sum(Insert(t, s), f) == Sum(s, f) + f(t)
  {
    if s != [] {
      InsertSum(t, s[..|s| - 1], f);
    }
  }

  // ---- an ordered sequence is determined by its members ----

  /** Two ordered sequences with the same members are the same sequence. */
  lemma {:induction false} OrderedIsUnique(a: seq<Trade>, b: seq<Trade>)
    requires Ordered(a) && Ordered(b)
    requires forall x :: x in a <==> x in b
    ensures a == b
  {
    if a != [] && b != [] {
      var m, n := |a| - 1, |b| - 1;
      LastIsLargest(a, b);
      LastIsLargest(b, a);
      OrderedWithoutLast(a);
      OrderedWithoutLast(b);
      forall x ensures x in a[..m] <==> x in b[..n] {
        assert x in a[..m] <==> x in a && x != a[m];
        assert x in b[..n] <==> x in b && x != b[n];
        assert x in a <==> x in b;
      }
      OrderedIsUnique(a[..m], b[..n]);
    } else {
      FirstIsMember(a);
      FirstIsMember(b);
    }
  }

  lemma FirstIsMember<T>(s: seq<T>)
    ensures s != [] ==> s[0] in s
  {
  }

  lemma OrderedWithoutLast(a: seq<Trade>)
    requires Ordered(a) && a != []
    ensures forall x :: x in a[..|a| - 1] <==> x in a && x != a[|a| - 1]
  {
    assert a == a[..|a| - 1] + [a[|a| - 1]];
  }

  lemma LastIsLargest(a: seq<Trade>, b: seq<Trade>)
    requires Ordered(a) && Ordered(b) && a != [] && b != []
    requires forall x :: x in a <==> x in b
    ensures a[|a| - 1] == b[|b| - 1]
  {
    var x, y := a[|a| - 1], b[|b| - 1];
    assert x in b && y in a;
    var i :| 0 <= i < |b| && b[i] == x;
    var j :| 0 <= j < |a| && a[j] == y;
  }

  // ---- rewriting rows ----

  function MapRows(table: seq<Trade>, m: Trade -> Trade): seq<Trade> {
    seq(|table|, j requires 0 <= j < |table| => m(table[j]))
  }

  /** A rewrite that moves no row of the item rewrites its timeline in place. */
  ghost predicate KeepsPlace(m: Trade -> Trade, t: Trade, item: ItemId) {
    && ActiveOf(m(t), item) == ActiveOf(t, item)
    && (ActiveOf(t, item) ==> m(t).date == t.date && m(t).reg == t.reg)
  }

  lemma {:induction false} TimelineOfRewritten(table: seq<Trade>, m: Trade -> Trade, item: ItemId)
    requires forall t :: t in table ==> KeepsPlace(m, t, item)
    ensures Timeline(MapRows(table, m), item) == MapRows(Timeline(table, item), m)
  {
    if table != [] {
      var n := |table| - 1;
      var t := table[n];
      TimelineOfRewritten(table[..n], m, item);
      assert MapRows(table, m)[..n] == MapRows(table[..n], m);
      assert KeepsPlace(m, t, item);
      if ActiveOf(t, item) {
        TimelineMembers(table[..n], item);
        InsertRewritten(t, Timeline(table[..n], item), m, item);
      }
    }
  }

  lemma {:induction false} InsertRewritten(t: Trade, s: seq<Trade>, m: Trade -> Trade, item: ItemId)
    requires ActiveOf(t, item) && KeepsPlace(m, t, item)
    requires forall x :: x in s ==> ActiveOf(x, item) && KeepsPlace(m, x, item)
    ensures Insert(m(t), MapRows(s, m)) == MapRows(Insert(t, s), m)
  {
    if s != [] {
      var n := |s| - 1;
      InsertRewritten(t, s[..n], m, item);
      assert s[n] in s;
      assert MapRows(s, m)[..n] == MapRows(s[..n], m);
    }
  }
}
