/** The account ledger: newest first, balances computed backwards, the balance carried in the cursor. */
module LedgerPages {
  import opened Sums
  import opened Tables
  import opened Calendar
  import opened Ledger

  /** The sort key of a row, and the part of a cursor that names the last row shown. */
  datatype Key = Key(date: int, reg: int, id: nat)

  function KeyOf(r: Row): Key {
    Key(r.date, r.reg, r.id)
  }

  predicate Older(a: Key, b: Key) {
    a.date < b.date || (a.date == b.date && (a.reg < b.reg || (a.reg == b.reg && a.id < b.id)))
  }

  datatype Cursor = Cursor(key: Key, carry: real)
  datatype Entry = Entry(row: Row, signed: real, balanceAfter: real)
  datatype Page = Page(items: seq<Entry>, next: Option<Cursor>)

  // ---- list_by_cursor ----

  /** The rows of a view: the whole account, or one month of it. */
  predicate Shown(r: Row, a: AccountId, month: Option<int>) {
    && r.active && Touches(r, a)
    && (month.Some? ==> FirstDay(month.value) <= r.date <= MonthEnd(month.value))
  }

  predicate Listed(r: Row, a: AccountId, month: Option<int>, below: Option<Key>) {
    Shown(r, a, month) && (below.Some? ==> Older(KeyOf(r), below.value))
  }

  function Insert(r: Row, s: seq<Row>): seq<Row> {
    if s == [] || Older(KeyOf(r), KeyOf(s[|s| - 1])) then s + [r]
    else Insert(r, s[..|s| - 1]) + [s[|s| - 1]]
  }

  /** The rows of a view older than the cursor, newest first. */
  function Listing(rows: seq<Row>, a: AccountId, month: Option<int>, below: Option<Key>): seq<Row> {
    if rows == [] then []
    else
      var r := rows[|rows| - 1];
      var rest := Listing(rows[..|rows| - 1], a, month, below);
      if Listed(r, a, month, below) then Insert(r, rest) else rest
  }

  ghost predicate Descending(s: seq<Row>) {
    forall i, j :: 0 <= i < j < |s| ==> Older(KeyOf(s[j]), KeyOf(s[i]))
  }

  /** Primary keys are unique. */
  ghost predicate UniqueIds(rows: seq<Row>) {
    forall i, j :: 0 <= i < j < |rows| ==> rows[i].id != rows[j].id
  }

  /** By date, on one day by creation, and of one moment by id, each from large to small. */
  ghost predicate NewestFirstOf(s: seq<Row>) {
    forall i, j :: 0 <= i < j < |s| ==>
      && s[i].date >= s[j].date
      && (s[i].date == s[j].date ==> s[i].reg >= s[j].reg)
      && (s[i].date == s[j].date && s[i].reg == s[j].reg ==> s[i].id > s[j].id)
  }

  lemma {:induction false} InsertMembers(r: Row, s: seq<Row>)
    ensures forall x :: x in Insert(r, s) <==> x == r || x in s
  {
    if s != [] {
      InsertMembers(r, s[..|s| - 1]);
      assert s == s[..|s| - 1] + [s[|s| - 1]];
    }
  }

  lemma {:induction false} InsertDescends(r: Row, s: seq<Row>)
    requires Descending(s) && forall x :: x in s ==> x.id != r.id
    ensures Descending(Insert(r, s))
  {
    if s != [] {
      var n := |s| - 1;
      assert s[n] in s;
      if !Older(KeyOf(r), KeyOf(s[n])) {
        InsertDescends(r, s[..n]);
        InsertMembers(r, s[..n]);
        var u := Insert(r, s[..n]);
        forall i | 0 <= i < |u| ensures Older(KeyOf(s[n]), KeyOf(u[i])) {
          assert u[i] in u;
        }
      }
    }
  }

  lemma {:induction false} InsertSum(r: Row, s: seq<Row>, f: Row -> real)
    ensures Sum(Insert(r, s), f) == Sum(s, f) + f(r)
  {
    if s != [] {
      InsertSum(r, s[..|s| - 1], f);
    }
  }

  /** Each matching row is listed, nothing else is, and no row twice. */
  lemma {:induction false} ListingMembers(rows: seq<Row>, a: AccountId, month: Option<int>, below: Option<Key>)
    ensures forall x :: x in Listing(rows, a, month, below) <==> x in rows && Listed(x, a, month, below)
  {
    if rows != [] {
      var n := |rows| - 1;
      ListingMembers(rows[..n], a, month, below);
      InsertMembers(rows[n], Listing(rows[..n], a, month, below));
      assert rows == rows[..n] + [rows[n]];
    }
  }

  lemma {:induction false} ListingDescends(rows: seq<Row>, a: AccountId, month: Option<int>, below: Option<Key>)
    requires UniqueIds(rows)
    ensures Descending(Listing(rows, a, month, below))
    ensures NewestFirstOf(Listing(rows, a, month, below))
  {
    if rows != [] {
      var n := |rows| - 1;
      ListingDescends(rows[..n], a, month, below);
      ListingMembers(rows[..n], a, month, below);
      if Listed(rows[n], a, month, below) {
        InsertDescends(rows[n], Listing(rows[..n], a, month, below));
      }
    }
  }

  function SignedIn(a: AccountId): Row -> real {
    (r: Row) => Signed(r, a)
  }

  function SignedWhere(a: AccountId, month: Option<int>, below: Option<Key>): Row -> real {
    (r: Row) => if Listed(r, a, month, below) then Signed(r, a) else 0.0
  }

  lemma {:induction false} ListingSum(rows: seq<Row>, a: AccountId, month: Option<int>, below: Option<Key>)
    ensures Sum(Listing(rows, a, month, below), SignedIn(a)) == Sum(rows, SignedWhere(a, month, below))
  {
    if rows != [] {
      var n := |rows| - 1;
      ListingSum(rows[..n], a, month, below);
      if Listed(rows[n], a, month, below) {
        InsertSum(rows[n], Listing(rows[..n], a, month, below), SignedIn(a));
      }
    }
  }

  /** A descending listing is determined by its members. */
  lemma {:induction false} DescendingIsUnique(s: seq<Row>, u: seq<Row>)
    requires Descending(s) && Descending(u)
    requires forall x :: x in s <==> x in u
    ensures s == u
  {
    FirstIn(s);
    FirstIn(u);
    if s != [] && u != [] {
      NewestFirst(s, u);
      WithoutFirst(s);
      WithoutFirst(u);
      forall x ensures x in s[1..] <==> x in u[1..] {
        assert x in s[1..] <==> x in s && x != s[0];
        assert x in u[1..] <==> x in u && x != u[0];
        assert x in s <==> x in u;
      }
      DescendingIsUnique(s[1..], u[1..]);
    }
  }

  lemma FirstIn(s: seq<Row>)
    ensures s != [] ==> s[0] in s
  {
  }

  lemma NewestFirst(s: seq<Row>, u: seq<Row>)
    requires Descending(s) && Descending(u) && s != [] && u != []
    requires forall x :: x in s <==> x in u
    ensures s[0] == u[0]
  {
    assert s[0] in u && u[0] in s;
    var i :| 0 <= i < |u| && u[i] == s[0];
    var j :| 0 <= j < |s| && s[j] == u[0];
  }

  lemma WithoutFirst(s: seq<Row>)
    requires Descending(s) && s != []
    ensures forall x :: x in s[1..] <==> x in s && x != s[0]
  {
    assert s == [s[0]] + s[1..];
  }

  /** What lies below the k-th row of a listing is the rest of that listing. */
  lemma {:induction false} ListingBelow(rows: seq<Row>, a: AccountId, month: Option<int>, below: Option<Key>, k: nat)
    requires UniqueIds(rows) && k < |Listing(rows, a, month, below)|
    ensures var s := Listing(rows, a, month, below);
            Listing(rows, a, month, Some(KeyOf(s[k]))) == s[k + 1..]
  {
    var s := Listing(rows, a, month, below);
    var u := Listing(rows, a, month, Some(KeyOf(s[k])));
    ListingDescends(rows, a, month, below);
    ListingDescends(rows, a, month, Some(KeyOf(s[k])));
    ListingMembers(rows, a, month, below);
    ListingMembers(rows, a, month, Some(KeyOf(s[k])));
    assert s[k] in s;
    forall x ensures x in u <==> x in s[k + 1..] {
      if x in u {
        assert x in s;
        var i :| 0 <= i < |s| && s[i] == x;
        assert i > k;
        assert s[k + 1..][i - k - 1] == x;
      }
      if x in s[k + 1..] {
        var i :| 0 <= i < |s| - k - 1 && s[k + 1..][i] == x;
        assert s[k + 1 + i] == x && x in s;
      }
    }
    DescendingIsUnique(u, s[k + 1..]);
  }

  // ---- one page ----

  /** Newest row first; each older row's balance is the one above it undone. */
  function Entries(s: seq<Row>, a: AccountId, start: real): seq<Entry> {
    if s == [] then []
    else [Entry(s[0], Signed(s[0], a), start)] + Entries(s[1..], a, start - Signed(s[0], a))
  }

  lemma {:induction false} EntriesConcat(s: seq<Row>, u: seq<Row>, a: AccountId, start: real)
    ensures Entries(s + u, a, start) == Entries(s, a, start) + Entries(u, a, start - Sum(s, SignedIn(a)))
    ensures |Entries(s, a, start)| == |s|
  {
    if s == [] {
      assert s + u == u;
    } else {
      EntriesConcat(s[1..], u, a, start - Signed(s[0], a));
      assert (s + u)[1..] == s[1..] + u;
      assert s == [s[0]] + s[1..];
      SumConcat([s[0]], s[1..], SignedIn(a));
      assert Sum([s[0]], SignedIn(a)) == Signed(s[0], a);
    }
  }

  /** _build_ledger_items */
  method BuildLedgerItems(rows: seq<Row>, a: AccountId, start: real) returns (items: seq<Entry>, running: real)
    ensures items == Entries(rows, a, start)
    ensures running == start - Sum(rows, SignedIn(a))
  {
    items, running := [], start;
    for i := 0 to |rows|
      invariant items == Entries(rows[..i], a, start)
      invariant running == start - Sum(rows[..i], SignedIn(a))
    {
      var signed := Signed(rows[i], a);
      EntriesConcat(rows[..i], [rows[i]], a, start);
      assert rows[..i + 1] == rows[..i] + [rows[i]];
      assert Entries([rows[i]], a, running) == [Entry(rows[i], signed, running)];
      items := items + [Entry(rows[i], signed, running)];
      running := running - signed;
    }
    assert rows[..|rows|] == rows;
  }

  function ViewEnd(month: Option<int>): Option<int> {
    if month.Some? then Some(MonthEnd(month.value)) else None
  }

  /** _ledger_start_balance */
  function StartOf(rows: seq<Row>, a: AccountId, start: real, month: Option<int>, cursor: Option<Cursor>): real {
    if cursor.Some? then cursor.value.carry else Balance(rows, a, start, ViewEnd(month))
  }

  function Below(cursor: Option<Cursor>): Option<Key> {
    if cursor.Some? then Some(cursor.value.key) else None
  }

  function Take(n: nat, s: seq<Row>): seq<Row> {
    if |s| <= n then s else s[..n]
  }

  function PageOf(
      rows: seq<Row>, a: AccountId, start: real, month: Option<int>, cursor: Option<Cursor>, limit: nat): Page
    requires limit >= 1
  {
    var s := Listing(rows, a, month, Below(cursor));
    var from := StartOf(rows, a, start, month, cursor);
    var shown := Take(limit, s);
    Page(
      Entries(shown, a, from),
      if |s| > limit then Some(Cursor(KeyOf(shown[limit - 1]), from - Sum(shown, SignedIn(a)))) else None)
  }

  function ShownCount(rows: seq<Row>, a: AccountId, month: Option<int>): nat {
    if rows == [] then 0
    else
      var n := |rows| - 1;
      ShownCount(rows[..n], a, month) + if Shown(rows[n], a, month) then 1 else 0
  }

  lemma {:induction false} InsertGrows(r: Row, s: seq<Row>)
    ensures |Insert(r, s)| == |s| + 1
  {
    if s != [] {
      InsertGrows(r, s[..|s| - 1]);
    }
  }

  /** The count query and the listing filter alike. */
  lemma {:induction false} CountIsListed(rows: seq<Row>, a: AccountId, month: Option<int>)
    ensures ShownCount(rows, a, month) == |Listing(rows, a, month, None)|
  {
    if rows != [] {
      var n := |rows| - 1;
      CountIsListed(rows[..n], a, month);
      InsertGrows(rows[n], Listing(rows[..n], a, month, None));
    }
  }

  /** list_account_ledger: limit + 1 rows tell whether there is a next page; the total counts the whole view,
      wherever the cursor stands. */
  method ListAccountLedger(
      rows: seq<Row>, a: AccountId, start: real, month: Option<int>, cursor: Option<Cursor>, limit: nat)
    returns (page: Page, total: nat)
    requires limit >= 1
    ensures page == PageOf(rows, a, start, month, cursor, limit)
    ensures total == |Listing(rows, a, month, None)|
  {
    total := ShownCount(rows, a, month);
    CountIsListed(rows, a, month);
    var fetched := Take(limit + 1, Listing(rows, a, month, Below(cursor)));
    var hasNext := |fetched| > limit;
    var shown := Take(limit, fetched);
    var from;
    if cursor.Some? {
      from := cursor.value.carry;
    } else {
      var sums := SumForAccount(rows, a, ViewEnd(month));
      from := CashFlow(start, sums);
    }
    assert shown == Take(limit, Listing(rows, a, month, Below(cursor)));
    var items, running := BuildLedgerItems(shown, a, from);
    page := Page(items, if hasNext then Some(Cursor(KeyOf(shown[|shown| - 1]), running)) else None);
  }

  // ---- walking the pages ----

  /** Follow next_cursor until there is none. */
  function Walk(
      rows: seq<Row>, a: AccountId, start: real, month: Option<int>, cursor: Option<Cursor>, limit: nat): seq<Entry>
    requires UniqueIds(rows) && limit >= 1
    decreases |Listing(rows, a, month, Below(cursor))|
  {
    var page := PageOf(rows, a, start, month, cursor, limit);
    if page.next.None? then page.items
    else
      ListingBelow(rows, a, month, Below(cursor), limit - 1);
      page.items + Walk(rows, a, start, month, page.next, limit)
  }

  /** For every limit the walk is one unpaged read: same rows, same order, same signs and balances. */
  lemma {:induction false} WalkIsOneRead(
      rows: seq<Row>, a: AccountId, start: real, month: Option<int>, cursor: Option<Cursor>, limit: nat)
    requires UniqueIds(rows) && limit >= 1
    ensures Walk(rows, a, start, month, cursor, limit)
         == Entries(Listing(rows, a, month, Below(cursor)), a, StartOf(rows, a, start, month, cursor))
    decreases |Listing(rows, a, month, Below(cursor))|
  {
    var s := Listing(rows, a, month, Below(cursor));
    var page := PageOf(rows, a, start, month, cursor, limit);
    if page.next.Some? {
      ListingBelow(rows, a, month, Below(cursor), limit - 1);
      WalkIsOneRead(rows, a, start, month, page.next, limit);
      assert s == s[..limit] + s[limit..];
      EntriesConcat(s[..limit], s[limit..], a, StartOf(rows, a, start, month, cursor));
    }
  }

  /** The walk shows each row of the view exactly once, newest first. */
  lemma {:induction false} WalkShowsEachRowOnce(
      rows: seq<Row>, a: AccountId, start: real, month: Option<int>, limit: nat)
    requires UniqueIds(rows) && limit >= 1
    ensures var w := Walk(rows, a, start, month, None, limit);
            && (forall r :: r in rows && Shown(r, a, month) <==> exists i :: 0 <= i < |w| && w[i].row == r)
            && (forall i, j :: 0 <= i < j < |w| ==> Older(KeyOf(w[j].row), KeyOf(w[i].row)))
  {
    var s := Listing(rows, a, month, None);
    var w := Walk(rows, a, start, month, None, limit);
    WalkIsOneRead(rows, a, start, month, None, limit);
    EntriesShowRows(s, a, StartOf(rows, a, start, month, None));
    ListingMembers(rows, a, month, None);
    ListingDescends(rows, a, month, None);
    forall r ensures r in rows && Shown(r, a, month) <==> exists i :: 0 <= i < |w| && w[i].row == r {
      if r in rows && Shown(r, a, month) {
        assert r in s;
        var i :| 0 <= i < |s| && s[i] == r;
        assert w[i].row == r;
      }
      if exists i :: 0 <= i < |w| && w[i].row == r {
        var i :| 0 <= i < |w| && w[i].row == r;
        assert s[i] in s;
      }
    }
  }

  lemma {:induction false} EntriesShowRows(s: seq<Row>, a: AccountId, start: real)
    ensures var e := Entries(s, a, start);
            |e| == |s| && forall i :: 0 <= i < |s| ==> e[i].row == s[i] && e[i].signed == Signed(s[i], a)
  {
    if s != [] {
      EntriesShowRows(s[1..], a, start - Signed(s[0], a));
    }
  }

  // ---- where the walk ends ----

  lemma {:induction false} LastEntryUndone(s: seq<Row>, a: AccountId, start: real)
    requires s != []
    ensures var e := Entries(s, a, start);
            |e| == |s| && e[|e| - 1].balanceAfter - e[|e| - 1].signed == start - Sum(s, SignedIn(a))
  {
    var n := |s| - 1;
    assert s == s[..n] + [s[n]];
    EntriesConcat(s[..n], [s[n]], a, start);
  }

  /** The balance before the first row of a view: nothing yet, or the end of the month before. */
  function BalanceBefore(rows: seq<Row>, a: AccountId, start: real, month: Option<int>): real {
    if month.Some? then Balance(rows, a, start, Some(MonthEnd(month.value - 1))) else start
  }

  lemma {:induction false} ViewAddsUp(rows: seq<Row>, a: AccountId, start: real, month: Option<int>)
    requires forall r :: r in rows ==> WellFormed(r) && RealDay(r.date)
    ensures Balance(rows, a, start, ViewEnd(month))
         == BalanceBefore(rows, a, start, month) + Sum(Listing(rows, a, month, None), SignedIn(a))
  {
    ListingSum(rows, a, month, None);
    SignRulesAgree(rows, a, start, ViewEnd(month));
    if month.None? {
      SumSame(rows, SignedOf(a, None), SignedWhere(a, None, None));
    } else {
      var m := month.value;
      SignRulesAgree(rows, a, start, Some(MonthEnd(m - 1)));
      forall r | r in rows
        ensures SignedOf(a, Some(MonthEnd(m)))(r)
             == SignedOf(a, Some(MonthEnd(m - 1)))(r) + SignedWhere(a, month, None)(r)
      {
        MonthsAreAdjacent(r.date, m - 1);
      }
      SumPlus(rows, SignedOf(a, Some(MonthEnd(m - 1))), SignedWhere(a, month, None), SignedOf(a, Some(MonthEnd(m))));
    }
  }

  /** Undoing the oldest row of the walk gives the start balance, or the previous month-end balance; the
      newest row carries the balance at the end of the view. */
  lemma {:induction false} WalkCloses(rows: seq<Row>, a: AccountId, start: real, month: Option<int>, limit: nat)
    requires UniqueIds(rows) && limit >= 1
    requires forall r :: r in rows ==> WellFormed(r) && RealDay(r.date)
    requires Listing(rows, a, month, None) != []
    ensures var w := Walk(rows, a, start, month, None, limit);
            && w != []
            && w[0].balanceAfter == Balance(rows, a, start, ViewEnd(month))
            && w[|w| - 1].balanceAfter - w[|w| - 1].signed == BalanceBefore(rows, a, start, month)
  {
    WalkIsOneRead(rows, a, start, month, None, limit);
    LastEntryUndone(Listing(rows, a, month, None), a, Balance(rows, a, start, ViewEnd(month)));
    ViewAddsUp(rows, a, start, month);
  }

  // ---- carry stability ----

  /** The balance just below a key: the start balance and every strictly older row of the account. */
  function BalanceBelow(rows: seq<Row>, a: AccountId, start: real, key: Key): real {
    start + Sum(rows, SignedWhere(a, None, Some(key)))
  }

  /** A cursor the service issues names a row of its view and carries the balance below it. */
  ghost predicate Issued(rows: seq<Row>, a: AccountId, start: real, month: Option<int>, c: Cursor) {
    && c.carry == BalanceBelow(rows, a, start, c.key)
    && (month.Some? ==> FirstDay(month.value) <= c.key.date <= MonthEnd(month.value))
  }

  lemma RowBelowSplits(r: Row, a: AccountId, m: int, key: Key)
    requires RealDay(r.date) && FirstDay(m) <= key.date <= MonthEnd(m)
    ensures SignedWhere(a, None, Some(key))(r)
         == SignedOf(a, Some(MonthEnd(m - 1)))(r) + SignedWhere(a, Some(m), Some(key))(r)
  {
    MonthsAreAdjacent(r.date, m - 1);
  }

  lemma {:induction false} SumBelowSplits(rows: seq<Row>, a: AccountId, m: int, key: Key)
    requires forall r :: r in rows ==> RealDay(r.date)
    requires FirstDay(m) <= key.date <= MonthEnd(m)
    ensures Sum(rows, SignedWhere(a, None, Some(key)))
         == Sum(rows, SignedOf(a, Some(MonthEnd(m - 1)))) + Sum(rows, SignedWhere(a, Some(m), Some(key)))
  {
    var f, g, h := SignedOf(a, Some(MonthEnd(m - 1))), SignedWhere(a, Some(m), Some(key)), SignedWhere(a, None, Some(key));
    forall r | r in rows ensures h(r) == f(r) + g(r) {
      RowBelowSplits(r, a, m, key);
    }
    SumPlus(rows, f, g, h);
  }

  lemma {:induction false} BelowInMonth(rows: seq<Row>, a: AccountId, start: real, m: int, key: Key)
    requires forall r :: r in rows ==> WellFormed(r) && RealDay(r.date)
    requires FirstDay(m) <= key.date <= MonthEnd(m)
    ensures BalanceBelow(rows, a, start, key)
         == Balance(rows, a, start, Some(MonthEnd(m - 1))) + Sum(Listing(rows, a, Some(m), Some(key)), SignedIn(a))
  {
    ListingSum(rows, a, Some(m), Some(key));
    SignRulesAgree(rows, a, start, Some(MonthEnd(m - 1)));
    SumBelowSplits(rows, a, m, key);
  }

  /** A view's rows older than a key in it, and the balance before the view, make up the balance below. */
  lemma {:induction false} BelowAddsUp(rows: seq<Row>, a: AccountId, start: real, month: Option<int>, key: Key)
    requires forall r :: r in rows ==> WellFormed(r) && RealDay(r.date)
    requires month.Some? ==> FirstDay(month.value) <= key.date <= MonthEnd(month.value)
    ensures BalanceBelow(rows, a, start, key)
         == BalanceBefore(rows, a, start, month) + Sum(Listing(rows, a, month, Some(key)), SignedIn(a))
  {
    if month.Some? {
      BelowInMonth(rows, a, start, month.value, key);
    } else {
      ListingSum(rows, a, None, Some(key));
    }
  }

  /** Every page of a walk issues such a cursor. */
  lemma PagesIssueCarries(
      rows: seq<Row>, a: AccountId, start: real, month: Option<int>, cursor: Option<Cursor>, limit: nat)
    requires UniqueIds(rows) && limit >= 1
    requires forall r :: r in rows ==> WellFormed(r) && RealDay(r.date)
    requires cursor.Some? ==> Issued(rows, a, start, month, cursor.value)
    ensures var next := PageOf(rows, a, start, month, cursor, limit).next;
            next.Some? ==> Issued(rows, a, start, month, next.value)
  {
    var s := Listing(rows, a, month, Below(cursor));
    if |s| > limit {
      var key := KeyOf(s[limit - 1]);
      ListingBelow(rows, a, month, Below(cursor), limit - 1);
      ListingMembers(rows, a, month, Below(cursor));
      assert s[limit - 1] in s;
      BelowAddsUp(rows, a, start, month, key);
      if cursor.Some? {
        BelowAddsUp(rows, a, start, month, cursor.value.key);
      } else {
        ViewAddsUp(rows, a, start, month);
      }
      assert s == s[..limit] + s[limit..];
      SumConcat(s[..limit], s[limit..], SignedIn(a));
    }
  }

  /** Inserting, editing or deleting rows that stay newer than a key changes no row that counts below it. */
  ghost predicate ChangedAbove(was: seq<Row>, now: seq<Row>, a: AccountId, key: Key) {
    && |was| <= |now|
    && (forall j :: 0 <= j < |was| ==>
          was[j] == now[j] || (!Listed(was[j], a, None, Some(key)) && !Listed(now[j], a, None, Some(key))))
    && (forall j :: |was| <= j < |now| ==> !Listed(now[j], a, None, Some(key)))
  }

  /** Such changes add up. */
  lemma ChangesAboveCompose(r0: seq<Row>, r1: seq<Row>, r2: seq<Row>, a: AccountId, key: Key)
    requires ChangedAbove(r0, r1, a, key) && ChangedAbove(r1, r2, a, key)
    ensures ChangedAbove(r0, r2, a, key)
  {
  }

  lemma {:induction false} SameBelow(was: seq<Row>, now: seq<Row>, a: AccountId, key: Key)
    requires ChangedAbove(was, now, a, key)
    ensures Sum(was, SignedWhere(a, None, Some(key))) == Sum(now, SignedWhere(a, None, Some(key)))
  {
    var kept, added := now[..|was|], now[|was|..];
    assert now == kept + added;
    SumMapped(was, kept, SignedWhere(a, None, Some(key)), SignedWhere(a, None, Some(key)));
    SumConcat(kept, added, SignedWhere(a, None, Some(key)));
    SumZero(added, SignedWhere(a, None, Some(key)));
  }

  /** The rest is what the whole shows below the key, entry for entry. */
  ghost predicate ContinuesBelow(whole: seq<Entry>, rest: seq<Entry>, key: Key) {
    && |rest| <= |whole|
    && whole[|whole| - |rest|..] == rest
    && (forall i :: 0 <= i < |whole| - |rest| ==> !Older(KeyOf(whole[i].row), key))
    && (forall i :: 0 <= i < |rest| ==> Older(KeyOf(rest[i].row), key))
  }

  /** After any changes above the cursor, walking on from it shows what a fresh ledger of the changed
      table shows below it: the same rows with the same balances. */
  lemma {:induction false} CarryStaysGood(
      was: seq<Row>, now: seq<Row>, a: AccountId, start: real, month: Option<int>, c: Cursor, limit: nat)
    requires UniqueIds(now) && limit >= 1
    requires forall r :: r in now ==> WellFormed(r) && RealDay(r.date)
    requires Issued(was, a, start, month, c) && ChangedAbove(was, now, a, c.key)
    ensures Issued(now, a, start, month, c)
    ensures ContinuesBelow(Walk(now, a, start, month, None, limit), Walk(now, a, start, month, Some(c), limit), c.key)
  {
    SameBelow(was, now, a, c.key);
    WalkContinues(now, a, start, month, c, limit);
  }

  lemma {:induction false} WalkContinues(
      rows: seq<Row>, a: AccountId, start: real, month: Option<int>, c: Cursor, limit: nat)
    requires UniqueIds(rows) && limit >= 1
    requires forall r :: r in rows ==> WellFormed(r) && RealDay(r.date)
    requires Issued(rows, a, start, month, c)
    ensures ContinuesBelow(Walk(rows, a, start, month, None, limit), Walk(rows, a, start, month, Some(c), limit), c.key)
  {
    WalkIsOneRead(rows, a, start, month, None, limit);
    WalkIsOneRead(rows, a, start, month, Some(c), limit);
    var top := TopOfView(rows, a, start, month, c);
    EntriesContinue(top, Listing(rows, a, month, Some(c.key)), a, Balance(rows, a, start, ViewEnd(month)), c.key);
  }

  /** The rows above the cursor take the balance from the end of the view down to the carry. */
  lemma {:induction false} TopOfView(rows: seq<Row>, a: AccountId, start: real, month: Option<int>, c: Cursor)
    returns (top: seq<Row>)
    requires UniqueIds(rows)
    requires forall r :: r in rows ==> WellFormed(r) && RealDay(r.date)
    requires Issued(rows, a, start, month, c)
    ensures Listing(rows, a, month, None) == top + Listing(rows, a, month, Some(c.key))
    ensures Balance(rows, a, start, ViewEnd(month)) - Sum(top, SignedIn(a)) == c.carry
    ensures forall i :: 0 <= i < |top| ==> !Older(KeyOf(top[i]), c.key)
    ensures forall i :: 0 <= i < |Listing(rows, a, month, Some(c.key))| ==>
              Older(KeyOf(Listing(rows, a, month, Some(c.key))[i]), c.key)
  {
    var u := Listing(rows, a, month, Some(c.key));
    top := ListingSplits(rows, a, month, c.key);
    ListingMembers(rows, a, month, Some(c.key));
    forall i | 0 <= i < |u| ensures Older(KeyOf(u[i]), c.key) {
      assert u[i] in u;
    }
    SumConcat(top, u, SignedIn(a));
    ViewAddsUp(rows, a, start, month);
    BelowAddsUp(rows, a, start, month, c.key);
  }

  lemma {:induction false} EntriesContinue(top: seq<Row>, u: seq<Row>, a: AccountId, from: real, key: Key)
    requires forall i :: 0 <= i < |top| ==> !Older(KeyOf(top[i]), key)
    requires forall i :: 0 <= i < |u| ==> Older(KeyOf(u[i]), key)
    ensures ContinuesBelow(Entries(top + u, a, from), Entries(u, a, from - Sum(top, SignedIn(a))), key)
  {
    var above, rest := Entries(top, a, from), Entries(u, a, from - Sum(top, SignedIn(a)));
    EntriesConcat(top, u, a, from);
    EntriesShowRows(top, a, from);
    EntriesShowRows(u, a, from - Sum(top, SignedIn(a)));
    AboveThenBelow(above, rest, key);
  }

  lemma {:induction false} AboveThenBelow(above: seq<Entry>, rest: seq<Entry>, key: Key)
    requires forall i :: 0 <= i < |above| ==> !Older(KeyOf(above[i].row), key)
    requires forall i :: 0 <= i < |rest| ==> Older(KeyOf(rest[i].row), key)
    ensures ContinuesBelow(above + rest, rest, key)
  {
  }

  /** A listing is its rows above a key followed by its rows below it. */
  lemma ListingSplits(rows: seq<Row>, a: AccountId, month: Option<int>, key: Key) returns (top: seq<Row>)
    requires UniqueIds(rows)
    ensures Listing(rows, a, month, None) == top + Listing(rows, a, month, Some(key))
    ensures forall i :: 0 <= i < |top| ==> !Older(KeyOf(top[i]), key)
  {
    var s, u := Listing(rows, a, month, None), Listing(rows, a, month, Some(key));
    ListingDescends(rows, a, month, None);
    ListingDescends(rows, a, month, Some(key));
    ListingMembers(rows, a, month, None);
    ListingMembers(rows, a, month, Some(key));
    var k := FirstBelow(s, key);
    top := s[..k];
    forall x ensures x in s[k..] <==> x in u {
      if x in s[k..] {
        var i :| 0 <= i < |s| - k && s[k..][i] == x;
        assert s[k + i] in s;
      }
      if x in u {
        assert x in s;
        var i :| 0 <= i < |s| && s[i] == x;
        assert i >= k;
        assert s[k..][i - k] == x;
      }
    }
    DescendingIsUnique(s[k..], u);
    assert s == s[..k] + s[k..];
  }

  lemma {:induction false} FirstBelow(s: seq<Row>, key: Key) returns (k: nat)
    requires Descending(s)
    ensures k <= |s|
    ensures forall i :: 0 <= i < |s| ==> (Older(KeyOf(s[i]), key) <==> k <= i)
  {
    if s == [] || !Older(KeyOf(s[|s| - 1]), key) {
      k := |s|;
      forall i | 0 <= i < |s| ensures !Older(KeyOf(s[i]), key) {
        assert i < |s| - 1 ==> Older(KeyOf(s[|s| - 1]), KeyOf(s[i]));
      }
    } else {
      k := FirstBelow(s[..|s| - 1], key);
    }
  }
}
