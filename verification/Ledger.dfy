/** Balances are never stored: an account's transactions are summed by group, or signed row by row. */
module Ledger {
  import opened Sums
  import opened Tables

  datatype Totals = Totals(income: real, expense: real, transferOut: real, transferIn: real, valuationNet: real)

  const Zero := Totals(0.0, 0.0, 0.0, 0.0, 0.0)

  // ---- the row-by-row meaning ----

  predicate Counted(r: Row, to: Option<int>) {
    r.active && (to.Some? ==> r.date <= to.value)
  }

  function IncomeOf(a: AccountId, to: Option<int>): Row -> real {
    (r: Row) => if Counted(r, to) && r.kind.Income? && r.account == a then r.amount else 0.0
  }

  function ExpenseOf(a: AccountId, to: Option<int>): Row -> real {
    (r: Row) => if Counted(r, to) && (r.kind.Expense? || r.kind.FixedExpense?) && r.account == a then r.amount else 0.0
  }

  function SentOf(a: AccountId, to: Option<int>): Row -> real {
    (r: Row) => if Counted(r, to) && r.kind.Transfer? && r.account == a then r.amount else 0.0
  }

  function ReceivedOf(a: AccountId, to: Option<int>): Row -> real {
    (r: Row) => if Counted(r, to) && r.kind.Transfer? && r.to == Some(a) then r.amount else 0.0
  }

  function RevaluedOf(a: AccountId, to: Option<int>): Row -> real {
    (r: Row) =>
      if Counted(r, to) && r.kind.Valuation? && r.account == a
      then (if r.direction == Some(Increase) then r.amount else -r.amount)
      else 0.0
  }

  /** The totals of an account over its active rows dated up to `to`, or over all of them. */
  function AccountTotals(rows: seq<Row>, a: AccountId, to: Option<int>): Totals {
    Totals(
      Sum(rows, IncomeOf(a, to)), Sum(rows, ExpenseOf(a, to)), Sum(rows, SentOf(a, to)),
      Sum(rows, ReceivedOf(a, to)), Sum(rows, RevaluedOf(a, to)))
  }

  // ---- the grouped query ----

  datatype Group = Group(kind: TxType, account: AccountId, to: Option<AccountId>, direction: Option<Direction>)

  function GroupOf(r: Row): Group {
    Group(r.kind, r.account, r.to, r.direction)
  }

  predicate TouchesAny(r: Row, accounts: set<AccountId>) {
    r.account in accounts || (r.to.Some? && r.to.value in accounts)
  }

  function Amounts(accounts: set<AccountId>, to: Option<int>, g: Group): Row -> real {
    (r: Row) => if Counted(r, to) && TouchesAny(r, accounts) && GroupOf(r) == g then r.amount else 0.0
  }

  /** SUM(amount) of one group of the rows the query selects. */
  function GroupSum(rows: seq<Row>, accounts: set<AccountId>, to: Option<int>, g: Group): real {
    Sum(rows, Amounts(accounts, to, g))
  }

  function Groups(rows: seq<Row>, accounts: set<AccountId>, to: Option<int>): set<Group> {
    set r | r in rows && Counted(r, to) && TouchesAny(r, accounts) :: GroupOf(r)
  }

  // ---- folding the groups ----

  /** What one group total adds to the totals of an account. */
  function Fold(s: Totals, g: Group, total: real, a: AccountId): Totals {
    if g.kind.Income? && g.account == a then s.(income := s.income + total)
    else if (g.kind.Expense? || g.kind.FixedExpense?) && g.account == a then s.(expense := s.expense + total)
    else if g.kind.Transfer? then
      s.(transferOut := s.transferOut + (if g.account == a then total else 0.0),
         transferIn := s.transferIn + (if g.to == Some(a) then total else 0.0))
    else if g.kind.Valuation? && g.account == a then
      s.(valuationNet := if g.direction == Some(Increase) then s.valuationNet + total else s.valuationNet - total)
    else s
  }

  function Among(done: set<Group>, f: Row -> real): Row -> real {
    (r: Row) => if GroupOf(r) in done then f(r) else 0.0
  }

  /** The row-by-row totals, over the rows of some groups only. */
  function Partial(rows: seq<Row>, a: AccountId, to: Option<int>, done: set<Group>): Totals {
    Totals(
      Sum(rows, Among(done, IncomeOf(a, to))), Sum(rows, Among(done, ExpenseOf(a, to))),
      Sum(rows, Among(done, SentOf(a, to))), Sum(rows, Among(done, ReceivedOf(a, to))),
      Sum(rows, Among(done, RevaluedOf(a, to))))
  }

  function Times(sign: int, x: real): real {
    if sign > 0 then x else if sign < 0 then -x else 0.0
  }

  /** Within one group a column is the amount with one sign throughout, so the group total carries it. */
  lemma {:induction false} OneMoreGroup(
      rows: seq<Row>, accounts: set<AccountId>, to: Option<int>, done: set<Group>, g: Group, f: Row -> real, sign: int)
    requires g !in done
    requires forall r :: r in rows && GroupOf(r) == g ==>
      f(r) == if Counted(r, to) && TouchesAny(r, accounts) then Times(sign, r.amount) else 0.0
    ensures Sum(rows, Among(done + {g}, f)) == Sum(rows, Among(done, f)) + Times(sign, GroupSum(rows, accounts, to, g))
  {
    if rows != [] {
      OneMoreGroup(rows[..|rows| - 1], accounts, to, done, g, f, sign);
    }
  }

  lemma FoldGroup(rows: seq<Row>, accounts: set<AccountId>, to: Option<int>, done: set<Group>, g: Group, a: AccountId)
    requires g !in done && a in accounts
    ensures Partial(rows, a, to, done + {g})
         == Fold(Partial(rows, a, to, done), g, GroupSum(rows, accounts, to, g), a)
  {
    var own := if g.account == a then 1 else 0;
    OneMoreGroup(rows, accounts, to, done, g, IncomeOf(a, to), if g.kind.Income? then own else 0);
    OneMoreGroup(rows, accounts, to, done, g, ExpenseOf(a, to), if g.kind.Expense? || g.kind.FixedExpense? then own else 0);
    OneMoreGroup(rows, accounts, to, done, g, SentOf(a, to), if g.kind.Transfer? then own else 0);
    OneMoreGroup(rows, accounts, to, done, g, ReceivedOf(a, to), if g.kind.Transfer? && g.to == Some(a) then 1 else 0);
    OneMoreGroup(rows, accounts, to, done, g, RevaluedOf(a, to),
                 if g.kind.Valuation? then (if g.direction == Some(Increase) then own else -own) else 0);
  }

  lemma NoGroupYet(rows: seq<Row>, a: AccountId, to: Option<int>)
    ensures Partial(rows, a, to, {}) == Zero
  {
    SumZero(rows, Among({}, IncomeOf(a, to)));
    SumZero(rows, Among({}, ExpenseOf(a, to)));
    SumZero(rows, Among({}, SentOf(a, to)));
    SumZero(rows, Among({}, ReceivedOf(a, to)));
    SumZero(rows, Among({}, RevaluedOf(a, to)));
  }

  lemma AllGroups(rows: seq<Row>, accounts: set<AccountId>, a: AccountId, to: Option<int>)
    requires a in accounts
    ensures Partial(rows, a, to, Groups(rows, accounts, to)) == AccountTotals(rows, a, to)
  {
    var all := Groups(rows, accounts, to);
    SumSame(rows, Among(all, IncomeOf(a, to)), IncomeOf(a, to));
    SumSame(rows, Among(all, ExpenseOf(a, to)), ExpenseOf(a, to));
    SumSame(rows, Among(all, SentOf(a, to)), SentOf(a, to));
    SumSame(rows, Among(all, ReceivedOf(a, to)), ReceivedOf(a, to));
    SumSame(rows, Among(all, RevaluedOf(a, to)), RevaluedOf(a, to));
  }

  lemma MoveOne(left: set<Group>, done: set<Group>, g: Group)
    requires done !! left && g in left
    ensures (done + {g}) !! (left - {g}) && (done + {g}) + (left - {g}) == done + left
  {
  }

  /** One account: the grouped query, folded in whatever order the groups come. */
  method SumForAccount(rows: seq<Row>, a: AccountId, to: Option<int>) returns (s: Totals)
    ensures s == AccountTotals(rows, a, to)
  {
    var left := Groups(rows, {a}, to);
    ghost var all, done := left, {};
    s := Zero;
    NoGroupYet(rows, a, to);
    while left != {}
      invariant done !! left && done + left == all
      invariant s == Partial(rows, a, to, done)
      decreases left
    {
      var g :| g in left;
      var total := GroupSum(rows, {a}, to, g);
      FoldGroup(rows, {a}, to, done, g, a);
      if g.kind.Income? && g.account == a {
        s := s.(income := s.income + total);
      } else if (g.kind.Expense? || g.kind.FixedExpense?) && g.account == a {
        s := s.(expense := s.expense + total);
      } else if g.kind.Transfer? {
        if g.account == a {
          s := s.(transferOut := s.transferOut + total);
        }
        if g.to == Some(a) {
          s := s.(transferIn := s.transferIn + total);
        }
      } else if g.kind.Valuation? && g.account == a {
        if g.direction == Some(Increase) {
          s := s.(valuationNet := s.valuationNet + total);
        } else {
          s := s.(valuationNet := s.valuationNet - total);
        }
      }
      left, done := left - {g}, done + {g};
    }
    assert done == all;
    AllGroups(rows, {a}, a, to);
  }

  /** One group goes to its source account and, if it is a transfer, to its destination. */
  method FoldInto(was: map<AccountId, Totals>, g: Group, total: real) returns (base: map<AccountId, Totals>)
    ensures base.Keys == was.Keys
    ensures forall a :: a in was ==> base[a] == Fold(was[a], g, total, a)
  {
    base := was;
    if g.account in base {
      var s := base[g.account];
      if g.kind.Income? {
        base := base[g.account := s.(income := s.income + total)];
      } else if g.kind.Expense? || g.kind.FixedExpense? {
        base := base[g.account := s.(expense := s.expense + total)];
      } else if g.kind.Transfer? {
        base := base[g.account := s.(transferOut := s.transferOut + total)];
      } else if g.kind.Valuation? {
        if g.direction == Some(Increase) {
          base := base[g.account := s.(valuationNet := s.valuationNet + total)];
        } else {
          base := base[g.account := s.(valuationNet := s.valuationNet - total)];
        }
      }
    }
    if g.to.Some? && g.to.value in base && g.kind.Transfer? {
      var s := base[g.to.value];
      base := base[g.to.value := s.(transferIn := s.transferIn + total)];
    }
  }

  /** All listed accounts in one query: each gets what it would get alone. */
  method SumForAccounts(rows: seq<Row>, ids: seq<AccountId>) returns (base: map<AccountId, Totals>)
    ensures base.Keys == set a | a in ids
    ensures forall a :: a in ids ==> base[a] == AccountTotals(rows, a, None)
  {
    var idSet := set a | a in ids;
    base := map a | a in idSet :: Zero;
    FoldedNone(rows, idSet);
    base := FoldGroups(rows, idSet, base);
    FoldedAll(rows, base, idSet);
  }

  method FoldGroups(rows: seq<Row>, idSet: set<AccountId>, zeros: map<AccountId, Totals>)
    returns (base: map<AccountId, Totals>)
    requires FoldedSoFar(rows, zeros, idSet, {})
    ensures FoldedSoFar(rows, base, idSet, Groups(rows, idSet, None))
  {
    base := zeros;
    var left := Groups(rows, idSet, None);
    ghost var all, done := left, {};
    while left != {}
      invariant done !! left && done + left == all
      invariant FoldedSoFar(rows, base, idSet, done)
      decreases left
    {
      var g :| g in left;
      ghost var was := base;
      base := FoldInto(base, g, GroupSum(rows, idSet, None, g));
      FoldedOneMore(rows, was, base, idSet, done, g);
      MoveOne(left, done, g);
      left, done := left - {g}, done + {g};
    }
    assert done == all;
  }

  ghost predicate FoldedSoFar(
    rows: seq<Row>, base: map<AccountId, Totals>, accounts: set<AccountId>, done: set<Group>)
  {
    base.Keys == accounts && forall a :: a in accounts ==> base[a] == Partial(rows, a, None, done)
  }

  lemma FoldedNone(rows: seq<Row>, accounts: set<AccountId>)
    ensures FoldedSoFar(rows, map a | a in accounts :: Zero, accounts, {})
  {
    forall a | a in accounts ensures Partial(rows, a, None, {}) == Zero {
      NoGroupYet(rows, a, None);
    }
  }

  lemma FoldedAll(rows: seq<Row>, base: map<AccountId, Totals>, accounts: set<AccountId>)
    requires FoldedSoFar(rows, base, accounts, Groups(rows, accounts, None))
    ensures forall a :: a in accounts ==> base[a] == AccountTotals(rows, a, None)
  {
    forall a | a in accounts ensures base[a] == AccountTotals(rows, a, None) {
      AllGroups(rows, accounts, a, None);
    }
  }

  lemma FoldedOneMore(
      rows: seq<Row>, was: map<AccountId, Totals>, base: map<AccountId, Totals>,
      accounts: set<AccountId>, done: set<Group>, g: Group)
    requires FoldedSoFar(rows, was, accounts, done) && g !in done && base.Keys == accounts
    requires forall a :: a in was ==> base[a] == Fold(was[a], g, GroupSum(rows, accounts, None, g), a)
    ensures FoldedSoFar(rows, base, accounts, done + {g})
  {
    forall a | a in accounts ensures base[a] == Partial(rows, a, None, done + {g}) {
      FoldGroup(rows, accounts, None, done, g, a);
    }
  }

  // ---- the two sign rules ----

  /** _cash_flow */
  function CashFlow(start: real, s: Totals): real {
    start + s.income - s.expense - s.transferOut + s.transferIn + s.valuationNet
  }

  function Balance(rows: seq<Row>, a: AccountId, start: real, to: Option<int>): real {
    CashFlow(start, AccountTotals(rows, a, to))
  }

  predicate Touches(r: Row, a: AccountId) {
    r.account == a || r.to == Some(a)
  }

  /** _signed_amount: the row as its account sees it. */
  function Signed(r: Row, a: AccountId): real {
    if r.kind.Transfer? && r.to == Some(a) then r.amount
    else if r.kind.Income? then r.amount
    else if r.kind.Valuation? then (if r.direction == Some(Increase) then r.amount else -r.amount)
    else -r.amount
  }

  function SignedOf(a: AccountId, to: Option<int>): Row -> real {
    (r: Row) => if Counted(r, to) && Touches(r, a) then Signed(r, a) else 0.0
  }

  /** A row has a destination exactly when it is a transfer, and never its own source. */
  predicate WellFormed(r: Row) {
    (r.to.Some? <==> r.kind.Transfer?) && r.to != Some(r.account)
  }

  /** What one row adds to the balance folded from the totals. */
  function NetOf(r: Row, a: AccountId): real {
    IncomeOf(a, None)(r) - ExpenseOf(a, None)(r) - SentOf(a, None)(r) + ReceivedOf(a, None)(r) + RevaluedOf(a, None)(r)
  }

  function NetByKind(r: Row, a: AccountId): real {
    match r.kind
    case Income => if r.account == a then r.amount else 0.0
    case Transfer => (if r.to == Some(a) then r.amount else 0.0) - (if r.account == a then r.amount else 0.0)
    case Valuation => if r.account != a then 0.0 else if r.direction == Some(Increase) then r.amount else -r.amount
    case _ => if r.account == a then -r.amount else 0.0
  }

  lemma NetIsByKind(r: Row, a: AccountId)
    requires r.active
    ensures NetOf(r, a) == NetByKind(r, a)
  {
    var own := if r.account == a then r.amount else 0.0;
    var i, e, s := IncomeOf(a, None)(r), ExpenseOf(a, None)(r), SentOf(a, None)(r);
    var d, v := ReceivedOf(a, None)(r), RevaluedOf(a, None)(r);
    assert i == if r.kind.Income? then own else 0.0;
    assert e == if r.kind.Expense? || r.kind.FixedExpense? then own else 0.0;
    assert s == if r.kind.Transfer? then own else 0.0;
    assert NetOf(r, a) == i - e - s + d + v;
  }

  /** The two rules give one row the same value in every ledger it appears in exactly when a transfer
      does not return to its source and any other row names no second account. */
  lemma RowSignsAgreeExactlyWhen(r: Row)
    requires r.active && r.amount > 0.0
    ensures (forall a :: Touches(r, a) ==> Signed(r, a) == NetOf(r, a)) <==>
            (if r.kind.Transfer? then r.to != Some(r.account) else r.to.None? || r.to == Some(r.account))
  {
    forall a ensures NetOf(r, a) == NetByKind(r, a) {
      NetIsByKind(r, a);
    }
    assert Touches(r, r.account);
    if r.to.Some? {
      assert Touches(r, r.to.value);
    }
  }

  /** On well-formed tables the grouped totals and the signed rows give the same balance, to any day. */
  lemma {:induction false} SignRulesAgree(rows: seq<Row>, a: AccountId, start: real, to: Option<int>)
    requires forall r :: r in rows ==> WellFormed(r)
    ensures Balance(rows, a, start, to) == start + Sum(rows, SignedOf(a, to))
  {
    if rows != [] {
      var n := |rows| - 1;
      SignRulesAgree(rows[..n], a, start, to);
      assert rows[n] in rows;
    }
  }
}
