/** The wealth page: asset-class slices of the current balances and of the archived months. */
module Wealth {
  import opened Sums
  import opened Tables
  import opened Calendar
  import opened Balances
  import opened Database

  datatype AssetClass = InCash | InHoldings | InRealEstate | InPension | InCommodity | InSavings

  /** An entry of an insertion-ordered dictionary from asset class to amount. */
  datatype Slice = Slice(assetClass: AssetClass, amount: real)

  function Worth(s: Slice): real { s.amount }

  function InClass(c: AssetClass): Slice -> real {
    (s: Slice) => if s.assetClass == c then s.amount else 0.0
  }

  ghost predicate OncePerClass(s: seq<Slice>) {
    forall i, j :: 0 <= i < j < |s| ==> s[i].assetClass != s[j].assetClass
  }

  function Find(s: seq<Slice>, c: AssetClass): (i: nat)
    ensures i <= |s| && (i < |s| ==> s[i].assetClass == c)
    ensures i == |s| ==> forall j :: 0 <= j < |s| ==> s[j].assetClass != c
  {
    if s == [] then 0
    else
      var n := |s| - 1;
      var i := Find(s[..n], c);
      if i < n then i else if s[n].assetClass == c then n else n + 1
  }

  /** slices[c] += x */
  function Add(s: seq<Slice>, c: AssetClass, x: real): seq<Slice> {
    var i := Find(s, c);
    if i < |s| then s[i := Slice(c, s[i].amount + x)] else s + [Slice(c, 0.0 + x)]
  }

  lemma {:induction false} AddAdds(s: seq<Slice>, c: AssetClass, x: real, k: AssetClass)
    requires OncePerClass(s)
    ensures OncePerClass(Add(s, c, x))
    ensures Sum(Add(s, c, x), Worth) == Sum(s, Worth) + x
    ensures Sum(Add(s, c, x), InClass(k)) == Sum(s, InClass(k)) + if k == c then x else 0.0
  {
    var i := Find(s, c);
    if i < |s| {
      SumReplaced(s, i, Slice(c, s[i].amount + x), Worth);
      SumReplaced(s, i, Slice(c, s[i].amount + x), InClass(k));
    } else {
      assert (s + [Slice(c, 0.0 + x)])[..|s|] == s;
    }
  }

  // ---- _slices_to_list ----

  datatype Share = Share(assetClass: AssetClass, valuation: real, ratio: real)

  function Ratio(x: real, total: real): real {
    if total > 0.0 then x / total * 100.0 else 0.0
  }

  function ToShare(s: Slice, total: real): Share {
    Share(s.assetClass, s.amount, Ratio(s.amount, total))
  }

  /** Behind every share at least as large: a stable descending sort. */
  function Ranked(x: Share, s: seq<Share>): seq<Share> {
    if s == [] || s[|s| - 1].valuation >= x.valuation then s + [x]
    else Ranked(x, s[..|s| - 1]) + [s[|s| - 1]]
  }

  function ListOf(s: seq<Slice>, total: real): seq<Share> {
    if s == [] then []
    else
      var x := s[|s| - 1];
      var rest := ListOf(s[..|s| - 1], total);
      if x.amount != 0.0 then Ranked(ToShare(x, total), rest) else rest
  }

  function SlicesToList(s: seq<Slice>): seq<Share> {
    ListOf(s, Sum(s, Worth))
  }

  function ShareValue(x: Share): real { x.valuation }

  function ShareRatio(x: Share): real { x.ratio }

  function ShareIn(c: AssetClass): Share -> real {
    (x: Share) => if x.assetClass == c then x.valuation else 0.0
  }

  ghost predicate Descending(s: seq<Share>) {
    forall i, j :: 0 <= i < j < |s| ==> s[i].valuation >= s[j].valuation
  }

  /** Largest first, no zero, each class once. */
  ghost predicate Presentable(s: seq<Share>) {
    && Descending(s)
    && (forall i :: 0 <= i < |s| ==> s[i].valuation != 0.0)
    && (forall i, j :: 0 <= i < j < |s| ==> s[i].assetClass != s[j].assetClass)
  }

  lemma {:induction false} RankedMembers(x: Share, s: seq<Share>)
    ensures forall y :: y in Ranked(x, s) <==> y == x || y in s
  {
    if s != [] {
      RankedMembers(x, s[..|s| - 1]);
      assert s == s[..|s| - 1] + [s[|s| - 1]];
    }
  }

  lemma {:induction false} RankedSum(x: Share, s: seq<Share>, f: Share -> real)
    ensures Sum(Ranked(x, s), f) == Sum(s, f) + f(x)
  {
    if s == [] || s[|s| - 1].valuation >= x.valuation {
      assert (s + [x])[..|s|] == s;
    } else {
      RankedSum(x, s[..|s| - 1], f);
      var u := Ranked(x, s[..|s| - 1]);
      assert (u + [s[|s| - 1]])[..|u|] == u;
    }
  }

  lemma ThenSmaller(u: seq<Share>, last: Share)
    requires Presentable(u) && last.valuation != 0.0
    requires forall y :: y in u ==> y.valuation >= last.valuation && y.assetClass != last.assetClass
    ensures Presentable(u + [last])
  {
    forall i | 0 <= i < |u| ensures u[i].valuation >= last.valuation && u[i].assetClass != last.assetClass {
      assert u[i] in u;
    }
  }

  lemma WithoutLast(s: seq<Share>)
    requires Presentable(s) && s != []
    ensures var n := |s| - 1;
            && Presentable(s[..n]) && s[n].valuation != 0.0
            && forall y :: y in s[..n] ==> y.valuation >= s[n].valuation && y.assetClass != s[n].assetClass
  {
  }

  lemma {:induction false} RankedIsPresentable(x: Share, s: seq<Share>)
    requires Presentable(s) && x.valuation != 0.0 && forall y :: y in s ==> y.assetClass != x.assetClass
    ensures Presentable(Ranked(x, s))
  {
    if s == [] {
      ThenSmaller(s, x);
    } else {
      var n := |s| - 1;
      WithoutLast(s);
      assert s == s[..n] + [s[n]];
      if s[n].valuation >= x.valuation {
        ThenSmaller(s, x);
      } else {
        assert s[n] in s;
        RankedIsPresentable(x, s[..n]);
        RankedMembers(x, s[..n]);
        ThenSmaller(Ranked(x, s[..n]), s[n]);
      }
    }
  }

  lemma {:induction false} ListedClasses(s: seq<Slice>, total: real)
    ensures forall y :: y in ListOf(s, total) ==> exists i :: 0 <= i < |s| && s[i].assetClass == y.assetClass
  {
    if s != [] {
      var n := |s| - 1;
      ListedClasses(s[..n], total);
      RankedMembers(ToShare(s[n], total), ListOf(s[..n], total));
      forall y | y in ListOf(s, total) ensures exists i :: 0 <= i < |s| && s[i].assetClass == y.assetClass {
        if y in ListOf(s[..n], total) {
          var i :| 0 <= i < n && s[..n][i].assetClass == y.assetClass;
          assert s[i].assetClass == y.assetClass;
        } else {
          assert s[n].assetClass == y.assetClass;
        }
      }
    }
  }

  lemma {:induction false} ListIsPresentable(s: seq<Slice>, total: real)
    requires OncePerClass(s)
    ensures Presentable(ListOf(s, total))
  {
    if s != [] {
      var n := |s| - 1;
      ListIsPresentable(s[..n], total);
      ListedClasses(s[..n], total);
      if s[n].amount != 0.0 {
        RankedIsPresentable(ToShare(s[n], total), ListOf(s[..n], total));
      }
    }
  }

  /** A column of the list that is zero for a zero slice has the total of the slices. */
  lemma {:induction false} ListSum(s: seq<Slice>, total: real, f: Share -> real, g: Slice -> real)
    requires forall x :: f(ToShare(x, total)) == g(x) && (x.amount == 0.0 ==> g(x) == 0.0)
    ensures Sum(ListOf(s, total), f) == Sum(s, g)
  {
    if s != [] {
      var n := |s| - 1;
      ListSum(s[..n], total, f, g);
      RankedSum(ToShare(s[n], total), ListOf(s[..n], total), f);
    }
  }

  function PartOf(total: real): Slice -> real {
    (s: Slice) => Ratio(s.amount, total)
  }

  lemma {:induction false} PartsAdd(s: seq<Slice>, total: real)
    ensures Sum(s, PartOf(total)) == Ratio(Sum(s, Worth), total)
  {
    RatiosAdd(0.0, 0.0, total);
    if s != [] {
      PartsAdd(s[..|s| - 1], total);
      RatiosAdd(Sum(s[..|s| - 1], Worth), s[|s| - 1].amount, total);
    }
  }

  /** The list shows each class's amount, largest first and no zero, with its part of the total. */
  lemma {:induction false} ListShowsSlices(s: seq<Slice>, total: real, c: AssetClass)
    requires OncePerClass(s)
    ensures Presentable(ListOf(s, total))
    ensures Sum(ListOf(s, total), ShareIn(c)) == Sum(s, InClass(c))
    ensures Sum(ListOf(s, total), ShareValue) == Sum(s, Worth)
    ensures Sum(ListOf(s, total), ShareRatio) == Ratio(Sum(s, Worth), total)
  {
    ListIsPresentable(s, total);
    RatiosAdd(0.0, 0.0, total);
    ListSum(s, total, ShareIn(c), InClass(c));
    ListSum(s, total, ShareValue, Worth);
    ListSum(s, total, ShareRatio, PartOf(total));
    PartsAdd(s, total);
  }

  lemma RatiosAdd(a: real, b: real, total: real)
    ensures Ratio(a + b, total) == Ratio(a, total) + Ratio(b, total)
    ensures Ratio(0.0, total) == 0.0
    ensures total > 0.0 ==> Ratio(total, total) == 100.0
  {
    if total > 0.0 {
      assert (a + b) / total == a / total + b / total;
    }
  }

  /** The list holds these amounts per class and in total; its ratios total 100 whenever the total is positive. */
  ghost predicate Shows(shares: seq<Share>, amount: AssetClass -> real, total: real) {
    && Presentable(shares)
    && (forall c :: Sum(shares, ShareIn(c)) == amount(c))
    && Sum(shares, ShareValue) == total
    && Sum(shares, ShareRatio) == if total > 0.0 then 100.0 else 0.0
  }

  lemma {:induction false} SlicesAreShown(s: seq<Slice>, amount: AssetClass -> real, total: real)
    requires OncePerClass(s) && Sum(s, Worth) == total && forall c :: Sum(s, InClass(c)) == amount(c)
    ensures Shows(SlicesToList(s), amount, total)
  {
    forall c ensures Sum(SlicesToList(s), ShareIn(c)) == amount(c) {
      ListShowsSlices(s, total, c);
    }
    ListShowsSlices(s, total, InCash);
    RatiosAdd(0.0, 0.0, total);
  }

  // ---- which class an account belongs to ----

  /** _ASSET_CLASS_BY_TYPE, and cash for every other account. */
  function ClassOf(kind: Option<AccountType>): AssetClass {
    match kind
    case Some(RealEstate) => InRealEstate
    case Some(Pension) => InPension
    case Some(Commodity) => InCommodity
    case Some(SavingsAsset) => InSavings
    case _ => InCash
  }

  function KindOf(accounts: seq<Account>, a: AccountId): Option<AccountType> {
    if a < |accounts| then Some(accounts[a].kind) else None
  }

  // ---- the current allocation ----

  /** What an account brings to its class: an investment account only its cash. */
  function OwnPart(db: Db, a: AccountId): real {
    if a >= |db.accounts| then 0.0
    else
      match SummaryNow(db, a)
      case Plain(balance) => balance
      case Invested(_, cash, _, _, _, _) => cash
  }

  function OwnParts(db: Db): AccountId -> real {
    (a: AccountId) => OwnPart(db, a)
  }

  function OwnPartIn(db: Db, c: AssetClass): AccountId -> real {
    (a: AccountId) => if ClassOf(KindOf(db.accounts, a)) == c then OwnPart(db, a) else 0.0
  }

  function HeldPartIn(c: AssetClass): Item -> real {
    (it: Item) => if c.InHoldings? then ItemValue(it) else 0.0
  }

  function CurrentAmount(db: Db, ids: seq<AccountId>, items: seq<Item>): AssetClass -> real {
    (c: AssetClass) => Sum(ids, OwnPartIn(db, c)) + Sum(items, HeldPartIn(c))
  }

  /** _build_allocation */
  method BuildAllocation(db: Db, ids: seq<AccountId>, balances: seq<Summary>, items: seq<Item>)
    returns (shares: seq<Share>)
    requires |balances| == |ids|
    requires forall i :: 0 <= i < |ids| ==> ids[i] < |db.accounts| && balances[i] == SummaryNow(db, ids[i])
    ensures Shows(shares, CurrentAmount(db, ids, items), Sum(ids, OwnParts(db)) + Sum(items, ItemValue))
  {
    var cash := AllocateAccounts(db, ids, balances);
    var slices := AllocateItems(cash, items);
    SlicesAreShown(slices, CurrentAmount(db, ids, items), Sum(ids, OwnParts(db)) + Sum(items, ItemValue));
    shares := SlicesToList(slices);
  }

  /** The slices hold the parts of these accounts, class by class. */
  ghost predicate Allocated(db: Db, ids: seq<AccountId>, slices: seq<Slice>) {
    && OncePerClass(slices)
    && (forall c :: Sum(slices, InClass(c)) == Sum(ids, OwnPartIn(db, c)))
    && Sum(slices, Worth) == Sum(ids, OwnParts(db))
  }

  lemma AllocateOne(db: Db, ids: seq<AccountId>, a: AccountId, slices: seq<Slice>)
    requires Allocated(db, ids, slices)
    ensures Allocated(db, ids + [a], Add(slices, ClassOf(KindOf(db.accounts, a)), OwnPart(db, a)))
  {
    var target, part := ClassOf(KindOf(db.accounts, a)), OwnPart(db, a);
    assert (ids + [a])[..|ids|] == ids;
    AddAdds(slices, target, part, InCash);
    forall c ensures Sum(Add(slices, target, part), InClass(c)) == Sum(ids + [a], OwnPartIn(db, c)) {
      AddAdds(slices, target, part, c);
    }
  }

  method AllocateAccounts(db: Db, ids: seq<AccountId>, balances: seq<Summary>) returns (slices: seq<Slice>)
    requires |balances| == |ids|
    requires forall i :: 0 <= i < |ids| ==> ids[i] < |db.accounts| && balances[i] == SummaryNow(db, ids[i])
    ensures Allocated(db, ids, slices)
  {
    slices := [];
    for k := 0 to |ids|
      invariant Allocated(db, ids[..k], slices)
    {
      var kind, balance := db.accounts[ids[k]].kind, balances[k];
      AllocateOne(db, ids[..k], ids[k], slices);
      assert ids[..k + 1] == ids[..k] + [ids[k]];
      slices := AllocateAccount(slices, kind, balance);
    }
    assert ids[..|ids|] == ids;
  }

  /** One account of the loop. */
  method AllocateAccount(was: seq<Slice>, kind: AccountType, balance: Summary) returns (slices: seq<Slice>)
    requires kind.Investment? <==> balance.Invested?
    ensures slices == Add(was, ClassOf(Some(kind)), if balance.Invested? then balance.cash else balance.balance)
  {
    slices := was;
    if kind.Investment? {
      slices := Add(slices, InCash, balance.cash);
    } else if kind.RealEstate? || kind.Pension? || kind.Commodity? || kind.SavingsAsset? {
      slices := Add(slices, ClassOf(Some(kind)), balance.balance);
    } else {
      slices := Add(slices, InCash, balance.balance);
    }
  }

  method AllocateItems(cash: seq<Slice>, items: seq<Item>) returns (slices: seq<Slice>)
    requires OncePerClass(cash)
    ensures OncePerClass(slices)
    ensures forall c :: Sum(slices, InClass(c)) == Sum(cash, InClass(c)) + Sum(items, HeldPartIn(c))
    ensures Sum(slices, Worth) == Sum(cash, Worth) + Sum(items, ItemValue)
  {
    slices := cash;
    for k := 0 to |items|
      invariant OncePerClass(slices)
      invariant forall c :: Sum(slices, InClass(c)) == Sum(cash, InClass(c)) + Sum(items[..k], HeldPartIn(c))
      invariant Sum(slices, Worth) == Sum(cash, Worth) + Sum(items[..k], ItemValue)
    {
      assert items[..k + 1][..k] == items[..k];
      var value := ItemValue(items[k]);
      AddAdds(slices, InHoldings, value, InCash);
      forall c { AddAdds(slices, InHoldings, value, c); }
      slices := Add(slices, InHoldings, value);
    }
    assert items[..|items|] == items;
  }

  function ShownBalance(db: Db): AccountId -> real {
    (a: AccountId) => if a < |db.accounts| then SummaryNow(db, a).balance else 0.0
  }

  function HeldOnAny(db: Db, ids: seq<AccountId>): Item -> real {
    (it: Item) =>
      if it.active && it.account in ids && KindOf(db.accounts, it.account) == Some(Investment) then ItemValue(it) else 0.0
  }

  lemma {:induction false} PartsAndHoldings(db: Db, ids: seq<AccountId>)
    requires Distinct(ids) && forall i :: 0 <= i < |ids| ==> ids[i] < |db.accounts|
    ensures Sum(ids, ShownBalance(db)) == Sum(ids, OwnParts(db)) + Sum(db.book.items, HeldOnAny(db, ids))
  {
    if ids == [] {
      SumZero(db.book.items, HeldOnAny(db, ids));
    } else {
      var n := |ids| - 1;
      var a := ids[n];
      PartsAndHoldings(db, ids[..n]);
      assert ids == ids[..n] + [a];
      if db.accounts[a].kind.Investment? {
        SumPlus(db.book.items, HeldOnAny(db, ids[..n]), ValueOn(a), HeldOnAny(db, ids));
      } else {
        SumSame(db.book.items, HeldOnAny(db, ids[..n]), HeldOnAny(db, ids));
      }
    }
  }

  predicate Owned(db: Db, h: HouseholdId, it: Item) {
    it.active && InHousehold(db, it.account, h)
  }

  /** The household's ACTIVE items: what the page asks for. */
  function ItemsOf(db: Db, h: HouseholdId, items: seq<Item>): seq<Item> {
    if items == [] then []
    else
      var rest := ItemsOf(db, h, items[..|items| - 1]);
      if Owned(db, h, items[|items| - 1]) then rest + [items[|items| - 1]] else rest
  }

  function OwnedValue(db: Db, h: HouseholdId): Item -> real {
    (it: Item) => if Owned(db, h, it) then ItemValue(it) else 0.0
  }

  lemma {:induction false} ItemsOfSum(db: Db, h: HouseholdId, items: seq<Item>)
    ensures Sum(ItemsOf(db, h, items), ItemValue) == Sum(items, OwnedValue(db, h))
  {
    if items != [] {
      ItemsOfSum(db, h, items[..|items| - 1]);
      SumOneMore(ItemsOf(db, h, items[..|items| - 1]), items[|items| - 1], ItemValue);
    }
  }

  predicate OnListed(db: Db, ids: seq<AccountId>, it: Item) {
    it.account in ids && KindOf(db.accounts, it.account) == Some(Investment)
  }

  function HeldElsewhere(db: Db, h: HouseholdId, ids: seq<AccountId>): Item -> real {
    (it: Item) => if Owned(db, h, it) && !OnListed(db, ids, it) then ItemValue(it) else 0.0
  }

  /** Of one household, cash parts and holdings together are the listed balances, plus exactly what it holds
      outside the listed investment accounts: nothing when each of its active items is on one of them. */
  lemma {:induction false} SlicesTotalBalances(db: Db, h: HouseholdId, ids: seq<AccountId>)
    requires Distinct(ids) && forall i :: 0 <= i < |ids| ==> InHousehold(db, ids[i], h)
    ensures Sum(ids, OwnParts(db)) + Sum(ItemsOf(db, h, db.book.items), ItemValue)
         == Sum(ids, ShownBalance(db)) + Sum(db.book.items, HeldElsewhere(db, h, ids))
    ensures (forall it :: it in db.book.items && Owned(db, h, it) ==> OnListed(db, ids, it)) ==>
            Sum(db.book.items, HeldElsewhere(db, h, ids)) == 0.0
  {
    PartsAndHoldings(db, ids);
    ItemsOfSum(db, h, db.book.items);
    SumPlus(db.book.items, HeldOnAny(db, ids), HeldElsewhere(db, h, ids), OwnedValue(db, h));
    if forall it :: it in db.book.items && Owned(db, h, it) ==> OnListed(db, ids, it) {
      SumZero(db.book.items, HeldElsewhere(db, h, ids));
    }
  }

  // ---- which types a class holds ----

  /** The account types behind a slice, class by class. */
  ghost predicate TypesOf(c: AssetClass, kinds: set<AccountType>) {
    match c
    case InCash => kinds == {Living, Savings, Investment, Other}
    case InRealEstate => kinds == {RealEstate}
    case InPension => kinds == {Pension}
    case InCommodity => kinds == {Commodity}
    case InSavings => kinds == {SavingsAsset}
    case InHoldings => kinds == {}
  }

  function OwnPartOf(db: Db, kinds: set<AccountType>): AccountId -> real {
    (a: AccountId) => if a < |db.accounts| && db.accounts[a].kind in kinds then OwnPart(db, a) else 0.0
  }

  /** Each slice holds the accounts of its types, the slice of holdings the items and nothing else. */
  lemma {:induction false} SlicesFollowTypes(
      db: Db, ids: seq<AccountId>, items: seq<Item>, c: AssetClass, kinds: set<AccountType>)
    requires TypesOf(c, kinds) && forall i :: 0 <= i < |ids| ==> ids[i] < |db.accounts|
    ensures CurrentAmount(db, ids, items)(c)
         == Sum(ids, OwnPartOf(db, kinds)) + if c.InHoldings? then Sum(items, ItemValue) else 0.0
  {
    SumSame(ids, OwnPartIn(db, c), OwnPartOf(db, kinds));
    if c.InHoldings? {
      SumSame(items, HeldPartIn(c), ItemValue);
    } else {
      SumZero(items, HeldPartIn(c));
    }
  }

  // ---- the monthly trend ----

  datatype Point = Point(month: int, shares: seq<Share>)

  function Filed(month: int, a: AccountId): History -> real {
    (h: History) => if h.month == month && h.account == a then h.valuation else 0.0
  }

  function FiledIn(month: int): History -> real {
    (h: History) => if h.month == month then h.valuation else 0.0
  }

  /** What a snapshot row brings to its class: an investment account the cash recovered from its balance. */
  function Recovered(accounts: seq<Account>, histories: seq<History>, s: Snapshot): real {
    if KindOf(accounts, s.account) == Some(Investment)
    then s.balance - Sum(histories, Filed(s.month, s.account))
    else s.balance
  }

  function RecoveredIn(accounts: seq<Account>, histories: seq<History>, month: int, c: AssetClass): Snapshot -> real {
    (s: Snapshot) =>
      if s.month == month && ClassOf(KindOf(accounts, s.account)) == c then Recovered(accounts, histories, s) else 0.0
  }

  function RecoveredParts(accounts: seq<Account>, histories: seq<History>, month: int): Snapshot -> real {
    (s: Snapshot) => if s.month == month then Recovered(accounts, histories, s) else 0.0
  }

  function FiledPart(month: int, c: AssetClass): History -> real {
    (h: History) => if h.month == month && c.InHoldings? then h.valuation else 0.0
  }

  function SlicesAt(trend: map<int, seq<Slice>>, month: int): seq<Slice> {
    if month in trend then trend[month] else []
  }

  function FiledAt(filed: map<(int, AccountId), real>, key: (int, AccountId)): real {
    if key in filed then filed[key] else 0.0
  }

  /** The running dictionary of one month after some histories and some snapshots. */
  ghost predicate MonthAccumulated(
    accounts: seq<Account>, all: seq<History>, histories: seq<History>, snapshots: seq<Snapshot>,
    m: int, slices: seq<Slice>)
  {
    && OncePerClass(slices)
    && (forall c :: Sum(slices, InClass(c))
          == Sum(histories, FiledPart(m, c)) + Sum(snapshots, RecoveredIn(accounts, all, m, c)))
    && Sum(slices, Worth) == Sum(histories, FiledIn(m)) + Sum(snapshots, RecoveredParts(accounts, all, m))
  }

  ghost predicate Accumulated(
    accounts: seq<Account>, all: seq<History>, histories: seq<History>, snapshots: seq<Snapshot>,
    trend: map<int, seq<Slice>>)
  {
    forall m :: MonthAccumulated(accounts, all, histories, snapshots, m, SlicesAt(trend, m))
  }

  lemma FileInMonth(
      accounts: seq<Account>, all: seq<History>, histories: seq<History>, h: History, m: int, slices: seq<Slice>)
    requires MonthAccumulated(accounts, all, histories, [], m, slices)
    ensures MonthAccumulated(
              accounts, all, histories + [h], [], m, if h.month == m then Add(slices, InHoldings, h.valuation) else slices)
  {
    var after := if h.month == m then Add(slices, InHoldings, h.valuation) else slices;
    forall c
      ensures Sum(after, InClass(c))
           == Sum(histories + [h], FiledPart(m, c)) + Sum([], RecoveredIn(accounts, all, m, c))
    {
      SumOneMore(histories, h, FiledPart(m, c));
      AddAdds(slices, InHoldings, h.valuation, c);
    }
    SumOneMore(histories, h, FiledIn(m));
    AddAdds(slices, InHoldings, h.valuation, InCash);
  }

  lemma FileOne(
      accounts: seq<Account>, all: seq<History>, histories: seq<History>, h: History, trend: map<int, seq<Slice>>)
    requires Accumulated(accounts, all, histories, [], trend)
    ensures Accumulated(accounts, all, histories + [h], [],
                        trend[h.month := Add(SlicesAt(trend, h.month), InHoldings, h.valuation)])
  {
    var after := trend[h.month := Add(SlicesAt(trend, h.month), InHoldings, h.valuation)];
    forall m ensures MonthAccumulated(accounts, all, histories + [h], [], m, SlicesAt(after, m)) {
      FileInMonth(accounts, all, histories, h, m, SlicesAt(trend, m));
    }
  }

  lemma RecoverInMonth(
      accounts: seq<Account>, all: seq<History>, snapshots: seq<Snapshot>, s: Snapshot, m: int, slices: seq<Slice>)
    requires MonthAccumulated(accounts, all, all, snapshots, m, slices)
    ensures MonthAccumulated(
              accounts, all, all, snapshots + [s], m,
              if s.month == m then Add(slices, ClassOf(KindOf(accounts, s.account)), Recovered(accounts, all, s)) else slices)
  {
    var target, part := ClassOf(KindOf(accounts, s.account)), Recovered(accounts, all, s);
    var after := if s.month == m then Add(slices, target, part) else slices;
    forall c
      ensures Sum(after, InClass(c))
           == Sum(all, FiledPart(m, c)) + Sum(snapshots + [s], RecoveredIn(accounts, all, m, c))
    {
      SumOneMore(snapshots, s, RecoveredIn(accounts, all, m, c));
      AddAdds(slices, target, part, c);
    }
    SumOneMore(snapshots, s, RecoveredParts(accounts, all, m));
    AddAdds(slices, target, part, InCash);
  }

  lemma RecoverOne(
      accounts: seq<Account>, all: seq<History>, snapshots: seq<Snapshot>, s: Snapshot, trend: map<int, seq<Slice>>)
    requires Accumulated(accounts, all, all, snapshots, trend)
    ensures Accumulated(
              accounts, all, all, snapshots + [s],
              trend[s.month := Add(SlicesAt(trend, s.month), ClassOf(KindOf(accounts, s.account)), Recovered(accounts, all, s))])
  {
    var after :=
      trend[s.month := Add(SlicesAt(trend, s.month), ClassOf(KindOf(accounts, s.account)), Recovered(accounts, all, s))];
    forall m ensures MonthAccumulated(accounts, all, all, snapshots + [s], m, SlicesAt(after, m)) {
      RecoverInMonth(accounts, all, snapshots, s, m, SlicesAt(trend, m));
    }
  }

  ghost predicate FiledSums(histories: seq<History>, filed: map<(int, AccountId), real>) {
    forall key :: FiledAt(filed, key) == Sum(histories, Filed(key.0, key.1))
  }

  lemma FileSum(histories: seq<History>, h: History, filed: map<(int, AccountId), real>)
    requires FiledSums(histories, filed)
    ensures var key := (h.month, h.account);
            FiledSums(histories + [h], filed[key := FiledAt(filed, key) + h.valuation])
  {
    var own := (h.month, h.account);
    var after := filed[own := FiledAt(filed, own) + h.valuation];
    forall key ensures FiledAt(after, key) == Sum(histories + [h], Filed(key.0, key.1)) {
      SumOneMore(histories, h, Filed(key.0, key.1));
      assert key == own <==> key.0 == h.month && key.1 == h.account;
    }
  }

  function MonthsOf(snapshots: seq<Snapshot>, histories: seq<History>): set<int> {
    (set s | s in snapshots :: s.month) + (set h | h in histories :: h.month)
  }

  method FileHistories(accounts: seq<Account>, histories: seq<History>)
    returns (filed: map<(int, AccountId), real>, trend: map<int, seq<Slice>>)
    ensures FiledSums(histories, filed) && Accumulated(accounts, histories, histories, [], trend)
    ensures trend.Keys == MonthsOf([], histories)
  {
    filed, trend := map[], map[];
    for k := 0 to |histories|
      invariant FiledSums(histories[..k], filed)
      invariant Accumulated(accounts, histories, histories[..k], [], trend)
      invariant trend.Keys == MonthsOf([], histories[..k])
    {
      var h := histories[k];
      assert histories[..k + 1] == histories[..k] + [h];
      FileSum(histories[..k], h, filed);
      FileOne(accounts, histories, histories[..k], h, trend);
      filed := filed[(h.month, h.account) := FiledAt(filed, (h.month, h.account)) + h.valuation];
      trend := trend[h.month := Add(SlicesAt(trend, h.month), InHoldings, h.valuation)];
    }
    assert histories[..|histories|] == histories;
  }

  /** _add_snapshot_to_month */
  method AddSnapshotToMonth(was: seq<Slice>, kind: Option<AccountType>, balance: real, filed: real)
    returns (month: seq<Slice>)
    ensures month == Add(was, ClassOf(kind), if kind == Some(Investment) then balance - filed else balance)
  {
    month := was;
    if kind == Some(Investment) {
      month := Add(month, InCash, balance - filed);
    } else if kind.Some? && ManualAsset(kind.value) {
      month := Add(month, ClassOf(kind), balance);
    } else {
      month := Add(month, InCash, balance);
    }
  }

  method AddSnapshot(
      accounts: seq<Account>, s: Snapshot, ghost histories: seq<History>, filed: map<(int, AccountId), real>,
      was: map<int, seq<Slice>>)
    returns (trend: map<int, seq<Slice>>)
    requires FiledSums(histories, filed)
    ensures trend == was[s.month :=
      Add(SlicesAt(was, s.month), ClassOf(KindOf(accounts, s.account)), Recovered(accounts, histories, s))]
  {
    var key := (s.month, s.account);
    assert FiledAt(filed, key) == Sum(histories, Filed(key.0, key.1));
    var month := AddSnapshotToMonth(SlicesAt(was, s.month), KindOf(accounts, s.account), s.balance, FiledAt(filed, key));
    trend := was[s.month := month];
  }

  method AddSnapshots(
      accounts: seq<Account>, snapshots: seq<Snapshot>, histories: seq<History>,
      filed: map<(int, AccountId), real>, started: map<int, seq<Slice>>)
    returns (trend: map<int, seq<Slice>>)
    requires FiledSums(histories, filed) && Accumulated(accounts, histories, histories, [], started)
    requires started.Keys == MonthsOf([], histories)
    ensures Accumulated(accounts, histories, histories, snapshots, trend)
    ensures trend.Keys == MonthsOf(snapshots, histories)
  {
    trend := started;
    for k := 0 to |snapshots|
      invariant Accumulated(accounts, histories, histories, snapshots[..k], trend)
      invariant trend.Keys == MonthsOf(snapshots[..k], histories)
    {
      assert snapshots[..k + 1] == snapshots[..k] + [snapshots[k]];
      RecoverOne(accounts, histories, snapshots[..k], snapshots[k], trend);
      trend := AddSnapshot(accounts, snapshots[k], histories, filed, trend);
    }
    assert snapshots[..|snapshots|] == snapshots;
  }

  /** sorted(trend.items()) */
  method SortedPoints(trend: map<int, seq<Slice>>) returns (points: seq<Point>)
    ensures forall i, j :: 0 <= i < j < |points| ==> points[i].month < points[j].month
    ensures forall m :: m in trend <==> exists i :: 0 <= i < |points| && points[i].month == m
    ensures forall i :: 0 <= i < |points| ==> points[i].shares == SlicesToList(SlicesAt(trend, points[i].month))
  {
    var months := SortedMonths(trend.Keys);
    points := [];
    for k := 0 to |months|
      invariant |points| == k
      invariant forall i :: 0 <= i < k ==> points[i] == Point(months[i], SlicesToList(SlicesAt(trend, months[i])))
    {
      points := points + [Point(months[k], SlicesToList(SlicesAt(trend, months[k])))];
    }
    forall m ensures m in trend <==> exists i :: 0 <= i < |points| && points[i].month == m {
      assert m in trend.Keys <==> m in months;
      if m in months {
        var i :| 0 <= i < |months| && months[i] == m;
        assert points[i].month == m;
      }
    }
  }

  function MonthAmount(
      accounts: seq<Account>, snapshots: seq<Snapshot>, histories: seq<History>, m: int): AssetClass -> real {
    (c: AssetClass) => Sum(histories, FiledPart(m, c)) + Sum(snapshots, RecoveredIn(accounts, histories, m, c))
  }

  function RecoveredOf(
      accounts: seq<Account>, histories: seq<History>, m: int, kinds: set<AccountType>): Snapshot -> real {
    (s: Snapshot) =>
      if s.month == m && s.account < |accounts| && accounts[s.account].kind in kinds
      then Recovered(accounts, histories, s) else 0.0
  }

  /** The same for a month of the trend. */
  lemma {:induction false} MonthSlicesFollowTypes(
      accounts: seq<Account>, snapshots: seq<Snapshot>, histories: seq<History>, m: int, c: AssetClass,
      kinds: set<AccountType>)
    requires TypesOf(c, kinds) && forall s :: s in snapshots ==> s.account < |accounts|
    ensures MonthAmount(accounts, snapshots, histories, m)(c)
         == Sum(snapshots, RecoveredOf(accounts, histories, m, kinds))
            + if c.InHoldings? then Sum(histories, FiledIn(m)) else 0.0
  {
    SumSame(snapshots, RecoveredIn(accounts, histories, m, c), RecoveredOf(accounts, histories, m, kinds));
    if c.InHoldings? {
      SumSame(histories, FiledPart(m, c), FiledIn(m));
    } else {
      SumZero(histories, FiledPart(m, c));
    }
  }

  /** What a point of the trend shows. */
  ghost predicate PointShows(accounts: seq<Account>, snapshots: seq<Snapshot>, histories: seq<History>, p: Point) {
    Shows(
      p.shares, MonthAmount(accounts, snapshots, histories, p.month),
      Sum(histories, FiledIn(p.month)) + Sum(snapshots, RecoveredParts(accounts, histories, p.month)))
  }

  lemma PointOf(
      accounts: seq<Account>, snapshots: seq<Snapshot>, histories: seq<History>, trend: map<int, seq<Slice>>, m: int)
    requires Accumulated(accounts, histories, histories, snapshots, trend)
    ensures PointShows(accounts, snapshots, histories, Point(m, SlicesToList(SlicesAt(trend, m))))
  {
    assert MonthAccumulated(accounts, histories, histories, snapshots, m, SlicesAt(trend, m));
    SlicesAreShown(
      SlicesAt(trend, m), MonthAmount(accounts, snapshots, histories, m),
      Sum(histories, FiledIn(m)) + Sum(snapshots, RecoveredParts(accounts, histories, m)));
  }

  /** build_allocation_trend: one point for each month that has rows, oldest first. */
  method BuildAllocationTrend(accounts: seq<Account>, snapshots: seq<Snapshot>, histories: seq<History>)
    returns (points: seq<Point>)
    ensures forall i, j :: 0 <= i < j < |points| ==> points[i].month < points[j].month
    ensures forall m :: m in MonthsOf(snapshots, histories) <==> exists i :: 0 <= i < |points| && points[i].month == m
    ensures forall i :: 0 <= i < |points| ==> PointShows(accounts, snapshots, histories, points[i])
  {
    var filed, started := FileHistories(accounts, histories);
    var trend := AddSnapshots(accounts, snapshots, histories, filed, started);
    points := SortedPoints(trend);
    forall i | 0 <= i < |points| ensures PointShows(accounts, snapshots, histories, points[i]) {
      PointOf(accounts, snapshots, histories, trend, points[i].month);
    }
  }
}
