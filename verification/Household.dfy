/** Every request that changes the books, as one atomic step each, and what all of them together keep. */
module Household {
  import opened Money
  import opened Tables
  import opened Calendar
  import opened Portfolio
  import opened Ledger
  import opened LedgerPages
  import opened Database
  import opened Snapshots
  import opened SnapshotLaws

  datatype World = World(db: Db, archive: Archive)

  // ---- requests ----

  datatype NewRow = NewRow(
    kind: TxType, amount: real, date: int, account: AccountId, to: Option<AccountId>, direction: Option<Direction>)

  datatype RowChange = RowChange(
    kind: Option<TxType>, amount: Option<real>, date: Option<int>, account: Option<AccountId>,
    to: Option<AccountId>, direction: Option<Direction>)

  datatype Request =
    | CreateRow(household: HouseholdId, id: nat, reg: int, row: NewRow)
    | UpdateRow(household: HouseholdId, id: nat, change: RowChange)
    | DeleteRow(household: HouseholdId, id: nat)
    | CreateAccount(household: HouseholdId, kind: AccountType, startBalance: real)
    | UpdateAccount(
        household: HouseholdId, account: AccountId, newKind: Option<AccountType>, newStart: Option<real>,
        archive: Option<bool>)
    | DeleteAccount(household: HouseholdId, account: AccountId)
    | CreateItem(household: HouseholdId, account: AccountId, currentPrice: real, quote: nat)
    | TradeOn(command: Command)
    | MonthlyJob(households: seq<HouseholdId>, target: int, prices: Prices)
    | ManualSnapshot(household: HouseholdId, target: int, prices: Prices)

  /** What the request schemas let through. */
  predicate GoodNewRow(r: NewRow) {
    && r.amount > 0.0
    && (r.kind.Transfer? <==> r.to.Some?) && r.to != Some(r.account)
    && (r.kind.Valuation? <==> r.direction.Some?)
  }

  predicate GoodRowChange(c: RowChange) {
    && (c.amount.Some? ==> c.amount.value > 0.0)
    && (c.account.Some? && c.to.Some? ==> c.account.value != c.to.value)
  }

  /** What a date column and a two-digit amount column hold. */
  ghost predicate FitsColumns(date: Option<int>, amount: Option<real>) {
    && (date.Some? ==> RealDay(date.value))
    && (amount.Some? ==> WholeCents(amount.value))
  }

  /** Schemas and columns, and for the job the household table, where no household appears twice. */
  ghost predicate Sent(q: Request) {
    match q
    case CreateRow(_, _, _, r) => GoodNewRow(r) && FitsColumns(Some(r.date), Some(r.amount))
    case UpdateRow(_, _, c) => GoodRowChange(c) && FitsColumns(c.date, c.amount)
    case CreateAccount(_, _, start) => FitsColumns(None, Some(start))
    case UpdateAccount(_, _, _, start, _) => FitsColumns(None, start)
    case TradeOn(c) => Admitted(c)
    case MonthlyJob(hs, _, _) => Distinct(hs)
    case _ => true
  }

  // ---- transactions ----

  predicate Usable(db: Db, h: HouseholdId, a: AccountId) {
    InHousehold(db, a, h) && db.accounts[a].active
  }

  /** _validate_fk_belong_to_household, for one or two accounts. */
  function CheckAccounts(db: Db, h: HouseholdId, a: AccountId, to: Option<AccountId>, kind: TxType): Option<Error> {
    if !Usable(db, h, a) || (to.Some? && !Usable(db, h, to.value)) then Some(NotFound)
    else
      var manual := ManualAsset(db.accounts[a].kind);
      var toManual := to.Some? && ManualAsset(db.accounts[to.value].kind);
      if kind.Valuation? && !(manual && (to.None? || toManual)) then Some(BadRequest)
      else if !kind.Valuation? && !kind.Transfer? && (manual || toManual) then Some(BadRequest)
      else None
  }

  /** The position of the ACTIVE row with this key, or |rows|. */
  function Locate(rows: seq<Row>, id: nat): (i: nat)
    ensures i <= |rows|
    ensures i < |rows| ==> rows[i].id == id && rows[i].active
  {
    if rows == [] then 0
    else
      var n := |rows| - 1;
      var i := Locate(rows[..n], id);
      if i < n then i else if rows[n].id == id && rows[n].active then n else n + 1
  }

  predicate IdTaken(rows: seq<Row>, id: nat) {
    exists i :: 0 <= i < |rows| && rows[i].id == id
  }

  function RowOfRequest(id: nat, reg: int, r: NewRow): Row {
    Row(id, reg, r.date, r.kind, r.amount, r.account, if r.kind.Transfer? then r.to else None,
        if r.kind.Valuation? then r.direction else None, true)
  }

  /** _apply_partial_update, then _normalize_to_account. */
  function Merged(r: Row, c: RowChange): Row {
    var kind := Or(c.kind, r.kind);
    r.(kind := kind, amount := Or(c.amount, r.amount), date := Or(c.date, r.date), account := Or(c.account, r.account),
       to := if kind.Transfer? then (if c.to.Some? then c.to else r.to) else None,
       direction := if c.direction.Some? then c.direction else r.direction)
  }

  function WithRows(w: World, rows: seq<Row>): World {
    w.(db := w.db.(rows := rows))
  }

  function CreateTransaction(w: World, h: HouseholdId, id: nat, reg: int, r: NewRow): Result<World> {
    var failed := CheckAccounts(w.db, h, r.account, r.to, r.kind);
    if failed.Some? then Err(failed.value)
    else if IdTaken(w.db.rows, id) then Err(Duplicate)
    else Ok(WithRows(w, w.db.rows + [RowOfRequest(id, reg, r)]))
  }

  function UpdateTransaction(w: World, h: HouseholdId, id: nat, c: RowChange): Result<World> {
    var i := Locate(w.db.rows, id);
    if i == |w.db.rows| || !InHousehold(w.db, w.db.rows[i].account, h) then Err(NotFound)
    else
      var was := w.db.rows[i];
      var failed := CheckAccounts(
        w.db, h, Or(c.account, was.account), if c.to.Some? then c.to else was.to, Or(c.kind, was.kind));
      var now := Merged(was, c);
      if failed.Some? then Err(failed.value)
      else if now.kind.Transfer? && (now.to.None? || now.to == Some(now.account)) then Err(BadRequest)
      else Ok(WithRows(w, w.db.rows[i := now]))
  }

  function DeleteTransaction(w: World, h: HouseholdId, id: nat): Result<World> {
    var i := Locate(w.db.rows, id);
    if i == |w.db.rows| || !InHousehold(w.db, w.db.rows[i].account, h) then Err(NotFound)
    else Ok(WithRows(w, w.db.rows[i := w.db.rows[i].(active := false)]))
  }

  // ---- accounts ----

  function Each<T>(s: seq<T>, f: T -> T): seq<T> {
    seq(|s|, i requires 0 <= i < |s| => f(s[i]))
  }

  /** soft_delete_solo_by_account_id */
  function SoloDeleted(a: AccountId): Row -> Row {
    (r: Row) =>
      if r.active && r.account == a && r.to.None? && (r.kind.Income? || r.kind.Expense? || r.kind.FixedExpense?)
      then r.(active := false) else r
  }

  function Counterparty(r: Row, a: AccountId): Option<AccountId> {
    if r.account == a then r.to else Some(r.account)
  }

  predicate Dead(accounts: seq<Account>, c: Option<AccountId>) {
    c.Some? && c.value < |accounts| && !accounts[c.value].active
  }

  /** soft_delete_transfers_with_dead_counterparty */
  function DeadTransferDeleted(accounts: seq<Account>, a: AccountId): Row -> Row {
    (r: Row) =>
      if r.active && r.kind.Transfer? && Touches(r, a) && Dead(accounts, Counterparty(r, a))
      then r.(active := false) else r
  }

  function SnapshotClosed(a: AccountId): Snapshot -> Snapshot {
    (s: Snapshot) => if s.account == a && s.active then s.(active := false) else s
  }

  function HistoryClosed(a: AccountId): History -> History {
    (x: History) => if x.account == a && x.active then x.(active := false) else x
  }

  function RowsAfterDelete(db: Db, a: AccountId): seq<Row> {
    Each(Each(db.rows, SoloDeleted(a)), DeadTransferDeleted(db.accounts, a))
  }

  predicate HasItems(db: Db, a: AccountId) {
    exists i :: 0 <= i < |db.book.items| && db.book.items[i].account == a && db.book.items[i].active
  }

  function AccountDeleted(w: World, a: AccountId): World
    requires a < |w.db.accounts|
  {
    World(
      Db(w.db.accounts[a := w.db.accounts[a].(active := false)], RowsAfterDelete(w.db, a), CloseTrades(w.db.book, a)),
      Archive(Each(w.archive.snapshots, SnapshotClosed(a)), Each(w.archive.histories, HistoryClosed(a))))
  }

  function UpdatedAccount(
      was: Account, kind: Option<AccountType>, start: Option<real>, archive: Option<bool>): Account {
    was.(kind := Or(kind, was.kind), startBalance := Or(start, was.startBalance), archived := Or(archive, was.archived))
  }

  // ---- one step, and runs of steps ----

  /** An error leaves everything as it was. */
  function Step(w: World, q: Request): Result<World> {
    match q
    case CreateRow(h, id, reg, r) => CreateTransaction(w, h, id, reg, r)
    case UpdateRow(h, id, c) => UpdateTransaction(w, h, id, c)
    case DeleteRow(h, id) => DeleteTransaction(w, h, id)
    case CreateAccount(h, kind, start) =>
      Ok(w.(db := w.db.(accounts := w.db.accounts + [Account(h, kind, start, false, true)])))
    case UpdateAccount(h, a, kind, start, archive) =>
      if !Usable(w.db, h, a) then Err(NotFound)
      else Ok(w.(db := w.db.(accounts := w.db.accounts[a := UpdatedAccount(w.db.accounts[a], kind, start, archive)])))
    case DeleteAccount(h, a) =>
      if !Usable(w.db, h, a) then Err(NotFound)
      else if HasItems(w.db, a) then Err(HasDependents)
      else Ok(AccountDeleted(w, a))
    case CreateItem(h, a, price, quote) =>
      if !Usable(w.db, h, a) then Err(NotFound)
      else if !w.db.accounts[a].kind.Investment? then Err(BadRequest)
      else Ok(w.(db := w.db.(book := AddItem(w.db.book, a, price, quote))))
    case TradeOn(c) =>
      var r := Apply(w.db.book, c);
      if r.Ok? then Ok(w.(db := w.db.(book := r.value))) else Err(r.error)
    case MonthlyJob(hs, target, prices) => Ok(w.(archive := RunJob(w.db, w.archive, hs, target, prices)))
    case ManualSnapshot(h, target, prices) => Ok(w.(archive := RunManual(w.db, w.archive, h, target, prices)))
  }

  function After(w: World, q: Request): World {
    var r := Step(w, q);
    if r.Ok? then r.value else w
  }

  function Run(w: World, qs: seq<Request>): World {
    if qs == [] then w else After(Run(w, qs[..|qs| - 1]), qs[|qs| - 1])
  }

  const Empty := World(Db([], [], Book([], [])), Archive([], []))

  // ---- what every run keeps ----

  /** A row names accounts that exist, of one household, and is well formed. */
  ghost predicate RowFits(accounts: seq<Account>, r: Row) {
    && WellFormed(r) && r.amount > 0.0 && r.account < |accounts|
    && (r.to.Some? ==> r.to.value < |accounts| && accounts[r.to.value].household == accounts[r.account].household)
  }

  predicate Alive(accounts: seq<Account>, a: AccountId) {
    a < |accounts| && accounts[a].active
  }

  /** An ACTIVE transfer has an ACTIVE end; ACTIVE income and expenses are on an ACTIVE account. */
  ghost predicate RowStands(accounts: seq<Account>, r: Row) {
    r.active ==>
      match r.kind
      case Transfer => Alive(accounts, r.account) || (r.to.Some? && Alive(accounts, r.to.value))
      case Valuation => true
      case _ => Alive(accounts, r.account)
  }

  ghost predicate RowsSound(accounts: seq<Account>, rows: seq<Row>) {
    UniqueIds(rows) && forall i :: 0 <= i < |rows| ==> RowFits(accounts, rows[i]) && RowStands(accounts, rows[i])
  }

  /** ACTIVE items and ACTIVE trades are on accounts of one sort. */
  ghost predicate BookedOn(sort: AccountId -> bool, b: Book) {
    && (forall i :: 0 <= i < |b.items| && b.items[i].active ==> sort(b.items[i].account))
    && (forall j :: 0 <= j < |b.trades| && b.trades[j].active ==> sort(b.trades[j].account))
  }

  function AliveIn(accounts: seq<Account>): AccountId -> bool {
    (a: AccountId) => Alive(accounts, a)
  }

  ghost predicate ItemsExist(accounts: seq<Account>, b: Book) {
    forall i :: 0 <= i < |b.items| ==> b.items[i].account < |accounts|
  }

  ghost predicate BookSound(accounts: seq<Account>, b: Book) {
    Sound(b) && ItemsExist(accounts, b) && BookedOn(AliveIn(accounts), b)
  }

  /** Dates are days of the calendar, amounts and start balances whole cents. */
  ghost predicate ColumnsFit(db: Db) {
    && (forall i :: 0 <= i < |db.rows| ==> FitsColumns(Some(db.rows[i].date), Some(db.rows[i].amount)))
    && (forall a :: 0 <= a < |db.accounts| ==> FitsColumns(None, Some(db.accounts[a].startBalance)))
  }

  ghost predicate Good(w: World) {
    && ColumnsFit(w.db)
    && RowsSound(w.db.accounts, w.db.rows)
    && BookSound(w.db.accounts, w.db.book)
    && ArchiveSound(w.db, w.archive)
  }

  // -- transactions

  lemma CheckedAccounts(db: Db, h: HouseholdId, a: AccountId, to: Option<AccountId>, kind: TxType)
    requires CheckAccounts(db, h, a, to, kind).None?
    ensures Usable(db, h, a) && (to.Some? ==> Usable(db, h, to.value))
  {
  }

  lemma CreateKeepsRows(w: World, h: HouseholdId, id: nat, reg: int, r: NewRow)
    requires RowsSound(w.db.accounts, w.db.rows) && GoodNewRow(r) && CreateTransaction(w, h, id, reg, r).Ok?
    ensures RowsSound(w.db.accounts, CreateTransaction(w, h, id, reg, r).value.db.rows)
  {
    CheckedAccounts(w.db, h, r.account, r.to, r.kind);
    assert RowFits(w.db.accounts, RowOfRequest(id, reg, r));
  }

  lemma UpdateKeepsRows(w: World, h: HouseholdId, id: nat, c: RowChange)
    requires RowsSound(w.db.accounts, w.db.rows) && GoodRowChange(c) && UpdateTransaction(w, h, id, c).Ok?
    ensures RowsSound(w.db.accounts, UpdateTransaction(w, h, id, c).value.db.rows)
  {
    var was := w.db.rows[Locate(w.db.rows, id)];
    CheckedAccounts(w.db, h, Or(c.account, was.account), if c.to.Some? then c.to else was.to, Or(c.kind, was.kind));
    assert RowFits(w.db.accounts, Merged(was, c));
  }

  lemma DeleteKeepsRows(w: World, h: HouseholdId, id: nat)
    requires RowsSound(w.db.accounts, w.db.rows) && DeleteTransaction(w, h, id).Ok?
    ensures RowsSound(w.db.accounts, DeleteTransaction(w, h, id).value.db.rows)
  {
    assert RowFits(w.db.accounts, w.db.rows[Locate(w.db.rows, id)]);
  }

  // -- accounts

  /** Accounts come, change their type, balance or archive mark, but not their household or id. */
  ghost predicate AccountsKept(was: seq<Account>, now: seq<Account>) {
    |was| <= |now| && forall a :: 0 <= a < |was| ==> now[a].household == was[a].household && now[a].active == was[a].active
  }

  lemma AccountsKeptKeepRows(was: seq<Account>, now: seq<Account>, rows: seq<Row>)
    requires RowsSound(was, rows) && AccountsKept(was, now)
    ensures RowsSound(now, rows)
  {
    forall i | 0 <= i < |rows| ensures RowFits(now, rows[i]) && RowStands(now, rows[i]) {
      assert RowFits(was, rows[i]) && RowStands(was, rows[i]);
    }
  }

  lemma ArchiveFollows(db: Db, after: Db, ar: Archive)
    requires ArchiveSound(db, ar) && |db.accounts| <= |after.accounts|
    requires forall a :: 0 <= a < |db.accounts| ==> after.accounts[a].household == db.accounts[a].household
    ensures ArchiveSound(after, ar)
  {
    forall x | x in ar.snapshots ensures SnapshotFits(after, x) {
      assert SnapshotFits(db, x);
    }
    forall x | x in ar.histories ensures HistoryFits(after, x) {
      assert HistoryFits(db, x);
    }
  }

  lemma AccountsKeptKeepGood(w: World, accounts: seq<Account>)
    requires Good(w) && AccountsKept(w.db.accounts, accounts) && ColumnsFit(w.db.(accounts := accounts))
    ensures Good(w.(db := w.db.(accounts := accounts)))
  {
    AccountsKeptKeepRows(w.db.accounts, accounts, w.db.rows);
    ArchiveFollows(w.db, w.db.(accounts := accounts), w.archive);
  }

  // -- deleting an account

  /** What the two cascades leave of a row. */
  function RowAfterDelete(accounts: seq<Account>, a: AccountId, r: Row): Row {
    DeadTransferDeleted(accounts, a)(SoloDeleted(a)(r))
  }

  lemma DeletedRowStands(accounts: seq<Account>, a: AccountId, r: Row)
    requires Alive(accounts, a) && RowFits(accounts, r) && RowStands(accounts, r)
    ensures RowFits(accounts[a := accounts[a].(active := false)], RowAfterDelete(accounts, a, r))
    ensures RowStands(accounts[a := accounts[a].(active := false)], RowAfterDelete(accounts, a, r))
  {
  }

  lemma DeleteAccountKeepsRows(db: Db, a: AccountId)
    requires RowsSound(db.accounts, db.rows) && Alive(db.accounts, a)
    ensures RowsSound(db.accounts[a := db.accounts[a].(active := false)], RowsAfterDelete(db, a))
  {
    var now, rows := db.accounts[a := db.accounts[a].(active := false)], RowsAfterDelete(db, a);
    forall i | 0 <= i < |rows| ensures rows[i].id == db.rows[i].id && RowFits(now, rows[i]) && RowStands(now, rows[i]) {
      DeletedRowStands(db.accounts, a, db.rows[i]);
      assert rows[i] == RowAfterDelete(db.accounts, a, db.rows[i]);
    }
  }

  lemma DeleteAccountKeepsBook(db: Db, a: AccountId)
    requires BookSound(db.accounts, db.book) && Alive(db.accounts, a) && !HasItems(db, a)
    ensures BookSound(db.accounts[a := db.accounts[a].(active := false)], CloseTrades(db.book, a))
  {
    CloseTradesKeepsSound(db.book, a);
  }

  lemma {:induction false} ClosedSnaps(s: seq<Snapshot>, a: AccountId, b: AccountId, m: int)
    ensures SnapsOf(Each(s, SnapshotClosed(a)), b, m) == if b == a then [] else SnapsOf(s, b, m)
  {
    if s != [] {
      var n := |s| - 1;
      ClosedSnaps(s[..n], a, b, m);
      var rest := Each(s[..n], SnapshotClosed(a));
      assert Each(s, SnapshotClosed(a)) == rest + [SnapshotClosed(a)(s[n])];
      OneSnap(rest, SnapshotClosed(a)(s[n]), b, m);
      OneSnap(s[..n], s[n], b, m);
      assert s == s[..n] + [s[n]];
    }
  }

  lemma {:induction false} ClosedHists(s: seq<History>, a: AccountId, b: AccountId, m: int)
    ensures HistsOf(Each(s, HistoryClosed(a)), b, m) == if b == a then [] else HistsOf(s, b, m)
  {
    if s != [] {
      var n := |s| - 1;
      ClosedHists(s[..n], a, b, m);
      var rest := Each(s[..n], HistoryClosed(a));
      assert Each(s, HistoryClosed(a)) == rest + [HistoryClosed(a)(s[n])];
      OneHist(rest, HistoryClosed(a)(s[n]), b, m);
      OneHist(s[..n], s[n], b, m);
      assert s == s[..n] + [s[n]];
    }
  }

  lemma DeleteAccountKeepsArchive(w: World, a: AccountId)
    requires ArchiveSound(w.db, w.archive) && a < |w.db.accounts|
    ensures ArchiveSound(AccountDeleted(w, a).db, AccountDeleted(w, a).archive)
  {
    var after := AccountDeleted(w, a);
    forall x | x in after.archive.snapshots ensures SnapshotFits(after.db, x) {
      var i :| 0 <= i < |w.archive.snapshots| && x == SnapshotClosed(a)(w.archive.snapshots[i]);
      assert SnapshotFits(w.db, w.archive.snapshots[i]);
    }
    forall x | x in after.archive.histories ensures HistoryFits(after.db, x) {
      var i :| 0 <= i < |w.archive.histories| && x == HistoryClosed(a)(w.archive.histories[i]);
      assert HistoryFits(w.db, w.archive.histories[i]);
    }
    forall b: AccountId, m: int ensures MonthSound(after.archive, b, m) {
      ClosedSnaps(w.archive.snapshots, a, b, m);
      ClosedHists(w.archive.histories, a, b, m);
      assert MonthSound(w.archive, b, m);
    }
  }

  // -- trades

  /** Replaying moves nothing to another account, and changes the status of no trade and of one item only. */
  lemma RecalcStays(sort: AccountId -> bool, b: Book, item: ItemId)
    requires BookedOn(sort, b) && item < |b.items| && sort(b.items[item].account) && Recalc(b, item).Ok?
    ensures BookedOn(sort, Recalc(b, item).value)
  {
  }

  /** A trade command revives an item only through a trade that is ACTIVE, so only on an account of the sort. */
  lemma ApplyStays(sort: AccountId -> bool, b: Book, c: Command)
    requires BookedOn(sort, b) && RowsFit(b) && Apply(b, c).Ok?
    ensures BookedOn(sort, Apply(b, c).value)
  {
    match c
    case BuyShares(item, o) => RecalcStays(sort, b.(trades := b.trades + [NewTrade(b, item, Buy, o)]), item);
    case SellShares(item, o) => RecalcStays(sort, b.(trades := b.trades + [NewTrade(b, item, Sell, o)]), item);
    case EditTrade(reg, ch) =>
      RecalcStays(sort, b.(trades := b.trades[reg := Changed(b.trades[reg], ch)]), b.trades[reg].item);
    case DropTrade(reg) =>
      RecalcStays(sort, b.(trades := b.trades[reg := b.trades[reg].(active := false)]), b.trades[reg].item);
    case DropItem(item) =>
    case EditItem(item, p, q, archive) =>
  }

  lemma ApplyKeepsItems(accounts: seq<Account>, b: Book, c: Command)
    requires ItemsExist(accounts, b) && RowsFit(b) && Apply(b, c).Ok?
    ensures ItemsExist(accounts, Apply(b, c).value)
  {
  }

  lemma ApplyStaysOnActiveAccounts(accounts: seq<Account>, b: Book, c: Command)
    requires BookSound(accounts, b) && Admitted(c) && Apply(b, c).Ok?
    ensures BookSound(accounts, Apply(b, c).value)
  {
    ApplyKeepsSound(b, c);
    ApplyKeepsItems(accounts, b, c);
    ApplyStays(AliveIn(accounts), b, c);
  }

  lemma AddItemOnActiveAccount(accounts: seq<Account>, b: Book, a: AccountId, price: real, quote: nat)
    requires BookSound(accounts, b) && Alive(accounts, a)
    ensures BookSound(accounts, AddItem(b, a, price, quote))
  {
    AddItemKeepsSound(b, a, price, quote);
  }

  // -- columns

  lemma StepKeepsColumns(w: World, q: Request)
    requires ColumnsFit(w.db) && Sent(q)
    ensures ColumnsFit(After(w, q).db)
  {
    var after := After(w, q);
    forall i | 0 <= i < |after.db.rows| ensures FitsColumns(Some(after.db.rows[i].date), Some(after.db.rows[i].amount)) {
      if i < |w.db.rows| {
        assert FitsColumns(Some(w.db.rows[i].date), Some(w.db.rows[i].amount));
      }
    }
    forall a | 0 <= a < |after.db.accounts| ensures FitsColumns(None, Some(after.db.accounts[a].startBalance)) {
      if a < |w.db.accounts| {
        assert FitsColumns(None, Some(w.db.accounts[a].startBalance));
      }
    }
  }

  // -- all of them

  lemma StepKeepsGood(w: World, q: Request)
    requires Good(w) && Sent(q)
    ensures Good(After(w, q))
  {
    StepKeepsColumns(w, q);
    if Step(w, q).Ok? {
      match q
      case CreateRow(h, id, reg, r) =>
        CreateKeepsRows(w, h, id, reg, r);
        ArchiveFollows(w.db, After(w, q).db, w.archive);
      case UpdateRow(h, id, c) =>
        UpdateKeepsRows(w, h, id, c);
        ArchiveFollows(w.db, After(w, q).db, w.archive);
      case DeleteRow(h, id) =>
        DeleteKeepsRows(w, h, id);
        ArchiveFollows(w.db, After(w, q).db, w.archive);
      case CreateAccount(h, kind, start) =>
        AccountsKeptKeepGood(w, w.db.accounts + [Account(h, kind, start, false, true)]);
      case UpdateAccount(h, a, kind, start, archive) =>
        AccountsKeptKeepGood(w, w.db.accounts[a := UpdatedAccount(w.db.accounts[a], kind, start, archive)]);
      case DeleteAccount(h, a) =>
        DeleteAccountKeepsRows(w.db, a);
        DeleteAccountKeepsBook(w.db, a);
        DeleteAccountKeepsArchive(w, a);
      case CreateItem(h, a, price, quote) =>
        AddItemOnActiveAccount(w.db.accounts, w.db.book, a, price, quote);
        ArchiveFollows(w.db, After(w, q).db, w.archive);
      case TradeOn(c) =>
        ApplyStaysOnActiveAccounts(w.db.accounts, w.db.book, c);
        ArchiveFollows(w.db, After(w, q).db, w.archive);
      case MonthlyJob(hs, target, prices) =>
        JobClosedForm(w.db, w.archive, hs, target, prices);
      case ManualSnapshot(h, target, prices) =>
        ManualRewritesOneMonth(w.db, w.archive, h, target, prices, 0, 0);
    }
  }

  /** Whatever requests came, in whatever order, accepted or refused, all of it holds. */
  lemma {:induction false} RunKeepsGood(w: World, qs: seq<Request>)
    requires Good(w) && forall i :: 0 <= i < |qs| ==> Sent(qs[i])
    ensures Good(Run(w, qs))
  {
    if qs != [] {
      RunKeepsGood(w, qs[..|qs| - 1]);
      StepKeepsGood(Run(w, qs[..|qs| - 1]), qs[|qs| - 1]);
    }
  }

  lemma EmptyIsGood()
    ensures Good(Empty)
  {
  }
}
