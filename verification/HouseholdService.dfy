/** The transaction and account services as they run: tables changed in place, a failed request rolled back. */
module HouseholdService {
  import opened Tables
  import opened TradeTimeline
  import opened Portfolio
  import opened Balances
  import opened Database
  import opened Household
  import opened HouseholdLaws

  predicate Replies(error: Option<Error>, r: Result<World>) {
    match error
    case None => r.Ok?
    case Some(e) => r == Err(e)
  }

  /** _apply_partial_update: the fields the request names. */
  method ApplyPartialUpdate(tx: Row, c: RowChange) returns (r: Row)
    ensures r == tx.(
      kind := Or(c.kind, tx.kind), amount := Or(c.amount, tx.amount), date := Or(c.date, tx.date),
      account := Or(c.account, tx.account), to := if c.to.Some? then c.to else tx.to,
      direction := if c.direction.Some? then c.direction else tx.direction)
  {
    r := tx;
    if c.kind.Some? {
      r := r.(kind := c.kind.value);
    }
    if c.amount.Some? {
      r := r.(amount := c.amount.value);
    }
    if c.date.Some? {
      r := r.(date := c.date.value);
    }
    if c.account.Some? {
      r := r.(account := c.account.value);
    }
    if c.to.Some? {
      r := r.(to := c.to);
    }
    if c.direction.Some? {
      r := r.(direction := c.direction);
    }
  }

  /** _normalize_to_account */
  method NormalizeToAccount(tx: Row) returns (r: Row)
    ensures r == if tx.kind.Transfer? then tx else tx.(to := None)
  {
    r := tx;
    if !tx.kind.Transfer? {
      r := r.(to := None);
    }
  }

  class Books {
    var accounts: seq<Account>
    var rows: seq<Row>
    var items: seq<Item>
    var trades: seq<Trade>
    var snapshots: seq<Snapshot>
    var histories: seq<History>

    constructor ()
      ensures Contents() == Empty
    {
      accounts, rows, items, trades, snapshots, histories := [], [], [], [], [], [];
    }

    function Contents(): World
      reads this
    {
      World(Db(accounts, rows, Book(items, trades)), Archive(snapshots, histories))
    }

    /** create_transaction */
    method Create(h: HouseholdId, id: nat, reg: int, req: NewRow) returns (error: Option<Error>)
      requires Sent(CreateRow(h, id, reg, req)) && Good(Contents())
      modifies this`rows
      ensures Good(Contents())
      ensures Contents() == After(old(Contents()), CreateRow(h, id, reg, req))
      ensures Replies(error, Step(old(Contents()), CreateRow(h, id, reg, req)))
    {
      StepKeepsGood(Contents(), CreateRow(h, id, reg, req));
      error := CheckAccounts(Contents().db, h, req.account, req.to, req.kind);
      if error.Some? {
        return;
      }
      if IdTaken(rows, id) {
        return Some(Duplicate);
      }
      rows := rows + [Row(
        id, reg, req.date, req.kind, req.amount, req.account, if req.kind.Transfer? then req.to else None,
        if req.kind.Valuation? then req.direction else None, true)];
    }

    /** update_transaction */
    method Update(h: HouseholdId, id: nat, req: RowChange) returns (error: Option<Error>)
      requires Sent(UpdateRow(h, id, req)) && Good(Contents())
      modifies this`rows
      ensures Good(Contents())
      ensures Contents() == After(old(Contents()), UpdateRow(h, id, req))
      ensures Replies(error, Step(old(Contents()), UpdateRow(h, id, req)))
    {
      StepKeepsGood(Contents(), UpdateRow(h, id, req));
      var i := Locate(rows, id);
      if i == |rows| || !InHousehold(Contents().db, rows[i].account, h) {
        return Some(NotFound);
      }
      var tx := rows[i];
      error := CheckAccounts(
        Contents().db, h, Or(req.account, tx.account), if req.to.Some? then req.to else tx.to, Or(req.kind, tx.kind));
      if error.Some? {
        return;
      }
      var before := rows;
      var merged := ApplyPartialUpdate(tx, req);
      var now := NormalizeToAccount(merged);
      rows := rows[i := now];
      if now.kind.Transfer? && (now.to.None? || now.to == Some(now.account)) {
        rows := before;
        error := Some(BadRequest);
      }
    }

    /** delete_transaction */
    method Delete(h: HouseholdId, id: nat) returns (error: Option<Error>)
      requires Good(Contents())
      modifies this`rows
      ensures Good(Contents())
      ensures Contents() == After(old(Contents()), DeleteRow(h, id))
      ensures Replies(error, Step(old(Contents()), DeleteRow(h, id)))
    {
      StepKeepsGood(Contents(), DeleteRow(h, id));
      var i := Locate(rows, id);
      if i == |rows| || !InHousehold(Contents().db, rows[i].account, h) {
        return Some(NotFound);
      }
      rows := rows[i := rows[i].(active := false)];
      error := None;
    }

    /** create_account */
    method OpenAccount(h: HouseholdId, kind: AccountType, startBalance: real) returns (shown: Summary)
      requires Good(Contents()) && Sent(CreateAccount(h, kind, startBalance))
      modifies this`accounts
      ensures Good(Contents())
      ensures Contents() == After(old(Contents()), CreateAccount(h, kind, startBalance))
      ensures shown == SummaryNow(Contents().db, old(|accounts|))
    {
      NewAccountShowsItsStart(Contents(), h, kind, startBalance);
      StepKeepsGood(Contents(), CreateAccount(h, kind, startBalance));
      accounts := accounts + [Account(h, kind, startBalance, false, true)];
      shown := Plain(startBalance);
      if kind.Investment? {
        shown := Invested(startBalance, startBalance, 0.0, 0.0, 0.0, 0.0);
      }
    }

    /** update_account */
    method ChangeAccount(
        h: HouseholdId, a: AccountId, kind: Option<AccountType>, start: Option<real>, archive: Option<bool>)
      returns (error: Option<Error>, shown: Option<Summary>)
      requires Good(Contents()) && Sent(UpdateAccount(h, a, kind, start, archive))
      modifies this`accounts
      ensures Good(Contents())
      ensures Contents() == After(old(Contents()), UpdateAccount(h, a, kind, start, archive))
      ensures Replies(error, Step(old(Contents()), UpdateAccount(h, a, kind, start, archive)))
      ensures error.None? ==> a < |accounts| && shown == Some(SummaryNow(Contents().db, a))
    {
      StepKeepsGood(Contents(), UpdateAccount(h, a, kind, start, archive));
      if !Usable(Contents().db, h, a) {
        return Some(NotFound), None;
      }
      var account := accounts[a];
      if kind.Some? {
        account := account.(kind := kind.value);
      }
      if start.Some? {
        account := account.(startBalance := start.value);
      }
      if archive.Some? {
        account := account.(archived := archive.value);
      }
      accounts := accounts[a := account];
      error := None;
      var summary := CalcBalance(Contents().db, a);
      shown := Some(summary);
    }

    /** delete_account: the guard, then the cascades, and only then the account itself. */
    method CloseAccount(h: HouseholdId, a: AccountId) returns (error: Option<Error>)
      requires Good(Contents())
      modifies this
      ensures Good(Contents())
      ensures Contents() == After(old(Contents()), DeleteAccount(h, a))
      ensures Replies(error, Step(old(Contents()), DeleteAccount(h, a)))
    {
      StepKeepsGood(Contents(), DeleteAccount(h, a));
      if !Usable(Contents().db, h, a) {
        return Some(NotFound);
      }
      if HasItems(Contents().db, a) {
        return Some(HasDependents);
      }
      rows := Each(rows, SoloDeleted(a));
      rows := Each(rows, DeadTransferDeleted(accounts, a));
      trades := MapRows(trades, Retire(a));
      histories := Each(histories, HistoryClosed(a));
      snapshots := Each(snapshots, SnapshotClosed(a));
      accounts := accounts[a := accounts[a].(active := false)];
      error := None;
    }

    /** create_portfolio */
    method RegisterItem(h: HouseholdId, a: AccountId, currentPrice: real, quote: nat) returns (error: Option<Error>)
      requires Good(Contents())
      modifies this`items
      ensures Good(Contents())
      ensures Contents() == After(old(Contents()), CreateItem(h, a, currentPrice, quote))
      ensures Replies(error, Step(old(Contents()), CreateItem(h, a, currentPrice, quote)))
    {
      StepKeepsGood(Contents(), CreateItem(h, a, currentPrice, quote));
      if !Usable(Contents().db, h, a) {
        return Some(NotFound);
      }
      if !accounts[a].kind.Investment? {
        return Some(BadRequest);
      }
      items := items + [Item(a, 0.0, 0.0, currentPrice, quote, false, true)];
      error := None;
    }
  }
}
