/** The tables of one deployment, with the columns the modelled code reads or writes. */
module Tables {

  datatype Option<+T> = None | Some(value: T)

  /** No element appears twice. */
  ghost predicate Distinct<T>(s: seq<T>) {
    forall i, j :: 0 <= i < j < |s| ==> s[i] != s[j]
  }

  /** Rows of accounts and items are never removed, only marked, so an id is a position in its table. */
  type AccountId = nat
  type ItemId = nat
  type HouseholdId = nat

  datatype AccountType =
    | Living | Savings | Investment | RealEstate | Pension | Commodity | SavingsAsset | Other

  /** `active` is data_stat_cd == ACTIVE. */
  datatype Account = Account(
    household: HouseholdId, kind: AccountType, startBalance: real, archived: bool, active: bool)

  predicate ManualAsset(kind: AccountType) {
    kind.RealEstate? || kind.Pension? || kind.Commodity? || kind.SavingsAsset?
  }

  // ---- transactions ----

  datatype TxType = Expense | Income | Transfer | FixedExpense | Valuation
  datatype Direction = Increase | Decrease

  /** `reg` is frst_reg_dt, `id` the random primary key that breaks ties. */
  datatype Row = Row(
    id: nat, reg: int, date: int, kind: TxType, amount: real,
    account: AccountId, to: Option<AccountId>, direction: Option<Direction>, active: bool)

  // ---- portfolio ----

  datatype Side = Buy | Sell

  /** `reg` is the creation stamp frst_reg_dt; rows are only appended, so it is the row's position. */
  datatype Trade = Trade(
    reg: nat, item: ItemId, account: AccountId, side: Side,
    quantity: real, price: real, fee: real, date: int, active: bool,
    pnl: Option<real>, basis: Option<real>)

  /** `quote` stands for the item's current (code, market), under which market prices are filed. */
  datatype Item = Item(
    account: AccountId, quantity: real, avgPrice: real, currentPrice: real, quote: nat,
    archived: bool, active: bool)

  // ---- monthly snapshots; a month is its index in the calendar ----

  datatype Snapshot = Snapshot(
    account: AccountId, month: int, balance: real, income: real, expense: real, fixedExpense: real, active: bool)

  datatype History = History(
    household: HouseholdId, account: AccountId, item: ItemId, month: int,
    quantity: real, avgPrice: real, currentPrice: real, cost: real, valuation: real, active: bool)

  /** Month-start prices by quote and month; where there is none, cost stands in. */
  type Prices = map<(nat, int), real>

  // ---- outcomes ----

  datatype Error = NotFound | BadRequest | HasHoldings | HasDependents | Duplicate
  datatype Result<+T> = Ok(value: T) | Err(error: Error)
}
