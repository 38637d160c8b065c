/** What the deployment stores: the books the users keep, and the monthly archive derived from them. */
module Database {
  import opened Tables
  import opened Portfolio

  datatype Db = Db(accounts: seq<Account>, rows: seq<Row>, book: Book)

  datatype Archive = Archive(snapshots: seq<Snapshot>, histories: seq<History>)

  predicate InHousehold(db: Db, a: AccountId, h: HouseholdId) {
    a < |db.accounts| && db.accounts[a].household == h
  }
}
