/** What the type of an account promises about the rows and items on it, and which type changes keep it. */
module AccountTypes {
  import opened Sums
  import opened Tables
  import opened Portfolio
  import opened Balances
  import opened Database
  import opened Household
  import opened HouseholdLaws
  import opened Wealth

  // ---- what suits a type ----

  /** Manual-asset accounts take transfers and valuations, the others everything but valuations. */
  predicate Suits(kind: TxType, account: AccountType) {
    match kind
    case Transfer => true
    case Valuation => ManualAsset(account)
    case _ => !ManualAsset(account)
  }

  ghost predicate RowSuits(accounts: seq<Account>, r: Row) {
    r.active ==> r.account < |accounts| && Suits(r.kind, accounts[r.account].kind)
  }

  function InvestsIn(accounts: seq<Account>): AccountId -> bool {
    (a: AccountId) => a < |accounts| && accounts[a].kind.Investment?
  }

  /** Every ACTIVE row suits its account, and ACTIVE items and trades are on investment accounts. */
  ghost predicate Suited(w: World) {
    && (forall i :: 0 <= i < |w.db.rows| ==> RowSuits(w.db.accounts, w.db.rows[i]))
    && BookedOn(InvestsIn(w.db.accounts), w.db.book)
  }

  // ---- which type changes keep it ----

  /** What is ACTIVE on the account may be there under the new type as well. */
  ghost predicate TypeFits(db: Db, a: AccountId, kind: AccountType) {
    && (forall i :: 0 <= i < |db.rows| && db.rows[i].active && db.rows[i].account == a ==> Suits(db.rows[i].kind, kind))
    && (kind.Investment? || !Books(db.book, a))
  }

  ghost predicate Books(b: Book, a: AccountId) {
    || (exists i :: 0 <= i < |b.items| && b.items[i].active && b.items[i].account == a)
    || (exists j :: 0 <= j < |b.trades| && b.trades[j].active && b.trades[j].account == a)
  }

  /** The guard that update_account lacks; it concerns no other request. */
  ghost predicate RetypeFits(w: World, q: Request) {
    q.UpdateAccount? && q.newKind.Some? && Step(w, q).Ok? ==> TypeFits(w.db, q.account, q.newKind.value)
  }

  lemma {:induction false} UpdateKeepsSuitedExactlyWhen(w: World, q: Request)
    requires Suited(w) && q.UpdateAccount?
    ensures Suited(After(w, q)) <==> RetypeFits(w, q)
  {
    if Step(w, q).Ok? {
      var after := After(w, q);
      if RetypeFits(w, q) {
        forall i | 0 <= i < |after.db.rows| ensures RowSuits(after.db.accounts, after.db.rows[i]) {
          assert RowSuits(w.db.accounts, w.db.rows[i]);
        }
      }
      if Suited(after) && q.newKind.Some? {
        forall i | 0 <= i < |w.db.rows| && w.db.rows[i].active && w.db.rows[i].account == q.account
          ensures Suits(w.db.rows[i].kind, q.newKind.value)
        {
          assert RowSuits(after.db.accounts, after.db.rows[i]);
        }
      }
    }
  }

  lemma {:induction false} RowRequestKeepsSuited(w: World, q: Request)
    requires Suited(w) && Sent(q) && (q.CreateRow? || q.UpdateRow? || q.DeleteRow?)
    ensures Suited(After(w, q))
  {
    var after := After(w, q);
    forall i | 0 <= i < |after.db.rows| ensures RowSuits(after.db.accounts, after.db.rows[i]) {
      if i < |w.db.rows| {
        assert RowSuits(w.db.accounts, w.db.rows[i]);
      }
    }
  }

  lemma {:induction false} AccountRequestKeepsSuited(w: World, q: Request)
    requires Suited(w) && Good(w) && (q.CreateAccount? || q.DeleteAccount?)
    ensures Suited(After(w, q))
  {
    var after := After(w, q);
    forall i | 0 <= i < |after.db.rows| ensures RowSuits(after.db.accounts, after.db.rows[i]) {
      assert RowSuits(w.db.accounts, w.db.rows[i]);
    }
  }

  lemma {:induction false} OtherRequestKeepsSuited(w: World, q: Request)
    requires Suited(w) && Good(w) && (q.CreateItem? || q.TradeOn? || q.MonthlyJob? || q.ManualSnapshot?)
    ensures Suited(After(w, q))
  {
    var after := After(w, q);
    if q.TradeOn? && Apply(w.db.book, q.command).Ok? {
      ApplyStays(InvestsIn(w.db.accounts), w.db.book, q.command);
    }
    forall i | 0 <= i < |after.db.rows| ensures RowSuits(after.db.accounts, after.db.rows[i]) {
      assert RowSuits(w.db.accounts, w.db.rows[i]);
    }
  }

  /** A request keeps everything suited exactly when, if it changes a type, what is ACTIVE on the account
      suits the new one. */
  lemma {:induction false} StepKeepsSuitedExactlyWhen(w: World, q: Request)
    requires Good(w) && Suited(w) && Sent(q)
    ensures Suited(After(w, q)) <==> RetypeFits(w, q)
  {
    if q.UpdateAccount? {
      UpdateKeepsSuitedExactlyWhen(w, q);
    } else if q.CreateRow? || q.UpdateRow? || q.DeleteRow? {
      RowRequestKeepsSuited(w, q);
    } else if q.CreateAccount? || q.DeleteAccount? {
      AccountRequestKeepsSuited(w, q);
    } else {
      OtherRequestKeepsSuited(w, q);
    }
  }

  /** At the start of a run and after each of its requests. */
  ghost predicate SuitedThroughout(w: World, qs: seq<Request>) {
    Suited(Run(w, qs)) && (qs != [] ==> SuitedThroughout(w, qs[..|qs| - 1]))
  }

  /** Each type change fits the state it meets. */
  ghost predicate RetypesFit(w: World, qs: seq<Request>) {
    qs != [] ==>
      && RetypesFit(w, qs[..|qs| - 1])
      && RetypeFits(Run(w, qs[..|qs| - 1]), qs[|qs| - 1])
  }

  /** All along a run rows and items suit their accounts exactly when every type change along it fits. */
  lemma {:induction false} RunKeepsSuitedExactlyWhen(w: World, qs: seq<Request>)
    requires Good(w) && Suited(w) && forall k :: 0 <= k < |qs| ==> Sent(qs[k])
    ensures SuitedThroughout(w, qs) <==> RetypesFit(w, qs)
  {
    if qs != [] {
      var rest := qs[..|qs| - 1];
      RunKeepsSuitedExactlyWhen(w, rest);
      if SuitedThroughout(w, rest) {
        RunKeepsGood(w, rest);
        StepKeepsSuitedExactlyWhen(Run(w, rest), qs[|qs| - 1]);
      }
    }
  }

  lemma {:induction false} RetypesFitThenSuited(qs: seq<Request>)
    requires (forall k :: 0 <= k < |qs| ==> Sent(qs[k])) && RetypesFit(Empty, qs)
    ensures Good(Run(Empty, qs)) && Suited(Run(Empty, qs))
  {
    EmptyIsGood();
    RunKeepsGood(Empty, qs);
    RunKeepsSuitedExactlyWhen(Empty, qs);
  }

  // ---- the allocation of a household ----

  /** The ACTIVE accounts of a household, archived or not: those the page lists. */
  function ListedAccounts(db: Db, h: HouseholdId, n: nat): seq<AccountId>
    requires n <= |db.accounts|
  {
    if n == 0 then []
    else
      var rest := ListedAccounts(db, h, n - 1);
      if Usable(db, h, n - 1) then rest + [n - 1] else rest
  }

  lemma {:induction false} ListedAreUsable(db: Db, h: HouseholdId, n: nat)
    requires n <= |db.accounts|
    ensures var ids := ListedAccounts(db, h, n);
            && Distinct(ids)
            && (forall i :: 0 <= i < |ids| ==> ids[i] < n && InHousehold(db, ids[i], h))
            && forall a: AccountId :: a < n && Usable(db, h, a) ==> a in ids
  {
    if n > 0 {
      ListedAreUsable(db, h, n - 1);
    }
  }

  /** After any run whose type changes fit, the cash parts and holdings a household's page shows are together
      exactly the balances it lists. */
  lemma {:induction false} RunsAllocateEverything(qs: seq<Request>, h: HouseholdId)
    requires (forall k :: 0 <= k < |qs| ==> Sent(qs[k])) && RetypesFit(Empty, qs)
    ensures var db := Run(Empty, qs).db;
            var ids := ListedAccounts(db, h, |db.accounts|);
            Sum(ids, OwnParts(db)) + Sum(ItemsOf(db, h, db.book.items), ItemValue) == Sum(ids, ShownBalance(db))
  {
    RetypesFitThenSuited(qs);
    var w := Run(Empty, qs);
    var ids := ListedAccounts(w.db, h, |w.db.accounts|);
    ListedAreUsable(w.db, h, |w.db.accounts|);
    SlicesTotalBalances(w.db, h, ids);
    forall it | it in w.db.book.items && Owned(w.db, h, it) ensures OnListed(w.db, ids, it) {
      var i :| 0 <= i < |w.db.book.items| && w.db.book.items[i] == it;
      assert AliveIn(w.db.accounts)(it.account) && InvestsIn(w.db.accounts)(it.account);
      assert Usable(w.db, h, it.account);
    }
  }

  // ---- nothing guards a type change ----

  /** An account is opened, spent from, and declared a house. */
  lemma {:induction false} RetypingStrandsAnExpense() returns (qs: seq<Request>)
    ensures forall k :: 0 <= k < |qs| ==> Sent(qs[k])
    ensures !Suited(Run(Empty, qs))
  {
    HundredIsWhole();
    var q0 := CreateAccount(0, Living, 0.0);
    var q1 := CreateRow(0, 0, 0, NewRow(Expense, 1.0, 0, 0, None, None));
    var q2 := UpdateAccount(0, 0, Some(RealEstate), None, None);
    var w1, w2 := After(Empty, q0), After(After(Empty, q0), q1);
    assert w1.db.accounts == [Account(0, Living, 0.0, false, true)];
    assert w2.db.accounts == w1.db.accounts && w2.db.rows == [Row(0, 0, 0, Expense, 1.0, 0, None, None, true)];
    qs := [q0] + [q1] + [q2];
    RunOneMore(Empty, [], q0);
    assert [] + [q0] == [q0];
    RunOneMore(Empty, [q0], q1);
    RunOneMore(Empty, [q0] + [q1], q2);
    assert !RowSuits(After(w2, q2).db.accounts, After(w2, q2).db.rows[0]);
  }
}
