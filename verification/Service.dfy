/** The request handlers, statement by statement, against the serial machine. */
module Service {
  import opened Domain
  import opened Sums
  import opened Validation
  import opened Tables
  import opened Invariance
  import opened Updates
  import opened Ledger
  import opened Cache
  import opened Storage

  // Account lookups

  /** The accounts are those of the listed ids, as their rows have them. */
  ghost predicate Matches(accounts: seq<Account>, ids: seq<int>, rows: map<int, AccountRow>) {
    && |accounts| == |ids|
    && forall i | 0 <= i < |ids| ::
         ids[i] in rows && accounts[i] == AccountView(ids[i], rows[ids[i]])
  }

  /** `accounts.iter().find(..).unwrap()`: the first account with an id that is among them. */
  function FindAccount(accounts: seq<Account>, id: int): (r: Account)
    requires exists i :: 0 <= i < |accounts| && accounts[i].id == id
    ensures r in accounts && r.id == id
  {
    if accounts[0].id == id then accounts[0]
    else
      assert exists i :: 0 <= i < |accounts[1..]| && accounts[1..][i].id == id by {
        var i :| 0 <= i < |accounts| && accounts[i].id == id;
        assert accounts[1..][i - 1].id == id;
      }
      FindAccount(accounts[1..], id)
  }

  /** Every leg finds its account, as its row has it. */
  lemma LegAccount(accounts: seq<Account>, legs: seq<Leg>, rows: map<int, AccountRow>, a: int)
    requires Matches(accounts, LockOrder(legs), rows) && Touches(legs, a)
    ensures exists i :: 0 <= i < |accounts| && accounts[i].id == a
    ensures a in rows && FindAccount(accounts, a) == AccountView(a, rows[a])
  {
    LockOrderExact(legs);
    var k :| 0 <= k < |LockOrder(legs)| && LockOrder(legs)[k] == a;
    assert accounts[k].id == a;
    var found := FindAccount(accounts, a);
    var j :| 0 <= j < |accounts| && accounts[j] == found;
    assert LockOrder(legs)[j] == a;
  }

  lemma MatchedExist(accounts: seq<Account>, legs: seq<Leg>, rows: map<int, AccountRow>)
    requires Matches(accounts, LockOrder(legs), rows)
    ensures AccountsExist(rows, legs)
  {
    forall i | 0 <= i < |legs|
      ensures legs[i].account in rows
    {
      assert Touches(legs, legs[i].account);
      LegAccount(accounts, legs, rows, legs[i].account);
    }
  }

  // Accumulation without overflow

  /** The account's running totals, after one more leg, fit i64. */
  predicate TallyFits(us: seq<Update>, nb: NormalBalance, l: Leg, m: Movement) {
    var k, d := Find(us, l.account), LegDelta(nb, l);
    k < |us| ==> FitsI64(us[k].posted + m.PostedShare() * d) && FitsI64(us[k].pending + m.PendingShare() * d)
  }

  /** One round of find-or-push, in i64. */
  method Tally(us: seq<Update>, nb: NormalBalance, l: Leg, m: Movement) returns (us': seq<Update>)
    requires ValidLeg(l) && TallyFits(us, nb, l, m)
    ensures var d := LegDelta(nb, l);
            us' == Accumulate(us, l.account, m.PostedShare() * d, m.PendingShare() * d)
  {
    var delta: i64 := Delta(nb, l.side, l.amount);
    var k := Find(us, l.account);
    if k < |us| {
      var posted: i64, pending: i64 := 0, 0;
      match m {
        case Hold => posted, pending := us[k].posted, us[k].pending + delta;
        case Capture => posted, pending := us[k].posted + delta, us[k].pending - delta;
        case Void => posted, pending := us[k].posted, us[k].pending - delta;
      }
      us' := us[k := Update(l.account, posted, pending)];
    } else {
      var posted: i64, pending: i64 := 0, 0;
      match m {
        case Hold => posted, pending := 0, delta;
        case Capture => posted, pending := delta, -delta;
        case Void => posted, pending := 0, -delta;
      }
      us' := us + [Update(l.account, posted, pending)];
    }
  }

  /** Legs whose side totals fit i64 keep every running total within i64. */
  lemma TallyNeverOverflows(legs: seq<Leg>, n: nat, rows: map<int, AccountRow>, m: Movement)
    requires ValidLegs(legs) && n < |legs| && AccountsExist(rows, legs)
    requires Total(legs, Debit) <= I64_MAX && Total(legs, Credit) <= I64_MAX
    ensures AccountsExist(rows, legs[..n])
    ensures TallyFits(UpdatesOf(legs[..n], rows, m), rows[legs[n].account].Normal(), legs[n], m)
    ensures UpdatesOf(legs[..n + 1], rows, m) ==
            var d := LegDelta(rows[legs[n].account].Normal(), legs[n]);
            Accumulate(UpdatesOf(legs[..n], rows, m), legs[n].account, m.PostedShare() * d, m.PendingShare() * d)
  {
    var us := UpdatesOf(legs[..n], rows, m);
    var a := legs[n].account;
    var nb := rows[a].Normal();
    var k := Find(us, a);
    UpdatesExact(legs[..n], rows, m);
    assert legs[..n + 1][..n] == legs[..n];
    if k < |us| {
      assert NetUpdate(us[k], legs[..n], rows, m);
      assert legs[..n + 1] == legs[..n] + [legs[n]];
      NetSnoc(legs[..n], legs[n], nb, a);
      PartialNetsFit(legs, n + 1, nb, a);
    }
  }

  method TallyAll(accounts: seq<Account>, legs: seq<Leg>, m: Movement, ghost rows: map<int, AccountRow>)
    returns (us: seq<Update>)
    requires ValidLegs(legs) && Total(legs, Debit) <= I64_MAX && Total(legs, Credit) <= I64_MAX
    requires Matches(accounts, LockOrder(legs), rows) && AccountsExist(rows, legs)
    ensures us == UpdatesOf(legs, rows, m)
  {
    us := [];
    for i := 0 to |legs|
      invariant AccountsExist(rows, legs[..i])
      invariant us == UpdatesOf(legs[..i], rows, m)
    {
      assert Touches(legs, legs[i].account);
      LegAccount(accounts, legs, rows, legs[i].account);
      TallyNeverOverflows(legs, i, rows, m);
      var account := FindAccount(accounts, legs[i].account);
      us := Tally(us, account.kind.Normal(), legs[i], m);
    }
    assert legs[..|legs|] == legs;
  }

  method ParseTransferLegs(ps: seq<ProtoLeg>) returns (r: Result<seq<Leg>, ServiceError>)
    ensures r == ParseLegs(ps)
    ensures ParsedAs(ps, r)
  {
    ParseExact(ps);
    var legs: seq<Leg> := [];
    for i := 0 to |ps|
      invariant ParseLegs(ps[..i]) == Success(legs)
    {
      assert ps[..i + 1][..i] == ps[..i];
      var parsed := ParseLeg(ps[i]);
      if parsed.Failure? {
        ParseStops(ps, i + 1);
        return Failure(parsed.error);
      }
      legs := legs + [parsed.value];
    }
    assert ps[..|ps|] == ps;
    return Success(legs);
  }

  /** Parsing stops at the first bad leg. */
  lemma {:induction false} ParseStops(ps: seq<ProtoLeg>, n: nat)
    requires n <= |ps| && ParseLegs(ps[..n]).Failure?
    ensures ParseLegs(ps) == ParseLegs(ps[..n])
    decreases |ps|
  {
    if n < |ps| {
      assert ps[..|ps| - 1][..n] == ps[..n];
      ParseStops(ps[..|ps| - 1], n);
    } else {
      assert ps[..n] == ps;
    }
  }

  /** The stored legs of a transaction are valid and their totals fit i64: capture and void cannot overflow. */
  lemma StoredLegsFit(db: Db, tid: int)
    requires EntriesOk(db) && TxBalanced(db) && tid in db.transactions
    ensures var legs := LegsOf(db.entries, tid);
            && ValidLegs(legs) && AccountsExist(db.accounts, legs)
            && Total(legs, Debit) == Total(legs, Credit) <= I64_MAX
  {
    var block := Filter(db.entries, OfTx(tid));
    FilterMembers(db.entries, OfTx(tid));
    forall i | 0 <= i < |block|
      ensures EntryOk(db, block[i]) && block[i].tid == tid
    {
      assert block[i] in db.entries && OfTx(tid)(block[i]);
    }
    StoredTotal(db.entries, tid, Debit);
    StoredTotal(db.entries, tid, Credit);
  }

  class LedgerService {
    const storage: PostgresStorage
    const cache: BalanceCache

    /** Startup: an empty cache rehydrated from the tables. */
    constructor (storage: PostgresStorage)
      requires Inv(storage.db)
      requires 0 < storage.nextAccount && (forall a | a in storage.db.accounts :: a < storage.nextAccount)
      requires 0 < storage.nextTx && (forall t | t in storage.db.transactions :: t < storage.nextTx)
      ensures this.storage == storage && fresh(cache)
      ensures cache.balances == Snapshot(storage.db.accounts)
      ensures Ready()
    {
      var c := new BalanceCache();
      this.storage := storage;
      this.cache := c;
      new;
      var rows := storage.LoadAllBalances();
      c.Rehydrate(rows);
      RehydrateRoundTrip(rows, Snapshot(storage.db.accounts));
    }

    ghost function Current(): State
      reads storage, cache
    {
      State(storage.db, cache.balances, storage.nextAccount, storage.nextTx)
    }

    ghost predicate Ready()
      reads storage, cache
    {
      Valid(Current())
    }

    method CreateAccount(accountType: i32, assetCode: string, assetScale: i32, now: Clock) returns (r: Response)
      requires Ready()
      modifies storage, cache
      ensures (Current(), r) == OpenStep(old(Current()), accountType, assetCode, assetScale, now)
      ensures r.Refused? ==> storage.db == old(storage.db) && cache.balances == old(cache.balances)
      ensures Ready()
    {
      OpenStepKeeps(Current(), accountType, assetCode, assetScale, now);
      var kind := ParseAccountType(accountType);
      if kind.None? {
        return Refused(InvalidArgument);
      }
      var scale := assetScale % 256;
      if assetCode == "" {
        return Refused(InvalidArgument);
      }
      if scale > 18 {
        return Refused(InvalidArgument);
      }
      var tx := storage.Begin();
      var id := storage.CreateAccount(tx, kind.value, assetCode, scale, now);
      if id.Failure? {
        return Refused(id.error);
      }
      storage.Commit(tx);
      cache.Set(id.value, 0, 0);
      var account := NewAccount(id.value, kind.value, assetCode, scale, 0, now);
      if account.Failure? {
        assert false;
      }
      return AccountOpened(account.value);
    }

    method GetBalance(id: i64) returns (r: Result<AccountBalance, ServiceError>)
      requires Ready()
      ensures id <= 0 ==> r == Failure(InvalidAccountId(id))
      ensures 0 < id && id !in storage.db.accounts ==> r == Failure(AccountNotFound(id))
      ensures 0 < id && id in storage.db.accounts ==>
                var row := storage.db.accounts[id];
                r == Success(AccountBalance(row.posted, row.pending, SatSub(row.posted, row.pending)))
    {
      if id <= 0 {
        return Failure(InvalidAccountId(id));
      }
      var b := cache.Get(id);
      if b.None? {
        return Failure(AccountNotFound(id));
      }
      return Success(b.value);
    }

    /** SELECT FOR UPDATE in the given order; the first missing row stops it. */
    method LockAccounts(tx: SqlTx, ids: seq<int>) returns (r: Result<seq<Account>, ServiceError>)
      requires AccountsOk(tx.view)
      ensures r.Success? ==> Matches(r.value, ids, tx.view.accounts)
      ensures r.Failure? ==>
                exists i :: && 0 <= i < |ids| && ids[i] !in tx.view.accounts && r.error == AccountNotFound(ids[i])
                            && forall j | 0 <= j < i :: ids[j] in tx.view.accounts
    {
      var accounts: seq<Account> := [];
      for i := 0 to |ids|
        invariant Matches(accounts, ids[..i], tx.view.accounts)
        invariant forall j | 0 <= j < i :: ids[j] in tx.view.accounts
      {
        var found := storage.GetAccountForUpdate(tx, ids[i]);
        if ids[i] in tx.view.accounts {
          assert RowOk(ids[i], tx.view.accounts[ids[i]]);
        }
        if found.Failure? {
          assert false;
        }
        if found.value.None? {
          return Failure(AccountNotFound(ids[i]));
        }
        accounts := accounts + [found.value.value];
      }
      assert ids[..|ids|] == ids;
      return Success(accounts);
    }

    /** Funds of each reducing leg against the cache, in order. */
    method CheckFunds(accounts: seq<Account>, legs: seq<Leg>, ghost rows: map<int, AccountRow>)
      returns (r: Option<ServiceError>)
      requires Matches(accounts, LockOrder(legs), rows) && AccountsExist(rows, legs)
      ensures r == FundsOutcome(rows, cache.balances, legs)
    {
      for i := 0 to |legs|
        invariant AccountsExist(rows, legs[..i])
        invariant FundsOutcome(rows, cache.balances, legs[..i]).None?
      {
        assert Touches(legs, legs[i].account);
        LegAccount(accounts, legs, rows, legs[i].account);
        assert legs[..i + 1][..i] == legs[..i];
        var l := legs[i];
        var account := FindAccount(accounts, l.account);
        if Reduces(account.kind.Normal(), l.side) {
          var balance := cache.Get(l.account);
          if balance.None? {
            FundsStop(rows, cache.balances, legs, i + 1);
            return Some(AccountNotFound(l.account));
          }
          if !balance.value.HasAvailable(l.amount) {
            FundsStop(rows, cache.balances, legs, i + 1);
            return Some(InsufficientFunds(l.account, balance.value.available, l.amount));
          }
        }
      }
      assert legs[..|legs|] == legs;
      return None;
    }

    /** `update_account_balance` for each update with the version read under the lock. */
    method ApplyUpdates(tx: SqlTx, accounts: seq<Account>, us: seq<Update>) returns (r: Result<(), ServiceError>)
      requires Distinct(us) && AllFit(tx.view.accounts)
      requires forall i | 0 <= i < |us| ::
                 && us[i].account in tx.view.accounts
                 && (exists k :: 0 <= k < |accounts| && accounts[k].id == us[i].account)
                 && FindAccount(accounts, us[i].account).version == tx.view.accounts[us[i].account].version
      modifies tx
      ensures var accounts' := BumpAll(old(tx.view).accounts, us);
              if AllFit(accounts') then r == Success(()) && tx.view == old(tx.view).(accounts := accounts')
              else r == Failure(Database)
    {
      ghost var before := tx.view;
      BumpNothing(before.accounts);
      for i := 0 to |us|
        invariant tx.view == before.(accounts := BumpAll(before.accounts, us[..i]))
        invariant AllFit(tx.view.accounts)
      {
        var u := us[i];
        assert us[..i + 1] == us[..i] + [u];
        assert Distinct(us[..i + 1]);
        BumpAllSnoc(before.accounts, us[..i], u);
        var account := FindAccount(accounts, u.account);
        var updated := storage.UpdateAccountBalance(tx, u.account, account.version, u.posted, u.pending);
        if updated.Failure? {
          BumpedAt(before.accounts, us, i);
          return Failure(updated.error);
        }
      }
      assert us[..|us|] == us;
      return Success(());
    }

    /** Entries and running totals, leg by leg. */
    method RecordLegs(tx: SqlTx, tid: int, accounts: seq<Account>, legs: seq<Leg>, now: Clock)
      returns (entries: seq<Entry>, us: seq<Update>)
      requires ValidLegs(legs) && Total(legs, Debit) <= I64_MAX && Total(legs, Credit) <= I64_MAX
      requires Matches(accounts, LockOrder(legs), tx.view.accounts) && AccountsExist(tx.view.accounts, legs)
      requires tid in tx.view.transactions
      modifies tx
      ensures entries == NewEntries(tid, legs, now)
      ensures tx.view == old(tx.view).(entries := old(tx.view).entries + NewEntries(tid, legs, now))
      ensures us == UpdatesOf(legs, old(tx.view).accounts, Hold)
    {
      ghost var before := tx.view;
      entries, us := [], [];
      for i := 0 to |legs|
        invariant AccountsExist(before.accounts, legs[..i])
        invariant entries == NewEntries(tid, legs[..i], now)
        invariant tx.view == before.(entries := before.entries + entries)
        invariant us == UpdatesOf(legs[..i], before.accounts, Hold)
      {
        assert Touches(legs, legs[i].account);
        LegAccount(accounts, legs, before.accounts, legs[i].account);
        TallyNeverOverflows(legs, i, before.accounts, Hold);
        var leg := legs[i];
        assert ValidLeg(leg);
        var account := FindAccount(accounts, leg.account);
        var created := storage.CreateEntry(tx, tid, leg, EntryStatus.Pending, now);
        if created.Failure? {
          assert false;
        }
        var entry := NewEntry(tid, leg, EntryStatus.Pending, now);
        if entry.Failure? {
          assert false;
        }
        assert NewEntries(tid, legs[..i + 1], now) == entries + [entry.value];
        entries := entries + [entry.value];
        us := Tally(us, account.kind.Normal(), leg, Hold);
      }
      assert legs[..|legs|] == legs;
    }

    method ApplyToCache(us: seq<Update>)
      modifies cache
      ensures cache.balances == ApplyAll(old(cache.balances), us)
    {
      for i := 0 to |us|
        invariant cache.balances == ApplyAll(old(cache.balances), us[..i])
      {
        assert us[..i + 1][..i] == us[..i];
        cache.ApplyDelta(us[i].account, us[i].posted, us[i].pending);
      }
      assert us[..|us|] == us;
    }

    method Capture(tid: i64, now: Clock) returns (r: Response)
      requires Ready()
      modifies storage, cache
      ensures (Current(), r) == SettleStep(old(Current()), tid, Movement.Capture, now)
      ensures r.Refused? ==> storage.db == old(storage.db) && cache.balances == old(cache.balances)
      ensures Ready()
    {
      r := Settle(tid, Movement.Capture, now);
    }

    method Void(tid: i64) returns (r: Response)
      requires Ready()
      modifies storage, cache
      ensures (Current(), r) == SettleStep(old(Current()), tid, Movement.Void, 1)
      ensures r.Refused? ==> storage.db == old(storage.db) && cache.balances == old(cache.balances)
      ensures Ready()
    {
      r := Settle(tid, Movement.Void, 1);
    }

    /** The common course of `capture` and `void`. */
    method Settle(tid: i64, m: Movement, now: Clock) returns (r: Response)
      requires Ready() && !m.Hold?
      modifies storage, cache
      ensures (Current(), r) == SettleStep(old(Current()), tid, m, now)
      ensures Ready()
    {
      SettleStepKeeps(Current(), tid, m, now);
      if tid <= 0 {
        return Refused(InvalidTransactionId(tid));
      }
      var tx := storage.Begin();
      RowsRebuild(tx.view);
      var found := storage.GetTransaction(tx, tid);
      if found.Failure? {
        assert false;
      }
      if found.value.None? {
        return Refused(TransactionNotFound(tid));
      }
      var transaction := found.value.value;
      if transaction.status == m.TxTarget() {
        storage.Commit(tx);
        return Accepted(transaction, []);
      }
      if transaction.status != TransactionStatus.Pending {
        return Refused(InvalidTransactionState(tid, transaction.status));
      }
      r := SettlePending(tx, transaction, m, now);
    }

    /** From the Pending status read to the answer. */
    method SettlePending(tx: SqlTx, transaction: TxView, m: Movement, now: Clock) returns (r: Response)
      requires Ready() && !m.Hold? && tx.view == storage.db
      requires transaction.id in tx.view.transactions
      requires transaction == View(transaction.id, tx.view.transactions[transaction.id]) && transaction.status.Pending?
      modifies storage, cache, tx
      ensures (Current(), r) == SettleStep(old(Current()), transaction.id, m, now)
    {
      ghost var db, tid := tx.view, transaction.id;
      RowsRebuild(db);
      StoredLegsFit(db, tid);
      var entries := storage.GetEntriesForTransaction(tx, transaction.id);
      EntriesRebuild(db);
      if entries.Failure? {
        assert false;
      }
      var legs := LegsIn(entries.value);
      var locked := LockAccounts(tx, LockOrder(legs));
      NoneMissing(db.accounts, legs);
      if locked.Failure? {
        assert false;
      }
      r := CommitSettlement(tx, transaction, locked.value, legs, m, now, db);
    }

    /** With the rows locked: status, entries, balances, commit, cache. */
    method CommitSettlement(
      tx: SqlTx, transaction: TxView, accounts: seq<Account>, legs: seq<Leg>, m: Movement, now: Clock, ghost db: Db)
      returns (r: Response)
      requires AccountsOk(db) && !m.Hold? && tx.view == db && transaction.id in db.transactions
      requires TxRowOk(transaction.id, db.transactions[transaction.id])
      requires transaction == View(transaction.id, db.transactions[transaction.id])
      requires legs == LegsOf(db.entries, transaction.id) && ValidLegs(legs)
      requires Total(legs, Debit) <= I64_MAX && Total(legs, Credit) <= I64_MAX
      requires Matches(accounts, LockOrder(legs), db.accounts) && AccountsExist(db.accounts, legs)
      modifies storage`db, cache, tx
      ensures if AllFit(MoveAll(db.accounts, legs, m)) then
                && storage.db == Settled(db, transaction.id, m, now)
                && cache.balances == CacheMoved(old(cache.balances), db.accounts, legs, m)
                && r == Accepted(View(transaction.id, SettledRow(db.transactions[transaction.id], m, now)), [])
              else storage.db == old(storage.db) && cache.balances == old(cache.balances) && r == Refused(Database)
    {
      var us := TallyAll(accounts, legs, m, db.accounts);
      var marked := storage.UpdateTransactionStatus(tx, transaction.id, m.TxTarget(), if m.Capture? then Some(now) else None);
      if marked.Failure? {
        assert false;
      }
      storage.UpdateEntryStatusByTransaction(tx, transaction.id, m.EntryTarget());
      UpdatesReady(accounts, legs, db.accounts, m);
      FitsNow(db);
      var applied := ApplyUpdates(tx, accounts, us);
      BumpAllIsMoveAll(db.accounts, legs, m);
      if applied.Failure? {
        return Refused(applied.error);
      }
      storage.Commit(tx);
      ApplyToCache(us);
      ApplyAllIsCacheMoved(old(cache.balances), db.accounts, legs, m);
      var updated := NewTransaction(transaction.id, transaction.key, m.TxTarget(), transaction.createdAt, if m.Capture? then now else 0);
      if updated.Failure? {
        assert false;
      }
      return Accepted(updated.value, []);
    }

    method Authorize(key: string, protoLegs: seq<ProtoLeg>, now: Clock) returns (r: Response)
      requires Ready()
      modifies storage, cache
      ensures (Current(), r) == AuthorizeStep(old(Current()), key, protoLegs, now)
      ensures r.Refused? ==> storage.db == old(storage.db) && cache.balances == old(cache.balances)
      ensures Ready()
    {
      StepKeeps(Current(), Request.Authorize(key, protoLegs, now));
      RefusalKeeps(Current(), key, protoLegs, now);
      if key == "" {
        return Refused(InvalidArgument);
      }
      var parsed := ParseTransferLegs(protoLegs);
      if parsed.Failure? {
        return Refused(parsed.error);
      }
      var legs := parsed.value;
      var balanced := ValidateTransactionBalance(legs);
      if balanced.Failure? {
        return Refused(Rejected(balanced.error));
      }
      var tx := storage.Begin();
      RowsRebuild(tx.view);
      var existing := storage.FindTransactionByKey(tx, key);
      if existing.Failure? {
        assert false;
      }
      if existing.value.Some? {
        var entries := storage.GetEntriesForTransaction(tx, existing.value.value.id);
        EntriesRebuild(tx.view);
        if entries.Failure? {
          assert false;
        }
        storage.Commit(tx);
        return Accepted(existing.value.value, entries.value);
      }
      r := HoldFunds(tx, key, legs, now);
    }

    /** From the unused key to the answer. */
    method HoldFunds(tx: SqlTx, key: string, legs: seq<Leg>, now: Clock) returns (r: Response)
      requires AccountsOk(tx.view) && tx.view == storage.db && key != ""
      requires ValidLegs(legs) && Acceptable(legs) && KeyOwner(tx.view, key).None?
      modifies storage, cache, tx
      ensures (Current(), r) == HoldStep(old(Current()), key, legs, now)
    {
      ghost var db := tx.view;
      var locked := LockAccounts(tx, LockOrder(legs));
      if locked.Failure? {
        MissingReported(db.accounts, legs, locked.error);
        return Refused(locked.error);
      }
      var accounts := locked.value;
      MatchedExist(accounts, legs, db.accounts);
      var short := CheckFunds(accounts, legs, db.accounts);
      if short.Some? {
        return Refused(short.value);
      }
      var created := storage.CreateTransaction(tx, key, now);
      if created.Failure? {
        return Refused(created.error);
      }
      r := CommitHold(tx, created.value, key, accounts, legs, now, db);
    }

    /** With the transaction row inserted: entries, balances, commit, cache. */
    method CommitHold(tx: SqlTx, tid: int, key: string, accounts: seq<Account>, legs: seq<Leg>, now: Clock, ghost db: Db)
      returns (r: Response)
      requires AccountsOk(db) && key != "" && ValidLegs(legs) && Acceptable(legs)
      requires tx.view == db.(transactions := db.transactions[tid := TxRow(key, TransactionStatus.Pending, now, None)])
      requires Matches(accounts, LockOrder(legs), db.accounts) && AccountsExist(db.accounts, legs)
      modifies storage`db, cache, tx
      ensures if AllFit(MoveAll(db.accounts, legs, Hold)) then
                && storage.db == Authorised(db, tid, key, legs, now)
                && cache.balances == CacheMoved(old(cache.balances), db.accounts, legs, Hold)
                && r == Accepted(TxView(tid, key, TransactionStatus.Pending, now, 0), NewEntries(tid, legs, now))
              else storage.db == old(storage.db) && cache.balances == old(cache.balances) && r == Refused(Database)
    {
      var entries, us := RecordLegs(tx, tid, accounts, legs, now);
      UpdatesReady(accounts, legs, db.accounts, Hold);
      FitsNow(db);
      var applied := ApplyUpdates(tx, accounts, us);
      BumpAllIsMoveAll(db.accounts, legs, Hold);
      if applied.Failure? {
        return Refused(applied.error);
      }
      storage.Commit(tx);
      ApplyToCache(us);
      ApplyAllIsCacheMoved(old(cache.balances), db.accounts, legs, Hold);
      var transaction := NewTransaction(tid, key, TransactionStatus.Pending, now, 0);
      if transaction.Failure? {
        assert false;
      }
      return Accepted(transaction.value, entries);
    }
  }

  lemma EntriesRebuild(db: Db)
    requires EntriesOk(db)
    ensures forall e | e in db.entries :: e.leg.amount != 0 && 0 < e.createdAt
  {
    forall e | e in db.entries
      ensures e.leg.amount != 0 && 0 < e.createdAt
    {
      var i :| 0 <= i < |db.entries| && db.entries[i] == e;
      assert EntryOk(db, db.entries[i]);
    }
  }

  lemma NoneMissing(rows: map<int, AccountRow>, legs: seq<Leg>)
    requires AccountsExist(rows, legs)
    ensures forall i | 0 <= i < |LockOrder(legs)| :: LockOrder(legs)[i] in rows
  {
    LockOrderExact(legs);
    forall i | 0 <= i < |LockOrder(legs)|
      ensures LockOrder(legs)[i] in rows
    {
      assert LockOrder(legs)[i] in LockOrder(legs);
      var k :| 0 <= k < |legs| && legs[k].account == LockOrder(legs)[i];
    }
  }

  /** The lock loop reports the least missing id. */
  lemma MissingReported(rows: map<int, AccountRow>, legs: seq<Leg>, e: ServiceError)
    requires exists i :: && 0 <= i < |LockOrder(legs)| && LockOrder(legs)[i] !in rows
                         && e == AccountNotFound(LockOrder(legs)[i])
                         && forall j | 0 <= j < i :: LockOrder(legs)[j] in rows
    ensures !AccountsExist(rows, legs)
    ensures FirstMissing(rows, legs).Some? && e == AccountNotFound(FirstMissing(rows, legs).value)
  {
    var ids := LockOrder(legs);
    var i :| && 0 <= i < |ids| && ids[i] !in rows && e == AccountNotFound(ids[i])
             && forall j | 0 <= j < i :: ids[j] in rows;
    LockOrderExact(legs);
    assert ids[i] in ids;
    var l :| 0 <= l < |legs| && legs[l].account == ids[i];
    FirstMissingIsLeast(rows, legs);
    var a := FirstMissing(rows, legs).value;
    var k :| 0 <= k < |ids| && ids[k] == a;
  }

  /** The updates meet what `ApplyUpdates` asks of them. */
  lemma UpdatesReady(accounts: seq<Account>, legs: seq<Leg>, rows: map<int, AccountRow>, m: Movement)
    requires Matches(accounts, LockOrder(legs), rows) && AccountsExist(rows, legs)
    ensures var us := UpdatesOf(legs, rows, m);
            && Distinct(us)
            && forall i | 0 <= i < |us| ::
                 && us[i].account in rows
                 && (exists k :: 0 <= k < |accounts| && accounts[k].id == us[i].account)
                 && FindAccount(accounts, us[i].account).version == rows[us[i].account].version
  {
    var us := UpdatesOf(legs, rows, m);
    UpdatesExact(legs, rows, m);
    forall i | 0 <= i < |us|
      ensures us[i].account in rows
      ensures exists k :: 0 <= k < |accounts| && accounts[k].id == us[i].account
      ensures FindAccount(accounts, us[i].account).version == rows[us[i].account].version
    {
      assert Covers(us, us[i].account);
      LegAccount(accounts, legs, rows, us[i].account);
    }
  }

  lemma FitsNow(db: Db)
    requires AccountsOk(db)
    ensures AllFit(db.accounts)
  {
    forall a | a in db.accounts
      ensures db.accounts[a].Fits()
    {
      assert RowOk(a, db.accounts[a]);
    }
  }

  lemma {:induction false} FundsStop(rows: map<int, AccountRow>, cache: map<int, Cached>, legs: seq<Leg>, n: nat)
    requires n <= |legs| && AccountsExist(rows, legs) && AccountsExist(rows, legs[..n])
    requires FundsOutcome(rows, cache, legs[..n]).Some?
    ensures FundsOutcome(rows, cache, legs) == FundsOutcome(rows, cache, legs[..n])
    decreases |legs|
  {
    if n < |legs| {
      assert legs[..|legs| - 1][..n] == legs[..n];
      FundsStop(rows, cache, legs[..|legs| - 1], n);
    } else {
      assert legs[..n] == legs;
    }
  }

  lemma BumpNothing(accounts: map<int, AccountRow>)
    ensures BumpAll(accounts, []) == accounts
  {
  }

  lemma BumpedAt(accounts: map<int, AccountRow>, us: seq<Update>, i: nat)
    requires Distinct(us) && i < |us| && us[i].account in accounts
    ensures BumpAll(accounts, us)[us[i].account] == Bumped(accounts[us[i].account], us[i])
  {
    FindDistinct(us, i);
    assert Covers(us, us[i].account);
  }
}
