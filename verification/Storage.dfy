/** The storage layer: statements of one SQL transaction over its own view of the tables. */
module Storage {
  import opened Domain
  import opened Sums
  import opened Validation
  import opened Tables
  import opened Updates
  import opened Ledger
  import opened Cache

  // Rebuilding domain values from rows

  /** `Account::new`. */
  function NewAccount(id: int, kind: AccountType, assetCode: string, assetScale: int, version: int, createdAt: int)
    : Result<Account, ServiceError>
  {
    if assetCode == "" || assetScale > 18 || version < 0 || createdAt <= 0 then Failure(DataCorruption)
    else Success(Account(id, kind, assetCode, assetScale, version, createdAt))
  }

  function BuildAccount(id: int, row: AccountRow): Result<Account, ServiceError> {
    NewAccount(id, row.kind, row.assetCode, row.assetScale, row.version, row.createdAt)
  }

  /** `Transaction::new`: a key, a creation time, and a posting time exactly when Posted. */
  function NewTransaction(id: int, key: string, status: TransactionStatus, createdAt: int, postedAt: int)
    : Result<TxView, ServiceError>
  {
    if key == "" || createdAt <= 0 then Failure(DataCorruption)
    else if status.Posted? && postedAt <= 0 then Failure(DataCorruption)
    else if !status.Posted? && postedAt != 0 then Failure(DataCorruption)
    else Success(TxView(id, key, status, createdAt, postedAt))
  }

  function BuildTransaction(id: int, row: TxRow): Result<TxView, ServiceError> {
    NewTransaction(id, row.key, row.status, row.createdAt, match row.postedAt case Some(t) => t case None => 0)
  }

  function NewEntry(tid: int, leg: Leg, status: EntryStatus, createdAt: int): Result<Entry, ServiceError> {
    if leg.amount == 0 || createdAt <= 0 then Failure(DataCorruption) else Success(Entry(tid, leg, status, createdAt))
  }

  /** Exactly which rows rebuild, and to what. */
  lemma RebuildIff(id: int, account: AccountRow, tx: TxRow, e: Entry)
    ensures BuildAccount(id, account).Success? <==>
            account.assetCode != "" && account.assetScale <= 18 && 0 <= account.version && 0 < account.createdAt
    ensures BuildAccount(id, account).Success? ==> BuildAccount(id, account).value == AccountView(id, account)
    ensures BuildTransaction(id, tx).Success? <==>
            && tx.key != "" && 0 < tx.createdAt
            && if tx.status.Posted? then tx.postedAt.Some? && 0 < tx.postedAt.value
               else tx.postedAt == None || tx.postedAt == Some(0)
    ensures BuildTransaction(id, tx).Success? ==> BuildTransaction(id, tx).value == View(id, tx)
    ensures NewEntry(e.tid, e.leg, e.status, e.createdAt).Success? <==> e.leg.amount != 0 && 0 < e.createdAt
  {
  }

  /** Rows of reachable tables always rebuild. */
  lemma RowsRebuild(db: Db)
    requires AccountsOk(db) && TransactionsOk(db) && EntriesOk(db)
    ensures forall a | a in db.accounts ::
              BuildAccount(a, db.accounts[a]) == Success(AccountView(a, db.accounts[a]))
    ensures forall t | t in db.transactions ::
              BuildTransaction(t, db.transactions[t]) == Success(View(t, db.transactions[t]))
    ensures forall i | 0 <= i < |db.entries| ::
              var e := db.entries[i];
              NewEntry(e.tid, e.leg, e.status, e.createdAt) == Success(e)
  {
    forall a | a in db.accounts
      ensures BuildAccount(a, db.accounts[a]).Success?
    {
      assert RowOk(a, db.accounts[a]);
    }
    forall t | t in db.transactions
      ensures BuildTransaction(t, db.transactions[t]).Success?
    {
      assert TxRowOk(t, db.transactions[t]);
    }
    forall i | 0 <= i < |db.entries|
      ensures db.entries[i].leg.amount != 0 && 0 < db.entries[i].createdAt
    {
      assert EntryOk(db, db.entries[i]);
    }
  }

  /** An open SQL transaction: the tables as its statements see them. */
  class SqlTx {
    var view: Db

    constructor (db: Db)
      ensures view == db
    {
      view := db;
    }
  }

  class PostgresStorage {
    var db: Db
    var nextAccount: int
    var nextTx: int

    constructor ()
      ensures db == EMPTY_DB && nextAccount == 1 && nextTx == 1
    {
      db, nextAccount, nextTx := EMPTY_DB, 1, 1;
    }

    method Begin() returns (tx: SqlTx)
      ensures fresh(tx) && tx.view == db
    {
      tx := new SqlTx(db);
    }

    method Commit(tx: SqlTx)
      modifies this`db
      ensures db == tx.view
    {
      db := tx.view;
    }

    method CreateAccount(tx: SqlTx, kind: AccountType, assetCode: string, assetScale: int, createdAt: int)
      returns (r: Result<int, ServiceError>)
      modifies this`nextAccount, tx
      ensures r.Failure? <==> |assetCode| > 16 || !(0 <= assetScale <= 18) || createdAt <= 0
      ensures r.Failure? ==> r.error == Database && tx.view == old(tx.view) && nextAccount == old(nextAccount)
      ensures r.Success? ==>
                && r.value == old(nextAccount) && nextAccount == old(nextAccount) + 1
                && tx.view == old(tx.view).(accounts :=
                     old(tx.view).accounts[r.value := AccountRow(kind, assetCode, assetScale, 0, 0, 0, createdAt)])
    {
      if |assetCode| > 16 || assetScale < 0 || assetScale > 18 || createdAt <= 0 {
        return Failure(Database);
      }
      var id := nextAccount;
      nextAccount := nextAccount + 1;
      var row := AccountRow(kind, assetCode, assetScale, 0, 0, 0, createdAt);
      tx.view := tx.view.(accounts := tx.view.accounts[id := row]);
      return Success(id);
    }

    method GetAccountForUpdate(tx: SqlTx, id: int) returns (r: Result<Option<Account>, ServiceError>)
      ensures id !in tx.view.accounts ==> r == Success(None)
      ensures id in tx.view.accounts ==>
                match BuildAccount(id, tx.view.accounts[id])
                case Success(a) => r == Success(Some(a))
                case Failure(e) => r == Failure(e)
    {
      if id !in tx.view.accounts {
        return Success(None);
      }
      var built := BuildAccount(id, tx.view.accounts[id]);
      match built {
        case Success(a) => return Success(Some(a));
        case Failure(e) => return Failure(e);
      }
    }

    method GetTransaction(tx: SqlTx, id: int) returns (r: Result<Option<TxView>, ServiceError>)
      ensures id !in tx.view.transactions ==> r == Success(None)
      ensures id in tx.view.transactions ==>
                match BuildTransaction(id, tx.view.transactions[id])
                case Success(t) => r == Success(Some(t))
                case Failure(e) => r == Failure(e)
    {
      if id !in tx.view.transactions {
        return Success(None);
      }
      var built := BuildTransaction(id, tx.view.transactions[id]);
      match built {
        case Success(t) => return Success(Some(t));
        case Failure(e) => return Failure(e);
      }
    }

    /** Under the UNIQUE constraint the owner of a key is determined. */
    method FindTransactionByKey(tx: SqlTx, key: string) returns (r: Result<Option<TxView>, ServiceError>)
      requires KeysUnique(tx.view)
      ensures match KeyOwner(tx.view, key)
              case None => r == Success(None)
              case Some(t) =>
                match BuildTransaction(t, tx.view.transactions[t])
                case Success(v) => r == Success(Some(v))
                case Failure(e) => r == Failure(e)
    {
      if t :| t in tx.view.transactions && tx.view.transactions[t].key == key {
        assert OwnsKey(tx.view, t, key);
        r := GetTransaction(tx, t);
      } else {
        r := Success(None);
      }
    }

    /** INSERT under the UNIQUE key and the column checks. */
    method CreateTransaction(tx: SqlTx, key: string, createdAt: int) returns (r: Result<int, ServiceError>)
      modifies this`nextTx, tx
      ensures |key| > 64 || createdAt <= 0 ==> r == Failure(Database) && nextTx == old(nextTx)
      ensures |key| <= 64 && 0 < createdAt && KeyOwner(old(tx.view), key).Some? ==> r == Failure(DuplicateKey(key))
      ensures |key| <= 64 && 0 < createdAt && KeyOwner(old(tx.view), key).None? ==> r == Success(old(nextTx))
      ensures r.Failure? ==> tx.view == old(tx.view)
      ensures r.Success? ==>
                && nextTx == old(nextTx) + 1
                && tx.view == old(tx.view).(transactions :=
                     old(tx.view).transactions[r.value := TxRow(key, TransactionStatus.Pending, createdAt, None)])
    {
      if |key| > 64 || createdAt <= 0 {
        return Failure(Database);
      }
      var id := nextTx;
      nextTx := nextTx + 1;
      if t :| t in tx.view.transactions && tx.view.transactions[t].key == key {
        assert OwnsKey(tx.view, t, key);
        return Failure(DuplicateKey(key));
      }
      assert KeyOwner(tx.view, key).None?;
      var row := TxRow(key, TransactionStatus.Pending, createdAt, None);
      tx.view := tx.view.(transactions := tx.view.transactions[id := row]);
      return Success(id);
    }

    method UpdateTransactionStatus(tx: SqlTx, id: int, status: TransactionStatus, postedAt: Option<int>)
      returns (r: Result<(), ServiceError>)
      modifies tx
      ensures r.Success? <==> id in old(tx.view).transactions
      ensures r.Failure? ==> r.error == DataCorruption && tx.view == old(tx.view)
      ensures r.Success? ==>
                tx.view == old(tx.view).(transactions := old(tx.view).transactions[id :=
                  old(tx.view).transactions[id].(status := status, postedAt := postedAt)])
    {
      if id !in tx.view.transactions {
        return Failure(DataCorruption);
      }
      var row := tx.view.transactions[id].(status := status, postedAt := postedAt);
      tx.view := tx.view.(transactions := tx.view.transactions[id := row]);
      return Success(());
    }

    /** INSERT under the foreign keys and the column checks. */
    method CreateEntry(tx: SqlTx, tid: int, leg: Leg, status: EntryStatus, createdAt: int)
      returns (r: Result<(), ServiceError>)
      modifies tx
      ensures r.Success? <==>
              && tid in old(tx.view).transactions && leg.account in old(tx.view).accounts
              && 0 < leg.amount && 0 < createdAt
      ensures r.Failure? ==> r.error == Database && tx.view == old(tx.view)
      ensures r.Success? ==>
                tx.view == old(tx.view).(entries := old(tx.view).entries + [Entry(tid, leg, status, createdAt)])
    {
      if tid !in tx.view.transactions || leg.account !in tx.view.accounts || leg.amount <= 0 || createdAt <= 0 {
        return Failure(Database);
      }
      tx.view := tx.view.(entries := tx.view.entries + [Entry(tid, leg, status, createdAt)]);
      return Success(());
    }

    /** The transaction's entries in insertion order, or corruption if one of them does not rebuild. */
    method GetEntriesForTransaction(tx: SqlTx, tid: int) returns (r: Result<seq<Entry>, ServiceError>)
      ensures r.Success? ==> r.value == Filter(tx.view.entries, OfTx(tid))
      ensures r.Failure? ==> r.error == DataCorruption
      ensures r.Failure? <==> exists e :: e in tx.view.entries && e.tid == tid && (e.leg.amount == 0 || e.createdAt <= 0)
    {
      var found: seq<Entry> := [];
      var rows := tx.view.entries;
      for i := 0 to |rows|
        invariant tx.view.entries == rows
        invariant found == Filter(rows[..i], OfTx(tid))
        invariant forall e | e in rows[..i] && e.tid == tid :: e.leg.amount != 0 && 0 < e.createdAt
      {
        assert rows[..i + 1] == rows[..i] + [rows[i]];
        assert rows[..i + 1][..i] == rows[..i];
        var e := rows[i];
        if e.tid == tid {
          var built := NewEntry(e.tid, e.leg, e.status, e.createdAt);
          if built.Failure? {
            assert e in rows;
            return Failure(built.error);
          }
          found := found + [built.value];
        }
      }
      assert rows[..|rows|] == rows;
      return Success(found);
    }

    method UpdateEntryStatusByTransaction(tx: SqlTx, tid: int, status: EntryStatus)
      modifies tx
      ensures tx.view == old(tx.view).(entries := Restatus(old(tx.view).entries, tid, status))
    {
      tx.view := tx.view.(entries := Restatus(tx.view.entries, tid, status));
    }

    /** UPDATE guarded by the expected version; out-of-range results fail the statement. */
    method UpdateAccountBalance(tx: SqlTx, id: int, expectedVersion: int, deltaPosted: int, deltaPending: int)
      returns (r: Result<(), ServiceError>)
      modifies tx
      ensures var accounts, u := old(tx.view).accounts, Update(id, deltaPosted, deltaPending);
              if id !in accounts then r == Failure(DataCorruption)
              else if accounts[id].version != expectedVersion then
                r == Failure(VersionConflict(id, expectedVersion, accounts[id].version))
              else if !Bumped(accounts[id], u).Fits() then r == Failure(Database)
              else r == Success(())
                   && tx.view == old(tx.view).(accounts := accounts[id := Bumped(accounts[id], u)])
      ensures r.Failure? ==> tx.view == old(tx.view)
    {
      if id !in tx.view.accounts {
        return Failure(DataCorruption);
      }
      var row := tx.view.accounts[id];
      if row.version != expectedVersion {
        return Failure(VersionConflict(id, expectedVersion, row.version));
      }
      var posted, pending, version := row.posted + deltaPosted, row.pending + deltaPending, row.version + 1;
      if !FitsI64(posted) || !FitsI64(pending) || version > I32_MAX {
        return Failure(Database);
      }
      tx.view := tx.view.(accounts :=
        tx.view.accounts[id := row.(posted := posted, pending := pending, version := version)]);
      return Success(());
    }

    /** Every account's materialised balances, in some order. */
    method LoadAllBalances() returns (rows: seq<BalanceRow>)
      ensures Lists(rows, Snapshot(db.accounts))
    {
      rows := [];
      var rest := db.accounts.Keys;
      ghost var all := Snapshot(db.accounts);
      while rest != {}
        invariant rest <= db.accounts.Keys && all == Snapshot(db.accounts)
        invariant DistinctIds(rows)
        invariant forall i | 0 <= i < |rows| ::
                    && rows[i].id in all && rows[i].id !in rest
                    && all[rows[i].id] == Cached(rows[i].posted, rows[i].pending)
        invariant forall a | a in all && a !in rest :: exists i :: 0 <= i < |rows| && rows[i].id == a
        decreases rest
      {
        NonEmpty(rest);
        var a :| a in rest;
        var grown := rows + [BalanceRow(a, db.accounts[a].posted, db.accounts[a].pending)];
        forall b | b in all && b !in rest - {a}
          ensures exists i :: 0 <= i < |grown| && grown[i].id == b
        {
          if b == a {
            assert grown[|rows|].id == b;
          } else {
            var i :| 0 <= i < |rows| && rows[i].id == b;
            assert grown[i].id == b;
          }
        }
        rows := grown;
        rest := rest - {a};
      }
    }
  }
}
