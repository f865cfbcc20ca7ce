/** Opening an account, holding and settling a transaction keep the table invariant. */
module Invariance {
  import opened Domain
  import opened Sums
  import opened Validation
  import opened Tables

  /** What the code has established when `authorize` reaches its commit. */
  ghost predicate CanHold(db: Db, tid: int, key: string, legs: seq<Leg>, now: int) {
    && ValidLegs(legs) && Acceptable(legs) && AccountsExist(db.accounts, legs)
    && 0 < tid && tid !in db.transactions && key != "" && |key| <= 64 && 0 < now
    && (forall t | t in db.transactions :: db.transactions[t].key != key)
    && AllFit(MoveAll(db.accounts, legs, Hold))
  }

  /** What the locks and the columns guarantee when `capture` or `void` reaches its commit. */
  predicate SettleFits(db: Db, tid: int, m: Movement, now: int) {
    && !m.Hold? && 0 < now && tid in db.transactions
    && AllFit(MoveAll(db.accounts, LegsOf(db.entries, tid), m))
  }

  /** The same, with the status check still true. */
  predicate CanSettle(db: Db, tid: int, m: Movement, now: int) {
    SettleFits(db, tid, m, now) && db.transactions[tid].status.Pending?
  }

  predicate CanOpen(db: Db, a: int, row: AccountRow) {
    && a !in db.accounts && RowOk(a, row) && row.version == row.posted == row.pending == 0
  }

  function Opened(db: Db, a: int, row: AccountRow): Db {
    db.(accounts := db.accounts[a := row])
  }

  // Sums over blocks of entries

  lemma BlockNet(entries: seq<Entry>, tid: int, nb: NormalBalance, a: int)
    ensures Net(LegsOf(entries, tid), nb, a) == Sum(entries, BlockDelta(tid, nb, a))
  {
    var block := Filter(entries, OfTx(tid));
    FilterAll(entries, OfTx(tid));
    SumSame(LegsIn(block), AccountDelta(nb, a), block, BlockDelta(tid, nb, a));
    SumFilter(entries, OfTx(tid), BlockDelta(tid, nb, a));
  }

  function BlockDelta(tid: int, nb: NormalBalance, a: int): Entry -> int {
    (e: Entry) => if e.tid == tid && e.leg.account == a then LegDelta(nb, e.leg) else 0
  }

  lemma FilterAll(entries: seq<Entry>, p: Entry -> bool)
    ensures forall i | 0 <= i < |Filter(entries, p)| :: p(Filter(entries, p)[i]) && Filter(entries, p)[i] in entries
  {
    FilterMembers(entries, p);
  }

  lemma {:induction false} FilterNone(es: seq<Entry>, p: Entry -> bool)
    requires forall i | 0 <= i < |es| :: !p(es[i])
    ensures Filter(es, p) == []
  {
    if es != [] {
      FilterNone(es[..|es| - 1], p);
    }
  }

  lemma {:induction false} FilterEvery(es: seq<Entry>, p: Entry -> bool)
    requires forall i | 0 <= i < |es| :: p(es[i])
    ensures Filter(es, p) == es
  {
    if es != [] {
      FilterEvery(es[..|es| - 1], p);
    }
  }

  lemma TouchesBlock(entries: seq<Entry>, tid: int, a: int)
    ensures Touches(LegsOf(entries, tid), a) <==> TxTouches(entries, tid, a)
  {
    var block := Filter(entries, OfTx(tid));
    FilterMembers(entries, OfTx(tid));
    if i :| 0 <= i < |block| && LegsOf(entries, tid)[i].account == a {
      assert block[i] in entries && OfTx(tid)(block[i]);
    }
    if i :| 0 <= i < |entries| && entries[i].tid == tid && entries[i].leg.account == a {
      assert OfTx(tid)(entries[i]);
      var j :| 0 <= j < |block| && block[j] == entries[i];
      assert LegsOf(entries, tid)[j].account == a;
    }
  }

  /** Statuses aside, equal entries give equal legs. */
  lemma {:induction false} LegsStable(entries: seq<Entry>, entries': seq<Entry>, tid: int)
    requires |entries| == |entries'|
    requires forall i | 0 <= i < |entries| :: entries'[i].tid == entries[i].tid && entries'[i].leg == entries[i].leg
    ensures LegsOf(entries', tid) == LegsOf(entries, tid)
  {
    if entries != [] {
      var n := |entries| - 1;
      LegsStable(entries[..n], entries'[..n], tid);
      var block, block' := Filter(entries[..n], OfTx(tid)), Filter(entries'[..n], OfTx(tid));
      assert LegsIn(block + [entries[n]]) == LegsIn(block) + [entries[n].leg];
      assert LegsIn(block' + [entries'[n]]) == LegsIn(block') + [entries'[n].leg];
      assert entries[n].tid != tid ==> Filter(entries, OfTx(tid)) == block && Filter(entries', OfTx(tid)) == block';
    }
  }

  lemma UntouchedNet(legs: seq<Leg>, nb: NormalBalance, a: int)
    requires !Touches(legs, a)
    ensures Net(legs, nb, a) == 0
  {
    SumZero(legs, AccountDelta(nb, a));
  }

  /** Rows move by their net whether touched or not. */
  lemma MovedBalances(accounts: map<int, AccountRow>, legs: seq<Leg>, m: Movement, a: int)
    requires a in accounts
    ensures var row, row' := accounts[a], MoveAll(accounts, legs, m)[a];
            var d := Net(legs, row.Normal(), a);
            && row'.posted == row.posted + m.PostedShare() * d
            && row'.pending == row.pending + m.PendingShare() * d
            && row'.version == row.version + (if Touches(legs, a) then 1 else 0)
            && row' == row.(posted := row'.posted, pending := row'.pending, version := row'.version)
  {
    if !Touches(legs, a) {
      UntouchedNet(legs, accounts[a].Normal(), a);
    }
  }

  // Opening

  lemma OpenKeeps(db: Db, a: int, row: AccountRow)
    requires Inv(db) && CanOpen(db, a, row)
    ensures Inv(Opened(db, a, row))
  {
    OpenCoherent(db, a, row);
    OpenReconciled(db, a, row);
    OpenVersions(db, a, row);
  }

  lemma OpenCoherent(db: Db, a: int, row: AccountRow)
    requires Coherent(db) && CanOpen(db, a, row)
    ensures Coherent(Opened(db, a, row))
  {
  }

  lemma OpenReconciled(db: Db, a: int, row: AccountRow)
    requires EntriesOk(db) && CanOpen(db, a, row)
    ensures Reconciled(Opened(db, a, row)) <==> Reconciled(db)
  {
    SumZero(db.entries, BalanceDelta(EntryStatus.Posted, row.Normal(), a));
    SumZero(db.entries, BalanceDelta(EntryStatus.Pending, row.Normal(), a));
    var db' := Opened(db, a, row);
    assert RowReconciled(db'.entries, a, db'.accounts[a]);
    assert forall b | b in db.accounts :: db'.accounts[b] == db.accounts[b];
  }

  lemma OpenVersions(db: Db, a: int, row: AccountRow)
    requires EntriesOk(db) && VersionsCount(db) && CanOpen(db, a, row)
    ensures VersionsCount(Opened(db, a, row))
  {
    var db' := Opened(db, a, row);
    forall b | b in db'.accounts
      ensures db'.accounts[b].version == SumSet(db'.transactions.Keys, Writes(db', b))
    {
      if b == a {
        SumSetSame(db.transactions.Keys, Writes(db', a), _ => 0);
        SumSetZero(db.transactions.Keys);
      } else {
        SumSetSame(db.transactions.Keys, Writes(db', b), Writes(db, b));
      }
    }
  }

  // Holding

  lemma HoldKeeps(db: Db, tid: int, key: string, legs: seq<Leg>, now: int)
    requires Inv(db) && CanHold(db, tid, key, legs, now)
    ensures Inv(Authorised(db, tid, key, legs, now))
  {
    HoldCoherent(db, tid, key, legs, now);
    HoldReconciled(db, tid, key, legs, now);
    HoldVersions(db, tid, key, legs, now);
  }

  lemma HoldCoherent(db: Db, tid: int, key: string, legs: seq<Leg>, now: int)
    requires Coherent(db) && CanHold(db, tid, key, legs, now)
    ensures Coherent(Authorised(db, tid, key, legs, now))
  {
    HoldRows(db, tid, key, legs, now);
    HoldEntries(db, tid, key, legs, now);
    HoldTxBalanced(db, tid, key, legs, now);
    HoldStatusBalanced(db, tid, key, legs, now);
  }

  lemma HoldStocked(db: Db, tid: int, key: string, legs: seq<Leg>, now: int)
    requires TxStocked(db) && legs != []
    ensures TxStocked(Authorised(db, tid, key, legs, now))
  {
    var all := db.entries + NewEntries(tid, legs, now);
    assert all[|db.entries|].tid == tid;
    forall t | t in db.transactions
      ensures HasEntry(all, t)
    {
      var i :| 0 <= i < |db.entries| && db.entries[i].tid == t;
      assert all[i].tid == t;
    }
  }

  lemma HoldRows(db: Db, tid: int, key: string, legs: seq<Leg>, now: int)
    requires AccountsOk(db) && TransactionsOk(db) && KeysUnique(db) && CanHold(db, tid, key, legs, now)
    ensures var db' := Authorised(db, tid, key, legs, now);
            AccountsOk(db') && TransactionsOk(db') && KeysUnique(db')
  {
  }

  lemma HoldEntries(db: Db, tid: int, key: string, legs: seq<Leg>, now: int)
    requires EntriesOk(db) && ValidLegs(legs) && AccountsExist(db.accounts, legs) && tid !in db.transactions && 0 < now
    ensures EntriesOk(Authorised(db, tid, key, legs, now))
  {
    var db' := Authorised(db, tid, key, legs, now);
    forall i | 0 <= i < |db'.entries|
      ensures EntryOk(db', db'.entries[i])
    {
      if i < |db.entries| {
        assert EntryOk(db, db.entries[i]);
      } else {
        assert ValidLeg(legs[i - |db.entries|]);
      }
    }
  }

  lemma HoldTxBalanced(db: Db, tid: int, key: string, legs: seq<Leg>, now: int)
    requires TxBalanced(db) && EntriesOk(db) && Acceptable(legs) && tid !in db.transactions
    ensures TxBalanced(Authorised(db, tid, key, legs, now))
  {
    forall t, side {
      HoldTxTotal(db, tid, legs, now, t, side);
    }
  }

  lemma HoldTxTotal(db: Db, tid: int, legs: seq<Leg>, now: int, t: int, side: EntryType)
    requires EntriesOk(db) && tid !in db.transactions
    ensures TxTotal(db.entries + NewEntries(tid, legs, now), t, side) ==
            if t == tid then Total(legs, side) else TxTotal(db.entries, t, side)
  {
    var es := NewEntries(tid, legs, now);
    SumConcat(db.entries, es, TxAmount(t, side));
    if t == tid {
      forall i | 0 <= i < |db.entries|
        ensures TxAmount(t, side)(db.entries[i]) == 0
      {
        assert EntryOk(db, db.entries[i]);
      }
      SumZero(db.entries, TxAmount(t, side));
      SumSame(es, TxAmount(t, side), legs, SideAmount(side));
    } else {
      SumZero(es, TxAmount(t, side));
    }
  }

  lemma HoldReconciled(db: Db, tid: int, key: string, legs: seq<Leg>, now: int)
    requires Reconciled(db)
    ensures Reconciled(Authorised(db, tid, key, legs, now))
  {
    forall a | a in db.accounts {
      HoldRowReconciled(db.accounts, db.entries, tid, legs, now, a);
    }
  }

  lemma HoldRowReconciled(accounts: map<int, AccountRow>, entries: seq<Entry>, tid: int, legs: seq<Leg>, now: int, a: int)
    requires a in accounts && RowReconciled(entries, a, accounts[a])
    ensures RowReconciled(entries + NewEntries(tid, legs, now), a, MoveAll(accounts, legs, Hold)[a])
  {
    var es := NewEntries(tid, legs, now);
    MovedBalances(accounts, legs, Hold, a);
    var nb := accounts[a].Normal();
    SumConcat(entries, es, BalanceDelta(EntryStatus.Posted, nb, a));
    SumConcat(entries, es, BalanceDelta(EntryStatus.Pending, nb, a));
    SumZero(es, BalanceDelta(EntryStatus.Posted, nb, a));
    SumSame(es, BalanceDelta(EntryStatus.Pending, nb, a), legs, AccountDelta(nb, a));
  }

  lemma HoldVersions(db: Db, tid: int, key: string, legs: seq<Leg>, now: int)
    requires VersionsCount(db) && EntriesOk(db) && tid !in db.transactions
    ensures VersionsCount(Authorised(db, tid, key, legs, now))
  {
    forall a | a in db.accounts {
      HoldVersion(db, tid, key, legs, now, a);
    }
  }

  lemma HoldVersion(db: Db, tid: int, key: string, legs: seq<Leg>, now: int, a: int)
    requires EntriesOk(db) && tid !in db.transactions && a in db.accounts
    requires db.accounts[a].version == SumSet(db.transactions.Keys, Writes(db, a))
    ensures var db' := Authorised(db, tid, key, legs, now);
            db'.accounts[a].version == SumSet(db'.transactions.Keys, Writes(db', a))
  {
    var db' := Authorised(db, tid, key, legs, now);
    assert db'.transactions.Keys == db.transactions.Keys + {tid};
    SumSetInsert(db.transactions.Keys, tid, Writes(db', a));
    forall t | t in db.transactions.Keys
      ensures Writes(db', a)(t) == Writes(db, a)(t)
    {
      HoldTouches(db, tid, legs, now, t, a);
    }
    SumSetSame(db.transactions.Keys, Writes(db', a), Writes(db, a));
    HoldTouches(db, tid, legs, now, tid, a);
    MovedBalances(db.accounts, legs, Hold, a);
  }

  lemma HoldTouches(db: Db, tid: int, legs: seq<Leg>, now: int, t: int, a: int)
    requires EntriesOk(db) && tid !in db.transactions
    ensures TxTouches(db.entries + NewEntries(tid, legs, now), t, a) <==>
            if t == tid then Touches(legs, a) else TxTouches(db.entries, t, a)
  {
    var es := NewEntries(tid, legs, now);
    var all := db.entries + es;
    if t == tid {
      if i :| 0 <= i < |all| && all[i].tid == t && all[i].leg.account == a {
        assert i >= |db.entries|;
        assert legs[i - |db.entries|].account == a;
      }
      if i :| 0 <= i < |legs| && legs[i].account == a {
        assert all[|db.entries| + i] == es[i];
      }
    } else {
      if i :| 0 <= i < |db.entries| && db.entries[i].tid == t && db.entries[i].leg.account == a {
        assert all[i] == db.entries[i];
      }
    }
  }

  lemma HoldStatusBalanced(db: Db, tid: int, key: string, legs: seq<Leg>, now: int)
    requires StatusBalanced(db) && Acceptable(legs)
    ensures StatusBalanced(Authorised(db, tid, key, legs, now))
  {
    var es := NewEntries(tid, legs, now);
    forall s: EntryStatus
      ensures StatusTotal(db.entries + es, s, Debit) == StatusTotal(db.entries + es, s, Credit)
    {
      HoldStatusTotal(db.entries, tid, legs, now, s, Debit);
      HoldStatusTotal(db.entries, tid, legs, now, s, Credit);
    }
  }

  lemma HoldStatusTotal(entries: seq<Entry>, tid: int, legs: seq<Leg>, now: int, s: EntryStatus, side: EntryType)
    ensures StatusTotal(entries + NewEntries(tid, legs, now), s, side) ==
            StatusTotal(entries, s, side) + if s == EntryStatus.Pending then Total(legs, side) else 0
  {
    var es := NewEntries(tid, legs, now);
    SumConcat(entries, es, StatusAmount(s, side));
    if s == EntryStatus.Pending {
      SumSame(es, StatusAmount(s, side), legs, SideAmount(side));
    } else {
      SumZero(es, StatusAmount(s, side));
    }
  }

  // Settling

  lemma SettleKeeps(db: Db, tid: int, m: Movement, now: int)
    requires Inv(db) && CanSettle(db, tid, m, now)
    ensures Inv(Settled(db, tid, m, now))
  {
    SettleCoherent(db, tid, m, now);
    SettleReconcilesIff(db, tid, m, now);
    forall a | a in db.accounts {
      SettledVersion(db, tid, m, now, a);
    }
  }

  /** Even a settlement of a transaction that is no longer Pending. */
  lemma SettleCoherent(db: Db, tid: int, m: Movement, now: int)
    requires Coherent(db) && SettleFits(db, tid, m, now)
    ensures Coherent(Settled(db, tid, m, now))
  {
    SettleRows(db, tid, m, now);
    SettleEntries(db, tid, m, now);
    SettleTxBalanced(db, tid, m, now);
    SettleStatusBalanced(db, tid, m, now);
  }

  lemma SettleRows(db: Db, tid: int, m: Movement, now: int)
    requires AccountsOk(db) && TransactionsOk(db) && KeysUnique(db) && SettleFits(db, tid, m, now)
    ensures var db' := Settled(db, tid, m, now);
            AccountsOk(db') && TransactionsOk(db') && KeysUnique(db')
  {
  }

  lemma SettleEntries(db: Db, tid: int, m: Movement, now: int)
    requires EntriesOk(db) && tid in db.transactions
    ensures EntriesOk(Settled(db, tid, m, now))
  {
    var db' := Settled(db, tid, m, now);
    forall i | 0 <= i < |db'.entries|
      ensures EntryOk(db', db'.entries[i])
    {
      assert EntryOk(db, db.entries[i]);
    }
  }

  lemma SettleStocked(db: Db, tid: int, m: Movement, now: int)
    requires TxStocked(db) && tid in db.transactions
    ensures TxStocked(Settled(db, tid, m, now))
  {
    var es := Restatus(db.entries, tid, m.EntryTarget());
    forall t | t in db.transactions
      ensures HasEntry(es, t)
    {
      var i :| 0 <= i < |db.entries| && db.entries[i].tid == t;
      assert es[i].tid == t;
    }
  }

  lemma SettleTxBalanced(db: Db, tid: int, m: Movement, now: int)
    requires TxBalanced(db) && tid in db.transactions
    ensures TxBalanced(Settled(db, tid, m, now))
  {
    forall t, side
      ensures TxTotal(Restatus(db.entries, tid, m.EntryTarget()), t, side) == TxTotal(db.entries, t, side)
    {
      SumSame(Restatus(db.entries, tid, m.EntryTarget()), TxAmount(t, side), db.entries, TxAmount(t, side));
    }
  }

  /** How often an entry counts more towards status `s` after moving from `was` to `now`. */
  function Shift(s: EntryStatus, was: EntryStatus, now: EntryStatus): int {
    if was == now then 0 else if s == now then 1 else if s == was then -1 else 0
  }

  lemma SettleStatusBalanced(db: Db, tid: int, m: Movement, now: int)
    requires StatusBalanced(db) && TxBalanced(db) && EntriesOk(db) && TransactionsOk(db) && tid in db.transactions
    ensures StatusBalanced(Settled(db, tid, m, now))
  {
    forall s: EntryStatus
      ensures StatusTotal(Settled(db, tid, m, now).entries, s, Debit) == StatusTotal(Settled(db, tid, m, now).entries, s, Credit)
    {
      RestatusTotal(db, tid, m.EntryTarget(), s, Debit);
      RestatusTotal(db, tid, m.EntryTarget(), s, Credit);
    }
  }

  /** Restatusing a block moves its side total from its old status to the new one. */
  lemma RestatusTotal(db: Db, tid: int, now: EntryStatus, s: EntryStatus, side: EntryType)
    requires EntriesOk(db) && TransactionsOk(db) && tid in db.transactions
    ensures StatusTotal(Restatus(db.entries, tid, now), s, side) == StatusTotal(db.entries, s, side)
              + Shift(s, Mirrored(db.transactions[tid].status), now) * TxTotal(db.entries, tid, side)
  {
    var es, k := Restatus(db.entries, tid, now), Shift(s, Mirrored(db.transactions[tid].status), now);
    assert TxRowOk(tid, db.transactions[tid]);
    forall i | 0 <= i < |db.entries|
      ensures StatusAmount(s, side)(es[i]) == StatusAmount(s, side)(db.entries[i]) + k * TxAmount(tid, side)(db.entries[i])
    {
      assert EntryOk(db, db.entries[i]);
    }
    SumLinear(es, StatusAmount(s, side), db.entries, StatusAmount(s, side), k, db.entries, TxAmount(tid, side));
  }

  lemma RestatusPoint(e: Entry, tid: int, was: EntryStatus, now: EntryStatus, s: EntryStatus, nb: NormalBalance, a: int)
    requires e.tid == tid ==> e.status == was
    ensures BalanceDelta(s, nb, a)(Restatused(e, tid, now)) ==
            BalanceDelta(s, nb, a)(e) + Shift(s, was, now) * BlockDelta(tid, nb, a)(e)
  {
  }

  /** Restatusing a block moves its net from the sum of its old status to the sum of the new one. */
  lemma RestatusBalance(db: Db, tid: int, now: EntryStatus, s: EntryStatus, nb: NormalBalance, a: int)
    requires EntriesOk(db) && TransactionsOk(db) && tid in db.transactions
    ensures EntryBalance(Restatus(db.entries, tid, now), s, nb, a) == EntryBalance(db.entries, s, nb, a)
              + Shift(s, Mirrored(db.transactions[tid].status), now) * Net(LegsOf(db.entries, tid), nb, a)
  {
    BlockNet(db.entries, tid, nb, a);
    var es, was := Restatus(db.entries, tid, now), Mirrored(db.transactions[tid].status);
    assert TxRowOk(tid, db.transactions[tid]);
    forall i | 0 <= i < |db.entries|
      ensures BalanceDelta(s, nb, a)(es[i]) ==
              BalanceDelta(s, nb, a)(db.entries[i]) + Shift(s, was, now) * BlockDelta(tid, nb, a)(db.entries[i])
    {
      assert EntryOk(db, db.entries[i]);
      RestatusPoint(db.entries[i], tid, was, now, s, nb, a);
    }
    SumLinear(es, BalanceDelta(s, nb, a), db.entries, BalanceDelta(s, nb, a), Shift(s, was, now),
              db.entries, BlockDelta(tid, nb, a));
  }

  predicate NothingMoves(db: Db, tid: int) {
    forall a | a in db.accounts :: Net(LegsOf(db.entries, tid), db.accounts[a].Normal(), a) == 0
  }

  lemma SettledRowReconciled(db: Db, tid: int, m: Movement, now: int, a: int)
    requires EntriesOk(db) && TransactionsOk(db) && tid in db.transactions && !m.Hold?
    requires a in db.accounts && RowReconciled(db.entries, a, db.accounts[a])
    ensures var db' := Settled(db, tid, m, now);
            RowReconciled(db'.entries, a, db'.accounts[a]) <==>
            db.transactions[tid].status.Pending? || Net(LegsOf(db.entries, tid), db.accounts[a].Normal(), a) == 0
  {
    assert TxRowOk(tid, db.transactions[tid]);
    var nb := db.accounts[a].Normal();
    MovedBalances(db.accounts, LegsOf(db.entries, tid), m, a);
    RestatusBalance(db, tid, m.EntryTarget(), EntryStatus.Posted, nb, a);
    RestatusBalance(db, tid, m.EntryTarget(), EntryStatus.Pending, nb, a);
  }

  /**
    A settlement keeps the tables reconciled if and only if its transaction is still Pending when it commits,
    or moves no account at all.
   */
  lemma SettleReconcilesIff(db: Db, tid: int, m: Movement, now: int)
    requires EntriesOk(db) && TransactionsOk(db) && Reconciled(db) && tid in db.transactions && !m.Hold?
    ensures Reconciled(Settled(db, tid, m, now)) <==> db.transactions[tid].status.Pending? || NothingMoves(db, tid)
  {
    var db' := Settled(db, tid, m, now);
    forall a | a in db.accounts
      ensures RowReconciled(db'.entries, a, db'.accounts[a]) <==>
              db.transactions[tid].status.Pending? || Net(LegsOf(db.entries, tid), db.accounts[a].Normal(), a) == 0
    {
      SettledRowReconciled(db, tid, m, now, a);
    }
  }

  lemma RestatusTouches(entries: seq<Entry>, tid: int, status: EntryStatus, t: int, a: int)
    ensures TxTouches(Restatus(entries, tid, status), t, a) <==> TxTouches(entries, t, a)
  {
    var es := Restatus(entries, tid, status);
    assert forall i | 0 <= i < |entries| :: es[i].tid == entries[i].tid && es[i].leg == entries[i].leg;
    if i :| 0 <= i < |entries| && entries[i].tid == t && entries[i].leg.account == a {
      assert es[i].tid == t && es[i].leg.account == a;
    }
  }

  lemma SettledVersion(db: Db, tid: int, m: Movement, now: int, a: int)
    requires tid in db.transactions && !m.Hold? && a in db.accounts
    requires db.accounts[a].version == SumSet(db.transactions.Keys, Writes(db, a))
    ensures var db' := Settled(db, tid, m, now);
            db'.accounts[a].version == SumSet(db'.transactions.Keys, Writes(db', a)) <==>
            db.transactions[tid].status.Pending? || !TxTouches(db.entries, tid, a)
  {
    var db' := Settled(db, tid, m, now);
    var ids := db.transactions.Keys;
    assert db'.transactions.Keys == ids;
    forall t | t in ids - {tid}
      ensures Writes(db', a)(t) == Writes(db, a)(t)
    {
      RestatusTouches(db.entries, tid, m.EntryTarget(), t, a);
    }
    SumSetSame(ids - {tid}, Writes(db', a), Writes(db, a));
    SumSetExtract(ids, tid, Writes(db', a));
    SumSetExtract(ids, tid, Writes(db, a));
    RestatusTouches(db.entries, tid, m.EntryTarget(), tid, a);
    TouchesBlock(db.entries, tid, a);
    MovedBalances(db.accounts, LegsOf(db.entries, tid), m, a);
  }

  /** A settlement keeps versions equal to history if and only if its transaction is still Pending. */
  lemma SettleVersionsIff(db: Db, tid: int, m: Movement, now: int)
    requires EntriesOk(db) && TxStocked(db) && VersionsCount(db) && tid in db.transactions && !m.Hold?
    ensures VersionsCount(Settled(db, tid, m, now)) <==> db.transactions[tid].status.Pending?
  {
    var db' := Settled(db, tid, m, now);
    forall a | a in db.accounts
      ensures db'.accounts[a].version == SumSet(db'.transactions.Keys, Writes(db', a)) <==>
              db.transactions[tid].status.Pending? || !TxTouches(db.entries, tid, a)
    {
      SettledVersion(db, tid, m, now, a);
    }
    assert HasEntry(db.entries, tid);
    var i :| 0 <= i < |db.entries| && db.entries[i].tid == tid;
    assert EntryOk(db, db.entries[i]) && TxTouches(db.entries, tid, db.entries[i].leg.account);
    assert db.entries[i].leg.account in db'.accounts;
  }

  // Stored legs

  lemma StoredTotal(entries: seq<Entry>, tid: int, side: EntryType)
    ensures Total(LegsOf(entries, tid), side) == TxTotal(entries, tid, side)
  {
    var block := Filter(entries, OfTx(tid));
    FilterAll(entries, OfTx(tid));
    SumSame(LegsIn(block), SideAmount(side), block, TxAmount(tid, side));
    SumFilter(entries, OfTx(tid), TxAmount(tid, side));
  }
}
