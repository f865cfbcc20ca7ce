/** What every interleaving keeps, whatever settlements overlap: coherent tables and the accounting equation. */
module Conservation {
  import opened Domain
  import opened Sums
  import opened Validation
  import opened Tables
  import opened Invariance
  import opened Protocol
  import opened Locks
  import opened Balances
  import opened Checker

  // Movements and the accounting equation

  /** Debit-normal and credit-normal accounts hold the same total. */
  ghost predicate Even(accounts: map<int, AccountRow>, posted: bool) {
    SumSet(accounts.Keys, SideBalance(accounts, DebitNormal, posted))
    == SumSet(accounts.Keys, SideBalance(accounts, CreditNormal, posted))
  }

  /** An account's balance as the debit side sees it. */
  function Signed(accounts: map<int, AccountRow>, posted: bool): int -> int {
    a => if a !in accounts then 0
         else if accounts[a].Normal().DebitNormal? then RowValue(accounts[a], posted)
         else -RowValue(accounts[a], posted)
  }

  lemma SignedSum(accounts: map<int, AccountRow>, posted: bool)
    ensures Even(accounts, posted) <==> SumSet(accounts.Keys, Signed(accounts, posted)) == 0
  {
    SumSetLinear(accounts.Keys, SideBalance(accounts, DebitNormal, posted), Signed(accounts, posted), 1,
                 SideBalance(accounts, CreditNormal, posted));
  }

  function NetAt(legs: seq<Leg>): int -> int {
    a => Net(legs, DebitNormal, a)
  }

  function LegAt(l: Leg): int -> int {
    a => AccountDelta(DebitNormal, a)(l)
  }

  /** Account by account or leg by leg, what a transfer moves is debits minus credits. */
  lemma {:induction false} NetExchange(ids: set<int>, legs: seq<Leg>)
    requires forall i | 0 <= i < |legs| :: legs[i].account in ids
    ensures SumSet(ids, NetAt(legs)) == Total(legs, Debit) - Total(legs, Credit)
  {
    if legs == [] {
      SumSetSame(ids, NetAt(legs), _ => 0);
      SumSetZero(ids);
    } else {
      var n := |legs| - 1;
      NetExchange(ids, legs[..n]);
      SumSetLinear(ids, NetAt(legs), NetAt(legs[..n]), 1, LegAt(legs[n]));
      SumSetSingle(ids, legs[n].account, LegAt(legs[n]));
    }
  }

  lemma OppositeNet(legs: seq<Leg>, a: int)
    ensures Net(legs, CreditNormal, a) == -Net(legs, DebitNormal, a)
  {
    SumLinear(legs, AccountDelta(CreditNormal, a), legs, (l: Leg) => 0, -1, legs, AccountDelta(DebitNormal, a));
    SumZero(legs, (l: Leg) => 0);
  }

  function Share(m: Movement, posted: bool): int {
    if posted then m.PostedShare() else m.PendingShare()
  }

  lemma SignedMoves(accounts: map<int, AccountRow>, legs: seq<Leg>, m: Movement, posted: bool, a: int)
    requires a in accounts
    ensures Signed(MoveAll(accounts, legs, m), posted)(a)
            == Signed(accounts, posted)(a) + Share(m, posted) * NetAt(legs)(a)
  {
    MovedBalances(accounts, legs, m, a);
    OppositeNet(legs, a);
    var row, row' := accounts[a], MoveAll(accounts, legs, m)[a];
    assert RowValue(row', posted) == RowValue(row, posted) + Share(m, posted) * Net(legs, row.Normal(), a);
    assert Share(m, posted) * -NetAt(legs)(a) == -(Share(m, posted) * NetAt(legs)(a));
  }

  /** A balanced transfer, however it is moved and however often, leaves the two sides equal. */
  lemma MoveKeepsEven(accounts: map<int, AccountRow>, legs: seq<Leg>, m: Movement, posted: bool)
    requires AccountsExist(accounts, legs) && Total(legs, Debit) == Total(legs, Credit) && Even(accounts, posted)
    ensures Even(MoveAll(accounts, legs, m), posted)
  {
    var moved, ids := MoveAll(accounts, legs, m), accounts.Keys;
    assert moved.Keys == ids;
    forall a | a in ids {
      SignedMoves(accounts, legs, m, posted, a);
    }
    SumSetLinear(ids, Signed(moved, posted), Signed(accounts, posted), Share(m, posted), NetAt(legs));
    NetExchange(ids, legs);
    SignedSum(accounts, posted);
    SignedSum(moved, posted);
  }

  lemma OpenKeepsEven(accounts: map<int, AccountRow>, a: int, row: AccountRow, posted: bool)
    requires a !in accounts && RowValue(row, posted) == 0 && Even(accounts, posted)
    ensures Even(accounts[a := row], posted)
  {
    var rows := accounts[a := row];
    assert rows.Keys == accounts.Keys + {a};
    SumSetInsert(accounts.Keys, a, Signed(rows, posted));
    SumSetSame(accounts.Keys, Signed(rows, posted), Signed(accounts, posted));
    SignedSum(accounts, posted);
    SignedSum(rows, posted);
  }

  // Commits

  ghost predicate Conserved(db: Db) {
    Coherent(db) && TxStocked(db) && forall posted :: Even(db.accounts, posted)
  }

  lemma OpenConserves(db: Db, a: int, row: AccountRow)
    requires Conserved(db) && CanOpen(db, a, row)
    ensures Conserved(Opened(db, a, row))
  {
    OpenCoherent(db, a, row);
    forall posted
      ensures Even(Opened(db, a, row).accounts, posted)
    {
      OpenKeepsEven(db.accounts, a, row, posted);
    }
  }

  lemma HoldConserves(db: Db, tid: int, key: string, legs: seq<Leg>, now: int)
    requires Conserved(db) && CanHold(db, tid, key, legs, now)
    ensures Conserved(Authorised(db, tid, key, legs, now))
  {
    HoldCoherent(db, tid, key, legs, now);
    HoldStocked(db, tid, key, legs, now);
    forall posted
      ensures Even(MoveAll(db.accounts, legs, Hold), posted)
    {
      MoveKeepsEven(db.accounts, legs, Hold, posted);
    }
  }

  /** Whatever the status of the transaction. */
  lemma SettleConserves(db: Db, tid: int, m: Movement, now: int)
    requires Conserved(db) && SettleFits(db, tid, m, now) && AccountsExist(db.accounts, LegsOf(db.entries, tid))
    ensures Conserved(Settled(db, tid, m, now))
  {
    SettleCoherent(db, tid, m, now);
    SettleStocked(db, tid, m, now);
    StoredTotal(db.entries, tid, Debit);
    StoredTotal(db.entries, tid, Credit);
    forall posted
      ensures Even(MoveAll(db.accounts, LegsOf(db.entries, tid), m), posted)
    {
      MoveKeepsEven(db.accounts, LegsOf(db.entries, tid), m, posted);
    }
  }

  lemma CommitFits(db: Db, nextTx: int, h: Handler)
    requires HandlerOk(db, nextTx, h) && h.AtCommit() && AccountsOk(db)
    ensures AllFit(MoveAll(db.accounts, h.legs, h.Move()))
    ensures AccountsExist(db.accounts, h.legs)
  {
    WrittenIsMoved(db, h);
    forall a | a in db.accounts
      ensures (db.accounts + h.written)[a].Fits()
    {
      assert RowOk(a, db.accounts[a]);
      WrittenFits(h, a);
    }
  }

  lemma WrittenFits(h: Handler, a: int)
    requires WrittenOk(h, |h.updates|)
    ensures a in h.written ==> h.written[a].Fits()
  {
    if a in h.written {
      var i :| 0 <= i < |h.updates[..|h.updates|]| && h.updates[..|h.updates|][i].account == a;
      assert h.written[h.updates[i].account].Fits();
    }
  }

  /** A commit meets the preconditions of the movement it makes, a capture's or void's status check excepted. */
  lemma CommitAllowed(s: Sys, h: Handler)
    requires HandlerOk(s.db, s.nextTx, h) && h.AtCommit() && AccountsOk(s.db)
    ensures h.task.HoldTask? ==>
              && CanHold(s.db, h.id, h.task.key, h.task.legs, h.task.now)
              && Committed(s.db, h) == Authorised(s.db, h.id, h.task.key, h.task.legs, h.task.now)
    ensures h.task.SettleTask? ==>
              && SettleFits(s.db, h.task.tid, h.task.move, h.task.now)
              && AccountsExist(s.db.accounts, LegsOf(s.db.entries, h.task.tid))
              && Committed(s.db, h) == Settled(s.db, h.task.tid, h.task.move, h.task.now)
    ensures !h.task.OpenTask?
  {
    CommitIsAtomic(s, h);
    CommitFits(s.db, s.nextTx, h);
  }

  lemma CommitConserves(s: Sys, h: Handler)
    requires HandlerOk(s.db, s.nextTx, h) && h.AtCommit() && Conserved(s.db)
    ensures Conserved(Committed(s.db, h))
  {
    CommitAllowed(s, h);
    if h.task.HoldTask? {
      HoldConserves(s.db, h.id, h.task.key, h.task.legs, h.task.now);
    } else {
      SettleConserves(s.db, h.task.tid, h.task.move, h.task.now);
    }
  }

  /** The only steps that change the tables. */
  lemma TablesChange(s: Sys, h: Handler)
    requires !h.phase.Done? && (h.phase.Updating? ==> h.phase.j <= |h.updates|)
    ensures HandlerStep(s, h).0.db ==
            if h.phase.Starting? && h.task.OpenTask? then Opened(s.db, s.nextAccount, h.task.row)
            else if h.AtCommit() then Committed(s.db, h)
            else s.db
  {
  }

  lemma HandlerConserves(s: Sys, h: Handler)
    requires Numbered(s) && HandlerOk(s.db, s.nextTx, h) && !h.phase.Done? && Conserved(s.db)
    ensures Conserved(HandlerStep(s, h).0.db)
  {
    TablesChange(s, h);
    if h.phase.Starting? && h.task.OpenTask? {
      OpenConserves(s.db, s.nextAccount, h.task.row);
    } else if h.AtCommit() {
      CommitConserves(s, h);
    }
  }

  lemma EmptyConserved()
    ensures Conserved(EMPTY_DB)
  {
  }

  // Every run

  /** In every committed state of every interleaving. */
  lemma {:induction false} InterleavedConservation(acts: seq<Action>)
    requires Feasible(START, acts)
    ensures Conserved(Exec(START, acts).db)
  {
    if acts == [] {
      EmptyConserved();
    } else {
      var s, act := Exec(START, acts[..|acts| - 1]), acts[|acts| - 1];
      InterleavedConservation(acts[..|acts| - 1]);
      LocksSafe(acts[..|acts| - 1]);
      if act.Advance? {
        assert HandlerOk(s.db, s.nextTx, s.handlers[act.i]);
        HandlerConserves(s, s.handlers[act.i]);
      }
    }
  }

  /** The accounting equation in every committed state of every interleaving, overlapping settlements included. */
  lemma InterleavedAccountingEquation(acts: seq<Action>, posted: bool)
    requires Feasible(START, acts)
    ensures var accounts := Exec(START, acts).db.accounts;
            SumSet(accounts.Keys, SideBalance(accounts, DebitNormal, posted))
            == SumSet(accounts.Keys, SideBalance(accounts, CreditNormal, posted))
  {
    InterleavedConservation(acts);
    assert Even(Exec(START, acts).db.accounts, posted);
  }

  /** The global check stays silent in every interleaving. */
  lemma InterleavedGlobalCheck(acts: seq<Action>)
    requires Feasible(START, acts)
    ensures GlobalVerdict(Exec(START, acts).db.entries) != Some(false)
  {
    InterleavedConservation(acts);
    BalancedVerdict(Exec(START, acts).db);
  }
}
