/** What the invariant says about money: the accounting equation and the agreement of the three balances. */
module Balances {
  import opened Domain
  import opened Sums
  import opened Validation
  import opened Tables
  import opened Invariance
  import opened Ledger

  /** Materialised balance of the accounts with normal side `nb`, 0 elsewhere. */
  function SideBalance(accounts: map<int, AccountRow>, nb: NormalBalance, posted: bool): int -> int {
    a => if a in accounts && accounts[a].Normal() == nb
         then RowValue(accounts[a], posted)
         else 0
  }

  function DebitBalance(entries: seq<Entry>, status: EntryStatus): int -> int {
    a => EntryBalance(entries, status, DebitNormal, a)
  }

  /** An account seen from the other side has the opposite balance. */
  lemma OppositeBalance(entries: seq<Entry>, status: EntryStatus, a: int)
    ensures EntryBalance(entries, status, CreditNormal, a) == -EntryBalance(entries, status, DebitNormal, a)
  {
    SumLinear(entries, BalanceDelta(status, CreditNormal, a), entries, (e: Entry) => 0, -1,
              entries, BalanceDelta(status, DebitNormal, a));
    SumZero(entries, (e: Entry) => 0);
  }

  function LastDelta(e: Entry, status: EntryStatus): int -> int {
    a => BalanceDelta(status, DebitNormal, a)(e)
  }

  /** Exchange of summation: account by account, or entry by entry, the total is debits minus credits. */
  lemma {:induction false} SumExchange(ids: set<int>, entries: seq<Entry>, status: EntryStatus)
    requires forall i | 0 <= i < |entries| :: entries[i].leg.account in ids
    ensures SumSet(ids, DebitBalance(entries, status))
            == StatusTotal(entries, status, Debit) - StatusTotal(entries, status, Credit)
  {
    if entries == [] {
      SumSetSame(ids, DebitBalance(entries, status), _ => 0);
      SumSetZero(ids);
    } else {
      var n := |entries| - 1;
      SumExchange(ids, entries[..n], status);
      SumSetLinear(ids, DebitBalance(entries, status), DebitBalance(entries[..n], status), 1,
                   LastDelta(entries[n], status));
      SumSetSingle(ids, entries[n].leg.account, LastDelta(entries[n], status));
    }
  }

  /** Debit-normal balances equal credit-normal balances, for posted and for pending alike. */
  lemma InvImpliesEquation(db: Db, posted: bool)
    requires EntriesOk(db) && Reconciled(db) && StatusBalanced(db)
    ensures SumSet(db.accounts.Keys, SideBalance(db.accounts, DebitNormal, posted))
            == SumSet(db.accounts.Keys, SideBalance(db.accounts, CreditNormal, posted))
  {
    var status := if posted then EntryStatus.Posted else EntryStatus.Pending;
    var ids := db.accounts.Keys;
    forall a | a in ids
      ensures SideBalance(db.accounts, DebitNormal, posted)(a)
              == DebitBalance(db.entries, status)(a) + 1 * SideBalance(db.accounts, CreditNormal, posted)(a)
    {
      assert RowReconciled(db.entries, a, db.accounts[a]);
      OppositeBalance(db.entries, status, a);
    }
    SumSetLinear(ids, SideBalance(db.accounts, DebitNormal, posted), DebitBalance(db.entries, status), 1,
                 SideBalance(db.accounts, CreditNormal, posted));
    forall i | 0 <= i < |db.entries|
      ensures db.entries[i].leg.account in ids
    {
      assert EntryOk(db, db.entries[i]);
    }
    SumExchange(ids, db.entries, status);
  }

  /** The accounting equation after any requests whatever, and double entry within every status. */
  lemma AccountingEquation(rs: seq<Request>)
    ensures var db := Run(INIT, rs).db;
            && (forall posted ::
                  SumSet(db.accounts.Keys, SideBalance(db.accounts, DebitNormal, posted))
                  == SumSet(db.accounts.Keys, SideBalance(db.accounts, CreditNormal, posted)))
            && (forall s: EntryStatus :: StatusTotal(db.entries, s, Debit) == StatusTotal(db.entries, s, Credit))
  {
    Reachable(rs);
    forall posted {
      InvImpliesEquation(Run(INIT, rs).db, posted);
    }
  }

  /** Reading only an account's own entries gives the same sums. */
  lemma OwnEntriesSuffice(entries: seq<Entry>, status: EntryStatus, nb: NormalBalance, a: int)
    ensures Derived(Filter(entries, OfAccount(a)), status, nb) == EntryBalance(entries, status, nb, a)
  {
    var own := Filter(entries, OfAccount(a));
    FilterAll(entries, OfAccount(a));
    SumSame(own, StatusDelta(status, nb), own, BalanceDelta(status, nb, a));
    SumFilter(entries, OfAccount(a), BalanceDelta(status, nb, a));
  }

  /** Cached, materialised and recomputed balances: equal, or which overflow keeps the recomputation from answering. */
  ghost predicate ReadsAgree(cached: Cached, row: AccountRow, own: seq<Entry>) {
    var slow := ComputeOutcome(row.Normal(), own);
    && cached == Cached(row.posted, row.pending)
    && (slow.Success? ==> Balance(cached) == slow.value)
    && (slow == Failure(BalanceOverflow) <==> !SideOverflows(own) && !FitsI64(cached.posted - cached.pending))
    && (slow == Failure(SumOverflow) <==> SideOverflows(own))
  }

  lemma ReconciledReadsAgree(entries: seq<Entry>, a: int, row: AccountRow)
    requires RowReconciled(entries, a, row)
    ensures ReadsAgree(Cached(row.posted, row.pending), row, Filter(entries, OfAccount(a)))
  {
    OwnEntriesSuffice(entries, EntryStatus.Posted, row.Normal(), a);
    OwnEntriesSuffice(entries, EntryStatus.Pending, row.Normal(), a);
    ComputeExact(row.Normal(), Filter(entries, OfAccount(a)));
  }

  /** The O(1) cached read answers exactly what recomputation from stored entries answers, when that succeeds. */
  lemma FastReadRefinesSlowRead(rs: seq<Request>, a: int)
    requires a in Run(INIT, rs).db.accounts
    ensures var s := Run(INIT, rs);
            var row := s.db.accounts[a];
            && a in s.cache
            && ReadsAgree(s.cache[a], row, Filter(s.db.entries, OfAccount(a)))
  {
    Reachable(rs);
    var s := Run(INIT, rs);
    ReconciledReadsAgree(s.db.entries, a, s.db.accounts[a]);
  }

  /** A version counts the account's history: one write per pending transaction, two per settled one. */
  lemma VersionIsHistory(rs: seq<Request>, a: int)
    requires a in Run(INIT, rs).db.accounts
    ensures var db := Run(INIT, rs).db;
            db.accounts[a].version == SumSet(db.transactions.Keys, Writes(db, a))
  {
    Reachable(rs);
  }
}
