/** What callers have to observe for the cache to be right: cache accounts before use, and leave room in i64. */
module CacheSync {
  import opened Domain
  import opened Sums
  import opened Tables
  import opened Invariance
  import opened Updates
  import opened Protocol
  import opened Locks
  import opened Balances
  import opened Isolation
  import opened CacheLag

  // Hypotheses on a run

  /** An `authorize` locks only accounts whose `cache.set` has happened. */
  predicate CachedBeforeUse(s: Sys, act: Action) {
    act.Advance? && act.i < |s.handlers| ==>
      var h := s.handlers[act.i];
      h.task.HoldTask? && h.phase.Locking? && h.phase.k < |h.ids| ==> h.ids[h.phase.k] in s.cache
  }

  /** Balance and outstanding updates together stay within i64. */
  predicate Roomy(s: Sys) {
    forall a, posted | a in s.db.accounts ::
      Abs(RowValue(s.db.accounts[a], posted)) + Sum(s.handlers, AbsDebt(a, posted)) <= I64_MAX
  }

  predicate Tame(s: Sys, act: Action) {
    CachedBeforeUse(s, act) && Roomy(s)
  }

  // Invariant

  predicate UsesCached(cache: map<int, Cached>, h: Handler) {
    && (h.Locked() ==> forall a | a in h.seen :: a in cache)
    && (h.phase.Applying? ==> forall i | 0 <= i < |h.updates| :: h.updates[i].account in cache)
  }

  predicate EntriesCached(cache: map<int, Cached>, db: Db) {
    forall i | 0 <= i < |db.entries| :: db.entries[i].leg.account in cache
  }

  ghost predicate CacheInv(s: Sys) {
    && LockInv(s) && Shape(s) && EntriesCached(s.cache, s.db)
    && (forall i | 0 <= i < |s.handlers| :: UsesCached(s.cache, s.handlers[i]))
  }

  // The hypotheses rule out losses

  lemma FlightBound(s: Sys, a: int, posted: bool)
    ensures -Sum(s.handlers, AbsDebt(a, posted)) <= InFlight(s, a, posted) <= Sum(s.handlers, AbsDebt(a, posted))
  {
    forall i | 0 <= i < |s.handlers|
      ensures -AbsDebt(a, posted)(s.handlers[i]) <= Debt(a, posted)(s.handlers[i]) <= AbsDebt(a, posted)(s.handlers[i])
    {
      SumAbs(Unapplied(s.handlers[i]), Part(a, posted), AbsPart(a, posted));
    }
    SumAbs(s.handlers, Debt(a, posted), AbsDebt(a, posted));
  }

  /** The next saturating add is exact: the sum it stores lies within balance plus outstanding updates. */
  lemma ApplyExact(s: Sys, i: nat, a: int, posted: bool)
    requires Roomy(s) && i < |s.handlers| && a in s.cache && a in s.db.accounts && Gap(s, a, posted) == 0
    requires s.handlers[i].phase.Applying? && s.handlers[i].phase.j < |s.handlers[i].updates|
    ensures FitsI64(CacheValue(s.cache[a], posted) + Part(a, posted)(s.handlers[i].updates[s.handlers[i].phase.j]))
  {
    ApplyFlight(s, i, a, posted);
    FlightBound(AfterApply(s, i), a, posted);
    assert Abs(RowValue(s.db.accounts[a], posted)) + Sum(s.handlers, AbsDebt(a, posted)) <= I64_MAX;
  }

  lemma TameLosesNothingAt(s: Sys, act: Action, a: int, posted: bool)
    requires CacheInv(s) && Roomy(s) && Enabled(s, act) && Applies(s, act) && a == UpdateOf(s, act).account
    requires Gap(s, a, posted) == 0
    ensures a in s.cache && LostPart(s.cache, UpdateOf(s, act), a, posted) == 0
  {
    assert UsesCached(s.cache, s.handlers[act.i]);
    ApplyExact(s, act.i, a, posted);
  }

  // Steps and the accounts in use

  lemma EntriesStayCached(s: Sys, h: Handler)
    requires HandlerOk(s.db, s.nextTx, h) && !h.phase.Done? && EntriesCached(s.cache, s.db) && UsesCached(s.cache, h)
    ensures EntriesCached(s.cache, HandlerStep(s, h).0.db)
  {
    if h.AtCommit() && h.task.HoldTask? {
      forall i | 0 <= i < |h.legs|
        ensures h.legs[i].account in s.cache
      {
        assert h.legs[i].account in h.seen;
      }
    }
  }

  /** The accounts of a stored transaction are cached. */
  lemma SettledAccountsCached(s: Sys, tid: int, a: int)
    requires EntriesCached(s.cache, s.db) && Touches(LegsOf(s.db.entries, tid), a)
    ensures a in s.cache
  {
    TouchesBlock(s.db.entries, tid, a);
    var i :| 0 <= i < |s.db.entries| && s.db.entries[i].tid == tid && s.db.entries[i].leg.account == a;
    assert s.db.entries[i].leg.account in s.cache;
  }

  lemma LockUsesCached(s: Sys, h: Handler, k: nat)
    requires HandlerOk(s.db, s.nextTx, h) && h.phase == Locking(k) && k < |h.ids|
    requires EntriesCached(s.cache, s.db) && UsesCached(s.cache, h)
    requires h.task.HoldTask? ==> h.ids[k] in s.cache
    ensures UsesCached(s.cache, LockStep(s, h, k))
  {
    if h.task.SettleTask? {
      LockOrderExact(h.legs);
      assert h.ids[k] in h.ids;
      SettledAccountsCached(s, h.task.tid, h.ids[k]);
    }
  }

  lemma CommitUsesCached(s: Sys, h: Handler)
    requires HandlerOk(s.db, s.nextTx, h) && h.AtCommit() && UsesCached(s.cache, h)
    ensures UsesCached(s.cache, h.(phase := Applying(0)))
  {
    forall i | 0 <= i < |h.updates|
      ensures h.updates[i].account in s.cache
    {
      assert h.updates[i].account in h.seen;
    }
  }

  lemma StepUsesCached(s: Sys, h: Handler)
    requires HandlerOk(s.db, s.nextTx, h) && !h.phase.Done?
    requires EntriesCached(s.cache, s.db) && UsesCached(s.cache, h)
    requires h.task.HoldTask? && h.phase.Locking? && h.phase.k < |h.ids| ==> h.ids[h.phase.k] in s.cache
    ensures UsesCached(s.cache, HandlerStep(s, h).1)
  {
    if h.phase.Locking? && h.phase.k < |h.ids| {
      LockUsesCached(s, h, h.phase.k);
    } else if h.AtCommit() {
      CommitUsesCached(s, h);
    }
  }

  lemma AdvanceKeepsUse(s: Sys, i: nat)
    requires CacheInv(s) && Enabled(s, Advance(i)) && CachedBeforeUse(s, Advance(i))
    ensures var s' := Next(s, Advance(i));
            && EntriesCached(s'.cache, s'.db)
            && forall j | 0 <= j < |s'.handlers| :: UsesCached(s'.cache, s'.handlers[j])
  {
    var h := s.handlers[i];
    assert HandlerOk(s.db, s.nextTx, h) && UsesCached(s.cache, h);
    StepKeys(s, h);
    EntriesStayCached(s, h);
    StepUsesCached(s, h);
    var t := HandlerStep(s, h).0;
    forall j | 0 <= j < |s.handlers| && j != i
      ensures UsesCached(t.cache, s.handlers[j])
    {
      assert UsesCached(s.cache, s.handlers[j]);
    }
  }

  lemma ActionKeepsCache(s: Sys, act: Action)
    requires CacheInv(s) && Enabled(s, act) && CachedBeforeUse(s, act)
    ensures CacheInv(Next(s, act))
  {
    ActionKeeps(s, act);
    ActionShape(s, act);
    if act.Advance? {
      AdvanceKeepsUse(s, act.i);
    }
  }

  lemma TameStepLosesNothing(s: Sys, act: Action)
    requires CacheInv(s) && Roomy(s) && Enabled(s, act) && forall a, posted :: Gap(s, a, posted) == 0
    ensures forall a, posted :: LostBy(s, act, a, posted) == 0
    ensures Applies(s, act) ==> AppliesExactly(s.cache, UpdateOf(s, act))
  {
    if Applies(s, act) {
      var u := UpdateOf(s, act);
      TameLosesNothingAt(s, act, u.account, true);
      TameLosesNothingAt(s, act, u.account, false);
    }
  }

  /** Such runs lose nothing on any account. */
  lemma {:induction false} TameLosesNothing(acts: seq<Action>)
    requires Feasible(START, acts) && Along(START, acts, Tame)
    ensures CacheInv(Exec(START, acts)) && LosesNothing(acts)
    ensures forall a, posted :: Lost(acts, a, posted) == 0
  {
    if acts != [] {
      var front, act := acts[..|acts| - 1], acts[|acts| - 1];
      TameLosesNothing(front);
      GapIsLost(front);
      ActionKeepsCache(Exec(START, front), act);
      TameStepLosesNothing(Exec(START, front), act);
    }
  }

  /** In every state of such a run, table balance = cached balance + committed updates not yet applied. */
  lemma CacheLagsByFlight(acts: seq<Action>)
    requires Feasible(START, acts) && Along(START, acts, Tame)
    ensures Throughout(START, acts, Lags)
  {
    TameLosesNothing(acts);
    LagsThroughoutIff(acts);
  }

  /**
    At quiescent states of runs that settle soundly, a cached read equals recomputation from the stored entries
    if and only if nothing is lost on the account.
   */
  lemma QuiescentReadsExactIff(acts: seq<Action>, a: int)
    requires Feasible(START, acts) && Along(START, acts, SettlesSoundly)
    requires Quiescent(Exec(START, acts)) && a in Exec(START, acts).db.accounts
    ensures var s := Exec(START, acts);
            var row := s.db.accounts[a];
            && a in s.cache
            && (ReadsAgree(s.cache[a], row, Filter(s.db.entries, OfAccount(a)))
                <==> NothingLost(acts, a))
  {
    QuiescentAccount(acts, a, true);
    QuiescentAccount(acts, a, false);
    ReconciledThroughoutIff(acts);
    var s := Exec(START, acts);
    assert ReconciledAt(s);
    ReconciledReadsAgree(s.db.entries, a, s.db.accounts[a]);
  }
}
