/**
  Which interleavings keep the tables sound: exactly those in which every settlement commits while its
  transaction is Pending, and so all in which settlements of one transaction do not overlap.
 */
module Isolation {
  import opened Tables
  import opened Invariance
  import opened History
  import opened Protocol
  import opened Locks
  import opened Conservation

  // Exact conditions on a run

  predicate SettlesAt(s: Sys, act: Action) {
    && act.Advance? && act.i < |s.handlers|
    && s.handlers[act.i].AtCommit() && s.handlers[act.i].task.SettleTask?
  }

  predicate PendingIn(db: Db, tid: int) {
    tid in db.transactions && db.transactions[tid].status.Pending?
  }

  /** A settlement commits only while its transaction is Pending. */
  predicate CommitsPending(s: Sys, act: Action) {
    SettlesAt(s, act) ==> PendingIn(s.db, s.handlers[act.i].task.tid)
  }

  /** A settlement commits only while its transaction is Pending, unless it moves nothing. */
  predicate SettlesSoundly(s: Sys, act: Action) {
    SettlesAt(s, act) ==>
      PendingIn(s.db, s.handlers[act.i].task.tid) || NothingMoves(s.db, s.handlers[act.i].task.tid)
  }

  ghost predicate ReconciledAt(s: Sys) {
    Reconciled(s.db)
  }

  ghost predicate SoundAt(s: Sys) {
    Inv(s.db)
  }

  /** What every reachable state offers to the proofs below. */
  ghost predicate Usual(s: Sys) {
    LockInv(s) && Conserved(s.db)
  }

  lemma AlwaysUsual(acts: seq<Action>)
    requires Feasible(START, acts)
    ensures Usual(Exec(START, acts))
  {
    LocksSafe(acts);
    InterleavedConservation(acts);
  }

  lemma HandlerReconciles(s: Sys, h: Handler)
    requires Numbered(s) && HandlerOk(s.db, s.nextTx, h) && !h.phase.Done? && Coherent(s.db) && Reconciled(s.db)
    ensures Reconciled(HandlerStep(s, h).0.db) <==>
            (h.AtCommit() && h.task.SettleTask? ==> PendingIn(s.db, h.task.tid) || NothingMoves(s.db, h.task.tid))
  {
    TablesChange(s, h);
    if h.phase.Starting? && h.task.OpenTask? {
      OpenReconciled(s.db, s.nextAccount, h.task.row);
    } else if h.AtCommit() {
      CommitAllowed(s, h);
      if h.task.HoldTask? {
        HoldReconciled(s.db, h.id, h.task.key, h.task.legs, h.task.now);
      } else {
        SettleReconcilesIff(s.db, h.task.tid, h.task.move, h.task.now);
      }
    }
  }

  lemma ActionReconciles(s: Sys, act: Action)
    requires Usual(s) && Enabled(s, act) && Reconciled(s.db)
    ensures Reconciled(Next(s, act).db) <==> SettlesSoundly(s, act)
  {
    if act.Advance? {
      assert HandlerOk(s.db, s.nextTx, s.handlers[act.i]);
      HandlerReconciles(s, s.handlers[act.i]);
    }
  }

  /** Every state of a run is reconciled if and only if every settlement of it is sound when it commits. */
  lemma {:induction false} ReconciledThroughoutIff(acts: seq<Action>)
    requires Feasible(START, acts)
    ensures Throughout(START, acts, ReconciledAt) <==> Along(START, acts, SettlesSoundly)
  {
    if acts != [] {
      var front := acts[..|acts| - 1];
      ReconciledThroughoutIff(front);
      AlwaysUsual(front);
      if Throughout(START, front, ReconciledAt) {
        ActionReconciles(Exec(START, front), acts[|acts| - 1]);
      }
    }
  }

  lemma HandlerSound(s: Sys, h: Handler)
    requires Numbered(s) && HandlerOk(s.db, s.nextTx, h) && !h.phase.Done? && Inv(s.db) && TxStocked(s.db)
    ensures Inv(HandlerStep(s, h).0.db) <==> (h.AtCommit() && h.task.SettleTask? ==> PendingIn(s.db, h.task.tid))
  {
    TablesChange(s, h);
    if h.phase.Starting? && h.task.OpenTask? {
      OpenKeeps(s.db, s.nextAccount, h.task.row);
    } else if h.AtCommit() {
      CommitAllowed(s, h);
      if h.task.HoldTask? {
        HoldKeeps(s.db, h.id, h.task.key, h.task.legs, h.task.now);
      } else {
        SettleSoundIff(s.db, h.task.tid, h.task.move, h.task.now);
      }
    }
  }

  lemma SettleSoundIff(db: Db, tid: int, m: Movement, now: int)
    requires Inv(db) && TxStocked(db) && SettleFits(db, tid, m, now)
    ensures Inv(Settled(db, tid, m, now)) <==> db.transactions[tid].status.Pending?
  {
    if db.transactions[tid].status.Pending? {
      SettleKeeps(db, tid, m, now);
    } else {
      SettleVersionsIff(db, tid, m, now);
    }
  }

  lemma ActionSound(s: Sys, act: Action)
    requires Usual(s) && Enabled(s, act) && Inv(s.db)
    ensures Inv(Next(s, act).db) <==> CommitsPending(s, act)
  {
    if act.Advance? {
      assert HandlerOk(s.db, s.nextTx, s.handlers[act.i]);
      HandlerSound(s, s.handlers[act.i]);
    }
  }

  /**
    Every state of a run satisfies the whole table invariant (reconciliation, version history and all) if and
    only if every settlement of it commits while its transaction is Pending.
   */
  lemma {:induction false} SoundThroughoutIff(acts: seq<Action>)
    requires Feasible(START, acts)
    ensures Throughout(START, acts, SoundAt) <==> Along(START, acts, CommitsPending)
  {
    if acts == [] {
      InitSound();
    } else {
      var front := acts[..|acts| - 1];
      SoundThroughoutIff(front);
      AlwaysUsual(front);
      if Throughout(START, front, SoundAt) {
        ActionSound(Exec(START, front), acts[|acts| - 1]);
      }
    }
  }

  lemma InitSound()
    ensures Inv(EMPTY_DB)
  {
  }

  // History

  /** A settlement commits only while its transaction is Pending, unless it rewrites the row as it was. */
  predicate RewritesNothing(s: Sys, act: Action) {
    SettlesAt(s, act) ==>
      var task := s.handlers[act.i].task;
      || PendingIn(s.db, task.tid)
      || (&& task.tid in s.db.transactions
          && SettledRow(s.db.transactions[task.tid], task.move, task.now) == s.db.transactions[task.tid])
  }

  /**
    Between any two states of the run, Posted and Voided are absorbing, entries are append-only, and keys,
    amounts and accounts never change.
   */
  ghost predicate HistorySafe(acts: seq<Action>)
    requires Feasible(START, acts)
  {
    forall m: nat, n: nat | m <= n <= |acts| ::
      && Feasible(START, acts[..m]) && Feasible(START, acts[..n])
      && Evolves(Exec(START, acts[..m]).db, Exec(START, acts[..n]).db)
  }

  lemma HandlerEvolvesIff(s: Sys, h: Handler)
    requires Numbered(s) && HandlerOk(s.db, s.nextTx, h) && !h.phase.Done?
    requires AccountsOk(s.db) && TransactionsOk(s.db) && EntriesOk(s.db)
    ensures Evolves(s.db, HandlerStep(s, h).0.db) <==>
            (h.AtCommit() && h.task.SettleTask? ==>
               || PendingIn(s.db, h.task.tid)
               || (&& h.task.tid in s.db.transactions
                   && SettledRow(s.db.transactions[h.task.tid], h.task.move, h.task.now) == s.db.transactions[h.task.tid]))
  {
    TablesChange(s, h);
    if h.AtCommit() {
      CommitAllowed(s, h);
      if h.task.HoldTask? {
        HoldEvolves(s.db, h.id, h.task.key, h.task.legs, h.task.now);
      } else {
        SettleEvolvesIff(s.db, h.task.tid, h.task.move, h.task.now);
      }
    }
  }

  lemma ActionEvolvesIff(s: Sys, act: Action)
    requires Usual(s) && Enabled(s, act)
    ensures Evolves(s.db, Next(s, act).db) <==> RewritesNothing(s, act)
  {
    if act.Advance? {
      assert HandlerOk(s.db, s.nextTx, s.handlers[act.i]);
      HandlerEvolvesIff(s, s.handlers[act.i]);
    }
  }

  lemma {:induction false} EvolvesSince(acts: seq<Action>, m: nat)
    requires Feasible(START, acts) && Along(START, acts, RewritesNothing) && m <= |acts|
    ensures Feasible(START, acts[..m]) && Evolves(Exec(START, acts[..m]).db, Exec(START, acts).db)
    decreases |acts|
  {
    if m == |acts| {
      assert acts[..m] == acts;
    } else {
      var front := acts[..|acts| - 1];
      EvolvesSince(front, m);
      assert front[..m] == acts[..m];
      AlwaysUsual(front);
      ActionEvolvesIff(Exec(START, front), acts[|acts| - 1]);
      EvolvesTransitive(Exec(START, acts[..m]).db, Exec(START, front).db, Exec(START, acts).db);
    }
  }

  lemma RewritingNothingIsSafe(acts: seq<Action>)
    requires Feasible(START, acts) && Along(START, acts, RewritesNothing)
    ensures HistorySafe(acts)
  {
    forall m: nat, n: nat | m <= n <= |acts|
      ensures Feasible(START, acts[..m]) && Feasible(START, acts[..n])
      ensures Evolves(Exec(START, acts[..m]).db, Exec(START, acts[..n]).db)
    {
      AlongPrefix(START, acts, n, RewritesNothing);
      EvolvesSince(acts[..n], m);
      assert acts[..n][..m] == acts[..m];
    }
  }

  lemma SafePrefix(acts: seq<Action>)
    requires acts != [] && Feasible(START, acts) && HistorySafe(acts)
    ensures HistorySafe(acts[..|acts| - 1])
    ensures Evolves(Exec(START, acts[..|acts| - 1]).db, Exec(START, acts).db)
  {
    var front := acts[..|acts| - 1];
    forall m: nat, n: nat | m <= n <= |front|
      ensures Feasible(START, front[..m]) && Feasible(START, front[..n])
      ensures Evolves(Exec(START, front[..m]).db, Exec(START, front[..n]).db)
    {
      assert front[..m] == acts[..m] && front[..n] == acts[..n];
    }
    assert acts[..|acts|] == acts;
  }

  lemma {:induction false} SafeRewritesNothing(acts: seq<Action>)
    requires Feasible(START, acts) && HistorySafe(acts)
    ensures Along(START, acts, RewritesNothing)
  {
    if acts != [] {
      var front := acts[..|acts| - 1];
      SafePrefix(acts);
      SafeRewritesNothing(front);
      AlwaysUsual(front);
      ActionEvolvesIff(Exec(START, front), acts[|acts| - 1]);
    }
  }

  /**
    History is safe throughout a run if and only if every settlement of it commits while its transaction is
    Pending, or rewrites the transaction as it was.
   */
  lemma HistorySafeIff(acts: seq<Action>)
    requires Feasible(START, acts)
    ensures HistorySafe(acts) <==> Along(START, acts, RewritesNothing)
  {
    if HistorySafe(acts) {
      SafeRewritesNothing(acts);
    }
    if Along(START, acts, RewritesNothing) {
      RewritingNothingIsSafe(acts);
    }
  }

  // A condition on the callers

  predicate Settles(h: Handler, tid: int) {
    h.Live() && h.task.SettleTask? && h.task.tid == tid
  }

  /** A capture or void starts only when no other one of the same transaction is under way. */
  predicate NoOverlap(s: Sys, act: Action) {
    act.Spawn? && act.task.SettleTask? ==>
      forall j | 0 <= j < |s.handlers| :: !Settles(s.handlers[j], act.task.tid)
  }

  /** A settling handler past its unlocked status read still finds the transaction Pending. */
  predicate StillPending(db: Db, h: Handler) {
    h.task.SettleTask? && h.Live() && !h.phase.Starting? ==> PendingIn(db, h.task.tid)
  }

  predicate Apart(h: Handler, g: Handler) {
    !(h.task.SettleTask? && Settles(h, h.task.tid) && Settles(g, h.task.tid))
  }

  ghost predicate Alternating(s: Sys) {
    && (forall i | 0 <= i < |s.handlers| :: StillPending(s.db, s.handlers[i]))
    && (forall i, j | 0 <= i < |s.handlers| && 0 <= j < |s.handlers| && i != j :: Apart(s.handlers[i], s.handlers[j]))
  }

  lemma StepKeepsPending(s: Sys, h: Handler, g: Handler)
    requires HandlerOk(s.db, s.nextTx, h) && !h.phase.Done? && StillPending(s.db, g) && Apart(h, g)
    ensures StillPending(HandlerStep(s, h).0.db, g)
  {
    if h.AtCommit() {
      CommitIsAtomic(s, h);
    }
  }

  lemma OwnStepPending(s: Sys, h: Handler)
    requires !h.phase.Done? && StillPending(s.db, h)
    ensures var (s', h') := HandlerStep(s, h); StillPending(s'.db, h')
  {
  }

  /** A handler keeps its request, and none becomes live again. */
  lemma StepSameTask(s: Sys, h: Handler)
    requires !h.phase.Done?
    ensures HandlerStep(s, h).1.task == h.task && (HandlerStep(s, h).1.Live() ==> h.Live())
  {
  }

  lemma OwnStepApart(s: Sys, h: Handler, g: Handler)
    requires !h.phase.Done? && Apart(h, g) && Apart(g, h)
    ensures var h' := HandlerStep(s, h).1; Apart(h', g) && Apart(g, h')
  {
    StepSameTask(s, h);
  }

  lemma AdvanceAlternates(s: Sys, i: nat)
    requires LockInv(s) && Alternating(s) && Enabled(s, Advance(i))
    ensures Alternating(Next(s, Advance(i)))
  {
    var h := s.handlers[i];
    OwnStepPending(s, h);
    var (t, h') := HandlerStep(s, h);
    forall j | 0 <= j < |s.handlers| && j != i
      ensures StillPending(t.db, s.handlers[j])
      ensures Apart(h', s.handlers[j]) && Apart(s.handlers[j], h')
    {
      assert Apart(h, s.handlers[j]) && Apart(s.handlers[j], h);
      StepKeepsPending(s, h, s.handlers[j]);
      OwnStepApart(s, h, s.handlers[j]);
    }
  }

  lemma ActionAlternates(s: Sys, act: Action)
    requires LockInv(s) && Alternating(s) && Enabled(s, act) && NoOverlap(s, act)
    ensures Alternating(Next(s, act))
  {
    if act.Advance? {
      AdvanceAlternates(s, act.i);
    }
  }

  /** Without overlap, a settlement always commits while its transaction is Pending. */
  lemma {:induction false} NoOverlapCommitsPending(acts: seq<Action>)
    requires Feasible(START, acts) && Along(START, acts, NoOverlap)
    ensures Alternating(Exec(START, acts)) && Along(START, acts, CommitsPending)
  {
    if acts != [] {
      var front := acts[..|acts| - 1];
      NoOverlapCommitsPending(front);
      LocksSafe(front);
      ActionAlternates(Exec(START, front), acts[|acts| - 1]);
    }
  }

  lemma {:induction false} PendingRewritesNothing(acts: seq<Action>)
    requires Feasible(START, acts) && Along(START, acts, CommitsPending)
    ensures Along(START, acts, RewritesNothing)
  {
    if acts != [] {
      PendingRewritesNothing(acts[..|acts| - 1]);
    }
  }

  /** Interleavings without overlapping settlements keep the tables sound and history safe. */
  lemma InterleavedTablesSound(acts: seq<Action>)
    requires Feasible(START, acts) && Along(START, acts, NoOverlap)
    ensures Throughout(START, acts, SoundAt) && HistorySafe(acts)
  {
    NoOverlapCommitsPending(acts);
    SoundThroughoutIff(acts);
    PendingRewritesNothing(acts);
    RewritingNothingIsSafe(acts);
  }
}
