/** Lock discipline over every interleaving: rows read under a lock stay put until the holder commits. */
module Locks {
  import opened Domain
  import opened Sums
  import opened Tables
  import opened Invariance
  import opened Updates
  import opened Protocol

  // What each handler knows

  /** Rows locked and read are still the committed rows. */
  predicate SeenFresh(db: Db, h: Handler) {
    forall a | a in h.seen :: a in db.accounts && db.accounts[a] == h.seen[a]
  }

  /** The legs at hand are the request's, or the stored ones of the transaction being settled. */
  predicate LegsKnown(db: Db, h: Handler) {
    match h.task
    case HoldTask(_, legs, _) => h.legs == legs
    case SettleTask(tid, _, _) => h.id == tid && tid in db.transactions && h.legs == LegsOf(db.entries, tid)
    case OpenTask(_) => false
  }

  predicate WrittenOk(h: Handler, j: nat)
    requires j <= |h.updates|
  {
    && (forall i | 0 <= i < j :: h.updates[i].account in h.seen && h.updates[i].account in h.written)
    && (forall i | 0 <= i < j ::
          var row := Bumped(h.seen[h.updates[i].account], h.updates[i]);
          h.written[h.updates[i].account] == row && row.Fits())
    && (forall a | a in h.written :: a in h.seen && Covers(h.updates[..j], a))
  }

  function Members(ids: seq<int>): set<int> {
    set a | a in ids
  }

  predicate ClaimOk(db: Db, nextTx: int, h: Handler) {
    h.task.HoldTask? ==>
      0 < h.id < nextTx && h.id !in db.transactions && !KeyTaken(db, h.task.key) && |h.task.key| <= 64
  }

  ghost predicate HandlerOk(db: Db, nextTx: int, h: Handler) {
    && TaskOk(h.task)
    && match h.phase
       case Reading => h.task.SettleTask? && h.id == h.task.tid && h.id in db.transactions && h.seen == h.written == map[]
       case Locking(k) =>
         && k <= |h.ids| && h.ids == LockOrder(h.legs) && h.seen.Keys == Members(h.ids[..k]) && h.written == map[]
         && SeenFresh(db, h) && LegsKnown(db, h)
       case Checking(l) =>
         && l <= |h.legs| && (h.task.SettleTask? ==> l == |h.legs|) && h.ids == LockOrder(h.legs) && h.seen.Keys == Members(h.ids) && h.written == map[]
         && SeenFresh(db, h) && LegsKnown(db, h)
       case Updating(j) =>
         && h.ids == LockOrder(h.legs) && h.seen.Keys == Members(h.ids)
         && SeenFresh(db, h) && LegsKnown(db, h) && AccountsExist(h.seen, h.legs)
         && h.updates == UpdatesOf(h.legs, h.seen, h.Move()) && j <= |h.updates| && WrittenOk(h, j)
         && ClaimOk(db, nextTx, h)
       case Applying(j) => j <= |h.updates| && !h.task.OpenTask?
       case Caching => h.task.OpenTask? && h.id in db.accounts
       case Starting => h.seen == h.written == map[]
       case Done => true
  }

  /** No two handlers hold the same row, key, transaction or new id. */
  predicate Compatible(h: Handler, g: Handler) {
    && (forall a | a in h.seen :: !(h.Holds(a) && g.Holds(a)))
    && (h.phase.Updating? && g.phase.Updating? ==>
          && (h.task.HoldTask? && g.task.HoldTask? ==> h.task.key != g.task.key && h.id != g.id)
          && (h.task.SettleTask? && g.task.SettleTask? ==> h.task.tid != g.task.tid))
  }

  predicate Numbered(s: Sys) {
    && 0 < s.nextAccount && (forall a | a in s.db.accounts :: a < s.nextAccount)
    && 0 < s.nextTx && (forall t | t in s.db.transactions :: t < s.nextTx)
  }

  ghost predicate LockInv(s: Sys) {
    && Numbered(s)
    && (forall i | 0 <= i < |s.handlers| :: HandlerOk(s.db, s.nextTx, s.handlers[i]))
    && (forall i, j | 0 <= i < |s.handlers| && 0 <= j < |s.handlers| && i != j ::
          Compatible(s.handlers[i], s.handlers[j]))
  }

  // The handler that steps

  lemma MembersSnoc(ids: seq<int>, k: nat)
    requires k < |ids|
    ensures Members(ids[..k + 1]) == Members(ids[..k]) + {ids[k]}
  {
    assert ids[..k + 1] == ids[..k] + [ids[k]];
  }

  lemma LockStepOk(s: Sys, h: Handler, k: nat)
    requires HandlerOk(s.db, s.nextTx, h) && h.phase == Locking(k) && k < |h.ids|
    ensures HandlerOk(s.db, s.nextTx, LockStep(s, h, k))
  {
    MembersSnoc(h.ids, k);
  }

  /** With every row of the lock order read, each leg's account lookup finds its row. */
  lemma AllSeen(h: Handler)
    requires h.ids == LockOrder(h.legs) && h.seen.Keys == Members(h.ids)
    ensures AccountsExist(h.seen, h.legs)
  {
    LockOrderExact(h.legs);
    forall i | 0 <= i < |h.legs|
      ensures h.legs[i].account in h.seen
    {
      assert Touches(h.legs, h.legs[i].account);
      assert h.legs[i].account in h.ids;
    }
  }

  lemma ClaimStepOk(s: Sys, h: Handler)
    requires Numbered(s) && HandlerOk(s.db, s.nextTx, h) && h.phase == Checking(|h.legs|)
    ensures var (s', h') := ClaimStep(s, h); HandlerOk(s'.db, s'.nextTx, h')
    ensures AccountsExist(h.seen, h.legs)
  {
    AllSeen(h);
  }

  lemma LockedAllOk(s: Sys, h: Handler)
    requires HandlerOk(s.db, s.nextTx, h) && h.phase == Locking(|h.ids|)
    ensures HandlerOk(s.db, s.nextTx, LockedAll(h))
  {
    assert h.ids[..|h.ids|] == h.ids;
  }

  lemma CheckingStepOk(s: Sys, h: Handler, l: nat)
    requires Numbered(s) && HandlerOk(s.db, s.nextTx, h) && h.phase == Checking(l)
    ensures var (s', h') := HandlerStep(s, h); Numbered(s') && HandlerOk(s'.db, s'.nextTx, h')
  {
    if l == |h.legs| {
      ClaimStepOk(s, h);
    }
  }

  /** The row to update is the row read under the lock, untouched so far: the version check passes. */
  lemma VersionStillCurrent(db: Db, nextTx: int, s: Sys, h: Handler, j: nat)
    requires s.db == db && HandlerOk(db, nextTx, h) && h.phase == Updating(j) && j < |h.updates|
    ensures var a := h.updates[j].account;
            a in h.seen && a !in h.written && RowSeenBy(s, h, a) == Some(h.seen[a]) && !Conflicts(s, h, h.updates[j])
  {
    UpdatesExact(h.legs, h.seen, h.Move());
    var a := h.updates[j].account;
    assert NetUpdate(h.updates[j], h.legs, h.seen, h.Move());
    forall b | b in h.written
      ensures b != a
    {
      var i :| 0 <= i < |h.updates[..j]| && h.updates[..j][i].account == b;
      assert h.updates[i].account == b;
    }
  }

  lemma WrittenSnoc(h: Handler, j: nat)
    requires j < |h.updates| && WrittenOk(h, j)
    requires h.updates[j].account in h.seen && h.updates[j].account !in h.written
    requires Bumped(h.seen[h.updates[j].account], h.updates[j]).Fits()
    ensures var u := h.updates[j];
            WrittenOk(h.(written := h.written[u.account := Bumped(h.seen[u.account], u)]), j + 1)
  {
    var u := h.updates[j];
    forall a | a in h.written
      ensures Covers(h.updates[..j + 1], a)
    {
      var i :| 0 <= i < |h.updates[..j]| && h.updates[..j][i].account == a;
      assert h.updates[..j + 1][i].account == a;
    }
    assert h.updates[..j + 1][j].account == u.account;
  }

  lemma UpdateStepOk(s: Sys, h: Handler, j: nat)
    requires HandlerOk(s.db, s.nextTx, h) && h.phase == Updating(j) && j < |h.updates|
    ensures HandlerOk(s.db, s.nextTx, UpdateStep(s, h, j))
  {
    VersionStillCurrent(s.db, s.nextTx, s, h, j);
    var h' := UpdateStep(s, h, j);
    if h'.phase.Updating? {
      WrittenSnoc(h, j);
    }
  }

  // The commit

  lemma WrittenRow(db: Db, h: Handler, a: int)
    requires SeenFresh(db, h) && ExactUpdates(h.updates, h.legs, h.seen, h.Move()) && a in db.accounts
    requires WrittenOk(h, |h.updates|)
    ensures (db.accounts + h.written)[a] == MoveAll(db.accounts, h.legs, h.Move())[a]
  {
    if i :| 0 <= i < |h.updates| && h.updates[i].account == a {
      assert Covers(h.updates, a);
      assert NetUpdate(h.updates[i], h.legs, h.seen, h.Move());
    } else {
      assert !Covers(h.updates, a) && h.updates[..|h.updates|] == h.updates;
    }
  }

  lemma WrittenKeys(db: Db, h: Handler, a: int)
    requires SeenFresh(db, h) && WrittenOk(h, |h.updates|)
    ensures a in db.accounts + h.written <==> a in db.accounts
  {
    assert a in h.written ==> a in h.seen;
  }

  /** The rows written one by one amount to the atomic movement of the current rows. */
  lemma WrittenIsMoved(db: Db, h: Handler)
    requires SeenFresh(db, h) && AccountsExist(h.seen, h.legs) && h.updates == UpdatesOf(h.legs, h.seen, h.Move())
    requires WrittenOk(h, |h.updates|)
    ensures db.accounts + h.written == MoveAll(db.accounts, h.legs, h.Move())
  {
    UpdatesExact(h.legs, h.seen, h.Move());
    forall a
      ensures a in db.accounts + h.written <==> a in db.accounts
    {
      WrittenKeys(db, h, a);
    }
    forall a | a in db.accounts
      ensures (db.accounts + h.written)[a] == MoveAll(db.accounts, h.legs, h.Move())[a]
    {
      WrittenRow(db, h, a);
    }
    SameMap(db.accounts + h.written, MoveAll(db.accounts, h.legs, h.Move()));
  }

  /** A commit has exactly the effect of the serial step applied to the tables as they are at that moment. */
  lemma CommitIsAtomic(s: Sys, h: Handler)
    requires HandlerOk(s.db, s.nextTx, h) && h.AtCommit()
    ensures h.task.HoldTask? ==>
              Committed(s.db, h) == Authorised(s.db, h.id, h.task.key, h.task.legs, h.task.now)
    ensures h.task.SettleTask? ==>
              && h.task.tid in s.db.transactions
              && Committed(s.db, h) == Settled(s.db, h.task.tid, h.task.move, h.task.now)
  {
    WrittenIsMoved(s.db, h);
  }

  lemma CommitLegs(db: Db, nextTx: int, h: Handler, tid: int)
    requires HandlerOk(db, nextTx, h) && h.AtCommit() && tid in db.transactions
    ensures LegsOf(Committed(db, h).entries, tid) == LegsOf(db.entries, tid)
  {
    if h.task.HoldTask? {
      var es := NewEntries(h.id, h.task.legs, h.task.now);
      FilterConcat(db.entries, es, OfTx(tid));
      FilterNone(es, OfTx(tid));
      assert Filter(db.entries + es, OfTx(tid)) == Filter(db.entries, OfTx(tid));
    } else {
      LegsStable(db.entries, Committed(db, h).entries, tid);
    }
  }

  // The handlers that do not step

  /** A change of the tables that leaves alone everything handler `g` relies on. */
  ghost predicate Harmless(db: Db, nextTx: int, db': Db, nextTx': int, g: Handler) {
    && nextTx <= nextTx' && db.accounts.Keys <= db'.accounts.Keys
    && (g.Locked() ==> forall a | a in g.seen && a in db.accounts :: a in db'.accounts && db'.accounts[a] == db.accounts[a])
    && (forall t | t in db.transactions :: t in db'.transactions && LegsOf(db'.entries, t) == LegsOf(db.entries, t))
    && (g.phase.Updating? && ClaimOk(db, nextTx, g) ==> ClaimOk(db', nextTx', g))
  }

  lemma OtherStaysOk(db: Db, nextTx: int, db': Db, nextTx': int, g: Handler)
    requires HandlerOk(db, nextTx, g) && Harmless(db, nextTx, db', nextTx', g)
    ensures HandlerOk(db', nextTx', g)
  {
  }

  lemma CommitKeepsSeen(db: Db, nextTx: int, h: Handler, g: Handler)
    requires HandlerOk(db, nextTx, h) && h.AtCommit() && Compatible(h, g)
    ensures var db' := Committed(db, h);
            && db.accounts.Keys <= db'.accounts.Keys
            && (g.Locked() ==> forall a | a in g.seen && a in db.accounts :: db'.accounts[a] == db.accounts[a])
  {
  }

  lemma CommitKeepsClaim(db: Db, nextTx: int, h: Handler, g: Handler)
    requires h.phase.Updating? && Compatible(h, g) && g.phase.Updating? && ClaimOk(db, nextTx, g)
    ensures ClaimOk(Committed(db, h), nextTx, g)
  {
  }

  lemma CommitHarmless(s: Sys, h: Handler, g: Handler)
    requires HandlerOk(s.db, s.nextTx, h) && h.AtCommit() && Compatible(h, g)
    ensures Harmless(s.db, s.nextTx, Committed(s.db, h), s.nextTx, g)
  {
    var db' := Committed(s.db, h);
    CommitKeepsSeen(s.db, s.nextTx, h, g);
    if g.phase.Updating? && ClaimOk(s.db, s.nextTx, g) {
      CommitKeepsClaim(s.db, s.nextTx, h, g);
    }
    forall t | t in s.db.transactions
      ensures t in db'.transactions && LegsOf(db'.entries, t) == LegsOf(s.db.entries, t)
    {
      CommitLegs(s.db, s.nextTx, h, t);
    }
  }

  lemma OpenHarmless(s: Sys, row: AccountRow, g: Handler)
    requires Numbered(s)
    ensures Harmless(s.db, s.nextTx, Opened(s.db, s.nextAccount, row), s.nextTx, g)
  {
  }

  // One action

  lemma StepOk(s: Sys, h: Handler)
    requires Numbered(s) && HandlerOk(s.db, s.nextTx, h) && !h.phase.Done?
    ensures var (s', h') := HandlerStep(s, h); Numbered(s') && HandlerOk(s'.db, s'.nextTx, h')
  {
    match h.phase
    case Starting => StartStepOk(s, h);
    case Locking(k) =>
      if k < |h.ids| {
        LockStepOk(s, h, k);
      } else {
        LockedAllOk(s, h);
      }
    case Checking(l) => CheckingStepOk(s, h, l);
    case Updating(j) =>
      if j < |h.updates| {
        UpdateStepOk(s, h, j);
      } else {
        CommitStepOk(s, h);
      }
    case _ =>
  }

  lemma StartStepOk(s: Sys, h: Handler)
    requires Numbered(s) && HandlerOk(s.db, s.nextTx, h) && h.phase.Starting?
    ensures var (s', h') := StartStep(s, h); Numbered(s') && HandlerOk(s'.db, s'.nextTx, h')
  {
    var (_, h') := StartStep(s, h);
    assert h'.ids[..0] == [];
  }

  /** An authorize whose key is taken, and a settlement of a transaction not Pending, end before they lock anything. */
  lemma StartEndsIff(s: Sys, h: Handler)
    requires h.phase.Starting?
    ensures HandlerStep(s, h).1.phase.Done? <==>
            || (h.task.HoldTask? && exists t | t in s.db.transactions :: s.db.transactions[t].key == h.task.key)
            || (h.task.SettleTask? &&
                !(h.task.tid in s.db.transactions && s.db.transactions[h.task.tid].status.Pending?))
    ensures HandlerStep(s, h).1.phase.Done? ==> HandlerStep(s, h).0 == s
  {
  }

  lemma CommitStepOk(s: Sys, h: Handler)
    requires Numbered(s) && HandlerOk(s.db, s.nextTx, h) && h.AtCommit()
    ensures Numbered(s.(db := Committed(s.db, h)))
    ensures HandlerOk(Committed(s.db, h), s.nextTx, h.(phase := Applying(0)))
  {
    CommitIsAtomic(s, h);
  }

  lemma StepHarmless(s: Sys, h: Handler, g: Handler)
    requires Numbered(s) && HandlerOk(s.db, s.nextTx, h) && !h.phase.Done? && Compatible(h, g)
    ensures var (s', _) := HandlerStep(s, h); Harmless(s.db, s.nextTx, s'.db, s'.nextTx, g)
  {
    if h.phase.Starting? && h.task.OpenTask? {
      OpenHarmless(s, h.task.row, g);
    } else if h.AtCommit() {
      CommitHarmless(s, h, g);
    }
  }

  ghost predicate BothCompatible(h: Handler, g: Handler) {
    Compatible(h, g) && Compatible(g, h)
  }

  lemma LockCompatible(s: Sys, h: Handler, g: Handler, k: nat)
    requires h.phase == Locking(k) && k < |h.ids| && BothCompatible(h, g) && !Wants(h, g)
    ensures BothCompatible(LockStep(s, h, k), g)
  {
  }

  lemma ClaimCompatible(s: Sys, h: Handler, g: Handler)
    requires h.phase == Checking(|h.legs|) && BothCompatible(h, g) && !Wants(h, g)
    requires g.phase.Updating? && g.task.HoldTask? ==> g.id < s.nextTx
    ensures BothCompatible(ClaimStep(s, h).1, g)
  {
  }

  lemma UpdateCompatible(s: Sys, h: Handler, g: Handler, j: nat)
    requires h.phase == Updating(j) && j < |h.updates| && BothCompatible(h, g)
    ensures BothCompatible(UpdateStep(s, h, j), g)
  {
  }

  /** A handler that may step takes nothing another holds. */
  lemma StepCompatible(s: Sys, h: Handler, g: Handler)
    requires (h.phase.Starting? || h.phase.Reading? ==> h.seen == map[]) && !h.phase.Done?
    requires (h.phase.Locking? ==> h.phase.k <= |h.ids|) && (h.phase.Checking? ==> h.phase.l <= |h.legs|)
    requires g.phase.Updating? && g.task.HoldTask? ==> g.id < s.nextTx
    requires BothCompatible(h, g) && !Wants(h, g)
    ensures BothCompatible(HandlerStep(s, h).1, g)
  {
    match h.phase
    case Locking(k) =>
      if k < |h.ids| {
        LockCompatible(s, h, g, k);
      }
    case Checking(l) =>
      if l == |h.legs| {
        ClaimCompatible(s, h, g);
      }
    case Updating(j) =>
      if j < |h.updates| {
        UpdateCompatible(s, h, g, j);
      }
    case _ =>
  }

  lemma AdvanceKeeps(s: Sys, i: nat)
    requires LockInv(s) && Enabled(s, Advance(i))
    ensures LockInv(Next(s, Advance(i)))
  {
    var h := s.handlers[i];
    var (t, h') := HandlerStep(s, h);
    StepOk(s, h);
    forall j | 0 <= j < |s.handlers| && j != i
      ensures HandlerOk(t.db, t.nextTx, s.handlers[j])
      ensures Compatible(h', s.handlers[j]) && Compatible(s.handlers[j], h')
    {
      var g := s.handlers[j];
      assert Compatible(h, g) && Compatible(g, h) && !WaitsFor(s, i, j);
      StepHarmless(s, h, g);
      OtherStaysOk(s.db, s.nextTx, t.db, t.nextTx, g);
      StepCompatible(s, h, g);
    }
  }

  lemma ActionKeeps(s: Sys, act: Action)
    requires LockInv(s) && Enabled(s, act)
    ensures LockInv(Next(s, act))
  {
    match act
    case Advance(i) => AdvanceKeeps(s, i);
    case _ =>
  }

  /** Holds in every state of every interleaving, crashes and rollbacks included. */
  lemma {:induction false} LocksSafe(acts: seq<Action>)
    requires Feasible(START, acts)
    ensures LockInv(Exec(START, acts))
  {
    if acts != [] {
      LocksSafe(acts[..|acts| - 1]);
      ActionKeeps(Exec(START, acts[..|acts| - 1]), acts[|acts| - 1]);
    }
  }

  /** No interleaving reaches a version conflict, or an update or leg whose account was not locked and read. */
  lemma NoVersionConflict(acts: seq<Action>, i: nat)
    requires Feasible(START, acts) && i < |Exec(START, acts).handlers|
    ensures var s := Exec(START, acts);
            var h := s.handlers[i];
            && (h.phase.Updating? && h.phase.j < |h.updates| ==> !Conflicts(s, h, h.updates[h.phase.j]))
            && (h.phase.Checking? ==> AccountsExist(h.seen, h.legs))
  {
    LocksSafe(acts);
    var s := Exec(START, acts);
    var h := s.handlers[i];
    if h.phase.Updating? && h.phase.j < |h.updates| {
      VersionStillCurrent(s.db, s.nextTx, s, h, h.phase.j);
    } else if h.phase.Checking? {
      AllSeen(h);
    }
  }
}
