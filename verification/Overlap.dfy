/** Runs the server can perform that break reconciliation, and runs that leave the cache wrong. */
module Overlap {
  import opened Domain
  import opened Sums
  import opened Validation
  import opened Tables
  import opened Invariance
  import opened Ledger
  import opened Updates
  import opened Protocol
  import opened Locks
  import opened Progress
  import opened Conservation
  import opened CacheLag
  import opened Checker
  import opened History

  // A handler left to itself commits

  predicate Alone(s: Sys, i: nat) {
    forall j: nat | j < |s.handlers| && j != i :: !s.handlers[j].Locked()
  }

  predicate AllFunded(rows: map<int, AccountRow>, cache: map<int, Cached>, legs: seq<Leg>)
    requires AccountsExist(rows, legs)
  {
    forall i | 0 <= i < |legs| :: Funded(rows, cache, legs[i])
  }

  /** Nothing in the tables or the cache stands in the way of the handler's commit. */
  predicate Unhindered(db: Db, cache: map<int, Cached>, h: Handler) {
    && AccountsExist(db.accounts, h.legs) && AllFit(MoveAll(db.accounts, h.legs, h.Move()))
    && (h.task.HoldTask? ==>
          !KeyTaken(db, h.task.key) && |h.task.key| <= 64 && AllFunded(db.accounts, cache, h.legs))
  }

  lemma AloneEnabled(s: Sys, i: nat)
    requires i < |s.handlers| && Alone(s, i) && s.handlers[i].Locked()
    ensures Enabled(s, Advance(i))
  {
  }

  lemma NextUpdateFits(s: Sys, h: Handler, j: nat)
    requires HandlerOk(s.db, s.nextTx, h) && h.phase == Updating(j) && j < |h.updates| && Unhindered(s.db, s.cache, h)
    ensures var u := h.updates[j];
            u.account in h.seen && Bumped(h.seen[u.account], u).Fits()
  {
    UpdatesExact(h.legs, h.seen, h.Move());
    var u := h.updates[j];
    assert NetUpdate(u, h.legs, h.seen, h.Move());
    assert Covers(h.updates, u.account);
    assert Touches(h.legs, u.account);
    assert MoveAll(s.db.accounts, h.legs, h.Move())[u.account].Fits();
  }

  /** Same request, same transaction, same legs, still before the commit. */
  predicate Onward(h: Handler, h': Handler) {
    h'.Locked() && h'.task == h.task && h'.legs == h.legs
  }

  lemma LockGoesOn(s: Sys, h: Handler, k: nat)
    requires HandlerOk(s.db, s.nextTx, h) && h.phase == Locking(k) && k < |h.ids| && Unhindered(s.db, s.cache, h)
    ensures Onward(h, LockStep(s, h, k))
  {
    LockOrderExact(h.legs);
    assert h.ids[k] in h.ids;
    var l :| 0 <= l < |h.legs| && h.legs[l].account == h.ids[k];
  }

  lemma CheckGoesOn(s: Sys, h: Handler, l: nat)
    requires HandlerOk(s.db, s.nextTx, h) && h.phase == Checking(l) && l < |h.legs| && Unhindered(s.db, s.cache, h)
    ensures Onward(h, CheckStep(s, h, l))
  {
    AllSeen(h);
    assert Funded(s.db.accounts, s.cache, h.legs[l]);
  }

  lemma SoloStep(s: Sys, h: Handler)
    requires Numbered(s) && HandlerOk(s.db, s.nextTx, h) && h.Locked() && !h.AtCommit() && Unhindered(s.db, s.cache, h)
    ensures var (t, h') := HandlerStep(s, h);
            Onward(h, h') && t == s.(nextTx := t.nextTx)
  {
    match h.phase
    case Locking(k) =>
      if k < |h.ids| {
        LockGoesOn(s, h, k);
      }
    case Checking(l) =>
      if l < |h.legs| {
        CheckGoesOn(s, h, l);
      } else {
        ClaimStepOk(s, h);
      }
    case Updating(j) =>
      VersionStillCurrent(s.db, s.nextTx, s, h, j);
      NextUpdateFits(s, h, j);
  }

  /** The commit of handler `i` and nothing else. */
  ghost predicate CommittedBy(s: Sys, i: nat, s': Sys)
    requires i < |s.handlers|
  {
    var h := s.handlers[i];
    && |s'.handlers| == |s.handlers|
    && s' == s.(db := s'.db, nextTx := s'.nextTx, handlers := s.handlers[i := s'.handlers[i]])
    && s'.handlers[i].phase == Applying(0) && s'.handlers[i].task == h.task && LockInv(s')
    && match h.task
       case HoldTask(key, legs, now) =>
         && 0 < s'.handlers[i].id && s'.handlers[i].id !in s.db.transactions && AccountsExist(s.db.accounts, legs)
         && s'.db == Authorised(s.db, s'.handlers[i].id, key, legs, now)
         && s'.handlers[i].updates == UpdatesOf(legs, s.db.accounts, Hold)
       case SettleTask(tid, move, now) =>
         tid in s.db.transactions && s'.db == Settled(s.db, tid, move, now)
       case OpenTask(_) => false
  }

  lemma UpdatesOfRows(legs: seq<Leg>, rows: map<int, AccountRow>, rows': map<int, AccountRow>, m: Movement)
    requires AccountsExist(rows, legs) && (forall a | a in rows :: a in rows' && rows'[a] == rows[a])
    ensures AccountsExist(rows', legs) && UpdatesOf(legs, rows, m) == UpdatesOf(legs, rows', m)
  {
    if legs != [] {
      UpdatesOfRows(legs[..|legs| - 1], rows, rows', m);
    }
  }

  lemma {:induction false} SoloRun(s: Sys, i: nat) returns (acts: seq<Action>)
    requires LockInv(s) && i < |s.handlers| && Alone(s, i)
    requires s.handlers[i].Locked() && Unhindered(s.db, s.cache, s.handlers[i])
    ensures Feasible(s, acts) && CommittedBy(s, i, Exec(s, acts))
    decreases if Left()(s.handlers[i]) >= 0 then Left()(s.handlers[i]) else 0
  {
    var h := s.handlers[i];
    assert HandlerOk(s.db, s.nextTx, h);
    AloneEnabled(s, i);
    ActionKeeps(s, Advance(i));
    var s' := Next(s, Advance(i));
    if h.AtCommit() {
      acts := [];
      CommitIsAtomic(s, h);
      UpdatesOfRows(h.legs, h.seen, s.db.accounts, h.Move());
    } else {
      SoloStep(s, h);
      StepShrinks(s, h);
      assert HandlerOk(s'.db, s'.nextTx, s'.handlers[i]);
      acts := SoloRun(s', i);
    }
    if h.AtCommit() {
      assert Exec(s', acts) == s';
    }
    ExecCons(s, Advance(i), acts);
    acts := [Advance(i)] + acts;
  }

  // Overlapping settlements

  predicate Idle(s: Sys) {
    forall i | 0 <= i < |s.handlers| :: !s.handlers[i].Live()
  }

  /** Two settlements of `tid` that have both seen it Pending; the first has read its entries as well. */
  ghost predicate BothSawPending(s: Sys, one: Task, two: Task, s': Sys) {
    var n := |s.handlers|;
    && one.SettleTask? && two.SettleTask? && one.tid == two.tid
    && s' == s.(handlers := s'.handlers) && |s'.handlers| == n + 2 && LockInv(s')
    && (forall i | 0 <= i < n :: s'.handlers[i] == s.handlers[i])
    && s'.handlers[n].task == one && s'.handlers[n].phase == Locking(0)
    && s'.handlers[n].legs == LegsOf(s.db.entries, one.tid)
    && s'.handlers[n + 1].task == two && s'.handlers[n + 1].phase == Reading
  }

  lemma StartBoth(s: Sys, one: Task, two: Task) returns (acts: seq<Action>)
    requires LockInv(s) && TaskOk(one) && TaskOk(two) && one.SettleTask? && two.SettleTask? && one.tid == two.tid
    requires one.tid in s.db.transactions && s.db.transactions[one.tid].status.Pending?
    ensures Feasible(s, acts) && BothSawPending(s, one, two, Exec(s, acts))
  {
    var n := |s.handlers|;
    acts := [];
    ActionKeeps(s, Spawn(one));
    ExecSnoc(s, acts, Spawn(one));
    acts := acts + [Spawn(one)];
    var s1 := Next(s, Spawn(one));
    ActionKeeps(s1, Spawn(two));
    ExecSnoc(s, acts, Spawn(two));
    acts := acts + [Spawn(two)];
    var s2 := Next(s1, Spawn(two));
    ActionKeeps(s2, Advance(n));
    ExecSnoc(s, acts, Advance(n));
    acts := acts + [Advance(n)];
    var s3 := Next(s2, Advance(n));
    ActionKeeps(s3, Advance(n + 1));
    ExecSnoc(s, acts, Advance(n + 1));
    acts := acts + [Advance(n + 1)];
    var s4 := Next(s3, Advance(n + 1));
    ActionKeeps(s4, Advance(n));
    ExecSnoc(s, acts, Advance(n));
    acts := acts + [Advance(n)];
  }

  /** Two settlements of one Pending transaction, each of which the columns could hold. */
  predicate Clashing(db: Db, one: Task, two: Task) {
    && TaskOk(one) && TaskOk(two) && one.SettleTask? && two.SettleTask? && one.tid == two.tid
    && one.tid in db.transactions && db.transactions[one.tid].status.Pending?
    && AccountsExist(db.accounts, LegsOf(db.entries, one.tid))
    && AllFit(MoveAll(db.accounts, LegsOf(db.entries, one.tid), one.move))
    && AllFit(MoveAll(MoveAll(db.accounts, LegsOf(db.entries, one.tid), one.move),
                      LegsOf(db.entries, one.tid), two.move))
  }

  function SettledTwice(db: Db, one: Task, two: Task): Db
    requires Clashing(db, one, two)
  {
    Settled(Settled(db, one.tid, one.move, one.now), one.tid, two.move, two.now)
  }

  /** Both commits happen: after `acts` the first, after `more` the second, of a transaction no longer Pending. */
  lemma SettleTwice(s: Sys, one: Task, two: Task) returns (acts: seq<Action>, more: seq<Action>)
    requires LockInv(s) && Idle(s) && Clashing(s.db, one, two)
    ensures Feasible(s, acts) && Exec(s, acts).db == Settled(s.db, one.tid, one.move, one.now)
    ensures Feasible(Exec(s, acts), more) && Exec(Exec(s, acts), more).db == SettledTwice(s.db, one, two)
  {
    var n := |s.handlers|;
    acts := StartBoth(s, one, two);
    var a := Exec(s, acts);
    var solo := SoloRun(a, n);
    ExecConcat(s, acts, solo);
    acts := acts + solo;
    var b := Exec(a, solo);
    LegsStable(s.db.entries, b.db.entries, one.tid);
    more := SettleAgain(b, n + 1, s.db, one, two);
  }

  lemma SettleAgain(b: Sys, i: nat, db: Db, one: Task, two: Task) returns (acts: seq<Action>)
    requires Clashing(db, one, two) && b.db == Settled(db, one.tid, one.move, one.now)
    requires LegsOf(b.db.entries, one.tid) == LegsOf(db.entries, one.tid)
    requires LockInv(b) && i < |b.handlers| && Alone(b, i)
    requires b.handlers[i].task == two && b.handlers[i].phase == Reading
    ensures Feasible(b, acts) && Exec(b, acts).db == SettledTwice(db, one, two)
  {
    assert HandlerOk(b.db, b.nextTx, b.handlers[i]);
    ActionKeeps(b, Advance(i));
    var c := Next(b, Advance(i));
    var solo := SoloRun(c, i);
    ExecCons(b, Advance(i), solo);
    acts := [Advance(i)] + solo;
  }

  lemma FirstSettleSound(db: Db, tid: int, m: Movement, now: int)
    requires Inv(db) && CanSettle(db, tid, m, now)
    ensures var db' := Settled(db, tid, m, now); EntriesOk(db') && TransactionsOk(db') && Reconciled(db')
  {
    SettleKeeps(db, tid, m, now);
  }

  /** Settling a settled transaction that moves money leaves some account unreconciled. */
  lemma SecondSettleBreaks(db: Db, db': Db, one: Task, two: Task)
    requires Clashing(db, one, two) && db' == Settled(db, one.tid, one.move, one.now)
    requires EntriesOk(db') && TransactionsOk(db') && Reconciled(db') && !NothingMoves(db, one.tid)
    ensures !Reconciled(SettledTwice(db, one, two))
  {
    LegsStable(db.entries, db'.entries, one.tid);
    StillMoves(db, db', one.tid, one.move);
    SettleReconcilesIff(db', one.tid, two.move, two.now);
  }

  lemma StillMoves(db: Db, db': Db, tid: int, m: Movement)
    requires LegsOf(db'.entries, tid) == LegsOf(db.entries, tid)
    requires db'.accounts == MoveAll(db.accounts, LegsOf(db.entries, tid), m) && !NothingMoves(db, tid)
    ensures !NothingMoves(db', tid)
  {
    var a :| a in db.accounts && Net(LegsOf(db.entries, tid), db.accounts[a].Normal(), a) != 0;
    assert a in db'.accounts && db'.accounts[a].Normal() == db.accounts[a].Normal();
  }

  /** The second settlement leaves everything but reconciliation and versions in order. */
  lemma SettledTwiceCoherent(db: Db, one: Task, two: Task)
    requires Coherent(db) && Clashing(db, one, two)
    ensures Coherent(SettledTwice(db, one, two))
  {
    var db' := Settled(db, one.tid, one.move, one.now);
    SettleCoherent(db, one.tid, one.move, one.now);
    LegsStable(db.entries, db'.entries, one.tid);
    SettleCoherent(db', one.tid, two.move, two.now);
  }

  /**
    From any idle state, two overlapping settlements of any Pending transaction that moves money can end in
    unreconciled tables, and the global check does not notice.
   */
  lemma OverlapBreaksReconciliation(s: Sys, one: Task, two: Task) returns (acts: seq<Action>)
    requires LockInv(s) && Inv(s.db) && Idle(s) && Clashing(s.db, one, two) && !NothingMoves(s.db, one.tid)
    ensures Feasible(s, acts) && !Reconciled(Exec(s, acts).db)
    ensures GlobalVerdict(Exec(s, acts).db.entries) != Some(false)
  {
    var more;
    acts, more := SettleTwice(s, one, two);
    ExecConcat(s, acts, more);
    acts := acts + more;
    FirstSettleSound(s.db, one.tid, one.move, one.now);
    SecondSettleBreaks(s.db, Settled(s.db, one.tid, one.move, one.now), one, two);
    SettledTwiceCoherent(s.db, one, two);
    BalancedVerdict(SettledTwice(s.db, one, two));
  }

  /**
    From any idle state, two settlements of a Pending transaction can overlap so that the second rewrites what
    the first made final, unless both are voids, or captures at the same time. A capture and a void turn a
    Posted transaction Voided.
   */
  lemma OverlapRewritesUnless(s: Sys, one: Task, two: Task) returns (acts: seq<Action>, more: seq<Action>)
    requires LockInv(s) && Idle(s) && Coherent(s.db) && Clashing(s.db, one, two)
    ensures Feasible(s, acts) && Feasible(Exec(s, acts), more)
    ensures var db, db' := Exec(s, acts).db, Exec(Exec(s, acts), more).db;
            && one.tid in db.transactions && db.transactions[one.tid].status == one.move.TxTarget()
            && one.tid in db'.transactions && db'.transactions[one.tid].status == two.move.TxTarget()
            && (Evolves(db, db') <==> one.move == two.move && (one.move.Capture? ==> one.now == two.now))
  {
    acts, more := SettleTwice(s, one, two);
    SettleCoherent(s.db, one.tid, one.move, one.now);
    SettleEvolvesIff(Settled(s.db, one.tid, one.move, one.now), one.tid, two.move, two.now);
  }

  // A concrete run

  const ROW := AccountRow(Asset, "USD", 2, 0, 0, 0, 1)
  const DUE := AccountRow(Liability, "USD", 2, 0, 0, 0, 1)
  const LEGS := [Leg(1, Debit, 100), Leg(2, Credit, 100)]
  const OPENED := Db(map[1 := ROW, 2 := DUE], map[], [])
  const PAYMENT := HoldTask("payment", LEGS, 1)

  lemma PaymentTotals()
    ensures ValidLegs(LEGS) && Acceptable(LEGS)
    ensures Net(LEGS, DebitNormal, 1) == 100 && Net(LEGS, CreditNormal, 2) == 100
    ensures Touches(LEGS, 1) && Touches(LEGS, 2)
  {
    var first := LEGS[0];
    assert LEGS == [first] + [LEGS[1]] && [first] == [] + [first];
    forall f: Leg -> int
      ensures Sum(LEGS, f) == f(LEGS[0]) + f(LEGS[1])
    {
      SumSnoc([first], LEGS[1], f);
      SumSnoc([], first, f);
    }
    assert LEGS[0].account == 1 && LEGS[1].account == 2;
  }

  lemma OpenedInv()
    ensures Inv(OPENED)
  {
    InitValid();
    OpenKeeps(EMPTY_DB, 1, ROW);
    OpenKeeps(Opened(EMPTY_DB, 1, ROW), 2, DUE);
    assert Opened(Opened(EMPTY_DB, 1, ROW), 2, DUE) == OPENED;
  }

  /** Two accounts committed but not yet cached, and a payment between them about to lock its rows. */
  ghost predicate PaymentStarted(s: Sys) {
    && s.db == OPENED && s.cache == map[] && |s.handlers| == 3 && LockInv(s)
    && s.handlers[0].phase == Caching && s.handlers[0].id == 1
    && s.handlers[1].phase == Caching && s.handlers[1].id == 2
    && s.handlers[2].phase == Locking(0) && s.handlers[2].task == PAYMENT && s.handlers[2].legs == LEGS
  }

  ghost predicate BothOpened(s: Sys) {
    && s.db == OPENED && s.cache == map[] && |s.handlers| == 2
    && s.handlers[0].phase == Caching && s.handlers[0].id == 1
    && s.handlers[1].phase == Caching && s.handlers[1].id == 2
  }

  lemma OpenBoth() returns (acts: seq<Action>)
    ensures Feasible(START, acts) && BothOpened(Exec(START, acts))
  {
    acts := [];
    ExecSnoc(START, acts, Spawn(OpenTask(ROW)));
    acts := acts + [Spawn(OpenTask(ROW))];
    ExecSnoc(START, acts, Advance(0));
    acts := acts + [Advance(0)];
    ExecSnoc(START, acts, Spawn(OpenTask(DUE)));
    acts := acts + [Spawn(OpenTask(DUE))];
    ExecSnoc(START, acts, Advance(1));
    acts := acts + [Advance(1)];
    assert Exec(START, acts).db == OPENED;
  }

  lemma StartPayment() returns (acts: seq<Action>)
    ensures Feasible(START, acts) && PaymentStarted(Exec(START, acts))
  {
    PaymentTotals();
    acts := OpenBoth();
    ExecSnoc(START, acts, Spawn(PAYMENT));
    acts := acts + [Spawn(PAYMENT)];
    ExecSnoc(START, acts, Advance(2));
    acts := acts + [Advance(2)];
    LocksSafe(acts);
  }

  predicate SmallRow(row: AccountRow, kind: AccountType, n: int) {
    row.kind == kind && -n <= row.posted <= n && -n <= row.pending <= n && row.version <= n
  }

  /** An asset and a liability with balances up to `n`. */
  predicate Small(accounts: map<int, AccountRow>, n: int) {
    accounts.Keys == {1, 2} && SmallRow(accounts[1], Asset, n) && SmallRow(accounts[2], Liability, n)
  }

  lemma MovedRowSmall(accounts: map<int, AccountRow>, n: int, m: Movement, a: int, kind: AccountType)
    requires a in accounts && SmallRow(accounts[a], kind, n) && 0 <= n <= 1000 && -100 <= Net(LEGS, kind.Normal(), a) <= 100
    ensures SmallRow(MoveAll(accounts, LEGS, m)[a], kind, n + 100) && MoveAll(accounts, LEGS, m)[a].Fits()
  {
    MovedBalances(accounts, LEGS, m, a);
  }

  lemma PaymentStaysSmall(accounts: map<int, AccountRow>, n: int, m: Movement)
    requires Small(accounts, n) && 0 <= n <= 1000
    ensures Small(MoveAll(accounts, LEGS, m), n + 100) && AllFit(MoveAll(accounts, LEGS, m))
  {
    PaymentTotals();
    MovedRowSmall(accounts, n, m, 1, Asset);
    MovedRowSmall(accounts, n, m, 2, Liability);
    assert MoveAll(accounts, LEGS, m).Keys == {1, 2};
  }

  /** Neither leg of the payment lowers a balance, so it passes the funds check whatever is cached. */
  lemma PaymentFunded(accounts: map<int, AccountRow>, cache: map<int, Cached>, n: int)
    requires Small(accounts, n)
    ensures AccountsExist(accounts, LEGS) && AllFunded(accounts, cache, LEGS)
    ensures FundsOutcome(accounts, cache, LEGS).None?
  {
    assert LEGS[0].account == 1 && LEGS[1].account == 2;
    FundsExact(accounts, cache, LEGS);
  }

  function Paid(tid: int): Db {
    Authorised(OPENED, tid, "payment", LEGS, 1)
  }

  lemma PaymentCanHold(db: Db, tid: int)
    requires db.transactions == map[] && Small(db.accounts, 0) && 0 < tid
    ensures CanHold(db, tid, "payment", LEGS, 1)
  {
    PaymentTotals();
    PaymentStaysSmall(db.accounts, 0, Hold);
    PaymentFunded(db.accounts, map[], 0);
  }

  lemma OpenedSmall()
    ensures OPENED.transactions == map[] && Small(OPENED.accounts, 0)
  {
    assert OPENED.accounts.Keys == {1, 2};
  }

  lemma PaidInv(tid: int)
    requires 0 < tid
    ensures Inv(Paid(tid))
  {
    OpenedInv();
    OpenedSmall();
    PaymentCanHold(OPENED, tid);
    HoldKeeps(OPENED, tid, "payment", LEGS, 1);
  }

  lemma PaidSmall(tid: int)
    ensures Small(Paid(tid).accounts, 100)
  {
    PaymentStaysSmall(OPENED.accounts, 0, Hold);
  }

  lemma PaidLegs(tid: int)
    ensures LegsOf(Paid(tid).entries, tid) == LEGS
  {
    var es := NewEntries(tid, LEGS, 1);
    assert Paid(tid).entries == es;
    FilterEvery(es, OfTx(tid));
    assert LegsIn(es) == LEGS;
  }

  lemma PaidMoves(tid: int)
    ensures !NothingMoves(Paid(tid), tid)
  {
    PaidLegs(tid);
    PaymentTotals();
    MovedBalances(OPENED.accounts, LEGS, Hold, 1);
    assert 1 in Paid(tid).accounts && Paid(tid).accounts[1].Normal() == DebitNormal;
  }

  function CaptureAt(tid: int, now: Clock): Task {
    SettleTask(tid, Movement.Capture, now)
  }

  /** A second settlement of `tid`, after a capture of it. */
  predicate SettlesToo(two: Task, tid: int) {
    two.SettleTask? && two.tid == tid && !two.move.Hold?
  }

  lemma ClashesWhenFits(db: Db, tid: int, legs: seq<Leg>, two: Task)
    requires tid in db.transactions && db.transactions[tid].status.Pending? && LegsOf(db.entries, tid) == legs
    requires AccountsExist(db.accounts, legs) && AllFit(MoveAll(db.accounts, legs, Movement.Capture))
    requires SettlesToo(two, tid) && AllFit(MoveAll(MoveAll(db.accounts, legs, Movement.Capture), legs, two.move))
    ensures Clashing(db, CaptureAt(tid, 2), two)
  {
  }

  lemma SmallFits(accounts: map<int, AccountRow>, m: Movement)
    requires Small(accounts, 100)
    ensures AccountsExist(accounts, LEGS) && AllFit(MoveAll(accounts, LEGS, Movement.Capture))
    ensures AllFit(MoveAll(MoveAll(accounts, LEGS, Movement.Capture), LEGS, m))
  {
    PaymentStaysSmall(accounts, 100, Movement.Capture);
    PaymentStaysSmall(MoveAll(accounts, LEGS, Movement.Capture), 200, m);
    assert LEGS[0].account == 1 && LEGS[1].account == 2;
  }

  lemma PaidClashes(tid: int, two: Task)
    requires 0 < tid && SettlesToo(two, tid)
    ensures Clashing(Paid(tid), CaptureAt(tid, 2), two)
  {
    PaidLegs(tid);
    PaidSmall(tid);
    SmallFits(Paid(tid).accounts, two.move);
    ClashesWhenFits(Paid(tid), tid, LEGS, two);
  }

  /** The payment committed while both accounts still await their `cache.set`. */
  ghost predicate PaymentMade(s: Sys) {
    && |s.handlers| == 3 && LockInv(s) && s.cache == map[]
    && s.handlers[0].phase == Caching && s.handlers[0].id == 1
    && s.handlers[1].phase == Caching && s.handlers[1].id == 2
    && s.handlers[2].phase == Applying(0) && 0 < s.handlers[2].id && s.db == Paid(s.handlers[2].id)
  }

  lemma MakePayment() returns (acts: seq<Action>)
    ensures Feasible(START, acts) && PaymentMade(Exec(START, acts))
  {
    acts := StartPayment();
    var solo := CommitPayment(Exec(START, acts));
    ExecConcat(START, acts, solo);
    acts := acts + solo;
  }

  lemma CommitPayment(s: Sys) returns (acts: seq<Action>)
    requires PaymentStarted(s)
    ensures Feasible(s, acts) && PaymentMade(Exec(s, acts))
  {
    PaymentStaysSmall(OPENED.accounts, 0, Hold);
    PaymentFunded(OPENED.accounts, s.cache, 0);
    acts := SoloRun(s, 2);
  }

  /**
    A run of the server, from nothing, in which two overlapping captures leave the books unreconciled while
    the accounting equation holds and the global check is silent.
   */
  lemma OverlapExample() returns (acts: seq<Action>)
    ensures Feasible(START, acts) && !Reconciled(Exec(START, acts).db)
    ensures (forall posted :: Even(Exec(START, acts).db.accounts, posted))
    ensures GlobalVerdict(Exec(START, acts).db.entries) != Some(false)
  {
    acts := MakePayment();
    var s := Exec(START, acts);
    PaymentIdle(s);
    PaymentBreakable(s);
    var more := BreakIdle(s, s.handlers[2].id);
    ExecConcat(START, acts, more);
    acts := acts + more;
    InterleavedConservation(acts);
    InterleavedGlobalCheck(acts);
  }

  /** Sound tables in which two captures of `tid` would clash. */
  ghost predicate Breakable(db: Db, tid: int) {
    Inv(db) && Clashing(db, CaptureAt(tid, 2), CaptureAt(tid, 3)) && !NothingMoves(db, tid)
  }

  lemma PaidBreakable(tid: int)
    requires 0 < tid
    ensures Breakable(Paid(tid), tid)
  {
    PaidInv(tid);
    PaidMoves(tid);
    PaidClashes(tid, CaptureAt(tid, 3));
  }

  lemma BreakIdle(s: Sys, tid: int) returns (acts: seq<Action>)
    requires LockInv(s) && Idle(s) && Breakable(s.db, tid)
    ensures Feasible(s, acts) && !Reconciled(Exec(s, acts).db)
  {
    acts := OverlapBreaksReconciliation(s, CaptureAt(tid, 2), CaptureAt(tid, 3));
  }

  lemma PaymentIdle(s: Sys)
    requires PaymentMade(s)
    ensures Idle(s)
  {
  }

  lemma PaymentBreakable(s: Sys)
    requires PaymentMade(s)
    ensures Breakable(s.db, s.handlers[2].id)
  {
    PaidBreakable(s.handlers[2].id);
  }

  function VoidAt(tid: int, now: Clock): Task {
    SettleTask(tid, Movement.Void, now)
  }

  ghost predicate Rewritable(db: Db, tid: int) {
    Coherent(db) && Clashing(db, CaptureAt(tid, 2), VoidAt(tid, 3))
  }

  lemma PaymentRewritable(s: Sys)
    requires PaymentMade(s)
    ensures Rewritable(s.db, s.handlers[2].id)
  {
    PaidInv(s.handlers[2].id);
    PaidClashes(s.handlers[2].id, VoidAt(s.handlers[2].id, 3));
  }

  lemma RewriteIdle(s: Sys, tid: int) returns (acts: seq<Action>, more: seq<Action>)
    requires LockInv(s) && Idle(s) && Rewritable(s.db, tid)
    ensures Feasible(s, acts) && Feasible(Exec(s, acts), more)
    ensures var db, db' := Exec(s, acts).db, Exec(Exec(s, acts), more).db;
            && tid in db.transactions && db.transactions[tid].status.Posted?
            && tid in db'.transactions && db'.transactions[tid].status.Voided?
  {
    acts, more := OverlapRewritesUnless(s, CaptureAt(tid, 2), VoidAt(tid, 3));
  }

  /** A run of the server, from nothing, in which a transaction is Posted and later Voided. */
  lemma RewriteExample() returns (acts: seq<Action>, more: seq<Action>, tid: int)
    ensures Feasible(START, acts) && Feasible(Exec(START, acts), more)
    ensures var db, db' := Exec(START, acts).db, Exec(Exec(START, acts), more).db;
            && tid in db.transactions && db.transactions[tid].status.Posted?
            && tid in db'.transactions && db'.transactions[tid].status.Voided?
  {
    acts := MakePayment();
    var s := Exec(START, acts);
    tid := s.handlers[2].id;
    PaymentIdle(s);
    PaymentRewritable(s);
    var first;
    first, more := RewriteIdle(s, tid);
    ExecConcat(START, acts, first);
    acts := acts + first;
  }

  // Using an account before its cache.set

  /** The cache updates a committed handler still owes; they add no id to the cache. */
  lemma {:induction false} ApplyRest(s: Sys, i: nat) returns (acts: seq<Action>)
    requires i < |s.handlers| && s.handlers[i].phase.Applying? && s.handlers[i].phase.j <= |s.handlers[i].updates|
    ensures Feasible(s, acts) && Exec(s, acts).cache.Keys == s.cache.Keys
    ensures Exec(s, acts) == s.(cache := Exec(s, acts).cache, handlers := s.handlers[i := s.handlers[i].Finished()])
    decreases |s.handlers[i].updates| - s.handlers[i].phase.j
  {
    var s' := Next(s, Advance(i));
    if s.handlers[i].phase.j == |s.handlers[i].updates| {
      acts := [];
      assert Exec(s', acts) == s';
    } else {
      acts := ApplyRest(s', i);
    }
    ExecCons(s, Advance(i), acts);
    acts := [Advance(i)] + acts;
  }

  /** An account is committed and awaits its `cache.set`; a transfer has begun meanwhile. */
  ghost predicate UsedEarly(s: Sys, row: AccountRow, hold: Task, s': Sys) {
    var n := |s.handlers|;
    && s' == s.(db := Opened(s.db, s.nextAccount, row), nextAccount := s.nextAccount + 1, handlers := s'.handlers)
    && |s'.handlers| == n + 2 && s'.handlers[..n] == s.handlers && LockInv(s')
    && s'.handlers[n].phase == Caching && s'.handlers[n].id == s.nextAccount
    && s'.handlers[n + 1].phase == Locking(0) && s'.handlers[n + 1].task == hold && hold.HoldTask?
    && s'.handlers[n + 1].legs == hold.legs
  }

  lemma UseEarly(s: Sys, row: AccountRow, hold: Task) returns (acts: seq<Action>)
    requires LockInv(s) && TaskOk(OpenTask(row)) && TaskOk(hold) && hold.HoldTask? && !KeyTaken(s.db, hold.key)
    ensures Feasible(s, acts) && UsedEarly(s, row, hold, Exec(s, acts))
  {
    var n := |s.handlers|;
    acts := [];
    ActionKeeps(s, Spawn(OpenTask(row)));
    ExecSnoc(s, acts, Spawn(OpenTask(row)));
    acts := acts + [Spawn(OpenTask(row))];
    var s1 := Next(s, Spawn(OpenTask(row)));
    ActionKeeps(s1, Advance(n));
    ExecSnoc(s, acts, Advance(n));
    acts := acts + [Advance(n)];
    var s2 := Next(s1, Advance(n));
    ActionKeeps(s2, Spawn(hold));
    ExecSnoc(s, acts, Spawn(hold));
    acts := acts + [Spawn(hold)];
    var s3 := Next(s2, Spawn(hold));
    ActionKeeps(s3, Advance(n + 1));
    ExecSnoc(s, acts, Advance(n + 1));
    acts := acts + [Advance(n + 1)];
  }

  /** The transfer committed and done with the cache, the account's `cache.set` last of all. */
  lemma FinishEarlyUse(s: Sys, row: AccountRow, hold: Task, s1: Sys) returns (acts: seq<Action>)
    requires UsedEarly(s, row, hold, s1) && Alone(s1, |s.handlers| + 1) && Unhindered(s1.db, s1.cache, s1.handlers[|s.handlers| + 1])
    ensures Feasible(s1, acts)
    ensures var n, s' := |s.handlers|, Exec(s1, acts);
            && s'.db.accounts == MoveAll(s1.db.accounts, hold.legs, Hold)
            && s.nextAccount in s'.cache && s'.cache[s.nextAccount] == Cached(0, 0)
            && |s'.handlers| == n + 2 && s'.handlers[..n] == s.handlers
            && s'.handlers[n].phase.Done? && s'.handlers[n + 1].phase.Done?
  {
    var n := |s.handlers|;
    acts := SoloRun(s1, n + 1);
    var s2 := Exec(s1, acts);
    var rest := ApplyRest(s2, n + 1);
    ExecConcat(s1, acts, rest);
    acts := acts + rest;
    ExecSnoc(s1, acts, Advance(n));
    acts := acts + [Advance(n)];
  }

  /** Account `a` can be opened, and the transfer can then pass its checks and commit. */
  predicate Usable(db: Db, cache: map<int, Cached>, a: int, row: AccountRow, hold: Task) {
    && TaskOk(OpenTask(row)) && TaskOk(hold) && hold.HoldTask? && !KeyTaken(db, hold.key) && |hold.key| <= 64
    && var accounts := Opened(db, a, row).accounts;
       && AccountsExist(accounts, hold.legs) && AllFit(MoveAll(accounts, hold.legs, Hold))
       && AllFunded(accounts, cache, hold.legs)
  }

  /** A transfer that passes the funds check can touch an uncached account only to raise it. */
  lemma FundedRaises(rows: map<int, AccountRow>, cache: map<int, Cached>, legs: seq<Leg>, a: int)
    requires ValidLegs(legs) && AccountsExist(rows, legs) && AllFunded(rows, cache, legs) && a in rows && a !in cache
    ensures Net(legs, rows[a].Normal(), a) == 0 <==> !Touches(legs, a)
  {
    var nb := rows[a].Normal();
    var f := AccountDelta(nb, a);
    if i :| 0 <= i < |legs| && legs[i].account == a {
      forall k | 0 <= k < |legs|
        ensures f(legs[k]) >= 0
      {
        assert Funded(rows, cache, legs[k]);
      }
      assert Funded(rows, cache, legs[i]) && f(legs[i]) > 0;
      SumRemove(legs, i, f);
      SumPrefix(legs[..i] + legs[i + 1..], 0, f);
    } else {
      UntouchedNet(legs, nb, a);
    }
  }

  /**
    From any idle state, a transfer that passes its checks, commits and updates the cache before an account just
    opened is cached leaves that account cached right if and only if it does not touch the account.
   */
  lemma EarlyUseRightIff(s: Sys, row: AccountRow, hold: Task) returns (acts: seq<Action>)
    requires LockInv(s) && Shape(s) && Idle(s) && Usable(s.db, s.cache, s.nextAccount, row, hold)
    ensures Feasible(s, acts)
    ensures var a, n, s' := s.nextAccount, |s.handlers|, Exec(s, acts);
            && a in s'.db.accounts && a in s'.cache
            && (s'.cache[a] == Snapshot(s'.db.accounts)[a] <==> !Touches(hold.legs, a))
            && |s'.handlers| == n + 2 && s'.handlers[..n] == s.handlers
            && s'.handlers[n].phase.Done? && s'.handlers[n + 1].phase.Done?
  {
    acts := UseEarly(s, row, hold);
    var s1 := Exec(s, acts);
    EarlyAlone(s, row, hold, s1);
    var rest := FinishEarlyUse(s, row, hold, s1);
    MovedBalances(s1.db.accounts, hold.legs, Hold, s.nextAccount);
    FundedRaises(s1.db.accounts, s.cache, hold.legs, s.nextAccount);
    ExecConcat(s, acts, rest);
    acts := acts + rest;
  }

  lemma EarlyAlone(s: Sys, row: AccountRow, hold: Task, s1: Sys)
    requires Idle(s) && UsedEarly(s, row, hold, s1)
    ensures Alone(s1, |s.handlers| + 1)
  {
    forall j: nat | j < |s1.handlers| && j != |s.handlers| + 1
      ensures !s1.handlers[j].Locked()
    {
      if j < |s.handlers| {
        assert s1.handlers[..|s.handlers|][j] == s.handlers[j];
      }
    }
  }

  lemma OpenFirst() returns (acts: seq<Action>)
    ensures Feasible(START, acts)
    ensures var s := Exec(START, acts);
            s.db == Opened(EMPTY_DB, 1, ROW) && s.nextAccount == 2 && |s.handlers| == 1 && s.handlers[0].phase.Done?
  {
    acts := [];
    ExecSnoc(START, acts, Spawn(OpenTask(ROW)));
    acts := acts + [Spawn(OpenTask(ROW))];
    ExecSnoc(START, acts, Advance(0));
    acts := acts + [Advance(0)];
    ExecSnoc(START, acts, Advance(0));
    acts := acts + [Advance(0)];
  }

  lemma EarlyUseWrong(s: Sys, row: AccountRow, hold: Task) returns (acts: seq<Action>)
    requires LockInv(s) && Shape(s) && AllDone(s) && Usable(s.db, s.cache, s.nextAccount, row, hold)
    requires Touches(hold.legs, s.nextAccount)
    ensures Feasible(s, acts) && AllDone(Exec(s, acts))
    ensures Exec(s, acts).cache != Snapshot(Exec(s, acts).db.accounts)
  {
    acts := EarlyUseRightIff(s, row, hold);
    var s' := Exec(s, acts);
    forall i | 0 <= i < |s.handlers|
      ensures s'.handlers[i].phase.Done?
    {
      assert s'.handlers[..|s.handlers|][i] == s.handlers[i];
    }
  }

  lemma SmallUsable(db: Db, cache: map<int, Cached>)
    requires db.transactions == map[] && Small(Opened(db, 2, DUE).accounts, 0)
    ensures Usable(db, cache, 2, DUE, PAYMENT)
  {
    var accounts := Opened(db, 2, DUE).accounts;
    PaymentTotals();
    PaymentStaysSmall(accounts, 0, Hold);
    PaymentFunded(accounts, cache, 0);
  }

  lemma FirstOpenedSmall(db: Db)
    requires db == Opened(EMPTY_DB, 1, ROW)
    ensures db.transactions == map[] && Small(Opened(db, 2, DUE).accounts, 0)
  {
    assert Opened(db, 2, DUE).accounts.Keys == {1, 2};
  }

  /** A run of the server, from nothing, that ends with everything finished and the cache wrong. */
  lemma EarlyUseExample() returns (acts: seq<Action>)
    ensures Feasible(START, acts) && AllDone(Exec(START, acts))
    ensures Exec(START, acts).cache != Snapshot(Exec(START, acts).db.accounts)
  {
    acts := OpenFirst();
    LocksSafe(acts);
    CacheShaped(acts);
    var s := Exec(START, acts);
    FirstOpenedSmall(s.db);
    SmallUsable(s.db, s.cache);
    PaymentTotals();
    var more := EarlyUseWrong(s, DUE, PAYMENT);
    ExecConcat(START, acts, more);
    acts := acts + more;
  }
}
