/**
  The handlers as concurrent processes, one SQL statement or cache update per step, under Read Committed:
  statements see committed rows plus the handler's own uncommitted writes, row locks last until commit or
  rollback, and cache updates come after the commit.
 */
module Protocol {
  import opened Domain
  import opened Validation
  import opened Tables
  import opened Invariance
  import opened Ledger
  import opened Updates

  /** A request after the checks that precede `begin`. */
  datatype Task =
    | OpenTask(row: AccountRow)
    | HoldTask(key: string, legs: seq<Leg>, now: Clock)
    | SettleTask(tid: int, move: Movement, now: Clock)

  datatype Phase =
    | Starting               // nothing read yet
    | Reading                // capture/void: transaction seen Pending, its entries not read yet
    | Locking(k: nat)        // rows of the first k ids are locked and read
    | Checking(l: nat)       // authorize: all rows locked, funds of the first l legs found in the cache
    | Updating(j: nat)       // transaction row claimed, first j balance updates written
    | Applying(j: nat)       // committed; first j updates applied to the cache
    | Caching                // account committed; its `cache.set` outstanding
    | Done

  datatype Handler = Handler(
    task: Task, phase: Phase, id: int, legs: seq<Leg>, ids: seq<int>,
    seen: map<int, AccountRow>, updates: seq<Update>, written: map<int, AccountRow>)
  {
    predicate Locked() {
      phase.Locking? || phase.Checking? || phase.Updating?
    }

    /** Before the commit: still able to fail and roll back. */
    predicate Live() {
      phase.Starting? || phase.Reading? || Locked()
    }

    predicate Holds(a: int) {
      Locked() && a in seen
    }

    function Move(): Movement {
      if task.SettleTask? then task.move else Hold
    }

    predicate HoldsKey(key: string) {
      phase.Updating? && task.HoldTask? && task.key == key
    }

    predicate HoldsTransaction(tid: int) {
      phase.Updating? && task.SettleTask? && task.tid == tid
    }

    /** All updates are written; the next step commits. */
    predicate AtCommit() {
      phase == Updating(|updates|)
    }

    function Finished(): Handler {
      this.(phase := Done)
    }
  }

  datatype Sys = Sys(db: Db, cache: map<int, Cached>, nextAccount: int, nextTx: int, handlers: seq<Handler>)

  const START := Sys(EMPTY_DB, map[], 1, 1, [])

  datatype Action = Spawn(task: Task) | Advance(i: nat) | Abort(i: nat) | Crash

  predicate TaskOk(task: Task) {
    match task
    case OpenTask(row) => RowOk(1, row) && row.version == row.posted == row.pending == 0
    case HoldTask(key, legs, _) => key != "" && ValidLegs(legs) && Acceptable(legs)
    case SettleTask(tid, move, _) => !move.Hold?
  }

  function NewHandler(task: Task): Handler {
    Handler(task, Starting, 0, [], [], map[], [], map[])
  }

  predicate KeyTaken(db: Db, key: string) {
    exists t | t in db.transactions :: db.transactions[t].key == key
  }

  // Blocking

  predicate WantsClaim(task: Task, g: Handler) {
    match task
    case HoldTask(key, _, _) => g.HoldsKey(key)
    case SettleTask(tid, _, _) => g.HoldsTransaction(tid)
    case OpenTask(_) => false
  }

  /** What the handler's next statement needs another handler not to hold. */
  predicate Wants(h: Handler, g: Handler) {
    match h.phase
    case Locking(k) => k < |h.ids| && g.Holds(h.ids[k])
    case Checking(l) => l >= |h.legs| && WantsClaim(h.task, g)
    case _ => false
  }

  predicate WaitsFor(s: Sys, i: nat, j: nat)
    requires i < |s.handlers| && j < |s.handlers|
  {
    i != j && Wants(s.handlers[i], s.handlers[j])
  }

  predicate Enabled(s: Sys, act: Action) {
    match act
    case Spawn(task) => TaskOk(task)
    case Advance(i) =>
      i < |s.handlers| && !s.handlers[i].phase.Done? && forall j: nat | j < |s.handlers| :: !WaitsFor(s, i, j)
    case Abort(i) => i < |s.handlers| && s.handlers[i].Live()
    case Crash => true
  }

  // Steps

  function StartStep(s: Sys, h: Handler): (Sys, Handler) {
    match h.task
    case OpenTask(row) =>
      (s.(db := Opened(s.db, s.nextAccount, row), nextAccount := s.nextAccount + 1),
       h.(phase := Caching, id := s.nextAccount))
    case HoldTask(key, legs, _) =>
      if KeyTaken(s.db, key) then (s, h.Finished())
      else (s, h.(phase := Locking(0), legs := legs, ids := LockOrder(legs)))
    case SettleTask(tid, _, _) =>
      if tid !in s.db.transactions || !s.db.transactions[tid].status.Pending? then (s, h.Finished())
      else (s, h.(phase := Reading, id := tid))
  }

  function ReadStep(s: Sys, h: Handler): Handler {
    var legs := LegsOf(s.db.entries, h.id);
    h.(phase := Locking(0), legs := legs, ids := LockOrder(legs))
  }

  /** SELECT ... FOR UPDATE of the next account. */
  function LockStep(s: Sys, h: Handler, k: nat): Handler
    requires k < |h.ids|
  {
    var a := h.ids[k];
    if a in s.db.accounts then h.(phase := Locking(k + 1), seen := h.seen[a := s.db.accounts[a]])
    else h.Finished()
  }

  /** With all rows locked, `authorize` goes on to check funds leg by leg; `capture` and `void` have none to check. */
  function LockedAll(h: Handler): Handler {
    h.(phase := Checking(if h.task.HoldTask? then 0 else |h.legs|))
  }

  /** The funds of one leg against the cache as it is now. */
  function CheckStep(s: Sys, h: Handler, l: nat): Handler
    requires l < |h.legs|
  {
    if h.legs[l].account in h.seen && Funded(h.seen, s.cache, h.legs[l]) then h.(phase := Checking(l + 1))
    else h.Finished()
  }

  /** INSERT of the transaction row, or UPDATE of its status. */
  function ClaimStep(s: Sys, h: Handler): (Sys, Handler) {
    if !AccountsExist(h.seen, h.legs) then (s, h.Finished())
    else
      var h' := h.(phase := Updating(0), updates := UpdatesOf(h.legs, h.seen, h.Move()));
      match h.task
      case HoldTask(key, _, _) =>
        if KeyTaken(s.db, key) || |key| > 64 then (s, h.Finished())
        else (s.(nextTx := s.nextTx + 1), h'.(id := s.nextTx))
      case SettleTask(_, _, _) => (s, h')
      case OpenTask(_) => (s, h.Finished())
  }

  /** The row as the handler's own statements see it. */
  function RowSeenBy(s: Sys, h: Handler, a: int): Option<AccountRow> {
    if a in h.written then Some(h.written[a])
    else if a in s.db.accounts then Some(s.db.accounts[a])
    else None
  }

  /** The version check of `update_account_balance` fails, or the account it names was never read. */
  predicate Conflicts(s: Sys, h: Handler, u: Update) {
    var row := RowSeenBy(s, h, u.account);
    row.None? || u.account !in h.seen || row.value.version != h.seen[u.account].version
  }

  function UpdateStep(s: Sys, h: Handler, j: nat): Handler
    requires j < |h.updates|
  {
    var u := h.updates[j];
    if Conflicts(s, h, u) || !Bumped(RowSeenBy(s, h, u.account).value, u).Fits() then h.Finished()
    else h.(phase := Updating(j + 1), written := h.written[u.account := Bumped(RowSeenBy(s, h, u.account).value, u)])
  }

  /** All of the handler's row images and inserts become visible at once. */
  function Committed(db: Db, h: Handler): Db {
    var accounts := db.accounts + h.written;
    match h.task
    case HoldTask(key, legs, now) =>
      Db(accounts, db.transactions[h.id := TxRow(key, TransactionStatus.Pending, now, None)],
         db.entries + NewEntries(h.id, legs, now))
    case SettleTask(tid, move, now) =>
      if tid !in db.transactions then db
      else Db(accounts, db.transactions[tid := SettledRow(db.transactions[tid], move, now)],
              Restatus(db.entries, tid, move.EntryTarget()))
    case OpenTask(_) => db
  }

  /** One statement of one handler: the shared state it leaves, and the handler itself. */
  function HandlerStep(s: Sys, h: Handler): (Sys, Handler)
    requires !h.phase.Done?
  {
    match h.phase
    case Starting => StartStep(s, h)
    case Reading => (s, ReadStep(s, h))
    case Locking(k) => (s, if k < |h.ids| then LockStep(s, h, k) else LockedAll(h))
    case Checking(l) => if l < |h.legs| then (s, CheckStep(s, h, l)) else ClaimStep(s, h)
    case Updating(j) =>
      if j < |h.updates| then (s, UpdateStep(s, h, j))
      else (s.(db := Committed(s.db, h)), h.(phase := Applying(0)))
    case Applying(j) =>
      if j < |h.updates| then (s.(cache := Applied(s.cache, h.updates[j])), h.(phase := Applying(j + 1)))
      else (s, h.Finished())
    case Caching => (s.(cache := s.cache[h.id := Cached(0, 0)]), h.Finished())
  }

  function Next(s: Sys, act: Action): Sys
    requires Enabled(s, act)
  {
    match act
    case Spawn(task) => s.(handlers := s.handlers + [NewHandler(task)])
    case Advance(i) =>
      var (s', h') := HandlerStep(s, s.handlers[i]);
      s'.(handlers := s.handlers[i := h'])
    case Abort(i) => s.(handlers := s.handlers[i := s.handlers[i].Finished()])
    case Crash => s.(handlers := [], cache := Snapshot(s.db.accounts))
  }

  /** Every action is possible when its turn comes. */
  predicate Feasible(s: Sys, acts: seq<Action>)
    decreases |acts|, 0
  {
    acts == [] || (Feasible(s, acts[..|acts| - 1]) && Enabled(Exec(s, acts[..|acts| - 1]), acts[|acts| - 1]))
  }

  function Exec(s: Sys, acts: seq<Action>): Sys
    requires Feasible(s, acts)
    decreases |acts|, 1
  {
    if acts == [] then s else Next(Exec(s, acts[..|acts| - 1]), acts[|acts| - 1])
  }

  lemma {:induction false} FeasiblePrefix(s: Sys, acts: seq<Action>, n: nat)
    requires Feasible(s, acts) && n <= |acts|
    ensures Feasible(s, acts[..n])
    decreases |acts|
  {
    if n < |acts| {
      FeasiblePrefix(s, acts[..|acts| - 1], n);
      assert acts[..|acts| - 1][..n] == acts[..n];
    } else {
      assert acts[..n] == acts;
    }
  }

  // Gluing runs

  lemma ExecSnoc(s: Sys, acts: seq<Action>, act: Action)
    requires Feasible(s, acts) && Enabled(Exec(s, acts), act)
    ensures Feasible(s, acts + [act]) && Exec(s, acts + [act]) == Next(Exec(s, acts), act)
  {
    assert (acts + [act])[..|acts|] == acts;
  }

  lemma {:induction false} ExecConcat(s: Sys, acts: seq<Action>, more: seq<Action>)
    requires Feasible(s, acts) && Feasible(Exec(s, acts), more)
    ensures Feasible(s, acts + more) && Exec(s, acts + more) == Exec(Exec(s, acts), more)
  {
    if more == [] {
      assert acts + more == acts;
    } else {
      var n := |more| - 1;
      ExecConcat(s, acts, more[..n]);
      assert (acts + more)[..|acts + more| - 1] == acts + more[..n];
    }
  }

  lemma {:induction false} ExecCons(s: Sys, act: Action, acts: seq<Action>)
    requires Enabled(s, act) && Feasible(Next(s, act), acts)
    ensures Feasible(s, [act] + acts) && Exec(s, [act] + acts) == Exec(Next(s, act), acts)
  {
    if acts == [] {
      assert [act] + acts == [] + [act];
      ExecSnoc(s, [], act);
    } else {
      var n := |acts| - 1;
      ExecCons(s, act, acts[..n]);
      ExecSnoc(s, [act] + acts[..n], acts[n]);
      assert [act] + acts == ([act] + acts[..n]) + [acts[n]];
    }
  }

  /** A property of every state of a run. */
  ghost predicate Throughout(s: Sys, acts: seq<Action>, p: Sys -> bool)
    requires Feasible(s, acts)
  {
    p(Exec(s, acts)) && (acts == [] || Throughout(s, acts[..|acts| - 1], p))
  }

  lemma {:induction false} AlongPrefix(s: Sys, acts: seq<Action>, n: nat, rule: (Sys, Action) -> bool)
    requires Feasible(s, acts) && Along(s, acts, rule) && n <= |acts|
    ensures Feasible(s, acts[..n]) && Along(s, acts[..n], rule)
    decreases |acts|
  {
    if n < |acts| {
      AlongPrefix(s, acts[..|acts| - 1], n, rule);
      assert acts[..|acts| - 1][..n] == acts[..n];
    } else {
      assert acts[..n] == acts;
    }
  }

  /** A rule about an action and the state it is taken in, along a whole run. */
  ghost predicate Along(s: Sys, acts: seq<Action>, rule: (Sys, Action) -> bool)
    requires Feasible(s, acts)
  {
    acts == [] ||
    (Along(s, acts[..|acts| - 1], rule) && rule(Exec(s, acts[..|acts| - 1]), acts[|acts| - 1]))
  }
}
