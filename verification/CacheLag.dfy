/**
  The cache under interleaving, with no assumption on callers: what it still has to catch up with, what it has
  lost for good, and so exactly when it is right.
 */
module CacheLag {
  import opened Domain
  import opened Sums
  import opened Tables
  import opened Ledger
  import opened Updates
  import opened Protocol
  import opened Locks
  import opened Conservation

  // Committed but unapplied updates

  function Unapplied(h: Handler): seq<Update> {
    if h.phase.Applying? && h.phase.j <= |h.updates| then h.updates[h.phase.j..] else []
  }

  function Part(a: int, posted: bool): Update -> int {
    (u: Update) => if u.account == a then if posted then u.posted else u.pending else 0
  }

  function AbsPart(a: int, posted: bool): Update -> int {
    (u: Update) => Abs(Part(a, posted)(u))
  }

  function Debt(a: int, posted: bool): Handler -> int {
    (h: Handler) => Sum(Unapplied(h), Part(a, posted))
  }

  function AbsDebt(a: int, posted: bool): Handler -> int {
    (h: Handler) => Sum(Unapplied(h), AbsPart(a, posted))
  }

  /** What the cache still has to catch up with on one account. */
  function InFlight(s: Sys, a: int, posted: bool): int {
    Sum(s.handlers, Debt(a, posted))
  }

  function CacheValue(c: Cached, posted: bool): int {
    if posted then c.posted else c.pending
  }

  function TableValue(db: Db, a: int, posted: bool): int {
    if a in db.accounts then RowValue(db.accounts[a], posted) else 0
  }

  function CachedValue(cache: map<int, Cached>, a: int, posted: bool): int {
    if a in cache then CacheValue(cache[a], posted) else 0
  }

  // Lost updates

  /** What one `apply_delta` fails to add: all of it if the id is missing, else what the saturating add cuts off. */
  function LostPart(cache: map<int, Cached>, u: Update, a: int, posted: bool): int {
    if u.account != a then 0
    else if a !in cache then Part(a, posted)(u)
    else
      var sum := CacheValue(cache[a], posted) + Part(a, posted)(u);
      sum - Clamp(sum)
  }

  predicate Applies(s: Sys, act: Action) {
    && act.Advance? && act.i < |s.handlers|
    && s.handlers[act.i].phase.Applying? && s.handlers[act.i].phase.j < |s.handlers[act.i].updates|
  }

  function UpdateOf(s: Sys, act: Action): Update
    requires Applies(s, act)
  {
    s.handlers[act.i].updates[s.handlers[act.i].phase.j]
  }

  function LostBy(s: Sys, act: Action, a: int, posted: bool): int {
    if Applies(s, act) then LostPart(s.cache, UpdateOf(s, act), a, posted) else 0
  }

  /** What the updates applied since the last restart have failed to add to the cached balance. */
  function Lost(acts: seq<Action>, a: int, posted: bool): int
    requires Feasible(START, acts)
  {
    if acts == [] || acts[|acts| - 1].Crash? then 0
    else
      var front := acts[..|acts| - 1];
      Lost(front, a, posted) + LostBy(Exec(START, front), acts[|acts| - 1], a, posted)
  }

  // Sums of updates

  /** With one update per account, the account's share of the updates is that one update. */
  lemma {:induction false} PartOfDistinct(us: seq<Update>, i: nat, posted: bool)
    requires Distinct(us) && i < |us|
    ensures Sum(us, Part(us[i].account, posted)) == Part(us[i].account, posted)(us[i])
  {
    var a := us[i].account;
    SumRemove(us, i, Part(a, posted));
    SumZero(us[..i] + us[i + 1..], Part(a, posted));
  }

  lemma PartOfUncovered(us: seq<Update>, a: int, posted: bool)
    requires !Covers(us, a)
    ensures Sum(us, Part(a, posted)) == 0
  {
    SumZero(us, Part(a, posted));
  }

  /** What a commit adds to a row is what it puts in flight. */
  lemma CommitRow(s: Sys, h: Handler, a: int, posted: bool)
    requires HandlerOk(s.db, s.nextTx, h) && h.AtCommit()
    ensures TableValue(Committed(s.db, h), a, posted) == TableValue(s.db, a, posted) + Sum(h.updates, Part(a, posted))
  {
    UpdatesExact(h.legs, h.seen, h.Move());
    assert h.updates[..|h.updates|] == h.updates;
    if i :| 0 <= i < |h.updates| && h.updates[i].account == a {
      PartOfDistinct(h.updates, i, posted);
    } else {
      PartOfUncovered(h.updates, a, posted);
    }
  }

  /** The step of one handler changes the flight by the change of its own debt. */
  lemma FlightStep(s: Sys, i: nat, s': Sys, h': Handler, a: int, posted: bool)
    requires i < |s.handlers| && s'.handlers == s.handlers[i := h']
    ensures InFlight(s', a, posted) == InFlight(s, a, posted) - Debt(a, posted)(s.handlers[i]) + Debt(a, posted)(h')
  {
    SumUpdate(s.handlers, i, h', Debt(a, posted));
  }

  lemma SumSuffix(us: seq<Update>, j: nat, f: Update -> int)
    requires j < |us|
    ensures Sum(us[j..], f) == f(us[j]) + Sum(us[j + 1..], f)
  {
    assert us[j..] == ([] + [us[j]]) + us[j + 1..];
    SumConcat([] + [us[j]], us[j + 1..], f);
    SumSnoc([], us[j], f);
  }

  function NextApply(h: Handler): Handler
    requires h.phase.Applying?
  {
    h.(phase := Applying(h.phase.j + 1))
  }

  function AfterApply(s: Sys, i: nat): Sys
    requires i < |s.handlers| && s.handlers[i].phase.Applying?
  {
    s.(handlers := s.handlers[i := NextApply(s.handlers[i])])
  }

  lemma DebtStep(h: Handler, a: int, posted: bool)
    requires h.phase.Applying? && h.phase.j < |h.updates|
    ensures Debt(a, posted)(h) == Part(a, posted)(h.updates[h.phase.j]) + Debt(a, posted)(NextApply(h))
    ensures AbsDebt(a, posted)(NextApply(h)) <= AbsDebt(a, posted)(h)
  {
    SumSuffix(h.updates, h.phase.j, Part(a, posted));
    SumSuffix(h.updates, h.phase.j, AbsPart(a, posted));
    assert AbsPart(a, posted)(h.updates[h.phase.j]) >= 0;
  }

  lemma ApplyFlight(s: Sys, i: nat, a: int, posted: bool)
    requires i < |s.handlers| && s.handlers[i].phase.Applying? && s.handlers[i].phase.j < |s.handlers[i].updates|
    ensures InFlight(AfterApply(s, i), a, posted)
            == InFlight(s, a, posted) - Part(a, posted)(s.handlers[i].updates[s.handlers[i].phase.j])
    ensures Sum(AfterApply(s, i).handlers, AbsDebt(a, posted)) <= Sum(s.handlers, AbsDebt(a, posted))
  {
    var h := s.handlers[i];
    DebtStep(h, a, posted);
    SumUpdate(s.handlers, i, NextApply(h), Debt(a, posted));
    SumUpdate(s.handlers, i, NextApply(h), AbsDebt(a, posted));
  }

  // Which accounts are cached

  predicate Awaiting(s: Sys, a: int) {
    exists i | 0 <= i < |s.handlers| :: s.handlers[i].phase.Caching? && s.handlers[i].id == a
  }

  predicate AwaitedOk(s: Sys, h: Handler) {
    h.phase.Caching? ==> h.id in s.db.accounts && h.id !in s.cache
  }

  predicate Differ(h: Handler, g: Handler) {
    h.phase.Caching? && g.phase.Caching? ==> h.id != g.id
  }

  /** Cached accounts exist; every other one awaits its own `cache.set`. */
  ghost predicate Shape(s: Sys) {
    && s.cache.Keys <= s.db.accounts.Keys
    && (forall a | a in s.db.accounts && a !in s.cache :: Awaiting(s, a))
    && (forall i | 0 <= i < |s.handlers| :: AwaitedOk(s, s.handlers[i]))
    && (forall i, j | 0 <= i < |s.handlers| && 0 <= j < |s.handlers| && i != j :: Differ(s.handlers[i], s.handlers[j]))
  }

  lemma StepKeys(s: Sys, h: Handler)
    requires HandlerOk(s.db, s.nextTx, h) && !h.phase.Done? && s.cache.Keys <= s.db.accounts.Keys
    ensures var t := HandlerStep(s, h).0;
            t.cache.Keys <= t.db.accounts.Keys && s.db.accounts.Keys <= t.db.accounts.Keys && s.cache.Keys <= t.cache.Keys
  {
    TablesChange(s, h);
  }

  lemma AwaitingKept(s: Sys, i: nat, h': Handler, db: Db, a: int)
    requires i < |s.handlers| && Awaiting(s, a)
    requires s.handlers[i].phase.Caching? ==> s.handlers[i].id != a
    ensures Awaiting(s.(db := db, handlers := s.handlers[i := h']), a)
  {
    var j :| 0 <= j < |s.handlers| && s.handlers[j].phase.Caching? && s.handlers[j].id == a;
    assert s.handlers[i := h'][j] == s.handlers[j];
  }

  lemma StepOpens(s: Sys, h: Handler, a: int)
    requires HandlerOk(s.db, s.nextTx, h) && !h.phase.Done?
    requires a !in s.db.accounts && a in HandlerStep(s, h).0.db.accounts
    ensures var (t, h') := HandlerStep(s, h);
            RowOk(1, t.db.accounts[a]) && t.db.accounts[a].posted == t.db.accounts[a].pending == 0 && h'.phase.Caching? && h'.id == a
  {
    TablesChange(s, h);
    if h.AtCommit() {
      CommitIsAtomic(s, h);
    }
  }

  lemma AdvanceAwaits(s: Sys, i: nat, a: int)
    requires LockInv(s) && Shape(s) && Enabled(s, Advance(i))
    requires a in Next(s, Advance(i)).db.accounts && a !in Next(s, Advance(i)).cache
    ensures Awaiting(Next(s, Advance(i)), a)
  {
    var h := s.handlers[i];
    var h' := HandlerStep(s, h).1;
    var s' := Next(s, Advance(i));
    assert HandlerOk(s.db, s.nextTx, h);
    if a in s.db.accounts {
      StepKeys(s, h);
      assert h.phase.Caching? ==> h.id != a;
      AwaitingKept(s, i, h', s'.db, a);
      var j :| 0 <= j < |s'.handlers| && s'.handlers[j].phase.Caching? && s'.handlers[j].id == a;
    } else {
      StepOpens(s, h, a);
      assert s'.handlers[i] == h';
    }
  }

  lemma OtherAwaits(s: Sys, h: Handler, g: Handler)
    requires HandlerOk(s.db, s.nextTx, h) && !h.phase.Done? && s.cache.Keys <= s.db.accounts.Keys
    requires AwaitedOk(s, g) && Differ(h, g)
    ensures AwaitedOk(HandlerStep(s, h).0, g)
  {
    StepKeys(s, h);
  }

  lemma StepDiffers(s: Sys, h: Handler, g: Handler)
    requires Numbered(s) && !h.phase.Done? && AwaitedOk(s, g) && Differ(h, g)
    ensures var h' := HandlerStep(s, h).1; Differ(h', g) && Differ(g, h')
  {
  }

  lemma OwnAwaited(s: Sys, h: Handler)
    requires HandlerOk(s.db, s.nextTx, h) && !h.phase.Done? && Numbered(s)
    requires s.cache.Keys <= s.db.accounts.Keys
    ensures var (t, h') := HandlerStep(s, h); AwaitedOk(t, h')
  {
  }

  lemma AdvanceShape(s: Sys, i: nat)
    requires LockInv(s) && Shape(s) && Enabled(s, Advance(i))
    ensures Shape(Next(s, Advance(i)))
  {
    var h := s.handlers[i];
    var (t, h') := HandlerStep(s, h);
    assert HandlerOk(s.db, s.nextTx, h) && AwaitedOk(s, h);
    StepKeys(s, h);
    OwnAwaited(s, h);
    forall a | a in t.db.accounts && a !in t.cache {
      AdvanceAwaits(s, i, a);
    }
    forall j | 0 <= j < |s.handlers| && j != i
      ensures AwaitedOk(t, s.handlers[j]) && Differ(h', s.handlers[j]) && Differ(s.handlers[j], h')
    {
      assert AwaitedOk(s, s.handlers[j]) && Differ(h, s.handlers[j]);
      OtherAwaits(s, h, s.handlers[j]);
      StepDiffers(s, h, s.handlers[j]);
    }
  }

  lemma SpawnShape(s: Sys, task: Task)
    requires Shape(s) && TaskOk(task)
    ensures Shape(Next(s, Spawn(task)))
  {
    var s' := Next(s, Spawn(task));
    forall a | a in s.db.accounts && a !in s.cache
      ensures Awaiting(s', a)
    {
      var j :| 0 <= j < |s.handlers| && s.handlers[j].phase.Caching? && s.handlers[j].id == a;
      assert s'.handlers[j] == s.handlers[j];
    }
  }

  lemma AbortShape(s: Sys, i: nat)
    requires Shape(s) && Enabled(s, Abort(i))
    ensures Shape(Next(s, Abort(i)))
  {
    var s' := Next(s, Abort(i));
    forall a | a in s.db.accounts && a !in s.cache
      ensures Awaiting(s', a)
    {
      AwaitingKept(s, i, s.handlers[i].Finished(), s.db, a);
    }
  }

  lemma ActionShape(s: Sys, act: Action)
    requires LockInv(s) && Shape(s) && Enabled(s, act)
    ensures Shape(Next(s, act))
  {
    match act
    case Spawn(task) => SpawnShape(s, task);
    case Advance(i) => AdvanceShape(s, i);
    case Abort(i) => AbortShape(s, i);
    case Crash =>
  }

  /** In every state of every interleaving. */
  lemma {:induction false} CacheShaped(acts: seq<Action>)
    requires Feasible(START, acts)
    ensures Shape(Exec(START, acts))
  {
    if acts != [] {
      CacheShaped(acts[..|acts| - 1]);
      LocksSafe(acts[..|acts| - 1]);
      ActionShape(Exec(START, acts[..|acts| - 1]), acts[|acts| - 1]);
    }
  }

  // The gap between tables and cache

  /** What the tables have and the cache neither has nor will get. */
  function Gap(s: Sys, a: int, posted: bool): int {
    TableValue(s.db, a, posted) - CachedValue(s.cache, a, posted) - InFlight(s, a, posted)
  }

  /** The step touches neither committed balances nor the cache nor the handler's debt. */
  predicate Quiet(h: Handler) {
    match h.phase
    case Starting => !h.task.OpenTask?
    case Updating(j) => j < |h.updates|
    case Applying(j) => j >= |h.updates|
    case Caching => false
    case _ => true
  }

  lemma QuietStep(s: Sys, h: Handler)
    requires !h.phase.Done? && Quiet(h)
    ensures var (t, h') := HandlerStep(s, h);
            t.db == s.db && t.cache == s.cache && Unapplied(h') == Unapplied(h) == []
  {
  }

  lemma QuietGap(s: Sys, i: nat, a: int, posted: bool)
    requires Enabled(s, Advance(i)) && Quiet(s.handlers[i])
    ensures Gap(Next(s, Advance(i)), a, posted) == Gap(s, a, posted)
  {
    QuietStep(s, s.handlers[i]);
    FlightStep(s, i, Next(s, Advance(i)), HandlerStep(s, s.handlers[i]).1, a, posted);
  }

  lemma OpenGap(s: Sys, i: nat, a: int, posted: bool)
    requires Numbered(s) && Enabled(s, Advance(i)) && TaskOk(s.handlers[i].task)
    requires s.handlers[i].phase.Starting? && s.handlers[i].task.OpenTask?
    ensures Gap(Next(s, Advance(i)), a, posted) == Gap(s, a, posted)
  {
    FlightStep(s, i, Next(s, Advance(i)), HandlerStep(s, s.handlers[i]).1, a, posted);
  }

  lemma CommitGap(s: Sys, i: nat, a: int, posted: bool)
    requires Enabled(s, Advance(i)) && HandlerOk(s.db, s.nextTx, s.handlers[i]) && s.handlers[i].AtCommit()
    ensures Gap(Next(s, Advance(i)), a, posted) == Gap(s, a, posted)
  {
    var h := s.handlers[i];
    assert h.updates[0..] == h.updates;
    CommitRow(s, h, a, posted);
    FlightStep(s, i, Next(s, Advance(i)), h.(phase := Applying(0)), a, posted);
  }

  /** One saturating update, seen from account `a`. */
  lemma AppliedValue(cache: map<int, Cached>, u: Update, a: int, posted: bool)
    ensures CachedValue(Applied(cache, u), a, posted)
            == CachedValue(cache, a, posted) + Part(a, posted)(u) - LostPart(cache, u, a, posted)
  {
  }

  lemma ApplyIs(s: Sys, i: nat)
    requires Enabled(s, Advance(i)) && Applies(s, Advance(i))
    ensures Next(s, Advance(i)) == AfterApply(s, i).(cache := Applied(s.cache, UpdateOf(s, Advance(i))))
  {
  }

  lemma ApplyGap(s: Sys, i: nat, a: int, posted: bool)
    requires Enabled(s, Advance(i)) && Applies(s, Advance(i))
    ensures Gap(Next(s, Advance(i)), a, posted)
            == Gap(s, a, posted) + LostPart(s.cache, UpdateOf(s, Advance(i)), a, posted)
  {
    ApplyIs(s, i);
    ApplyFlight(s, i, a, posted);
    AppliedValue(s.cache, UpdateOf(s, Advance(i)), a, posted);
    assert InFlight(Next(s, Advance(i)), a, posted) == InFlight(AfterApply(s, i), a, posted);
  }

  lemma SetGap(s: Sys, i: nat, a: int, posted: bool)
    requires Enabled(s, Advance(i)) && s.handlers[i].phase.Caching? && AwaitedOk(s, s.handlers[i])
    ensures Gap(Next(s, Advance(i)), a, posted) == Gap(s, a, posted)
  {
    FlightStep(s, i, Next(s, Advance(i)), s.handlers[i].Finished(), a, posted);
  }

  lemma AdvanceGap(s: Sys, i: nat, a: int, posted: bool)
    requires LockInv(s) && Shape(s) && Enabled(s, Advance(i))
    ensures Gap(Next(s, Advance(i)), a, posted) == Gap(s, a, posted) + LostBy(s, Advance(i), a, posted)
  {
    var h := s.handlers[i];
    assert HandlerOk(s.db, s.nextTx, h) && AwaitedOk(s, h);
    if Quiet(h) {
      QuietGap(s, i, a, posted);
    } else if h.phase.Starting? {
      OpenGap(s, i, a, posted);
    } else if h.phase.Updating? {
      CommitGap(s, i, a, posted);
    } else if h.phase.Applying? {
      ApplyGap(s, i, a, posted);
    } else {
      SetGap(s, i, a, posted);
    }
  }

  lemma CrashGap(s: Sys, a: int, posted: bool)
    ensures Gap(Next(s, Crash), a, posted) == 0
  {
  }

  lemma ActionGap(s: Sys, act: Action, a: int, posted: bool)
    requires LockInv(s) && Shape(s) && Enabled(s, act) && !act.Crash?
    ensures Gap(Next(s, act), a, posted) == Gap(s, a, posted) + LostBy(s, act, a, posted)
  {
    match act
    case Spawn(task) => SumSnoc(s.handlers, NewHandler(task), Debt(a, posted));
    case Advance(i) => AdvanceGap(s, i, a, posted);
    case Abort(i) => FlightStep(s, i, Next(s, act), s.handlers[i].Finished(), a, posted);
  }

  /**
    In every state of every interleaving, on every account: table balance = cached balance + committed updates
    not yet applied + what has been lost since the last restart.
   */
  lemma {:induction false} CacheBooks(acts: seq<Action>, a: int, posted: bool)
    requires Feasible(START, acts)
    ensures var s := Exec(START, acts);
            TableValue(s.db, a, posted)
            == CachedValue(s.cache, a, posted) + InFlight(s, a, posted) + Lost(acts, a, posted)
  {
    if acts != [] {
      var front, act := acts[..|acts| - 1], acts[|acts| - 1];
      var s := Exec(START, front);
      if act.Crash? {
        CrashGap(s, a, posted);
      } else {
        CacheBooks(front, a, posted);
        LocksSafe(front);
        CacheShaped(front);
        ActionGap(s, act, a, posted);
      }
    }
  }

  // When the cache only lags

  /** Table balance = cached balance + what is in flight. */
  predicate LagsAt(s: Sys, a: int, posted: bool)
    requires a in s.cache
  {
    && a in s.db.accounts
    && RowValue(s.db.accounts[a], posted) == CacheValue(s.cache[a], posted) + InFlight(s, a, posted)
  }

  predicate Lags(s: Sys) {
    forall a, posted | a in s.cache :: LagsAt(s, a, posted)
  }

  lemma GapIsLost(acts: seq<Action>)
    requires Feasible(START, acts)
    ensures forall a, posted :: Gap(Exec(START, acts), a, posted) == Lost(acts, a, posted)
  {
    forall a, posted
      ensures Gap(Exec(START, acts), a, posted) == Lost(acts, a, posted)
    {
      CacheBooks(acts, a, posted);
    }
  }

  lemma LagsIffNoGap(s: Sys)
    requires s.cache.Keys <= s.db.accounts.Keys
    ensures Lags(s) <==> forall a, posted | a in s.cache :: Gap(s, a, posted) == 0
  {
    forall a, posted | a in s.cache
      ensures LagsAt(s, a, posted) <==> Gap(s, a, posted) == 0
    {
    }
  }

  /** Neither saturating add of the update clamps. */
  predicate AppliesExactly(cache: map<int, Cached>, u: Update) {
    u.account in cache ==>
      FitsI64(cache[u.account].posted + u.posted) && FitsI64(cache[u.account].pending + u.pending)
  }

  predicate NothingLost(acts: seq<Action>, a: int)
    requires Feasible(START, acts)
  {
    forall posted :: Lost(acts, a, posted) == 0
  }

  /** No `apply_delta` on a cached account clamps; no account is cached whose updates were dropped before. */
  predicate LosesNothingAt(front: seq<Action>, act: Action)
    requires Feasible(START, front)
  {
    var s := Exec(START, front);
    && (Applies(s, act) ==> AppliesExactly(s.cache, UpdateOf(s, act)))
    && (Caches(s, act) ==> NothingLost(front, s.handlers[act.i].id))
  }

  predicate LosesNothing(acts: seq<Action>)
    requires Feasible(START, acts)
  {
    acts == [] || (LosesNothing(acts[..|acts| - 1]) && LosesNothingAt(acts[..|acts| - 1], acts[|acts| - 1]))
  }

  lemma ExactIffNoPartLost(cache: map<int, Cached>, u: Update)
    ensures AppliesExactly(cache, u) <==> forall a, posted | a in cache :: LostPart(cache, u, a, posted) == 0
  {
    if u.account in cache {
      assert LostPart(cache, u, u.account, true) == 0 <==> FitsI64(cache[u.account].posted + u.posted);
      assert LostPart(cache, u, u.account, false) == 0 <==> FitsI64(cache[u.account].pending + u.pending);
    }
  }

  /** Only a restart and a `cache.set` change which accounts are cached. */
  lemma CachedIds(s: Sys, act: Action)
    requires Enabled(s, act) && !act.Crash?
    ensures Next(s, act).cache.Keys == s.cache.Keys +
              (if act.Advance? && s.handlers[act.i].phase.Caching? then {s.handlers[act.i].id} else {})
  {
  }

  predicate Caches(s: Sys, act: Action) {
    act.Advance? && act.i < |s.handlers| && s.handlers[act.i].phase.Caching?
  }

  lemma ApplyLagsIff(s: Sys, i: nat)
    requires Shape(s) && Enabled(s, Advance(i)) && Applies(s, Advance(i)) && Lags(s) && Shape(Next(s, Advance(i)))
    ensures Lags(Next(s, Advance(i))) <==> AppliesExactly(s.cache, UpdateOf(s, Advance(i)))
  {
    var s' := Next(s, Advance(i));
    LagsIffNoGap(s);
    LagsIffNoGap(s');
    CachedIds(s, Advance(i));
    ExactIffNoPartLost(s.cache, UpdateOf(s, Advance(i)));
    forall a, posted | a in s.cache
      ensures Gap(s', a, posted) == LostPart(s.cache, UpdateOf(s, Advance(i)), a, posted)
    {
      ApplyGap(s, i, a, posted);
    }
  }

  lemma ActionLagsIff(s: Sys, act: Action)
    requires LockInv(s) && Shape(s) && Enabled(s, act) && !act.Crash? && !Applies(s, act) && Lags(s) && Shape(Next(s, act))
    ensures Lags(Next(s, act)) <==> (Caches(s, act) ==> forall posted :: Gap(s, s.handlers[act.i].id, posted) == 0)
  {
    var s' := Next(s, act);
    LagsIffNoGap(s);
    LagsIffNoGap(s');
    CachedIds(s, act);
    forall a, posted
      ensures Gap(s', a, posted) == Gap(s, a, posted)
    {
      ActionGap(s, act, a, posted);
    }
  }

  lemma CrashLags(s: Sys)
    ensures Lags(Next(s, Crash))
  {
  }

  /** From a state in which the cache only lags, the next one is such if and only if the step loses nothing. */
  lemma StepKeepsLagIff(front: seq<Action>, act: Action)
    requires Feasible(START, front) && Enabled(Exec(START, front), act) && Lags(Exec(START, front))
    ensures Lags(Next(Exec(START, front), act)) <==> LosesNothingAt(front, act)
  {
    var s := Exec(START, front);
    LocksSafe(front);
    CacheShaped(front);
    GapIsLost(front);
    if act.Crash? {
      CrashLags(s);
    } else {
      ActionShape(s, act);
      if Applies(s, act) {
        ApplyLagsIff(s, act.i);
      } else {
        ActionLagsIff(s, act);
      }
    }
  }

  /** The cache only lags in every state of a run if and only if no step of the run loses anything. */
  lemma {:induction false} LagsThroughoutIff(acts: seq<Action>)
    requires Feasible(START, acts)
    ensures Throughout(START, acts, Lags) <==> LosesNothing(acts)
  {
    if acts != [] {
      var front := acts[..|acts| - 1];
      LagsThroughoutIff(front);
      if Throughout(START, front, Lags) {
        StepKeepsLagIff(front, acts[|acts| - 1]);
      }
    }
  }

  // Quiescence

  predicate Quiescent(s: Sys) {
    forall i | 0 <= i < |s.handlers| :: !s.handlers[i].phase.Caching? && Unapplied(s.handlers[i]) == []
  }

  lemma QuiescentGap(s: Sys, a: int, posted: bool)
    requires Shape(s) && Quiescent(s) && a in s.db.accounts
    ensures a in s.cache && RowValue(s.db.accounts[a], posted) == CacheValue(s.cache[a], posted) + Gap(s, a, posted)
  {
    assert !Awaiting(s, a);
    SumZero(s.handlers, Debt(a, posted));
  }

  /** With no cache work left, every account is cached, wrong by exactly what has been lost on it. */
  lemma QuiescentAccount(acts: seq<Action>, a: int, posted: bool)
    requires Feasible(START, acts) && Quiescent(Exec(START, acts)) && a in Exec(START, acts).db.accounts
    ensures var s := Exec(START, acts);
            a in s.cache && RowValue(s.db.accounts[a], posted) == CacheValue(s.cache[a], posted) + Lost(acts, a, posted)
  {
    CacheShaped(acts);
    QuiescentGap(Exec(START, acts), a, posted);
    CacheBooks(acts, a, posted);
  }

  lemma RowCachedIffNoGap(s: Sys, a: int)
    requires Shape(s) && Quiescent(s) && a in s.db.accounts
    ensures a in s.cache
    ensures s.cache[a] == Snapshot(s.db.accounts)[a] <==> forall posted :: Gap(s, a, posted) == 0
  {
    QuiescentGap(s, a, true);
    QuiescentGap(s, a, false);
  }

  lemma SnapshotIffNoGap(s: Sys)
    requires Shape(s) && Quiescent(s)
    ensures s.cache == Snapshot(s.db.accounts) <==> forall a, posted | a in s.db.accounts :: Gap(s, a, posted) == 0
  {
    forall a | a in s.db.accounts
      ensures a in s.cache
      ensures s.cache[a] == Snapshot(s.db.accounts)[a] <==> forall posted :: Gap(s, a, posted) == 0
    {
      RowCachedIffNoGap(s, a);
    }
    forall a | a in s.cache
      ensures a in s.db.accounts
    {
      assert a in s.cache.Keys;
    }
    SameMap(s.cache, Snapshot(s.db.accounts));
  }

  /** At a quiescent state of any interleaving, cache and tables agree if and only if nothing is lost. */
  lemma QuiescentCacheAgreesIff(acts: seq<Action>)
    requires Feasible(START, acts) && Quiescent(Exec(START, acts))
    ensures var s := Exec(START, acts);
            s.cache == Snapshot(s.db.accounts) <==> forall a | a in s.db.accounts :: NothingLost(acts, a)
  {
    CacheShaped(acts);
    GapIsLost(acts);
    SnapshotIffNoGap(Exec(START, acts));
  }

  // The funds check

  lemma FundedMeans(s: Sys, rows: map<int, AccountRow>, l: Leg)
    requires l.account in rows && l.account in s.db.accounts && rows[l.account] == s.db.accounts[l.account]
    requires Reduces(rows[l.account].Normal(), l.side)
    ensures var a, row := l.account, rows[l.account];
            Funded(rows, s.cache, l) <==>
            && a in s.cache
            && Clamp((row.posted - InFlight(s, a, true) - Gap(s, a, true))
                     - (row.pending - InFlight(s, a, false) - Gap(s, a, false))) >= l.amount
  {
  }

  /** Handler `i` is about to check the funds of a leg that lowers its account. */
  predicate ChecksLowering(s: Sys, i: nat) {
    && i < |s.handlers| && s.handlers[i].phase.Checking? && s.handlers[i].phase.l < |s.handlers[i].legs|
    && var h := s.handlers[i];
       var l := h.legs[h.phase.l];
       l.account in h.seen && Reduces(h.seen[l.account].Normal(), l.side)
  }

  /** What the tables have available on an account, less what the cache has not got yet and what it has lost. */
  function AvailableThroughCache(acts: seq<Action>, a: int): int
    requires Feasible(START, acts) && a in Exec(START, acts).db.accounts
  {
    var s := Exec(START, acts);
    var row := s.db.accounts[a];
    Clamp((row.posted - InFlight(s, a, true) - Lost(acts, a, true))
          - (row.pending - InFlight(s, a, false) - Lost(acts, a, false)))
  }

  /** What the funds check of a lowering leg decides, in terms of the tables. */
  lemma FundsCheckMeans(acts: seq<Action>, i: nat)
    requires Feasible(START, acts) && ChecksLowering(Exec(START, acts), i)
    ensures var s := Exec(START, acts);
            var h := s.handlers[i];
            var l := h.legs[h.phase.l];
            && l.account in s.db.accounts
            && (CheckStep(s, h, h.phase.l).phase.Checking? <==>
                l.account in s.cache && AvailableThroughCache(acts, l.account) >= l.amount)
  {
    var s := Exec(START, acts);
    var h := s.handlers[i];
    LocksSafe(acts);
    GapIsLost(acts);
    assert HandlerOk(s.db, s.nextTx, h) && SeenFresh(s.db, h);
    FundedMeans(s, h.seen, h.legs[h.phase.l]);
  }
}
