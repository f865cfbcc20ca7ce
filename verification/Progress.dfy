/** Deadlock freedom: sorted locks admit no wait cycle, somebody can always move, and everybody finishes. */
module Progress {
  import opened Domain
  import opened Sums
  import opened Tables
  import opened Updates
  import opened Protocol
  import opened Locks

  predicate WantsRow(h: Handler) {
    h.phase.Locking? && h.phase.k < |h.ids|
  }

  function WantedRow(h: Handler): int
    requires WantsRow(h)
  {
    h.ids[h.phase.k]
  }

  /** A holder of a transaction key or row waits for nobody; a holder of a row waits only for a larger row. */
  lemma WaitsUpwards(s: Sys, i: nat, j: nat)
    requires LockInv(s) && i < |s.handlers| && j < |s.handlers| && WaitsFor(s, i, j)
    ensures var h, g := s.handlers[i], s.handlers[j];
            && (!g.phase.Updating? ==> WantsRow(h))
            && (WantsRow(h) && WantsRow(g) ==> WantedRow(h) < WantedRow(g))
  {
    var h, g := s.handlers[i], s.handlers[j];
    assert HandlerOk(s.db, s.nextTx, g);
    if WantsRow(h) && WantsRow(g) {
      LockOrderExact(g.legs);
      var a := WantedRow(h);
      assert a in Members(g.ids[..g.phase.k]);
      var t :| 0 <= t < |g.ids[..g.phase.k]| && g.ids[..g.phase.k][t] == a;
      assert g.ids[t] < g.ids[g.phase.k];
    }
  }

  ghost predicate WaitChain(s: Sys, c: seq<nat>) {
    && (forall t | 0 <= t < |c| :: c[t] < |s.handlers|)
    && (forall t | 0 <= t < |c| - 1 :: WaitsFor(s, c[t], c[t + 1]))
  }

  /** Along a chain of waiting handlers the wanted rows strictly increase. */
  lemma {:induction false} ChainIncreases(s: Sys, c: seq<nat>)
    requires LockInv(s) && WaitChain(s, c) && |c| >= 2 && WantsRow(s.handlers[c[|c| - 1]])
    ensures WantsRow(s.handlers[c[0]]) && WantedRow(s.handlers[c[0]]) < WantedRow(s.handlers[c[|c| - 1]])
    decreases |c|
  {
    var n := |c| - 1;
    assert WaitsFor(s, c[n - 1], c[n - 1 + 1]);
    WaitsUpwards(s, c[n - 1], c[n]);
    if n > 1 {
      assert WaitChain(s, c[..n]);
      ChainIncreases(s, c[..n]);
    }
  }

  /** The wait-for relation has no cycle in any reachable state. */
  lemma NoWaitCycle(acts: seq<Action>, c: seq<nat>)
    requires Feasible(START, acts) && |c| >= 2 && c[0] == c[|c| - 1]
    ensures !WaitChain(Exec(START, acts), c)
  {
    LocksSafe(acts);
    var s := Exec(START, acts);
    if WaitChain(s, c) {
      assert WaitsFor(s, c[0], c[0 + 1]);
      assert WaitsFor(s, c[|c| - 2], c[|c| - 2 + 1]);
      WaitsUpwards(s, c[|c| - 2], c[|c| - 1]);
      LastWantsRow(s, c);
      ChainIncreases(s, c);
      assert false;
    }
  }

  /** Everyone on a cycle waits, so nobody on it is past its row locks. */
  lemma LastWantsRow(s: Sys, c: seq<nat>)
    requires LockInv(s) && WaitChain(s, c) && |c| >= 2 && c[0] == c[|c| - 1]
    ensures WantsRow(s.handlers[c[|c| - 1]])
  {
    assert WaitsFor(s, c[0], c[0 + 1]);
    if |c| > 2 {
      assert WaitsFor(s, c[1], c[1 + 1]);
    }
    WaitsUpwards(s, c[0], c[1]);
  }

  // Somebody can move

  function TopRow(hs: seq<Handler>): int {
    if hs == [] then 0
    else
      var rest, h := TopRow(hs[..|hs| - 1]), hs[|hs| - 1];
      if WantsRow(h) && WantedRow(h) > rest then WantedRow(h) else rest
  }

  lemma {:induction false} TopRowBounds(hs: seq<Handler>, i: nat)
    requires i < |hs| && WantsRow(hs[i])
    ensures WantedRow(hs[i]) <= TopRow(hs)
  {
    if i < |hs| - 1 {
      TopRowBounds(hs[..|hs| - 1], i);
    }
  }

  /** Room between the wanted row and the largest wanted row of all. */
  function Height(s: Sys, i: nat): int
    requires i < |s.handlers|
  {
    if WantsRow(s.handlers[i]) then TopRow(s.handlers) - WantedRow(s.handlers[i]) + 2
    else if s.handlers[i].phase.Checking? then 1
    else 0
  }

  /** Following the waits from any unfinished handler ends at one that can take its next step. */
  lemma {:induction false} SomeoneCanAdvance(s: Sys, i: nat) returns (j: nat)
    requires LockInv(s) && i < |s.handlers| && !s.handlers[i].phase.Done?
    ensures Enabled(s, Advance(j))
    decreases Height(s, i)
  {
    if k: nat :| k < |s.handlers| && WaitsFor(s, i, k) {
      WaitsUpwards(s, i, k);
      if WantsRow(s.handlers[i]) {
        TopRowBounds(s.handlers, i);
      }
      if WantsRow(s.handlers[k]) {
        TopRowBounds(s.handlers, k);
      }
      j := SomeoneCanAdvance(s, k);
    } else {
      j := i;
    }
  }

  // Everybody finishes

  /** Statements still to come before the locks are known. */
  function Unread(): Handler -> int {
    (h: Handler) => if h.phase.Starting? then 2 else if h.phase.Reading? then 1 else 0
  }

  /** Statements and cache updates still to come, at most, once the legs are known. */
  function Left(): Handler -> int {
    (h: Handler) =>
      match h.phase
      case Locking(k) => |h.ids| - k + 3 * |h.legs| + 4
      case Checking(l) => |h.legs| - l + 2 * |h.legs| + 3
      case Updating(j) => |h.updates| - j + |h.updates| + 2
      case Applying(j) => |h.updates| - j + 1
      case Caching => 1
      case _ => 0
  }

  ghost predicate Less(s': Sys, s: Sys) {
    var u, u' := Sum(s.handlers, Unread()), Sum(s'.handlers, Unread());
    u' < u || (u' == u && Sum(s'.handlers, Left()) < Sum(s.handlers, Left()))
  }

  lemma {:induction false} FewUpdates(legs: seq<Leg>, rows: map<int, AccountRow>, m: Movement)
    requires AccountsExist(rows, legs)
    ensures |UpdatesOf(legs, rows, m)| <= |legs|
  {
    if legs != [] {
      FewUpdates(legs[..|legs| - 1], rows, m);
    }
  }

  /** The counters in a handler's phase are within its lists. */
  predicate Bounded(h: Handler) {
    match h.phase
    case Locking(k) => k <= |h.ids|
    case Checking(l) => l <= |h.legs|
    case Updating(j) => j <= |h.updates|
    case Applying(j) => j <= |h.updates|
    case _ => true
  }

  predicate Shrinks(h': Handler, h: Handler) {
    Unread()(h') < Unread()(h) || (Unread()(h') == Unread()(h) && Left()(h') < Left()(h))
  }

  lemma ClaimShrinks(s: Sys, h: Handler)
    requires h.phase == Checking(|h.legs|)
    ensures Shrinks(ClaimStep(s, h).1, h)
  {
    if AccountsExist(h.seen, h.legs) {
      FewUpdates(h.legs, h.seen, h.Move());
    }
  }

  lemma StepShrinks(s: Sys, h: Handler)
    requires Bounded(h) && !h.phase.Done?
    ensures Shrinks(HandlerStep(s, h).1, h)
  {
    if h.phase.Checking? && h.phase.l == |h.legs| {
      ClaimShrinks(s, h);
    }
  }

  lemma {:induction false} MeasureNonNegative(s: Sys)
    requires LockInv(s)
    ensures Sum(s.handlers, Unread()) >= 0 && Sum(s.handlers, Left()) >= 0
  {
    forall i | 0 <= i < |s.handlers|
      ensures Unread()(s.handlers[i]) >= 0 && Left()(s.handlers[i]) >= 0
    {
      assert HandlerOk(s.db, s.nextTx, s.handlers[i]);
    }
    SumPrefix(s.handlers, 0, Unread());
    SumPrefix(s.handlers, 0, Left());
  }

  /** Each step of a handler uses up some of a well-founded amount of remaining work. */
  lemma AdvanceShrinks(s: Sys, i: nat)
    requires LockInv(s) && Enabled(s, Advance(i))
    ensures Less(Next(s, Advance(i)), s)
  {
    var h := s.handlers[i];
    assert HandlerOk(s.db, s.nextTx, h);
    StepShrinks(s, h);
    SumUpdate(s.handlers, i, HandlerStep(s, h).1, Unread());
    SumUpdate(s.handlers, i, HandlerStep(s, h).1, Left());
  }

  predicate AllDone(s: Sys) {
    forall i | 0 <= i < |s.handlers| :: s.handlers[i].phase.Done?
  }

  /** Handlers under way can all run to completion, with no abort and no crash. */
  lemma {:induction false} Drains(s: Sys) returns (acts: seq<Action>)
    requires LockInv(s)
    ensures Feasible(s, acts) && AllDone(Exec(s, acts))
    ensures forall t | 0 <= t < |acts| :: acts[t].Advance?
    decreases Sum(s.handlers, Unread()), Sum(s.handlers, Left())
  {
    MeasureNonNegative(s);
    if i :| 0 <= i < |s.handlers| && !s.handlers[i].phase.Done? {
      var j := SomeoneCanAdvance(s, i);
      AdvanceShrinks(s, j);
      ActionKeeps(s, Advance(j));
      MeasureNonNegative(Next(s, Advance(j)));
      var rest := Drains(Next(s, Advance(j)));
      ExecCons(s, Advance(j), rest);
      acts := [Advance(j)] + rest;
    } else {
      acts := [];
    }
  }

  /** Whatever has happened, the handlers under way can finish without any of them being aborted. */
  lemma EveryoneFinishes(acts: seq<Action>) returns (more: seq<Action>)
    requires Feasible(START, acts)
    ensures Feasible(START, acts + more) && AllDone(Exec(START, acts + more))
    ensures forall t | 0 <= t < |more| :: more[t].Advance?
  {
    LocksSafe(acts);
    more := Drains(Exec(START, acts));
    ExecConcat(START, acts, more);
  }
}
