/** How states evolve along a run: lifecycle, replay, and independence of settlements. */
module History {
  import opened Domain
  import opened Sums
  import opened Validation
  import opened Tables
  import opened Invariance
  import opened Ledger

  // Lifecycle

  ghost predicate AccountsEvolve(db: Db, db': Db) {
    forall a | a in db.accounts ::
      && a in db'.accounts
      && db'.accounts[a] == db.accounts[a].(version := db'.accounts[a].version,
                                            posted := db'.accounts[a].posted,
                                            pending := db'.accounts[a].pending)
      && db.accounts[a].version <= db'.accounts[a].version
  }

  /** Key and creation time never change; only a Pending row can change at all. */
  ghost predicate TransactionsEvolve(db: Db, db': Db) {
    forall t | t in db.transactions ::
      && t in db'.transactions
      && db'.transactions[t].key == db.transactions[t].key
      && db'.transactions[t].createdAt == db.transactions[t].createdAt
      && (db.transactions[t].status.IsTerminal() ==> db'.transactions[t] == db.transactions[t])
  }

  /** Entries are append-only: owner, account, side, amount and time are fixed; only a Pending status moves. */
  ghost predicate EntriesEvolve(db: Db, db': Db) {
    && |db.entries| <= |db'.entries|
    && forall i | 0 <= i < |db.entries| ::
         && db'.entries[i] == db.entries[i].(status := db'.entries[i].status)
         && (!db.entries[i].status.Pending? ==> db'.entries[i] == db.entries[i])
  }

  ghost predicate Evolves(db: Db, db': Db) {
    AccountsEvolve(db, db') && TransactionsEvolve(db, db') && EntriesEvolve(db, db')
  }

  lemma EvolvesTransitive(db: Db, db': Db, db'': Db)
    requires Evolves(db, db') && Evolves(db', db'')
    ensures Evolves(db, db'')
  {
  }

  lemma HoldEvolves(db: Db, tid: int, key: string, legs: seq<Leg>, now: int)
    requires tid !in db.transactions
    ensures Evolves(db, Authorised(db, tid, key, legs, now))
  {
  }

  lemma SettleEvolves(db: Db, tid: int, legs: seq<Leg>, m: Movement, now: int)
    requires tid in db.transactions && db.transactions[tid].status.Pending? && EntriesOk(db)
    ensures Evolves(db, SettledWith(db, tid, legs, m, now))
  {
    var db' := SettledWith(db, tid, legs, m, now);
    forall i | 0 <= i < |db.entries|
      ensures db'.entries[i] == db.entries[i].(status := db'.entries[i].status)
      ensures !db.entries[i].status.Pending? ==> db'.entries[i] == db.entries[i]
    {
      assert EntryOk(db, db.entries[i]);
    }
  }

  /** A settlement respects history if and only if its transaction is Pending, or it rewrites the row as it was. */
  lemma SettleEvolvesIff(db: Db, tid: int, m: Movement, now: int)
    requires EntriesOk(db) && TransactionsOk(db) && tid in db.transactions && !m.Hold?
    ensures Evolves(db, Settled(db, tid, m, now)) <==>
            db.transactions[tid].status.Pending? || SettledRow(db.transactions[tid], m, now) == db.transactions[tid]
  {
    var row := db.transactions[tid];
    assert TxRowOk(tid, row);
    if row.status.Pending? {
      SettleEvolves(db, tid, LegsOf(db.entries, tid), m, now);
    } else if SettledRow(row, m, now) == row {
      SameRowEvolves(db, tid, m, now);
    }
  }

  lemma SameRowEvolves(db: Db, tid: int, m: Movement, now: int)
    requires EntriesOk(db) && tid in db.transactions && !m.Hold?
    requires SettledRow(db.transactions[tid], m, now) == db.transactions[tid]
    ensures Evolves(db, Settled(db, tid, m, now))
  {
    var es := Restatus(db.entries, tid, m.EntryTarget());
    forall i | 0 <= i < |db.entries|
      ensures es[i] == db.entries[i]
    {
      assert EntryOk(db, db.entries[i]);
    }
  }

  lemma SettleStepEvolves(s: State, tid: int, m: Movement, now: Clock)
    requires !m.Hold? && EntriesOk(s.db)
    ensures Evolves(s.db, SettleStep(s, tid, m, now).0.db)
  {
    if CanSettle(s.db, tid, m, now) {
      SettleEvolves(s.db, tid, LegsOf(s.db.entries, tid), m, now);
    }
  }

  lemma HoldStepEvolves(s: State, key: string, legs: seq<Leg>, now: Clock)
    requires forall t | t in s.db.transactions :: t < s.nextTx
    ensures Evolves(s.db, HoldStep(s, key, legs, now).0.db)
  {
    HoldStepCases(s, key, legs, now);
    HoldEvolves(s.db, s.nextTx, key, legs, now);
  }

  lemma StepEvolves(s: State, r: Request)
    requires EntriesOk(s.db) && Synced(s)
    ensures Evolves(s.db, Step(s, r).0.db)
  {
    match r
    case CreateAccount(kind, code, scale, now) =>
    case Authorize(key, legs, now) =>
      if ParseLegs(legs).Success? {
        HoldStepEvolves(s, key, ParseLegs(legs).value, now);
      }
    case CaptureTx(tid, now) => SettleStepEvolves(s, tid, Movement.Capture, now);
    case VoidTx(tid) => SettleStepEvolves(s, tid, Movement.Void, 1);
    case Restart =>
  }

  lemma OneStepEvolves(s: State, rs: seq<Request>, j: nat)
    requires Valid(s) && 0 < j <= |rs|
    ensures Evolves(Run(s, rs[..j - 1]).db, Run(s, rs[..j]).db)
  {
    assert rs[..j][..j - 1] == rs[..j - 1];
    RunKeeps(s, rs[..j - 1]);
    StepEvolves(Run(s, rs[..j - 1]), rs[j - 1]);
  }

  /** From any earlier to any later point of any run. */
  lemma {:induction false} RunEvolves(s: State, rs: seq<Request>, i: nat, j: nat)
    requires Valid(s) && i <= j <= |rs|
    ensures Evolves(Run(s, rs[..i]).db, Run(s, rs[..j]).db)
    decreases j
  {
    if i < j {
      RunEvolves(s, rs, i, j - 1);
      OneStepEvolves(s, rs, j);
      EvolvesTransitive(Run(s, rs[..i]).db, Run(s, rs[..j - 1]).db, Run(s, rs[..j]).db);
    }
  }

  /** Entry statuses follow their transaction, `posted_at` marks exactly Posted, and stored legs stay balanced. */
  lemma LifecycleSafety(rs: seq<Request>)
    ensures var db := Run(INIT, rs).db;
            && (forall i | 0 <= i < |db.entries| ::
                  && db.entries[i].tid in db.transactions
                  && Mirrors(db.entries[i].status, db.transactions[db.entries[i].tid].status))
            && (forall t | t in db.transactions ::
                  && !db.transactions[t].status.Failed?
                  && (db.transactions[t].status.Posted? <==> View(t, db.transactions[t]).postedAt > 0)
                  && TxTotal(db.entries, t, Debit) == TxTotal(db.entries, t, Credit) <= I64_MAX)
  {
    Reachable(rs);
    var db := Run(INIT, rs).db;
    forall i | 0 <= i < |db.entries|
      ensures EntryOk(db, db.entries[i])
    {
    }
    forall t | t in db.transactions
      ensures TxRowOk(t, db.transactions[t])
    {
    }
  }

  /** The transaction an answer reports is the one stored, with the stored entries for `authorize`. */
  ghost predicate Stored(db: Db, answer: Response, withEntries: bool)
    requires answer.Accepted?
  {
    && answer.tx.id in db.transactions && View(answer.tx.id, db.transactions[answer.tx.id]) == answer.tx
    && (withEntries ==> answer.entries == Filter(db.entries, OfTx(answer.tx.id)))
  }

  lemma NewBlock(db: Db, tid: int, legs: seq<Leg>, now: int)
    requires EntriesOk(db) && tid !in db.transactions
    ensures Filter(db.entries + NewEntries(tid, legs, now), OfTx(tid)) == NewEntries(tid, legs, now)
  {
    var es := NewEntries(tid, legs, now);
    FilterConcat(db.entries, es, OfTx(tid));
    forall i | 0 <= i < |db.entries|
      ensures !OfTx(tid)(db.entries[i])
    {
      assert EntryOk(db, db.entries[i]);
    }
    FilterNone(db.entries, OfTx(tid));
    FilterEvery(es, OfTx(tid));
  }

  lemma HoldAnswerStored(s: State, key: string, legs: seq<Leg>, now: Clock)
    requires EntriesOk(s.db) && Synced(s) && HoldStep(s, key, legs, now).1.Accepted?
    ensures Stored(HoldStep(s, key, legs, now).0.db, HoldStep(s, key, legs, now).1, true)
  {
    if KeyOwner(s.db, key).None? {
      NewBlock(s.db, s.nextTx, legs, now);
    }
  }

  lemma AcceptedIsStored(s: State, r: Request)
    requires Valid(s) && Step(s, r).1.Accepted?
    ensures Stored(Step(s, r).0.db, Step(s, r).1, r.Authorize?)
  {
    match r
    case Authorize(key, legs, now) => HoldAnswerStored(s, key, ParseLegs(legs).value, now);
    case CaptureTx(tid, now) =>
    case VoidTx(tid) =>
  }

  // Replay

  predicate WellFormed(legs: seq<ProtoLeg>) {
    ParseLegs(legs).Success? && ValidationOutcome(ParseLegs(legs).value).Success?
  }

  /** A repeated settlement names the transaction; a repeated authorize has the key, and any well-formed legs. */
  predicate SameRequest(r: Request, r': Request) {
    match (r, r')
    case (Authorize(k, _, _), Authorize(k', legs', _)) => k == k' && WellFormed(legs')
    case (CaptureTx(t, _), CaptureTx(t', _)) => t == t'
    case (VoidTx(t), VoidTx(t')) => t == t'
    case _ => false
  }

  predicate SameTransaction(v: TxView, v': TxView) {
    v.id == v'.id && v.key == v'.key && v.createdAt == v'.createdAt
  }

  ghost predicate Repeats(before: (State, Response), s': State, after: (State, Response)) {
    && after.0 == s' && before.1.Accepted? && after.1.Accepted?
    && SameTransaction(before.1.tx, after.1.tx)
  }

  lemma AuthorizeReplayIsIdle(
    s: State, s': State, key: string, legs: seq<Leg>, legs': seq<Leg>, now: Clock, now': Clock)
    requires HoldStep(s, key, legs, now).1.Ok() && KeysUnique(s'.db)
    requires TransactionsEvolve(HoldStep(s, key, legs, now).0.db, s'.db)
    ensures Repeats(HoldStep(s, key, legs, now), s', HoldStep(s', key, legs', now'))
  {
    var tid := HoldStep(s, key, legs, now).1.tx.id;
    assert OwnsKey(HoldStep(s, key, legs, now).0.db, tid, key);
    assert OwnsKey(s'.db, tid, key);
    assert KeyOwner(s'.db, key) == Some(tid);
  }

  lemma SettleReplayIsIdle(s: State, s': State, tid: int, m: Movement, now: Clock, now': Clock)
    requires !m.Hold? && SettleStep(s, tid, m, now).1.Ok()
    requires TransactionsEvolve(SettleStep(s, tid, m, now).0.db, s'.db)
    ensures Repeats(SettleStep(s, tid, m, now), s', SettleStep(s', tid, m, now'))
  {
    assert SettleStep(s, tid, m, now).0.db.transactions[tid].status == m.TxTarget();
  }

  /** A request that succeeded once changes nothing later and names the same transaction. */
  lemma ReplayIsIdle(s: State, r: Request, s': State, r': Request)
    requires Step(s, r).1.Ok() && SameRequest(r, r')
    requires KeysUnique(s'.db) && TransactionsEvolve(Step(s, r).0.db, s'.db)
    ensures Repeats(Step(s, r), s', Step(s', r'))
  {
    match r
    case Authorize(key, legs, now) =>
      AuthorizeReplayIsIdle(s, s', key, ParseLegs(legs).value, ParseLegs(r'.legs).value, now, r'.now);
    case CaptureTx(tid, now) =>
      SettleReplayIsIdle(s, s', tid, Movement.Capture, now, r'.now);
    case VoidTx(tid) =>
      SettleReplayIsIdle(s, s', tid, Movement.Void, 1, 1);
  }

  /** The `i`-th request repeats an earlier one that succeeded. */
  ghost predicate IsReplay(s: State, rs: seq<Request>, i: nat)
    requires i < |rs|
  {
    exists j: nat :: j < i && ReplayOf(s, rs, i, j)
  }

  ghost predicate ReplayOf(s: State, rs: seq<Request>, i: nat, j: nat)
    requires j < i < |rs|
  {
    SameRequest(rs[j], rs[i]) && Answer(s, rs, j).Ok()
  }

  /** The requests without the ones marked for dropping. */
  function Kept(rs: seq<Request>, drop: seq<bool>): seq<Request>
    requires |drop| == |rs|
  {
    if rs == [] then []
    else Kept(rs[..|rs| - 1], drop[..|rs| - 1]) + if drop[|rs| - 1] then [] else [rs[|rs| - 1]]
  }

  lemma RunSnoc(s: State, rs: seq<Request>, r: Request)
    ensures Run(s, rs + [r]) == Step(Run(s, rs), r).0
  {
    assert (rs + [r])[..|rs|] == rs;
  }

  lemma ReplayAnswersAlike(s: State, rs: seq<Request>, i: nat, j: nat)
    requires Valid(s) && j < i < |rs| && ReplayOf(s, rs, i, j)
    ensures Run(s, rs[..i + 1]) == Run(s, rs[..i])
    ensures Answer(s, rs, j).Accepted? && Answer(s, rs, i).Accepted?
    ensures SameTransaction(Answer(s, rs, j).tx, Answer(s, rs, i).tx)
  {
    RunKeeps(s, rs[..j]);
    RunKeeps(s, rs[..i]);
    RunEvolves(s, rs, j + 1, i);
    assert rs[..j + 1][..j] == rs[..j] && rs[..i + 1][..i] == rs[..i];
    ReplayIsIdle(Run(s, rs[..j]), rs[j], Run(s, rs[..i]), rs[i]);
  }

  lemma ReplayInPrefix(s: State, rs: seq<Request>, n: nat, i: nat)
    requires i < n <= |rs| && IsReplay(s, rs, i)
    ensures IsReplay(s, rs[..n], i)
  {
    var j: nat :| j < i && ReplayOf(s, rs, i, j);
    assert rs[..n][..j] == rs[..j];
    assert ReplayOf(s, rs[..n], i, j);
  }

  /** Deleting any set of replays from a run leaves its final tables, cache and sequences as they are. */
  lemma {:induction false} ReplayErasure(s: State, rs: seq<Request>, drop: seq<bool>)
    requires Valid(s) && |drop| == |rs|
    requires forall i: nat | i < |rs| && drop[i] :: IsReplay(s, rs, i)
    ensures Run(s, Kept(rs, drop)) == Run(s, rs)
    decreases |rs|
  {
    if rs != [] {
      var n := |rs| - 1;
      var kept := Kept(rs[..n], drop[..n]);
      forall i: nat | i < n && drop[..n][i] {
        ReplayInPrefix(s, rs, n, i);
      }
      ReplayErasure(s, rs[..n], drop[..n]);
      assert rs[..n + 1] == rs;
      if drop[n] {
        var j: nat :| j < n && ReplayOf(s, rs, n, j);
        ReplayAnswersAlike(s, rs, n, j);
        assert Kept(rs, drop) == kept;
      } else {
        RunSnoc(s, kept, rs[n]);
      }
    }
  }
}
