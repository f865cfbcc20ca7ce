/** Captures and voids of different transactions are independent: only the set served matters, not the order. */
module Settlement {
  import opened Domain
  import opened Sums
  import opened Validation
  import opened Tables
  import opened Invariance
  import opened Ledger

  predicate IsSettlement(r: Request) {
    r.CaptureTx? || r.VoidTx?
  }

  type Settling = r: Request | IsSettlement(r) witness VoidTx(1)

  function MoveOf(r: Settling): Movement {
    if r.CaptureTx? then Movement.Capture else Movement.Void
  }

  function NowOf(r: Settling): Clock {
    if r.CaptureTx? then r.now else 1
  }

  function PostedMove(db: Db, nb: NormalBalance, a: int): Settling -> int {
    (r: Settling) => MoveOf(r).PostedShare() * Net(LegsOf(db.entries, r.tid), nb, a)
  }

  function PendingMove(db: Db, nb: NormalBalance, a: int): Settling -> int {
    (r: Settling) => MoveOf(r).PendingShare() * Net(LegsOf(db.entries, r.tid), nb, a)
  }

  function WriteCount(db: Db, a: int): Settling -> int {
    (r: Settling) => if Touches(LegsOf(db.entries, r.tid), a) then 1 else 0
  }

  /** No transaction is settled twice in the batch. */
  ghost predicate Independent(rs: seq<Settling>) {
    && (forall r | r in rs :: multiset(rs)[r] == 1)
    && (forall r, r' | r in rs && r' in rs && r.tid == r'.tid :: r == r')
  }

  ghost predicate AllPending(db: Db, rs: seq<Settling>) {
    forall r | r in rs :: r.tid in db.transactions && db.transactions[r.tid].status.Pending?
  }

  ghost predicate AllServed(s: State, rs: seq<Settling>) {
    forall i: nat | i < |rs| :: Answer(s, rs, i).Ok()
  }

  // The effect of a batch, in terms that do not mention its order

  ghost predicate AccountsAfter(db: Db, db': Db, rs: seq<Settling>) {
    && db'.accounts.Keys == db.accounts.Keys
    && forall a | a in db.accounts :: db'.accounts[a] == RowAfter(db, a, rs)
  }

  function RowAfter(db: Db, a: int, rs: seq<Settling>): AccountRow
    requires a in db.accounts
  {
    var row := db.accounts[a];
    row.(posted := row.posted + Sum(rs, PostedMove(db, row.Normal(), a)),
         pending := row.pending + Sum(rs, PendingMove(db, row.Normal(), a)),
         version := row.version + Sum(rs, WriteCount(db, a)))
  }

  ghost predicate TransactionsAfter(db: Db, db': Db, rs: seq<Settling>) {
    && db'.transactions.Keys == db.transactions.Keys
    && (forall r | r in rs :: r.tid in db.transactions
          && db'.transactions[r.tid] == SettledRow(db.transactions[r.tid], MoveOf(r), NowOf(r)))
    && (forall t | t in db.transactions && (forall r | r in rs :: r.tid != t) :: db'.transactions[t] == db.transactions[t])
  }

  ghost predicate EntryAfter(e: Entry, e': Entry, rs: seq<Settling>) {
    && (forall r | r in rs && r.tid == e.tid :: e' == e.(status := MoveOf(r).EntryTarget()))
    && ((forall r | r in rs :: r.tid != e.tid) ==> e' == e)
  }

  ghost predicate EntriesAfter(db: Db, db': Db, rs: seq<Settling>) {
    && |db'.entries| == |db.entries|
    && forall i | 0 <= i < |db.entries| :: EntryAfter(db.entries[i], db'.entries[i], rs)
  }

  ghost predicate SettledBy(db: Db, db': Db, rs: seq<Settling>) {
    AccountsAfter(db, db', rs) && TransactionsAfter(db, db', rs) && EntriesAfter(db, db', rs)
  }

  lemma BatchLegs(db: Db, db': Db, rs: seq<Settling>, tid: int)
    requires EntriesAfter(db, db', rs)
    ensures LegsOf(db'.entries, tid) == LegsOf(db.entries, tid)
  {
    forall i | 0 <= i < |db.entries|
      ensures db'.entries[i].tid == db.entries[i].tid && db'.entries[i].leg == db.entries[i].leg
    {
      assert EntryAfter(db.entries[i], db'.entries[i], rs);
      if r :| r in rs && r.tid == db.entries[i].tid {
      }
    }
    LegsStable(db.entries, db'.entries, tid);
  }

  lemma RowSnoc(db: Db, accounts: map<int, AccountRow>, rs: seq<Settling>, r: Settling, a: int)
    requires a in db.accounts && a in accounts && accounts[a] == RowAfter(db, a, rs)
    ensures MoveAll(accounts, LegsOf(db.entries, r.tid), MoveOf(r))[a] == RowAfter(db, a, rs + [r])
  {
    var nb := db.accounts[a].Normal();
    MovedBalances(accounts, LegsOf(db.entries, r.tid), MoveOf(r), a);
    SumSnoc(rs, r, PostedMove(db, nb, a));
    SumSnoc(rs, r, PendingMove(db, nb, a));
    SumSnoc(rs, r, WriteCount(db, a));
  }

  lemma AccountsSnoc(db: Db, db': Db, rs: seq<Settling>, r: Settling)
    requires AccountsAfter(db, db', rs) && EntriesAfter(db, db', rs) && r.tid in db'.transactions
    ensures AccountsAfter(db, Settled(db', r.tid, MoveOf(r), NowOf(r)), rs + [r])
  {
    BatchLegs(db, db', rs, r.tid);
    forall a | a in db.accounts {
      RowSnoc(db, db'.accounts, rs, r, a);
    }
  }

  lemma TransactionsSnoc(db: Db, db': Db, rs: seq<Settling>, r: Settling)
    requires TransactionsAfter(db, db', rs) && r.tid in db'.transactions
    requires forall p | p in rs :: p.tid != r.tid
    ensures TransactionsAfter(db, Settled(db', r.tid, MoveOf(r), NowOf(r)), rs + [r])
  {
    assert r in rs + [r];
    assert forall p | p in rs :: p in rs + [r];
    assert db'.transactions[r.tid] == db.transactions[r.tid];
  }

  lemma EntriesSnoc(db: Db, db': Db, rs: seq<Settling>, r: Settling)
    requires EntriesAfter(db, db', rs) && r.tid in db'.transactions
    requires forall p | p in rs :: p.tid != r.tid
    ensures EntriesAfter(db, Settled(db', r.tid, MoveOf(r), NowOf(r)), rs + [r])
  {
    assert r in rs + [r];
    assert forall p | p in rs :: p in rs + [r];
    var db'' := Settled(db', r.tid, MoveOf(r), NowOf(r));
    forall i | 0 <= i < |db.entries|
      ensures EntryAfter(db.entries[i], db''.entries[i], rs + [r])
    {
      assert EntryAfter(db.entries[i], db'.entries[i], rs);
      if q :| q in rs && q.tid == db.entries[i].tid {
        assert db''.entries[i] == db'.entries[i];
      }
    }
  }

  /** Serving an independent batch has the closed-form effect. */
  lemma {:induction false} BatchEffect(s: State, rs: seq<Settling>)
    requires Independent(rs) && AllPending(s.db, rs) && AllServed(s, rs)
    ensures SettledBy(s.db, Run(s, rs).db, rs)
    ensures Run(s, rs).nextAccount == s.nextAccount && Run(s, rs).nextTx == s.nextTx
  {
    if rs == [] {
      assert forall a | a in s.db.accounts :: s.db.accounts[a] == RowAfter(s.db, a, rs);
    } else {
      var n := |rs| - 1;
      var prefix, r := rs[..n], rs[n];
      assert rs == prefix + [r];
      assert multiset(rs) == multiset(prefix) + multiset{r};
      PrefixServed(s, rs, n);
      BatchEffect(s, prefix);
      var db' := Run(s, prefix).db;
      assert Answer(s, rs, n).Ok();
      assert db'.transactions[r.tid] == s.db.transactions[r.tid];
      SettleSuccess(Run(s, prefix), r);
      AccountsSnoc(s.db, db', prefix, r);
      TransactionsSnoc(s.db, db', prefix, r);
      EntriesSnoc(s.db, db', prefix, r);
    }
  }

  lemma PrefixServed(s: State, rs: seq<Settling>, n: nat)
    requires AllServed(s, rs) && n <= |rs|
    ensures AllServed(s, rs[..n])
  {
    forall i: nat | i < n
      ensures Answer(s, rs[..n], i).Ok()
    {
      assert rs[..n][..i] == rs[..i];
      assert Answer(s, rs, i).Ok();
    }
  }

  lemma SettleSuccess(s: State, r: Settling)
    requires Step(s, r).1.Ok() && r.tid in s.db.transactions && s.db.transactions[r.tid].status.Pending?
    ensures Step(s, r).0.db == Settled(s.db, r.tid, MoveOf(r), NowOf(r))
    ensures Step(s, r).0.nextAccount == s.nextAccount && Step(s, r).0.nextTx == s.nextTx
  {
  }

  lemma SameMembers(rs: seq<Settling>, rs': seq<Settling>)
    requires multiset(rs) == multiset(rs')
    ensures forall r :: r in rs <==> r in rs'
  {
    forall r
      ensures r in rs <==> r in rs'
    {
      assert r in rs <==> r in multiset(rs);
      assert r in rs' <==> r in multiset(rs');
    }
  }

  lemma RowAfterPermutes(db: Db, a: int, rs: seq<Settling>, rs': seq<Settling>)
    requires multiset(rs) == multiset(rs') && a in db.accounts
    ensures RowAfter(db, a, rs) == RowAfter(db, a, rs')
  {
    var nb := db.accounts[a].Normal();
    SumPermute(rs, rs', PostedMove(db, nb, a));
    SumPermute(rs, rs', PendingMove(db, nb, a));
    SumPermute(rs, rs', WriteCount(db, a));
  }

  lemma SameTransactions(db: Db, rs: seq<Settling>, rs': seq<Settling>, one: Db, two: Db)
    requires forall r :: r in rs <==> r in rs'
    requires TransactionsAfter(db, one, rs) && TransactionsAfter(db, two, rs')
    ensures one.transactions == two.transactions
  {
    forall t | t in db.transactions
      ensures one.transactions[t] == two.transactions[t]
    {
      if r :| r in rs && r.tid == t {
        assert r in rs';
      }
    }
  }

  lemma SameEntries(db: Db, rs: seq<Settling>, rs': seq<Settling>, one: Db, two: Db)
    requires forall r :: r in rs <==> r in rs'
    requires EntriesAfter(db, one, rs) && EntriesAfter(db, two, rs')
    ensures one.entries == two.entries
  {
    forall i | 0 <= i < |db.entries|
      ensures one.entries[i] == two.entries[i]
    {
      assert EntryAfter(db.entries[i], one.entries[i], rs) && EntryAfter(db.entries[i], two.entries[i], rs');
      if r :| r in rs && r.tid == db.entries[i].tid {
        assert r in rs';
      }
    }
  }

  /** The closed form determines the tables and does not depend on the order. */
  lemma SameBatchSameTables(db: Db, rs: seq<Settling>, rs': seq<Settling>, one: Db, two: Db)
    requires multiset(rs) == multiset(rs') && SettledBy(db, one, rs) && SettledBy(db, two, rs')
    ensures one == two
  {
    SameMembers(rs, rs');
    forall a | a in db.accounts
      ensures one.accounts[a] == two.accounts[a]
    {
      RowAfterPermutes(db, a, rs, rs');
    }
    assert one.accounts == two.accounts;
    SameTransactions(db, rs, rs', one, two);
    SameEntries(db, rs, rs', one, two);
  }

  /** Any two orders of the same successful captures and voids end in the same state, cache included. */
  lemma SettlementsCommute(s: State, rs: seq<Settling>, rs': seq<Settling>)
    requires Valid(s) && Independent(rs) && AllPending(s.db, rs) && multiset(rs) == multiset(rs')
    requires AllServed(s, rs) && AllServed(s, rs')
    ensures Run(s, rs) == Run(s, rs')
  {
    SameMembers(rs, rs');
    BatchEffect(s, rs);
    BatchEffect(s, rs');
    SameBatchSameTables(s.db, rs, rs', Run(s, rs).db, Run(s, rs').db);
    RunKeeps(s, rs);
    RunKeeps(s, rs');
  }
}
