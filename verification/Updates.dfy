/** From legs to lock order and to one balance update per account. */
module Updates {
  import opened Domain
  import opened Sums
  import opened Validation
  import opened Tables
  import opened Invariance

  // Lock order: sort, then dedup

  predicate Increasing(ids: seq<int>) {
    forall i, j | 0 <= i < j < |ids| :: ids[i] < ids[j]
  }

  function Insert(ids: seq<int>, a: int): seq<int> {
    if ids == [] then [a]
    else
      var last := ids[|ids| - 1];
      if last < a then ids + [a]
      else if last == a then ids
      else Insert(ids[..|ids| - 1], a) + [last]
  }

  /** Account ids of the legs, sorted and without duplicates. */
  function LockOrder(legs: seq<Leg>): seq<int> {
    if legs == [] then [] else Insert(LockOrder(legs[..|legs| - 1]), legs[|legs| - 1].account)
  }

  lemma {:induction false} InsertKeepsOrder(ids: seq<int>, a: int)
    requires Increasing(ids)
    ensures Increasing(Insert(ids, a))
    ensures forall x :: x in Insert(ids, a) <==> x in ids || x == a
  {
    if ids != [] && ids[|ids| - 1] > a {
      var n := |ids| - 1;
      InsertKeepsOrder(ids[..n], a);
      var front := Insert(ids[..n], a);
      forall i | 0 <= i < |front|
        ensures front[i] < ids[n]
      {
        assert front[i] in front;
      }
      assert forall x :: x in ids <==> x in ids[..n] || x == ids[n];
    }
  }

  /** Strictly increasing, and exactly the accounts the legs touch. */
  lemma {:induction false} LockOrderExact(legs: seq<Leg>)
    ensures Increasing(LockOrder(legs))
    ensures forall a :: a in LockOrder(legs) <==> Touches(legs, a)
  {
    if legs != [] {
      var n := |legs| - 1;
      LockOrderExact(legs[..n]);
      InsertKeepsOrder(LockOrder(legs[..n]), legs[n].account);
      forall a
        ensures Touches(legs, a) <==> Touches(legs[..n], a) || a == legs[n].account
      {
        TouchesSnoc(legs[..n], legs[n], a);
        assert legs[..n] + [legs[n]] == legs;
      }
    }
  }

  lemma TouchesSnoc(legs: seq<Leg>, l: Leg, a: int)
    ensures Touches(legs + [l], a) <==> Touches(legs, a) || a == l.account
  {
    var all := legs + [l];
    if i :| 0 <= i < |legs| && legs[i].account == a {
      assert all[i].account == a;
    }
    if a == l.account {
      assert all[|legs|].account == a;
    }
  }

  // Balance updates: find the account's entry and add to it, or push a new one

  datatype Update = Update(account: int, posted: int, pending: int)

  predicate Distinct(us: seq<Update>) {
    forall i, j | 0 <= i < j < |us| :: us[i].account != us[j].account
  }

  predicate Covers(us: seq<Update>, a: int) {
    exists i | 0 <= i < |us| :: us[i].account == a
  }

  /** Position of the account's update, or the length if there is none. */
  function Find(us: seq<Update>, a: int): (i: nat)
    ensures i <= |us|
    ensures i < |us| ==> us[i].account == a
    ensures i == |us| ==> !Covers(us, a)
  {
    if us == [] then 0
    else
      var n := |us| - 1;
      var i := Find(us[..n], a);
      if i < n then i
      else if us[n].account == a then n
      else |us|
  }

  function Accumulate(us: seq<Update>, a: int, posted: int, pending: int): seq<Update> {
    var i := Find(us, a);
    if i < |us| then us[i := Update(a, us[i].posted + posted, us[i].pending + pending)]
    else us + [Update(a, posted, pending)]
  }

  function UpdatesOf(legs: seq<Leg>, rows: map<int, AccountRow>, m: Movement): seq<Update>
    requires AccountsExist(rows, legs)
  {
    if legs == [] then []
    else
      var l := legs[|legs| - 1];
      var d := LegDelta(rows[l.account].Normal(), l);
      Accumulate(UpdatesOf(legs[..|legs| - 1], rows, m), l.account, m.PostedShare() * d, m.PendingShare() * d)
  }

  ghost predicate NetUpdate(u: Update, legs: seq<Leg>, rows: map<int, AccountRow>, m: Movement) {
    && u.account in rows
    && u.posted == m.PostedShare() * Net(legs, rows[u.account].Normal(), u.account)
    && u.pending == m.PendingShare() * Net(legs, rows[u.account].Normal(), u.account)
  }

  ghost predicate ExactUpdates(us: seq<Update>, legs: seq<Leg>, rows: map<int, AccountRow>, m: Movement) {
    && Distinct(us)
    && (forall a :: Covers(us, a) <==> Touches(legs, a))
    && (forall i | 0 <= i < |us| :: NetUpdate(us[i], legs, rows, m))
  }

  lemma NetSnoc(legs: seq<Leg>, l: Leg, nb: NormalBalance, a: int)
    ensures Net(legs + [l], nb, a) == Net(legs, nb, a) + if l.account == a then LegDelta(nb, l) else 0
  {
    SumSnoc(legs, l, AccountDelta(nb, a));
  }

  lemma AccumulateExact(us: seq<Update>, legs: seq<Leg>, l: Leg, rows: map<int, AccountRow>, m: Movement)
    requires ExactUpdates(us, legs, rows, m) && l.account in rows
    ensures var d := LegDelta(rows[l.account].Normal(), l);
            ExactUpdates(Accumulate(us, l.account, m.PostedShare() * d, m.PendingShare() * d), legs + [l], rows, m)
  {
    var d := LegDelta(rows[l.account].Normal(), l);
    var us' := Accumulate(us, l.account, m.PostedShare() * d, m.PendingShare() * d);
    var k := Find(us, l.account);
    forall a
      ensures Covers(us', a) <==> Touches(legs + [l], a)
    {
      TouchesSnoc(legs, l, a);
      if i :| 0 <= i < |us| && us[i].account == a {
        assert us'[i].account == a;
      }
      assert us'[k].account == l.account;
    }
    forall i | 0 <= i < |us'|
      ensures NetUpdate(us'[i], legs + [l], rows, m)
    {
      var a := us'[i].account;
      if i < |us| {
        assert NetUpdate(us[i], legs, rows, m);
      } else {
        assert !Touches(legs, a);
        UntouchedNet(legs, rows[a].Normal(), a);
      }
      NetSnoc(legs, l, rows[a].Normal(), a);
    }
  }

  /** Find-or-push yields exactly one update per touched account, carrying its net movement. */
  lemma {:induction false} UpdatesExact(legs: seq<Leg>, rows: map<int, AccountRow>, m: Movement)
    requires AccountsExist(rows, legs)
    ensures ExactUpdates(UpdatesOf(legs, rows, m), legs, rows, m)
  {
    if legs != [] {
      var n := |legs| - 1;
      UpdatesExact(legs[..n], rows, m);
      AccumulateExact(UpdatesOf(legs[..n], rows, m), legs[..n], legs[n], rows, m);
      assert legs[..n] + [legs[n]] == legs;
    }
  }

  // Overflow freedom of the unchecked += and -= in the accumulation

  /** Every partial sum of an accepted transfer stays within [-i64::MAX, i64::MAX] on every account. */
  lemma PartialNetsFit(legs: seq<Leg>, n: nat, nb: NormalBalance, a: int)
    requires ValidLegs(legs) && n <= |legs|
    requires Total(legs, Debit) <= I64_MAX && Total(legs, Credit) <= I64_MAX
    ensures -I64_MAX <= Net(legs[..n], nb, a) <= I64_MAX
  {
    NetBounded(legs[..n], nb, a);
    TotalPrefix(legs, n, Debit);
    TotalPrefix(legs, n, Credit);
  }

  lemma {:induction false} NetBounded(legs: seq<Leg>, nb: NormalBalance, a: int)
    requires ValidLegs(legs)
    ensures Net(legs, nb, a) <= if nb.DebitNormal? then Total(legs, Debit) else Total(legs, Credit)
    ensures -Net(legs, nb, a) <= if nb.DebitNormal? then Total(legs, Credit) else Total(legs, Debit)
  {
    if legs != [] {
      assert ValidLeg(legs[|legs| - 1]);
      NetBounded(legs[..|legs| - 1], nb, a);
    }
  }

  // Effect of the updates, one by one

  /** The row `update_account_balance` leaves. */
  function Bumped(row: AccountRow, u: Update): AccountRow {
    row.(posted := row.posted + u.posted, pending := row.pending + u.pending, version := row.version + 1)
  }

  /** The map `apply_delta` leaves: saturating adds on a cached id, nothing on a missing one. */
  function Applied(cache: map<int, Cached>, u: Update): map<int, Cached> {
    if u.account !in cache then cache
    else
      var c := cache[u.account];
      cache[u.account := Cached(SatAdd(c.posted, u.posted), SatAdd(c.pending, u.pending))]
  }

  /** Rows after all the updates. */
  function BumpAll(accounts: map<int, AccountRow>, us: seq<Update>): map<int, AccountRow> {
    map a | a in accounts :: if Covers(us, a) then Bumped(accounts[a], us[Find(us, a)]) else accounts[a]
  }

  /** Cache after applying the updates in order. */
  function ApplyAll(cache: map<int, Cached>, us: seq<Update>): map<int, Cached> {
    if us == [] then cache else Applied(ApplyAll(cache, us[..|us| - 1]), us[|us| - 1])
  }

  lemma FindDistinct(us: seq<Update>, i: nat)
    requires Distinct(us) && i < |us|
    ensures Find(us, us[i].account) == i
  {
    var k := Find(us, us[i].account);
    assert Covers(us, us[i].account);
    assert k < |us| && us[k].account == us[i].account;
  }

  lemma CoversSnoc(us: seq<Update>, u: Update, a: int)
    ensures Covers(us + [u], a) <==> Covers(us, a) || u.account == a
  {
    var all := us + [u];
    if i :| 0 <= i < |us| && us[i].account == a {
      assert all[i].account == a;
    }
    if u.account == a {
      assert all[|us|].account == a;
    }
  }

  /** One more update of an account not updated before. */
  lemma BumpAllSnoc(accounts: map<int, AccountRow>, us: seq<Update>, u: Update)
    requires Distinct(us + [u]) && u.account in accounts
    ensures u.account in BumpAll(accounts, us) && BumpAll(accounts, us)[u.account] == accounts[u.account]
    ensures BumpAll(accounts, us + [u]) == BumpAll(accounts, us)[u.account := Bumped(accounts[u.account], u)]
  {
    var all := us + [u];
    assert Distinct(us) by {
      assert forall i | 0 <= i < |us| :: all[i] == us[i];
    }
    assert !Covers(us, u.account) by {
      assert all[|us|] == u;
      assert forall i | 0 <= i < |us| :: all[i] == us[i];
    }
    forall a | a in accounts
      ensures BumpAll(accounts, all)[a] == BumpAll(accounts, us)[u.account := Bumped(accounts[u.account], u)][a]
    {
      CoversSnoc(us, u, a);
      if a == u.account {
        FindDistinct(all, |us|);
      } else if i :| 0 <= i < |us| && us[i].account == a {
        assert all[i] == us[i];
        FindDistinct(us, i);
        FindDistinct(all, i);
      }
    }
  }

  lemma BumpedRowIsMoved(accounts: map<int, AccountRow>, us: seq<Update>, legs: seq<Leg>, m: Movement, a: int)
    requires ExactUpdates(us, legs, accounts, m) && a in accounts
    ensures BumpAll(accounts, us)[a] == MoveAll(accounts, legs, m)[a]
  {
    if i :| 0 <= i < |us| && us[i].account == a {
      assert Covers(us, a);
      FindDistinct(us, i);
      assert NetUpdate(us[i], legs, accounts, m);
    } else {
      assert !Covers(us, a);
    }
  }

  /** The loop of single updates has the effect of the movement as a whole. */
  lemma BumpAllIsMoveAll(accounts: map<int, AccountRow>, legs: seq<Leg>, m: Movement)
    requires AccountsExist(accounts, legs)
    ensures BumpAll(accounts, UpdatesOf(legs, accounts, m)) == MoveAll(accounts, legs, m)
  {
    var us := UpdatesOf(legs, accounts, m);
    UpdatesExact(legs, accounts, m);
    forall a | a in accounts
      ensures BumpAll(accounts, us)[a] == MoveAll(accounts, legs, m)[a]
    {
      BumpedRowIsMoved(accounts, us, legs, m, a);
    }
  }

  function CacheAfter(cache: map<int, Cached>, us: seq<Update>, a: int): Cached
    requires a in cache
  {
    if Covers(us, a) then
      var u := us[Find(us, a)];
      Cached(SatAdd(cache[a].posted, u.posted), SatAdd(cache[a].pending, u.pending))
    else cache[a]
  }

  lemma {:induction false} ApplyAllEach(cache: map<int, Cached>, us: seq<Update>)
    requires Distinct(us)
    ensures ApplyAll(cache, us).Keys == cache.Keys
    ensures forall a | a in cache :: ApplyAll(cache, us)[a] == CacheAfter(cache, us, a)
  {
    if us != [] {
      var n := |us| - 1;
      ApplyAllEach(cache, us[..n]);
      assert us[..n] + [us[n]] == us;
      forall a | a in cache
        ensures ApplyAll(cache, us)[a] == CacheAfter(cache, us, a)
      {
        CoversSnoc(us[..n], us[n], a);
        if a == us[n].account {
          FindDistinct(us, n);
          assert !Covers(us[..n], a);
        } else if i :| 0 <= i < n && us[i].account == a {
          assert us[..n][i] == us[i];
          FindDistinct(us[..n], i);
          FindDistinct(us, i);
        }
      }
    }
  }
}
