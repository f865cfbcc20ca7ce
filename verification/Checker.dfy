/** The background integrity checks as decision procedures over one snapshot. */
module Checker {
  import opened Domain
  import opened Sums
  import opened Validation
  import opened Tables
  import opened Ledger
  import opened Cache
  import opened Balances

  // Check 1: global double entry

  function LiveAmount(side: EntryType): Entry -> int {
    (e: Entry) => if !e.status.Voided? && e.leg.side == side then e.leg.amount else 0
  }

  /** Totals of the non-voided entries, each cast to BIGINT; no verdict when a cast fails. */
  function GlobalVerdict(entries: seq<Entry>): Option<bool> {
    var debits, credits := Sum(entries, LiveAmount(Debit)), Sum(entries, LiveAmount(Credit));
    if !FitsI64(debits) || !FitsI64(credits) then None else Some(debits == credits)
  }

  lemma LiveTotal(entries: seq<Entry>, side: EntryType)
    ensures Sum(entries, LiveAmount(side))
            == StatusTotal(entries, EntryStatus.Posted, side) + StatusTotal(entries, EntryStatus.Pending, side)
  {
    SumLinear(entries, LiveAmount(side), entries, StatusAmount(EntryStatus.Posted, side), 1,
              entries, StatusAmount(EntryStatus.Pending, side));
  }

  /** On arbitrary entries: no verdict if a total leaves BIGINT, else whether non-voided debits equal credits. */
  lemma VerdictExact(entries: seq<Entry>)
    ensures var debits := StatusTotal(entries, EntryStatus.Posted, Debit) + StatusTotal(entries, EntryStatus.Pending, Debit);
            var credits := StatusTotal(entries, EntryStatus.Posted, Credit) + StatusTotal(entries, EntryStatus.Pending, Credit);
            && (GlobalVerdict(entries) == Some(false) <==> FitsI64(debits) && FitsI64(credits) && debits != credits)
            && (GlobalVerdict(entries) == Some(true) <==> FitsI64(debits) && FitsI64(credits) && debits == credits)
  {
    LiveTotal(entries, Debit);
    LiveTotal(entries, Credit);
  }

  lemma BalancedVerdict(db: Db)
    requires StatusBalanced(db)
    ensures GlobalVerdict(db.entries) != Some(false)
  {
    assert forall s: EntryStatus :: StatusTotal(db.entries, s, Debit) == StatusTotal(db.entries, s, Credit);
    VerdictExact(db.entries);
  }

  /** After any requests the global check never reports an imbalance. */
  lemma GlobalNeverCriesWolf(rs: seq<Request>)
    ensures GlobalVerdict(Run(INIT, rs).db.entries) != Some(false)
  {
    Reachable(rs);
    BalancedVerdict(Run(INIT, rs).db);
  }

  // Check 2: materialised against recomputed

  function AccountTypeCode(kind: AccountType): int {
    match kind
    case Asset => 1
    case Liability => 2
    case Equity => 3
    case Revenue => 4
    case Expense => 5
  }

  predicate IsDebitNormal(code: int) {
    code == 1 || code == 5
  }

  /** The raw-integer classification agrees with the domain type, and stored codes read back. */
  lemma DebitNormalMatchesDomain(kind: AccountType)
    ensures IsDebitNormal(AccountTypeCode(kind)) <==> kind.Normal() == DebitNormal
    ensures kind.Normal() == DebitNormal <==> kind == Asset || kind == Expense
    ensures ParseAccountType(AccountTypeCode(kind)) == Some(kind)
  {
  }

  /** A row of the reconciliation query. */
  datatype AuditRow = AuditRow(
    id: int, accountType: int, posted: int, pending: int,
    postedDebits: int, postedCredits: int, pendingDebits: int, pendingCredits: int)

  function AuditRowOf(db: Db, a: int): AuditRow
    requires a in db.accounts
  {
    var row, own := db.accounts[a], Filter(db.entries, OfAccount(a));
    AuditRow(a, AccountTypeCode(row.kind), row.posted, row.pending,
             StatusTotal(own, EntryStatus.Posted, Debit), StatusTotal(own, EntryStatus.Posted, Credit),
             StatusTotal(own, EntryStatus.Pending, Debit), StatusTotal(own, EntryStatus.Pending, Credit))
  }

  /** The joined, grouped rows: one per account, in some order. */
  ghost predicate Audits(rows: seq<AuditRow>, db: Db) {
    && (forall i | 0 <= i < |rows| :: rows[i].id in db.accounts && rows[i] == AuditRowOf(db, rows[i].id))
    && (forall i, j | 0 <= i < j < |rows| :: rows[i].id != rows[j].id)
    && (forall a | a in db.accounts :: exists i :: 0 <= i < |rows| && rows[i].id == a)
  }

  /** All sums survived the BIGINT casts. */
  predicate SumsInRange(rows: seq<AuditRow>) {
    forall i | 0 <= i < |rows| ::
      && 0 <= rows[i].postedDebits <= I64_MAX && 0 <= rows[i].postedCredits <= I64_MAX
      && 0 <= rows[i].pendingDebits <= I64_MAX && 0 <= rows[i].pendingCredits <= I64_MAX
  }

  predicate Mismatched(row: AuditRow) {
    var sign := if IsDebitNormal(row.accountType) then 1 else -1;
    || row.posted != sign * (row.postedDebits - row.postedCredits)
    || row.pending != sign * (row.pendingDebits - row.pendingCredits)
  }

  function Flag(): AuditRow -> int {
    (row: AuditRow) => if Mismatched(row) then 1 else 0
  }

  /** The mismatch counter of the account check; the differences it takes cannot overflow. */
  method CheckAccountBalances(rows: seq<AuditRow>) returns (mismatches: nat)
    requires SumsInRange(rows)
    ensures mismatches == Sum(rows, Flag())
    ensures mismatches == 0 <==> forall i | 0 <= i < |rows| :: !Mismatched(rows[i])
  {
    mismatches := 0;
    for i := 0 to |rows|
      invariant mismatches == Sum(rows[..i], Flag())
      invariant mismatches == 0 <==> forall k | 0 <= k < i :: !Mismatched(rows[k])
    {
      assert rows[..i + 1] == rows[..i] + [rows[i]];
      SumSnoc(rows[..i], rows[i], Flag());
      var row := rows[i];
      var debitNormal := IsDebitNormal(row.accountType);
      var expectedPosted: i64 :=
        if debitNormal then row.postedDebits - row.postedCredits else row.postedCredits - row.postedDebits;
      var expectedPending: i64 :=
        if debitNormal then row.pendingDebits - row.pendingCredits else row.pendingCredits - row.pendingDebits;
      if row.posted != expectedPosted || row.pending != expectedPending {
        mismatches := mismatches + 1;
      }
    }
    assert rows[..|rows|] == rows;
  }

  lemma MismatchIsUnreconciled(db: Db, a: int)
    requires a in db.accounts
    ensures Mismatched(AuditRowOf(db, a)) <==> !RowReconciled(db.entries, a, db.accounts[a])
  {
    var row, own := db.accounts[a], Filter(db.entries, OfAccount(a));
    DebitNormalMatchesDomain(row.kind);
    OwnEntriesSuffice(db.entries, EntryStatus.Posted, row.Normal(), a);
    OwnEntriesSuffice(db.entries, EntryStatus.Pending, row.Normal(), a);
    DerivedIsSideDifference(own, EntryStatus.Posted, row.Normal());
    DerivedIsSideDifference(own, EntryStatus.Pending, row.Normal());
  }

  /** On arbitrary tables the account check is clean exactly when every account is reconciled. */
  lemma CleanIffReconciled(db: Db, rows: seq<AuditRow>)
    requires Audits(rows, db)
    ensures (forall i | 0 <= i < |rows| :: !Mismatched(rows[i])) <==> Reconciled(db)
  {
    forall i | 0 <= i < |rows|
      ensures Mismatched(rows[i]) <==> !RowReconciled(db.entries, rows[i].id, db.accounts[rows[i].id])
    {
      MismatchIsUnreconciled(db, rows[i].id);
    }
    if forall i | 0 <= i < |rows| :: !Mismatched(rows[i]) {
      forall a | a in db.accounts
        ensures RowReconciled(db.entries, a, db.accounts[a])
      {
        var i :| 0 <= i < |rows| && rows[i].id == a;
        assert !Mismatched(rows[i]);
      }
    }
  }

  /** After any requests the account check finds nothing to report. */
  lemma AccountCheckNeverCriesWolf(rs: seq<Request>, rows: seq<AuditRow>)
    requires Audits(rows, Run(INIT, rs).db)
    ensures Sum(rows, Flag()) == 0
  {
    Reachable(rs);
    CleanIffReconciled(Run(INIT, rs).db, rows);
    SumZero(rows, Flag());
  }

  // Check 3: cache against tables

  /** Ids in either map that are not in both with equal balances. */
  ghost function Disagreements(db: map<int, Cached>, cache: map<int, Cached>): set<int> {
    set a | a in db.Keys + cache.Keys && !(a in db && a in cache && db[a] == cache[a])
  }

  lemma NoDisagreementIffEqual(db: map<int, Cached>, cache: map<int, Cached>)
    ensures |Disagreements(db, cache)| == 0 <==> db == cache
  {
    var bad := Disagreements(db, cache);
    if bad == {} {
      forall a | a in db.Keys + cache.Keys
        ensures a in db && a in cache && db[a] == cache[a]
      {
        assert a !in bad;
      }
      assert db.Keys == cache.Keys;
      assert db == cache;
    }
    if db == cache {
      assert bad == {};
    }
  }

  /** Rows that disagree with the cache or are missing from it. */
  ghost function DbSide(db: map<int, Cached>, cache: map<int, Cached>): set<int> {
    set a | a in db && !(a in cache && db[a] == cache[a])
  }

  lemma Disjoint(left: set<int>, right: set<int>, all: set<int>)
    requires left !! right && all == left + right
    ensures |all| == |left| + |right|
  {
  }

  lemma TwoSides(db: map<int, Cached>, cache: map<int, Cached>)
    ensures |Disagreements(db, cache)| == |DbSide(db, cache)| + |cache.Keys - db.Keys|
  {
    var left, right, all := DbSide(db, cache), cache.Keys - db.Keys, Disagreements(db, cache);
    forall a
      ensures a in all <==> a in left || a in right
      ensures !(a in left && a in right)
    {
    }
    Disjoint(left, right, all);
  }

  method BuildLookup(rows: seq<BalanceRow>, ghost m: map<int, Cached>) returns (lookup: map<int, Cached>)
    requires Lists(rows, m)
    ensures lookup == m
  {
    lookup := map[];
    for i := 0 to |rows|
      invariant lookup == Overlay(map[], rows[..i])
    {
      assert rows[..i + 1][..i] == rows[..i];
      lookup := lookup[rows[i].id := Cached(rows[i].posted, rows[i].pending)];
    }
    assert rows[..|rows|] == rows;
    RehydrateRoundTrip(rows, m);
  }

  method CountDbMismatches(rows: seq<BalanceRow>, cache: map<int, Cached>, ghost db: map<int, Cached>)
    returns (mismatches: nat, ids: set<int>)
    requires Lists(rows, db)
    ensures mismatches == |DbSide(db, cache)|
    ensures ids == db.Keys
  {
    mismatches, ids := 0, {};
    ghost var bad := DbSide(db, cache);
    for i := 0 to |rows|
      invariant ids <= db.Keys && (forall k | 0 <= k < i :: rows[k].id in ids)
      invariant forall k | i <= k < |rows| :: rows[k].id !in ids
      invariant mismatches == |bad * ids|
    {
      var row := rows[i];
      assert row.id in db && db[row.id] == Cached(row.posted, row.pending);
      if row.id !in cache || cache[row.id] != Cached(row.posted, row.pending) {
        mismatches := mismatches + 1;
        assert bad * (ids + {row.id}) == bad * ids + {row.id};
      } else {
        assert bad * (ids + {row.id}) == bad * ids;
      }
      ids := ids + {row.id};
    }
    forall a | a in db
      ensures a in ids
    {
      var k :| 0 <= k < |rows| && rows[k].id == a;
    }
    assert ids == db.Keys;
    assert bad * ids == bad;
  }

  method CountStrays(rows: seq<BalanceRow>, ids: set<int>, ghost cache: map<int, Cached>) returns (strays: nat)
    requires Lists(rows, cache)
    ensures strays == |cache.Keys - ids|
  {
    strays := 0;
    ghost var seen: set<int>, out: set<int> := {}, {};
    for i := 0 to |rows|
      invariant seen <= cache.Keys && (forall k | 0 <= k < i :: rows[k].id in seen)
      invariant forall k | i <= k < |rows| :: rows[k].id !in seen
      invariant out == seen - ids && strays == |out|
    {
      var id := rows[i].id;
      if id !in ids {
        strays := strays + 1;
        out := out + {id};
      }
      seen := seen + {id};
    }
    forall a | a in cache
      ensures a in seen
    {
      var k :| 0 <= k < |rows| && rows[k].id == a;
    }
    assert seen == cache.Keys;
  }

  /** Two passes, one over the table rows and one over the cache, count each disagreeing id once. */
  method CheckCacheConsistency(dbRows: seq<BalanceRow>, cache: BalanceCache, ghost db: map<int, Cached>)
    returns (mismatches: nat)
    requires Lists(dbRows, db)
    ensures mismatches == |Disagreements(db, cache.balances)|
  {
    var cacheRows := cache.Iter();
    var lookup := BuildLookup(cacheRows, cache.balances);
    var wrong, dbIds := CountDbMismatches(dbRows, lookup, db);
    var again := cache.Iter();
    var strays := CountStrays(again, dbIds, cache.balances);
    TwoSides(db, cache.balances);
    mismatches := wrong + strays;
  }

  /** After any requests the cache check counts nothing. */
  lemma CacheCheckNeverCriesWolf(rs: seq<Request>)
    ensures |Disagreements(Snapshot(Run(INIT, rs).db.accounts), Run(INIT, rs).cache)| == 0
  {
    Reachable(rs);
    NoDisagreementIffEqual(Snapshot(Run(INIT, rs).db.accounts), Run(INIT, rs).cache);
  }
}
