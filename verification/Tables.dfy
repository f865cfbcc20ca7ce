/** The three tables, the two row movements a transaction makes, and the invariant every commit keeps. */
module Tables {
  import opened Domain
  import opened Sums
  import opened Validation

  datatype AccountRow = AccountRow(
    kind: AccountType, assetCode: string, assetScale: int, version: int, posted: int, pending: int, createdAt: int)
  {
    function Normal(): NormalBalance {
      kind.Normal()
    }

    /** What the BIGINT and INTEGER columns can hold. */
    predicate Fits() {
      FitsI64(posted) && FitsI64(pending) && version <= I32_MAX
    }
  }

  function RowValue(row: AccountRow, posted: bool): int {
    if posted then row.posted else row.pending
  }

  datatype TxRow = TxRow(key: string, status: TransactionStatus, createdAt: int, postedAt: Option<int>)

  datatype Db = Db(accounts: map<int, AccountRow>, transactions: map<int, TxRow>, entries: seq<Entry>)

  const EMPTY_DB := Db(map[], map[], [])

  /** The three ways a transaction moves balances: reserve, settle, release. */
  datatype Movement = Hold | Capture | Void {
    function PostedShare(): int {
      if Capture? then 1 else 0
    }

    function PendingShare(): int {
      if Hold? then 1 else -1
    }

    function EntryTarget(): EntryStatus {
      match this
      case Hold => EntryStatus.Pending
      case Capture => EntryStatus.Posted
      case Void => EntryStatus.Voided
    }

    function TxTarget(): TransactionStatus {
      match this
      case Hold => TransactionStatus.Pending
      case Capture => TransactionStatus.Posted
      case Void => TransactionStatus.Voided
    }
  }

  function AccountDelta(nb: NormalBalance, a: int): Leg -> int {
    (l: Leg) => if l.account == a then LegDelta(nb, l) else 0
  }

  /** Net signed amount the legs bring to account `a`. */
  function Net(legs: seq<Leg>, nb: NormalBalance, a: int): int {
    Sum(legs, AccountDelta(nb, a))
  }

  predicate Touches(legs: seq<Leg>, a: int) {
    exists i | 0 <= i < |legs| :: legs[i].account == a
  }

  function Moved(row: AccountRow, legs: seq<Leg>, a: int, m: Movement): AccountRow {
    var d := Net(legs, row.Normal(), a);
    row.(posted := row.posted + m.PostedShare() * d,
         pending := row.pending + m.PendingShare() * d,
         version := row.version + 1)
  }

  /** Every touched account moves by its net amount and bumps its version once, however many legs touch it. */
  function MoveAll(accounts: map<int, AccountRow>, legs: seq<Leg>, m: Movement): map<int, AccountRow> {
    map a | a in accounts :: if Touches(legs, a) then Moved(accounts[a], legs, a, m) else accounts[a]
  }

  predicate AllFit(accounts: map<int, AccountRow>) {
    forall a | a in accounts :: accounts[a].Fits()
  }

  predicate AccountsExist(accounts: map<int, AccountRow>, legs: seq<Leg>) {
    forall i | 0 <= i < |legs| :: legs[i].account in accounts
  }

  function OfTx(tid: int): Entry -> bool {
    (e: Entry) => e.tid == tid
  }

  function OfAccount(a: int): Entry -> bool {
    (e: Entry) => e.leg.account == a
  }

  function LegsIn(entries: seq<Entry>): seq<Leg> {
    seq(|entries|, i requires 0 <= i < |entries| => entries[i].leg)
  }

  /** The legs of one transaction, in insertion order. */
  function LegsOf(entries: seq<Entry>, tid: int): seq<Leg> {
    LegsIn(Filter(entries, OfTx(tid)))
  }

  function NewEntries(tid: int, legs: seq<Leg>, now: int): seq<Entry> {
    seq(|legs|, i requires 0 <= i < |legs| => Entry(tid, legs[i], EntryStatus.Pending, now))
  }

  function Restatused(e: Entry, tid: int, status: EntryStatus): Entry {
    if e.tid == tid then e.(status := status) else e
  }

  function Restatus(entries: seq<Entry>, tid: int, status: EntryStatus): seq<Entry> {
    seq(|entries|, i requires 0 <= i < |entries| => Restatused(entries[i], tid, status))
  }

  /** The tables after `authorize` commits transaction `tid`. */
  function Authorised(db: Db, tid: int, key: string, legs: seq<Leg>, now: int): Db {
    Db(MoveAll(db.accounts, legs, Hold),
       db.transactions[tid := TxRow(key, TransactionStatus.Pending, now, None)],
       db.entries + NewEntries(tid, legs, now))
  }

  /** The transaction row after `capture` or `void`. */
  function SettledRow(row: TxRow, m: Movement, now: int): TxRow {
    row.(status := m.TxTarget(), postedAt := if m.Capture? then Some(now) else None)
  }

  /** The tables after `capture` or `void` of `tid` commits, having read the legs `legs`. */
  function SettledWith(db: Db, tid: int, legs: seq<Leg>, m: Movement, now: int): Db
    requires tid in db.transactions
  {
    Db(MoveAll(db.accounts, legs, m),
       db.transactions[tid := SettledRow(db.transactions[tid], m, now)],
       Restatus(db.entries, tid, m.EntryTarget()))
  }

  function Settled(db: Db, tid: int, m: Movement, now: int): Db
    requires tid in db.transactions
  {
    SettledWith(db, tid, LegsOf(db.entries, tid), m, now)
  }

  // Derived quantities

  function BalanceDelta(status: EntryStatus, nb: NormalBalance, a: int): Entry -> int {
    (e: Entry) => if e.status == status && e.leg.account == a then LegDelta(nb, e.leg) else 0
  }

  /** Balance of account `a` recomputed from the entries of one status. */
  function EntryBalance(entries: seq<Entry>, status: EntryStatus, nb: NormalBalance, a: int): int {
    Sum(entries, BalanceDelta(status, nb, a))
  }

  function TxAmount(tid: int, side: EntryType): Entry -> int {
    (e: Entry) => if e.tid == tid && e.leg.side == side then e.leg.amount else 0
  }

  function TxTotal(entries: seq<Entry>, tid: int, side: EntryType): int {
    Sum(entries, TxAmount(tid, side))
  }

  predicate TxTouches(entries: seq<Entry>, tid: int, a: int) {
    exists i | 0 <= i < |entries| :: entries[i].tid == tid && entries[i].leg.account == a
  }

  /** How many times transaction `t` has written account `a`: once to hold, once more to settle. */
  function Writes(db: Db, a: int): int -> int {
    t => if t in db.transactions && TxTouches(db.entries, t, a)
         then if db.transactions[t].status.Pending? then 1 else 2
         else 0
  }

  // Invariant

  predicate RowOk(a: int, row: AccountRow) {
    && 0 < a && row.assetCode != "" && |row.assetCode| <= 16 && 0 <= row.assetScale <= 18
    && 0 <= row.version && row.Fits() && 0 < row.createdAt
  }

  predicate AccountsOk(db: Db) {
    forall a | a in db.accounts :: RowOk(a, db.accounts[a])
  }

  /** `posted_at` is set, and positive, exactly when the transaction is Posted; Failed is never stored. */
  predicate TxRowOk(tid: int, row: TxRow) {
    && 0 < tid && row.key != "" && |row.key| <= 64 && 0 < row.createdAt && !row.status.Failed?
    && (row.status.Posted? <==> row.postedAt.Some?)
    && (row.postedAt.Some? ==> 0 < row.postedAt.value)
  }

  predicate TransactionsOk(db: Db) {
    forall t | t in db.transactions :: TxRowOk(t, db.transactions[t])
  }

  ghost predicate KeysUnique(db: Db) {
    forall t, u | t in db.transactions && u in db.transactions && db.transactions[t].key == db.transactions[u].key :: t == u
  }

  predicate Mirrors(e: EntryStatus, t: TransactionStatus) {
    (e.Pending? <==> t.Pending?) && (e.Posted? <==> t.Posted?) && (e.Voided? <==> t.Voided?)
  }

  /** The status of the entries of a stored transaction. */
  function Mirrored(t: TransactionStatus): EntryStatus {
    if t.Pending? then EntryStatus.Pending else if t.Posted? then EntryStatus.Posted else EntryStatus.Voided
  }

  predicate EntryOk(db: Db, e: Entry) {
    && ValidLeg(e.leg) && e.leg.account in db.accounts && 0 < e.createdAt
    && e.tid in db.transactions && Mirrors(e.status, db.transactions[e.tid].status)
  }

  predicate EntriesOk(db: Db) {
    forall i | 0 <= i < |db.entries| :: EntryOk(db, db.entries[i])
  }

  predicate HasEntry(entries: seq<Entry>, tid: int) {
    exists i | 0 <= i < |entries| :: entries[i].tid == tid
  }

  /** Every transaction has entries. */
  ghost predicate TxStocked(db: Db) {
    forall t | t in db.transactions :: HasEntry(db.entries, t)
  }

  /** The stored legs of every transaction still balance, within i64. */
  predicate TxBalanced(db: Db) {
    forall t | t in db.transactions ::
      TxTotal(db.entries, t, Debit) == TxTotal(db.entries, t, Credit) <= I64_MAX
  }

  predicate RowReconciled(entries: seq<Entry>, a: int, row: AccountRow) {
    && row.posted == EntryBalance(entries, EntryStatus.Posted, row.Normal(), a)
    && row.pending == EntryBalance(entries, EntryStatus.Pending, row.Normal(), a)
  }

  /** Materialised balances are the signed sums of their entries. */
  predicate Reconciled(db: Db) {
    forall a | a in db.accounts :: RowReconciled(db.entries, a, db.accounts[a])
  }

  ghost predicate VersionsCount(db: Db) {
    forall a | a in db.accounts :: db.accounts[a].version == SumSet(db.transactions.Keys, Writes(db, a))
  }

  predicate StatusBalanced(db: Db) {
    forall s: EntryStatus :: StatusTotal(db.entries, s, Debit) == StatusTotal(db.entries, s, Credit)
  }

  /** What no interleaving of commits can upset. */
  ghost predicate Coherent(db: Db) {
    && AccountsOk(db) && TransactionsOk(db) && KeysUnique(db) && EntriesOk(db)
    && TxBalanced(db) && StatusBalanced(db)
  }

  ghost predicate Inv(db: Db) {
    Coherent(db) && Reconciled(db) && VersionsCount(db)
  }
}
