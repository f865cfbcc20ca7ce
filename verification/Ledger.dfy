/** The ledger as a serial state machine: one request, one step over tables, cache and id sequences. */
module Ledger {
  import opened Domain
  import opened Sums
  import opened Validation
  import opened Tables
  import opened Invariance
  import opened Updates

  datatype State = State(db: Db, cache: map<int, Cached>, nextAccount: int, nextTx: int)

  const INIT := State(EMPTY_DB, map[], 1, 1)

  datatype ServiceError =
    | InvalidArgument
    | InvalidAccountId(id: int)
    | NegativeAmount(amount: int)
    | ZeroAmount
    | Rejected(reason: ValidationError)
    | AccountNotFound(id: int)
    | InsufficientFunds(id: int, available: int, requested: int)
    | InvalidTransactionId(id: int)
    | TransactionNotFound(id: int)
    | InvalidTransactionState(id: int, current: TransactionStatus)
    | VersionConflict(id: int, expected: int, actual: int)
    | DuplicateKey(key: string)
    | Database
    | DataCorruption

  datatype ProtoLeg = ProtoLeg(accountId: i64, entryType: i32, amount: i64)

  datatype Request =
    | CreateAccount(accountType: i32, assetCode: string, assetScale: i32, now: Clock)
    | Authorize(key: string, legs: seq<ProtoLeg>, now: Clock)
    | CaptureTx(tid: i64, now: Clock)
    | VoidTx(tid: i64)
    | Restart

  /** The transaction as a response reports it; `postedAt` is 0 unless Posted. */
  datatype TxView = TxView(id: int, key: string, status: TransactionStatus, createdAt: int, postedAt: int)

  datatype Account = Account(
    id: int, kind: AccountType, assetCode: string, assetScale: int, version: int, createdAt: int)

  datatype Response =
    | AccountOpened(account: Account)
    | Accepted(tx: TxView, entries: seq<Entry>)
    | Refused(error: ServiceError)
    | Restarted
  {
    predicate Ok() {
      !Refused?
    }
  }

  function View(tid: int, row: TxRow): TxView {
    TxView(tid, row.key, row.status, row.createdAt, match row.postedAt case Some(t) => t case None => 0)
  }

  function AccountView(id: int, row: AccountRow): Account {
    Account(id, row.kind, row.assetCode, row.assetScale, row.version, row.createdAt)
  }

  // Parsing

  function ParseLeg(p: ProtoLeg): Result<Leg, ServiceError> {
    if p.accountId <= 0 then Failure(InvalidAccountId(p.accountId))
    else if p.entryType != 1 && p.entryType != 2 then Failure(InvalidArgument)
    else if p.amount < 0 then Failure(NegativeAmount(p.amount))
    else if p.amount == 0 then Failure(ZeroAmount)
    else Success(Leg(p.accountId, if p.entryType == 1 then Debit else Credit, p.amount))
  }

  /** Legs in order, or the error of the first bad one. */
  function ParseLegs(ps: seq<ProtoLeg>): (r: Result<seq<Leg>, ServiceError>)
    ensures r.Success? ==> |r.value| == |ps| && ValidLegs(r.value)
  {
    if ps == [] then Success([])
    else
      var prefix := ParseLegs(ps[..|ps| - 1]);
      if prefix.Failure? then prefix
      else match ParseLeg(ps[|ps| - 1])
        case Failure(e) => Failure(e)
        case Success(l) => Success(prefix.value + [l])
  }

  /** What the wire format demands of a leg. */
  predicate GoodLeg(p: ProtoLeg) {
    0 < p.accountId && (p.entryType == 1 || p.entryType == 2) && 0 < p.amount
  }

  predicate Reads(p: ProtoLeg, l: Leg) {
    l.account == p.accountId && l.amount == p.amount && (l.side.Debit? <==> p.entryType == 1)
  }

  /** The account id is looked at first, then the entry type, the sign, and zero. */
  predicate BadLegError(p: ProtoLeg, e: ServiceError) {
    && (p.accountId <= 0 ==> e == InvalidAccountId(p.accountId))
    && (0 < p.accountId && p.entryType != 1 && p.entryType != 2 ==> e == InvalidArgument)
    && (0 < p.accountId && 1 <= p.entryType <= 2 && p.amount < 0 ==> e == NegativeAmount(p.amount))
    && (0 < p.accountId && 1 <= p.entryType <= 2 && p.amount == 0 ==> e == ZeroAmount)
  }

  predicate FirstBad(ps: seq<ProtoLeg>, i: nat) {
    i < |ps| && !GoodLeg(ps[i]) && forall j | 0 <= j < i :: GoodLeg(ps[j])
  }

  predicate ReadsAll(ps: seq<ProtoLeg>, legs: seq<Leg>) {
    |legs| == |ps| && forall i | 0 <= i < |ps| :: GoodLeg(ps[i]) && Reads(ps[i], legs[i])
  }

  /** What each outcome of the parse says about the legs on the wire. */
  ghost predicate ParsedAs(ps: seq<ProtoLeg>, r: Result<seq<Leg>, ServiceError>) {
    && (r.Success? <==> forall i | 0 <= i < |ps| :: GoodLeg(ps[i]))
    && (r.Success? ==> ReadsAll(ps, r.value))
    && (r.Failure? ==> exists i: nat :: FirstBad(ps, i) && BadLegError(ps[i], r.error))
  }

  lemma {:induction false} ParseExact(ps: seq<ProtoLeg>)
    ensures ParsedAs(ps, ParseLegs(ps))
  {
    if ps != [] {
      var n := |ps| - 1;
      ParseExact(ps[..n]);
      var r := ParseLegs(ps);
      assert forall i | 0 <= i < n :: ps[..n][i] == ps[i];
      if ParseLegs(ps[..n]).Failure? {
        var i: nat :| FirstBad(ps[..n], i) && BadLegError(ps[..n][i], r.error);
        assert FirstBad(ps, i) && BadLegError(ps[i], r.error);
      } else if r.Failure? {
        assert FirstBad(ps, n) && BadLegError(ps[n], r.error);
      }
    }
  }

  /** The fields on the wire determine the legs. */
  lemma ParseReads(ps: seq<ProtoLeg>, legs: seq<Leg>)
    requires ReadsAll(ps, legs)
    ensures ParseLegs(ps) == Success(legs)
  {
    ParseExact(ps);
    var r := ParseLegs(ps);
    forall i | 0 <= i < |legs|
      ensures r.value[i] == legs[i]
    {
      assert GoodLeg(ps[i]) && Reads(ps[i], legs[i]) && Reads(ps[i], r.value[i]);
    }
    assert r.value == legs;
  }

  function ParseAccountType(code: int): Option<AccountType> {
    match code
    case 1 => Some(Asset)
    case 2 => Some(Liability)
    case 3 => Some(Equity)
    case 4 => Some(Revenue)
    case 5 => Some(Expense)
    case _ => None
  }

  // Checks of authorize

  /** The smallest account id among the legs that has no row. */
  function FirstMissing(accounts: map<int, AccountRow>, legs: seq<Leg>): Option<int> {
    if legs == [] then None
    else
      var prefix, a := FirstMissing(accounts, legs[..|legs| - 1]), legs[|legs| - 1].account;
      if a in accounts || (prefix.Some? && prefix.value <= a) then prefix else Some(a)
  }

  /** `FirstMissing` is the least touched id without a row: the first one the lock loop meets. */
  lemma {:induction false} FirstMissingIsLeast(rows: map<int, AccountRow>, legs: seq<Leg>)
    ensures FirstMissing(rows, legs).None? <==> AccountsExist(rows, legs)
    ensures FirstMissing(rows, legs).Some? ==>
              var a := FirstMissing(rows, legs).value;
              Touches(legs, a) && a !in rows && forall b | Touches(legs, b) && b !in rows :: a <= b
  {
    if legs != [] {
      var n := |legs| - 1;
      FirstMissingIsLeast(rows, legs[..n]);
      assert legs[..n] + [legs[n]] == legs;
      forall b
        ensures Touches(legs, b) <==> Touches(legs[..n], b) || b == legs[n].account
      {
        TouchesSnoc(legs[..n], legs[n], b);
      }
    }
  }

  function Balance(c: Cached): AccountBalance {
    AccountBalance(c.posted, c.pending, SatSub(c.posted, c.pending))
  }

  predicate Reduces(nb: NormalBalance, side: EntryType) {
    nb.DebitNormal? == side.Credit?
  }

  /** A leg that lowers its account's balance finds it cached with enough available. */
  predicate Funded(rows: map<int, AccountRow>, cache: map<int, Cached>, l: Leg)
    requires l.account in rows
  {
    Reduces(rows[l.account].Normal(), l.side) ==>
      l.account in cache && Balance(cache[l.account]).HasAvailable(l.amount)
  }

  /** Each reducing leg alone against the cached available balance; the first shortfall is reported. */
  function FundsOutcome(accounts: map<int, AccountRow>, cache: map<int, Cached>, legs: seq<Leg>): Option<ServiceError>
    requires AccountsExist(accounts, legs)
  {
    if legs == [] then None
    else
      var prefix := FundsOutcome(accounts, cache, legs[..|legs| - 1]);
      if prefix.Some? then prefix
      else
        var l := legs[|legs| - 1];
        if !Reduces(accounts[l.account].Normal(), l.side) then None
        else if l.account !in cache then Some(AccountNotFound(l.account))
        else if Balance(cache[l.account]).HasAvailable(l.amount) then None
        else Some(InsufficientFunds(l.account, Balance(cache[l.account]).available, l.amount))
  }

  /** The funds check passes exactly when every leg, taken alone, is funded. */
  lemma {:induction false} FundsExact(rows: map<int, AccountRow>, cache: map<int, Cached>, legs: seq<Leg>)
    requires AccountsExist(rows, legs)
    ensures FundsOutcome(rows, cache, legs).None? <==> forall i | 0 <= i < |legs| :: Funded(rows, cache, legs[i])
  {
    if legs != [] {
      var n := |legs| - 1;
      FundsExact(rows, cache, legs[..n]);
      assert forall i | 0 <= i < n :: legs[..n][i] == legs[i];
    }
  }

  predicate FirstUnfunded(rows: map<int, AccountRow>, cache: map<int, Cached>, legs: seq<Leg>, i: nat)
    requires AccountsExist(rows, legs)
  {
    i < |legs| && !Funded(rows, cache, legs[i]) && forall j | 0 <= j < i :: Funded(rows, cache, legs[j])
  }

  /** The error is that of the first leg that is not funded, with the figures of that leg and its account. */
  lemma {:induction false} FundsReport(rows: map<int, AccountRow>, cache: map<int, Cached>, legs: seq<Leg>, i: nat)
    requires AccountsExist(rows, legs) && FirstUnfunded(rows, cache, legs, i)
    ensures var l := legs[i];
            FundsOutcome(rows, cache, legs) == Some(
              if l.account !in cache then AccountNotFound(l.account)
              else InsufficientFunds(l.account, Clamp(cache[l.account].posted - cache[l.account].pending), l.amount))
    decreases |legs|
  {
    var n := |legs| - 1;
    if i < n {
      FundsReport(rows, cache, legs[..n], i);
    } else {
      FundsExact(rows, cache, legs[..n]);
    }
  }

  /** The legs whose funds are checked are those that lower their account. */
  lemma ReducesIffLowers(nb: NormalBalance, l: Leg)
    requires ValidLeg(l)
    ensures Reduces(nb, l.side) <==> LegDelta(nb, l) < 0
  {
  }

  ghost predicate OwnsKey(db: Db, tid: int, key: string) {
    tid in db.transactions && db.transactions[tid].key == key
  }

  ghost function KeyOwner(db: Db, key: string): (r: Option<int>)
    ensures r.Some? ==> OwnsKey(db, r.value, key)
    ensures r.None? ==> forall t :: !OwnsKey(db, t, key)
  {
    if exists t :: OwnsKey(db, t, key) then
      var t :| OwnsKey(db, t, key);
      Some(t)
    else None
  }

  // Cache

  function Snapshot(accounts: map<int, AccountRow>): map<int, Cached> {
    map a | a in accounts :: Cached(accounts[a].posted, accounts[a].pending)
  }

  /** Saturating application of each touched account's net movement; ids that are not cached stay absent. */
  function CacheMoved(cache: map<int, Cached>, accounts: map<int, AccountRow>, legs: seq<Leg>, m: Movement): map<int, Cached> {
    map a | a in cache ::
      if a in accounts && Touches(legs, a) then
        var d := Net(legs, accounts[a].Normal(), a);
        Cached(SatAdd(cache[a].posted, m.PostedShare() * d), SatAdd(cache[a].pending, m.PendingShare() * d))
      else cache[a]
  }

  // Steps

  function OpenStep(s: State, accountType: int, assetCode: string, assetScale: int, now: Clock): (State, Response) {
    var kind, scale := ParseAccountType(accountType), assetScale % 256;
    if kind.None? || assetCode == "" || scale > 18 then (s, Refused(InvalidArgument))
    else if |assetCode| > 16 then (s, Refused(Database))
    else
      var a := s.nextAccount;
      var row := AccountRow(kind.value, assetCode, scale, 0, 0, 0, now);
      (s.(db := Opened(s.db, a, row), cache := s.cache[a := Cached(0, 0)], nextAccount := a + 1), AccountOpened(AccountView(a, row)))
  }

  function HeldState(s: State, key: string, legs: seq<Leg>, now: Clock): State {
    State(Authorised(s.db, s.nextTx, key, legs, now), CacheMoved(s.cache, s.db.accounts, legs, Hold),
          s.nextAccount, s.nextTx + 1)
  }

  ghost function HoldStep(s: State, key: string, legs: seq<Leg>, now: Clock): (State, Response) {
    var owner := KeyOwner(s.db, key);
    if owner.Some? then
      (s, Accepted(View(owner.value, s.db.transactions[owner.value]), Filter(s.db.entries, OfTx(owner.value))))
    else if !AccountsExist(s.db.accounts, legs) then
      (s, Refused(AccountNotFound(match FirstMissing(s.db.accounts, legs) case Some(a) => a case None => 0)))
    else if FundsOutcome(s.db.accounts, s.cache, legs).Some? then
      (s, Refused(FundsOutcome(s.db.accounts, s.cache, legs).value))
    else if |key| > 64 then (s, Refused(Database))
    else if !AllFit(MoveAll(s.db.accounts, legs, Hold)) then
      (s.(nextTx := s.nextTx + 1), Refused(Database))
    else
      (HeldState(s, key, legs, now),
       Accepted(TxView(s.nextTx, key, TransactionStatus.Pending, now, 0), NewEntries(s.nextTx, legs, now)))
  }

  ghost function AuthorizeStep(s: State, key: string, legs: seq<ProtoLeg>, now: Clock): (State, Response) {
    if key == "" then (s, Refused(InvalidArgument))
    else
      var parsed := ParseLegs(legs);
      if parsed.Failure? then (s, Refused(parsed.error))
      else
        var outcome := ValidationOutcome(parsed.value);
        if outcome.Failure? then (s, Refused(Rejected(outcome.error)))
        else HoldStep(s, key, parsed.value, now)
  }

  function SettleStep(s: State, tid: int, m: Movement, now: int): (State, Response)
    requires !m.Hold?
  {
    if tid <= 0 then (s, Refused(InvalidTransactionId(tid)))
    else if tid !in s.db.transactions then (s, Refused(TransactionNotFound(tid)))
    else
      var row := s.db.transactions[tid];
      if row.status == m.TxTarget() then (s, Accepted(View(tid, row), []))
      else if !row.status.Pending? then (s, Refused(InvalidTransactionState(tid, row.status)))
      else if !AllFit(MoveAll(s.db.accounts, LegsOf(s.db.entries, tid), m)) then (s, Refused(Database))
      else
        (s.(db := Settled(s.db, tid, m, now),
            cache := CacheMoved(s.cache, s.db.accounts, LegsOf(s.db.entries, tid), m)),
         Accepted(View(tid, SettledRow(row, m, now)), []))
  }

  ghost function Step(s: State, r: Request): (State, Response) {
    match r
    case CreateAccount(kind, code, scale, now) => OpenStep(s, kind, code, scale, now)
    case Authorize(key, legs, now) => AuthorizeStep(s, key, legs, now)
    case CaptureTx(tid, now) => SettleStep(s, tid, Movement.Capture, now)
    case VoidTx(tid) => SettleStep(s, tid, Movement.Void, 1)
    case Restart => (s.(cache := Snapshot(s.db.accounts)), Restarted)
  }

  /** The state after serving the requests one after another. */
  ghost function Run(s: State, rs: seq<Request>): State {
    if rs == [] then s else Step(Run(s, rs[..|rs| - 1]), rs[|rs| - 1]).0
  }

  /** The answer the `i`-th request of a run gets. */
  ghost function Answer(s: State, rs: seq<Request>, i: nat): Response
    requires i < |rs|
  {
    Step(Run(s, rs[..i]), rs[i]).1
  }

  /** Tables satisfy their invariant, the cache mirrors them, and the sequences are ahead of every id. */
  ghost predicate Valid(s: State) {
    Inv(s.db) && Synced(s)
  }

  predicate Synced(s: State) {
    && s.cache == Snapshot(s.db.accounts)
    && 0 < s.nextAccount && (forall a | a in s.db.accounts :: a < s.nextAccount)
    && 0 < s.nextTx && (forall t | t in s.db.transactions :: t < s.nextTx)
  }

  /** Applying the updates one by one, as the handlers do after the commit, moves the cache by the nets. */
  lemma ApplyAllIsCacheMoved(cache: map<int, Cached>, accounts: map<int, AccountRow>, legs: seq<Leg>, m: Movement)
    requires AccountsExist(accounts, legs)
    ensures ApplyAll(cache, UpdatesOf(legs, accounts, m)) == CacheMoved(cache, accounts, legs, m)
  {
    var us := UpdatesOf(legs, accounts, m);
    UpdatesExact(legs, accounts, m);
    ApplyAllEach(cache, us);
    forall a | a in cache
      ensures CacheAfter(cache, us, a) == CacheMoved(cache, accounts, legs, m)[a]
    {
      if i :| 0 <= i < |us| && us[i].account == a {
        assert Covers(us, a);
        FindDistinct(us, i);
        assert NetUpdate(us[i], legs, accounts, m);
      } else {
        assert !Covers(us, a);
      }
    }
  }

  lemma RefusalKeeps(s: State, key: string, legs: seq<ProtoLeg>, now: Clock)
    ensures var (s', r) := AuthorizeStep(s, key, legs, now);
            r.Refused? ==> s'.db == s.db && s'.cache == s.cache
  {
  }

  // The invariant over every run

  /** The saturating adds never clamp: the updated cache is the snapshot of the updated rows. */
  lemma CacheNeverClamps(accounts: map<int, AccountRow>, legs: seq<Leg>, m: Movement)
    requires AllFit(MoveAll(accounts, legs, m))
    ensures CacheMoved(Snapshot(accounts), accounts, legs, m) == Snapshot(MoveAll(accounts, legs, m))
  {
    var moved := MoveAll(accounts, legs, m);
    forall a | a in accounts
      ensures CacheMoved(Snapshot(accounts), accounts, legs, m)[a] == Snapshot(moved)[a]
    {
      assert moved[a].Fits();
    }
  }

  /** The branch of `HoldStep` that commits. */
  ghost predicate Holds(s: State, key: string, legs: seq<Leg>) {
    && KeyOwner(s.db, key).None? && AccountsExist(s.db.accounts, legs)
    && FundsOutcome(s.db.accounts, s.cache, legs).None? && |key| <= 64
    && AllFit(MoveAll(s.db.accounts, legs, Hold))
  }

  lemma HoldsCanHold(s: State, key: string, legs: seq<Leg>, now: Clock)
    requires 0 < s.nextTx && (forall t | t in s.db.transactions :: t < s.nextTx)
    requires key != "" && ValidLegs(legs) && Acceptable(legs) && Holds(s, key, legs)
    ensures CanHold(s.db, s.nextTx, key, legs, now)
  {
    assert forall t | t in s.db.transactions :: !OwnsKey(s.db, t, key);
  }

  /** The four refusals leave tables and cache alone; at most a transaction id is used up. */
  lemma HoldStepCases(s: State, key: string, legs: seq<Leg>, now: Clock)
    ensures var s' := HoldStep(s, key, legs, now).0;
            if Holds(s, key, legs) then s' == HeldState(s, key, legs, now)
            else s' == s || s' == s.(nextTx := s.nextTx + 1)
  {
  }

  lemma HeldStateValid(s: State, key: string, legs: seq<Leg>, now: Clock)
    requires Valid(s) && CanHold(s.db, s.nextTx, key, legs, now)
    ensures Valid(HeldState(s, key, legs, now))
  {
    HoldKeeps(s.db, s.nextTx, key, legs, now);
    HeldStateSynced(s, key, legs, now);
  }

  lemma HeldStateSynced(s: State, key: string, legs: seq<Leg>, now: Clock)
    requires Synced(s) && AllFit(MoveAll(s.db.accounts, legs, Hold))
    ensures Synced(HeldState(s, key, legs, now))
  {
    CacheNeverClamps(s.db.accounts, legs, Hold);
  }

  lemma HoldStepKeeps(s: State, key: string, legs: seq<Leg>, now: Clock)
    requires Valid(s) && key != "" && ValidLegs(legs) && Acceptable(legs)
    ensures Valid(HoldStep(s, key, legs, now).0)
  {
    HoldStepCases(s, key, legs, now);
    if Holds(s, key, legs) {
      HoldsCanHold(s, key, legs, now);
      HeldStateValid(s, key, legs, now);
    }
  }

  lemma SettleStepKeeps(s: State, tid: int, m: Movement, now: Clock)
    requires Valid(s) && !m.Hold?
    ensures Valid(SettleStep(s, tid, m, now).0)
  {
    if CanSettle(s.db, tid, m, now) {
      SettleKeeps(s.db, tid, m, now);
      CacheNeverClamps(s.db.accounts, LegsOf(s.db.entries, tid), m);
    }
  }

  lemma OpenStepKeeps(s: State, accountType: int, assetCode: string, assetScale: int, now: Clock)
    requires Valid(s)
    ensures Valid(OpenStep(s, accountType, assetCode, assetScale, now).0)
  {
    var (s', r) := OpenStep(s, accountType, assetCode, assetScale, now);
    if r.AccountOpened? {
      OpenKeeps(s.db, s.nextAccount, s'.db.accounts[s.nextAccount]);
    }
  }

  lemma StepKeeps(s: State, r: Request)
    requires Valid(s)
    ensures Valid(Step(s, r).0)
  {
    match r
    case CreateAccount(kind, code, scale, now) => OpenStepKeeps(s, kind, code, scale, now);
    case Authorize(key, legs, now) =>
      if key != "" && ParseLegs(legs).Success? && ValidationOutcome(ParseLegs(legs).value).Success? {
        HoldStepKeeps(s, key, ParseLegs(legs).value, now);
      }
    case CaptureTx(tid, now) => SettleStepKeeps(s, tid, Movement.Capture, now);
    case VoidTx(tid) => SettleStepKeeps(s, tid, Movement.Void, 1);
    case Restart =>
  }

  lemma {:induction false} RunKeeps(s: State, rs: seq<Request>)
    requires Valid(s)
    ensures Valid(Run(s, rs))
  {
    if rs != [] {
      RunKeeps(s, rs[..|rs| - 1]);
      StepKeeps(Run(s, rs[..|rs| - 1]), rs[|rs| - 1]);
    }
  }

  lemma InitValid()
    ensures Valid(INIT)
  {
  }

  /** Every state a server can be in, whatever requests and restarts it has served. */
  lemma Reachable(rs: seq<Request>)
    ensures Valid(Run(INIT, rs))
  {
    InitValid();
    RunKeeps(INIT, rs);
  }
}
