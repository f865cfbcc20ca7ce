/** What every request answers and does, in terms of the fields of the request and of the tables alone. */
module Answers {
  import opened Domain
  import opened Sums
  import opened Validation
  import opened Tables
  import opened Ledger
  import opened Checker

  // Opening an account

  predicate AskedRight(accountType: int, assetCode: string, assetScale: int) {
    1 <= accountType <= 5 && 0 < |assetCode| <= 16 && assetScale % 256 <= 18
  }

  /** The account is stored and reported as asked for, under the next id; nothing else changes but the cache's new entry. */
  ghost predicate OpensAsAsked(s: State, r: Request, s': State, account: Account)
    requires r.CreateAccount?
  {
    var a := s.nextAccount;
    && account.id == a && AccountTypeCode(account.kind) == r.accountType && account.assetCode == r.assetCode
    && account.assetScale == r.assetScale % 256 && account.version == 0 && account.createdAt == r.now
    && s'.db.accounts.Keys == s.db.accounts.Keys + {a}
    && AccountView(a, s'.db.accounts[a]) == account && s'.db.accounts[a].posted == s'.db.accounts[a].pending == 0
    && (forall b | b in s.db.accounts && b != a :: s'.db.accounts[b] == s.db.accounts[b])
    && s'.db.transactions == s.db.transactions && s'.db.entries == s.db.entries
    && s'.cache == s.cache[a := Cached(0, 0)] && s'.nextAccount == a + 1 && s'.nextTx == s.nextTx
  }

  lemma OpenAnswer(s: State, r: Request)
    requires r.CreateAccount?
    ensures var (s', answer) := Step(s, r);
            && (answer.AccountOpened? <==> AskedRight(r.accountType, r.assetCode, r.assetScale))
            && (answer.AccountOpened? ==> OpensAsAsked(s, r, s', answer.account))
            && (!answer.AccountOpened? ==> s' == s)
            && (answer == Refused(InvalidArgument) <==>
                !(1 <= r.accountType <= 5) || r.assetCode == "" || r.assetScale % 256 > 18)
            && (answer == Refused(Database) <==>
                1 <= r.accountType <= 5 && |r.assetCode| > 16 && r.assetScale % 256 <= 18)
  {
  }

  /** The five codes of the wire format, and no others, name the account types. */
  lemma CodesNameTypes(code: int)
    ensures ParseAccountType(code) ==
            if code == 1 then Some(Asset) else if code == 2 then Some(Liability) else if code == 3 then Some(Equity)
            else if code == 4 then Some(Revenue) else if code == 5 then Some(Expense) else None
    ensures ParseAccountType(code).Some? ==> AccountTypeCode(ParseAccountType(code).value) == code
  {
  }

  /** The new id was not in use. */
  lemma OpenIdFresh(s: State)
    requires Valid(s)
    ensures s.nextAccount !in s.db.accounts && s.nextAccount !in s.cache && s.nextTx !in s.db.transactions
  {
  }

  // Movements in range

  /** The columns can hold every touched row after the movement. */
  predicate InRange(accounts: map<int, AccountRow>, legs: seq<Leg>, m: Movement) {
    forall a | a in accounts && Touches(legs, a) ::
      var row, d := accounts[a], Net(legs, accounts[a].Normal(), a);
      && (m.Capture? ==> I64_MIN <= row.posted + d <= I64_MAX)
      && I64_MIN <= (if m.Hold? then row.pending + d else row.pending - d) <= I64_MAX
      && row.version < I32_MAX
  }

  lemma InRangeIffFits(db: Db, legs: seq<Leg>, m: Movement)
    requires AccountsOk(db)
    ensures InRange(db.accounts, legs, m) <==> AllFit(MoveAll(db.accounts, legs, m))
  {
    var moved := MoveAll(db.accounts, legs, m);
    forall a | a in db.accounts
      ensures !Touches(legs, a) ==> moved[a].Fits()
      ensures Touches(legs, a) ==> (moved[a].Fits() <==>
                var row, d := db.accounts[a], Net(legs, db.accounts[a].Normal(), a);
                && (m.Capture? ==> I64_MIN <= row.posted + d <= I64_MAX)
                && I64_MIN <= (if m.Hold? then row.pending + d else row.pending - d) <= I64_MAX
                && row.version < I32_MAX)
    {
      assert RowOk(a, db.accounts[a]);
    }
  }

  // Capturing and voiding

  function SettleRequest(tid: i64, capture: bool, now: Clock): Request {
    if capture then CaptureTx(tid, now) else VoidTx(tid)
  }

  predicate StoredWith(s: State, tid: int, status: TransactionStatus) {
    tid in s.db.transactions && s.db.transactions[tid].status == status
  }

  predicate SettleableNow(s: State, tid: int, capture: bool) {
    && StoredWith(s, tid, TransactionStatus.Pending)
    && InRange(s.db.accounts, LegsOf(s.db.entries, tid), if capture then Movement.Capture else Movement.Void)
  }

  function Final(capture: bool): TransactionStatus {
    if capture then TransactionStatus.Posted else TransactionStatus.Voided
  }

  /** A settlement is accepted for a settled transaction of its own kind, and for a Pending one in range. */
  lemma SettleAcceptedIff(s: State, tid: i64, capture: bool, now: Clock)
    requires AccountsOk(s.db)
    ensures Step(s, SettleRequest(tid, capture, now)).1.Accepted? <==>
            0 < tid && (StoredWith(s, tid, Final(capture)) || SettleableNow(s, tid, capture))
  {
    if tid in s.db.transactions {
      InRangeIffFits(s.db, LegsOf(s.db.entries, tid), if capture then Movement.Capture else Movement.Void);
    }
  }

  /** Every refusal, with its error; none changes anything. */
  lemma SettleRefusals(s: State, tid: i64, capture: bool, now: Clock)
    requires AccountsOk(s.db)
    ensures var (s', answer) := Step(s, SettleRequest(tid, capture, now));
            && (answer.Refused? ==> s' == s)
            && (tid <= 0 ==> answer == Refused(InvalidTransactionId(tid)))
            && (0 < tid && tid !in s.db.transactions ==> answer == Refused(TransactionNotFound(tid)))
            && (forall status | 0 < tid && StoredWith(s, tid, status) && status != Final(capture) && !status.Pending? ::
                  answer == Refused(InvalidTransactionState(tid, status)))
            && (0 < tid && StoredWith(s, tid, TransactionStatus.Pending) && !SettleableNow(s, tid, capture) ==>
                  answer == Refused(Database))
  {
    if tid in s.db.transactions {
      InRangeIffFits(s.db, LegsOf(s.db.entries, tid), if capture then Movement.Capture else Movement.Void);
    }
  }

  /**
    An accepted capture reports and stores Posted, an accepted void Voided, with key and creation time as they
    were; a capture of a Pending transaction stamps its own clock, a void none.
   */
  lemma SettleAnswer(s: State, tid: i64, capture: bool, now: Clock)
    requires Step(s, SettleRequest(tid, capture, now)).1.Accepted?
    ensures var (s', answer) := Step(s, SettleRequest(tid, capture, now));
            && tid in s.db.transactions
            && var row, tx := s.db.transactions[tid], answer.tx;
            && tx.id == tid && tx.key == row.key && tx.createdAt == row.createdAt && tx.status == Final(capture)
            && answer.entries == []
            && StoredWith(s', tid, Final(capture)) && s'.db.transactions.Keys == s.db.transactions.Keys
            && (forall t | t in s.db.transactions && t != tid :: s'.db.transactions[t] == s.db.transactions[t])
            && (!row.status.Pending? ==> s' == s && tx == View(tid, row))
            && (row.status.Pending? ==>
                  && tx.postedAt == (if capture then now else 0)
                  && s'.db.transactions[tid].postedAt == (if capture then Some(now) else None))
  {
  }

  /** The entries of the settled transaction take the new status, and no others. */
  lemma SettleEntriesAnswer(s: State, tid: i64, capture: bool, now: Clock)
    requires Step(s, SettleRequest(tid, capture, now)).1.Accepted? && StoredWith(s, tid, TransactionStatus.Pending)
    ensures var es, es' := s.db.entries, Step(s, SettleRequest(tid, capture, now)).0.db.entries;
            && |es'| == |es|
            && forall i | 0 <= i < |es| ::
                 && es'[i] == es[i].(status := es'[i].status)
                 && (es[i].tid != tid ==> es'[i].status == es[i].status)
                 && (es[i].tid == tid ==>
                       es'[i].status == if capture then EntryStatus.Posted else EntryStatus.Voided)
  {
  }

  // Authorising: refusals before anything is read

  lemma AuthorizeMalformed(s: State, key: string, ps: seq<ProtoLeg>, now: Clock)
    ensures var (s', answer) := Step(s, Authorize(key, ps, now));
            && (key == "" ==> s' == s && answer == Refused(InvalidArgument))
            && (forall i: nat | key != "" && FirstBad(ps, i) ::
                  s' == s && answer.Refused? && BadLegError(ps[i], answer.error))
  {
    ParseExact(ps);
    forall i: nat | key != "" && FirstBad(ps, i)
      ensures ParseLegs(ps).Failure? && BadLegError(ps[i], ParseLegs(ps).error)
    {
      var j: nat :| FirstBad(ps, j) && BadLegError(ps[j], ParseLegs(ps).error);
      assert j == i;
    }
  }

  lemma AuthorizeUnbalanced(s: State, key: string, ps: seq<ProtoLeg>, legs: seq<Leg>, now: Clock)
    requires key != "" && ReadsAll(ps, legs) && !Acceptable(legs)
    ensures var (s', answer) := Step(s, Authorize(key, ps, now));
            s' == s && answer.Refused? && answer.error.Rejected? && ValidatedAs(legs, Failure(answer.error.reason))
  {
    ParseReads(ps, legs);
    ValidationExact(legs);
  }

  /** Past the checks of the request itself. */
  predicate WellAsked(key: string, ps: seq<ProtoLeg>, legs: seq<Leg>) {
    key != "" && ReadsAll(ps, legs) && Acceptable(legs)
  }

  lemma WellAskedReachesHold(s: State, key: string, ps: seq<ProtoLeg>, legs: seq<Leg>, now: Clock)
    requires WellAsked(key, ps, legs)
    ensures Step(s, Authorize(key, ps, now)) == HoldStep(s, key, legs, now) && ValidLegs(legs)
  {
    ParseReads(ps, legs);
    ValidationExact(legs);
  }

  // Authorising: a key that is taken

  lemma AuthorizeRepeats(s: State, key: string, ps: seq<ProtoLeg>, legs: seq<Leg>, now: Clock, t: int)
    requires WellAsked(key, ps, legs) && KeysUnique(s.db) && t in s.db.transactions && s.db.transactions[t].key == key
    ensures var (s', answer) := Step(s, Authorize(key, ps, now));
            && s' == s && answer.Accepted? && answer.entries == Filter(s.db.entries, OfTx(t))
            && var row, tx := s.db.transactions[t], answer.tx;
            && tx.id == t && tx.key == key && tx.status == row.status && tx.createdAt == row.createdAt
            && tx.postedAt == match row.postedAt case Some(at) => at case None => 0
  {
    WellAskedReachesHold(s, key, ps, legs, now);
    assert OwnsKey(s.db, t, key);
  }

  predicate KeyFree(db: Db, key: string) {
    forall t | t in db.transactions :: db.transactions[t].key != key
  }

  lemma FreeKeyHasNoOwner(db: Db, key: string)
    requires KeyFree(db, key)
    ensures KeyOwner(db, key).None?
  {
  }

  // Authorising: refusals by the tables

  /** The least account without a row is reported. */
  lemma AuthorizeMissing(s: State, key: string, ps: seq<ProtoLeg>, legs: seq<Leg>, now: Clock, a: int)
    requires WellAsked(key, ps, legs) && KeyFree(s.db, key)
    requires Touches(legs, a) && a !in s.db.accounts && forall b | Touches(legs, b) && b !in s.db.accounts :: a <= b
    ensures Step(s, Authorize(key, ps, now)) == (s, Refused(AccountNotFound(a)))
  {
    WellAskedReachesHold(s, key, ps, legs, now);
    FreeKeyHasNoOwner(s.db, key);
    FirstMissingIsLeast(s.db.accounts, legs);
    var i :| 0 <= i < |legs| && legs[i].account == a;
    assert !AccountsExist(s.db.accounts, legs);
  }

  /** The leg lowers its account by more than the tables have available there. */
  predicate Overdraws(accounts: map<int, AccountRow>, l: Leg)
    requires l.account in accounts
  {
    var row := accounts[l.account];
    LegDelta(row.Normal(), l) < 0 && Clamp(row.posted - row.pending) < l.amount
  }

  lemma OverdrawsIffUnfunded(accounts: map<int, AccountRow>, l: Leg)
    requires ValidLeg(l) && l.account in accounts
    ensures Overdraws(accounts, l) <==> !Funded(accounts, Snapshot(accounts), l)
  {
    ReducesIffLowers(accounts[l.account].Normal(), l);
  }

  predicate FirstOverdraft(accounts: map<int, AccountRow>, legs: seq<Leg>, i: nat)
    requires AccountsExist(accounts, legs)
  {
    i < |legs| && Overdraws(accounts, legs[i]) && forall j | 0 <= j < i :: !Overdraws(accounts, legs[j])
  }

  /** The first such leg is reported, with the available balance of the tables and its own amount. */
  lemma AuthorizeOverdraft(s: State, key: string, ps: seq<ProtoLeg>, legs: seq<Leg>, now: Clock, i: nat)
    requires WellAsked(key, ps, legs) && KeyFree(s.db, key) && s.cache == Snapshot(s.db.accounts)
    requires AccountsExist(s.db.accounts, legs) && FirstOverdraft(s.db.accounts, legs, i)
    ensures var l := legs[i];
            var row := s.db.accounts[l.account];
            Step(s, Authorize(key, ps, now))
            == (s, Refused(InsufficientFunds(l.account, Clamp(row.posted - row.pending), l.amount)))
  {
    WellAskedReachesHold(s, key, ps, legs, now);
    FreeKeyHasNoOwner(s.db, key);
    forall j | 0 <= j < |legs|
      ensures Overdraws(s.db.accounts, legs[j]) <==> !Funded(s.db.accounts, s.cache, legs[j])
    {
      OverdrawsIffUnfunded(s.db.accounts, legs[j]);
    }
    FundsReport(s.db.accounts, s.cache, legs, i);
  }

  /** Accounts exist, and no leg overdraws. */
  predicate Covered(accounts: map<int, AccountRow>, legs: seq<Leg>) {
    AccountsExist(accounts, legs) && forall i | 0 <= i < |legs| :: !Overdraws(accounts, legs[i])
  }

  lemma CoveredPasses(s: State, legs: seq<Leg>)
    requires ValidLegs(legs) && Covered(s.db.accounts, legs) && s.cache == Snapshot(s.db.accounts)
    ensures FundsOutcome(s.db.accounts, s.cache, legs).None?
  {
    forall i | 0 <= i < |legs|
      ensures Funded(s.db.accounts, s.cache, legs[i])
    {
      OverdrawsIffUnfunded(s.db.accounts, legs[i]);
    }
    FundsExact(s.db.accounts, s.cache, legs);
  }

  /** A key that is too long, or a balance or version that would leave its column: no change but a used-up id. */
  lemma AuthorizeDoesNotFit(s: State, key: string, ps: seq<ProtoLeg>, legs: seq<Leg>, now: Clock)
    requires WellAsked(key, ps, legs) && KeyFree(s.db, key) && AccountsOk(s.db) && s.cache == Snapshot(s.db.accounts)
    requires Covered(s.db.accounts, legs) && (|key| > 64 || !InRange(s.db.accounts, legs, Hold))
    ensures var (s', answer) := Step(s, Authorize(key, ps, now));
            && s' == s.(nextTx := if |key| > 64 then s.nextTx else s.nextTx + 1)
            && answer == Refused(Database)
  {
    WellAskedReachesHold(s, key, ps, legs, now);
    FreeKeyHasNoOwner(s.db, key);
    CoveredPasses(s, legs);
    InRangeIffFits(s.db, legs, Hold);
  }

  // Authorising: a new transaction

  /** One Pending entry per leg on the wire, with its fields. */
  predicate EntriesOfRequest(es: seq<Entry>, tid: int, ps: seq<ProtoLeg>, now: int) {
    && |es| == |ps|
    && forall i | 0 <= i < |ps| ::
         && es[i].tid == tid && es[i].status == EntryStatus.Pending && es[i].createdAt == now
         && es[i].leg.account == ps[i].accountId && es[i].leg.amount == ps[i].amount
         && (es[i].leg.side.Debit? <==> ps[i].entryType == 1)
  }

  /** A new Pending transaction under the next id is reported and stored, with the entries of the request. */
  ghost predicate HoldsAsAsked(s: State, key: string, ps: seq<ProtoLeg>, now: int, s': State, answer: Response) {
    var tid := s.nextTx;
    && answer.Accepted? && answer.tx == TxView(tid, key, TransactionStatus.Pending, now, 0)
    && EntriesOfRequest(answer.entries, tid, ps, now)
    && s'.db.entries == s.db.entries + answer.entries
    && s'.db.transactions.Keys == s.db.transactions.Keys + {tid}
    && s'.db.transactions[tid] == TxRow(key, TransactionStatus.Pending, now, None)
    && (forall t | t in s.db.transactions && t != tid :: s'.db.transactions[t] == s.db.transactions[t])
    && s'.nextTx == tid + 1 && s'.nextAccount == s.nextAccount
  }

  /** Every touched account's pending balance moves by its net, and its version by one; other rows stay. */
  ghost predicate HoldsPending(s: State, legs: seq<Leg>, s': State) {
    && s'.db.accounts.Keys == s.db.accounts.Keys
    && forall a | a in s.db.accounts ::
         var row := s.db.accounts[a];
         s'.db.accounts[a] == if !Touches(legs, a) then row
           else row.(pending := row.pending + Net(legs, row.Normal(), a), version := row.version + 1)
  }

  lemma HeldAsAsked(s: State, key: string, ps: seq<ProtoLeg>, legs: seq<Leg>, now: Clock)
    requires ReadsAll(ps, legs)
    ensures HoldsAsAsked(s, key, ps, now, HeldState(s, key, legs, now),
                         Accepted(TxView(s.nextTx, key, TransactionStatus.Pending, now, 0), NewEntries(s.nextTx, legs, now)))
  {
  }

  lemma HeldPending(s: State, key: string, legs: seq<Leg>, now: Clock)
    ensures HoldsPending(s, legs, HeldState(s, key, legs, now))
  {
  }

  /** A request that is well asked, under a free key, covered and in range, is served. */
  lemma AuthorizeServes(s: State, key: string, ps: seq<ProtoLeg>, legs: seq<Leg>, now: Clock)
    requires WellAsked(key, ps, legs) && KeyFree(s.db, key) && AccountsOk(s.db) && s.cache == Snapshot(s.db.accounts)
    requires Covered(s.db.accounts, legs) && |key| <= 64 && InRange(s.db.accounts, legs, Hold)
    ensures var (s', answer) := Step(s, Authorize(key, ps, now));
            HoldsAsAsked(s, key, ps, now, s', answer) && HoldsPending(s, legs, s')
  {
    WellAskedReachesHold(s, key, ps, legs, now);
    FreeKeyHasNoOwner(s.db, key);
    CoveredPasses(s, legs);
    InRangeIffFits(s.db, legs, Hold);
    HeldAsAsked(s, key, ps, legs, now);
    HeldPending(s, key, legs, now);
  }

  /** Whenever an authorize under a free key is accepted, it is such a request. */
  lemma AuthorizeAcceptedOnly(s: State, key: string, ps: seq<ProtoLeg>, now: Clock) returns (legs: seq<Leg>)
    requires AccountsOk(s.db) && s.cache == Snapshot(s.db.accounts)
    requires KeyFree(s.db, key) && Step(s, Authorize(key, ps, now)).1.Accepted?
    ensures WellAsked(key, ps, legs) && Covered(s.db.accounts, legs) && |key| <= 64 && InRange(s.db.accounts, legs, Hold)
  {
    ParseExact(ps);
    legs := ParseLegs(ps).value;
    ValidationExact(legs);
    FreeKeyHasNoOwner(s.db, key);
    FundsExact(s.db.accounts, s.cache, legs);
    forall i | 0 <= i < |legs|
      ensures !Overdraws(s.db.accounts, legs[i])
    {
      OverdrawsIffUnfunded(s.db.accounts, legs[i]);
    }
    InRangeIffFits(s.db, legs, Hold);
  }

  // Restarting

  lemma RestartAnswer(s: State)
    ensures var (s', answer) := Step(s, Restart);
            && answer.Restarted? && s'.db == s.db && s'.nextAccount == s.nextAccount && s'.nextTx == s.nextTx
            && s'.cache.Keys == s.db.accounts.Keys
            && forall a | a in s.db.accounts ::
                 s'.cache[a].posted == s.db.accounts[a].posted && s'.cache[a].pending == s.db.accounts[a].pending
  {
  }
}
