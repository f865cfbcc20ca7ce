/** Checked-arithmetic folds over legs and entries: the two validation loops and what they decide. */
module Validation {
  import opened Domain
  import opened Sums

  datatype ValidationError =
    | InsufficientLegs(count: nat)
    | UnbalancedTransaction(totalDebits: int, totalCredits: int)
    | SumOverflow
    | BalanceOverflow

  datatype AccountBalance = AccountBalance(posted: int, pending: int, available: int) {
    predicate HasAvailable(amount: int) {
      available >= amount
    }
  }

  /** A stored leg of a transaction. */
  datatype Entry = Entry(tid: int, leg: Leg, status: EntryStatus, createdAt: int)

  predicate ValidEntries(entries: seq<Entry>) {
    forall i | 0 <= i < |entries| :: ValidLeg(entries[i].leg)
  }

  function SideAmount(side: EntryType): Leg -> int {
    (l: Leg) => if l.side == side then l.amount else 0
  }

  /** Total amount of the legs on one side. */
  function Total(legs: seq<Leg>, side: EntryType): int {
    Sum(legs, SideAmount(side))
  }

  function StatusAmount(status: EntryStatus, side: EntryType): Entry -> int {
    (e: Entry) => if e.status == status && e.leg.side == side then e.leg.amount else 0
  }

  /** Total amount of the entries with one status on one side. */
  function StatusTotal(entries: seq<Entry>, status: EntryStatus, side: EntryType): int {
    Sum(entries, StatusAmount(status, side))
  }

  function StatusDelta(status: EntryStatus, nb: NormalBalance): Entry -> int {
    (e: Entry) => if e.status == status then LegDelta(nb, e.leg) else 0
  }

  /** The balance the entries of one status give an account, as a fold of signed deltas. */
  function Derived(entries: seq<Entry>, status: EntryStatus, nb: NormalBalance): int {
    Sum(entries, StatusDelta(status, nb))
  }

  predicate Acceptable(legs: seq<Leg>) {
    |legs| >= 2 && Total(legs, Debit) == Total(legs, Credit) <= I64_MAX
  }

  function ValidationOutcome(legs: seq<Leg>): Result<(), ValidationError> {
    var debits, credits := Total(legs, Debit), Total(legs, Credit);
    if |legs| < 2 then Failure(InsufficientLegs(|legs|))
    else if debits > I64_MAX || credits > I64_MAX then Failure(SumOverflow)
    else if debits != credits then Failure(UnbalancedTransaction(debits, credits))
    else Success(())
  }

  /** What each outcome of the validation says about the legs. */
  ghost predicate ValidatedAs(legs: seq<Leg>, r: Result<(), ValidationError>) {
    var debits, credits := Total(legs, Debit), Total(legs, Credit);
    && (r.Success? <==> |legs| >= 2 && debits == credits <= I64_MAX)
    && (forall n :: r == Failure(InsufficientLegs(n)) <==> n == |legs| < 2)
    && (r == Failure(SumOverflow) <==> |legs| >= 2 && (debits > I64_MAX || credits > I64_MAX))
    && (forall d, c :: r == Failure(UnbalancedTransaction(d, c)) <==>
          |legs| >= 2 && d == debits <= I64_MAX && c == credits <= I64_MAX && d != c)
  }

  lemma ValidationExact(legs: seq<Leg>)
    ensures ValidatedAs(legs, ValidationOutcome(legs))
  {
  }

  /** `i64::checked_add` of non-negative operands. */
  function CheckedAdd(x: int, y: int): Option<int> {
    if FitsI64(x + y) then Some(x + y) else None
  }

  function CheckedSub(x: int, y: int): Option<int> {
    if FitsI64(x - y) then Some(x - y) else None
  }

  lemma TotalPrefix(legs: seq<Leg>, n: nat, side: EntryType)
    requires n <= |legs| && ValidLegs(legs)
    ensures 0 <= Total(legs[..n], side) <= Total(legs, side)
  {
    SumPrefix(legs, n, SideAmount(side));
  }

  /** The loop stops at the first overflowing prefix; the outcome is that of the whole list. */
  method ValidateTransactionBalance(legs: seq<Leg>) returns (r: Result<(), ValidationError>)
    requires ValidLegs(legs)
    ensures r == ValidationOutcome(legs)
    ensures ValidatedAs(legs, r)
  {
    if |legs| < 2 {
      return Failure(InsufficientLegs(|legs|));
    }
    var totalDebits, totalCredits := 0, 0;
    for i := 0 to |legs|
      invariant totalDebits == Total(legs[..i], Debit) && totalCredits == Total(legs[..i], Credit)
      invariant 0 <= totalDebits <= I64_MAX && 0 <= totalCredits <= I64_MAX
    {
      assert legs[..i + 1][..i] == legs[..i];
      TotalPrefix(legs, i + 1, Debit);
      TotalPrefix(legs, i + 1, Credit);
      var leg := legs[i];
      match leg.side {
        case Debit =>
          var t := CheckedAdd(totalDebits, leg.amount);
          if t.None? { return Failure(SumOverflow); }
          totalDebits := t.value;
        case Credit =>
          var t := CheckedAdd(totalCredits, leg.amount);
          if t.None? { return Failure(SumOverflow); }
          totalCredits := t.value;
      }
    }
    assert legs[..|legs|] == legs;
    if totalDebits != totalCredits {
      return Failure(UnbalancedTransaction(totalDebits, totalCredits));
    }
    return Success(());
  }

  /** Order of the legs decides nothing, not even which error or which totals are reported. */
  lemma ValidationPermutes(legs: seq<Leg>, other: seq<Leg>)
    requires multiset(legs) == multiset(other)
    ensures ValidationOutcome(legs) == ValidationOutcome(other)
  {
    SumPermute(legs, other, SideAmount(Debit));
    SumPermute(legs, other, SideAmount(Credit));
    assert |legs| == |multiset(legs)| == |multiset(other)| == |other|;
  }

  /** An accepted transfer has money on both sides. */
  lemma AcceptedHasBothSides(legs: seq<Leg>)
    requires ValidLegs(legs) && ValidationOutcome(legs).Success?
    ensures exists d, c :: d in legs && c in legs && d.side.Debit? && c.side.Credit?
  {
    var first, side := legs[0], legs[0].side;
    TotalPrefix(legs, 1, side);
    assert legs[..1] == [] + [first];
    SumSnoc([], first, SideAmount(side));
    var opposite: EntryType := if side.Debit? then Credit else Debit;
    if l :| l in legs && l.side == opposite {
      var d, c := if side.Debit? then first else l, if side.Debit? then l else first;
      assert d in legs && c in legs && d.side.Debit? && c.side.Credit?;
    } else {
      SumZero(legs, SideAmount(opposite));
      assert false;
    }
  }

  /** None of the four side totals leaves i64. */
  predicate SumsFit(entries: seq<Entry>) {
    && StatusTotal(entries, EntryStatus.Posted, Debit) <= I64_MAX
    && StatusTotal(entries, EntryStatus.Posted, Credit) <= I64_MAX
    && StatusTotal(entries, EntryStatus.Pending, Debit) <= I64_MAX
    && StatusTotal(entries, EntryStatus.Pending, Credit) <= I64_MAX
  }

  function ComputeOutcome(nb: NormalBalance, entries: seq<Entry>): Result<AccountBalance, ValidationError> {
    var posted := Derived(entries, EntryStatus.Posted, nb);
    var pending := Derived(entries, EntryStatus.Pending, nb);
    if !SumsFit(entries) then Failure(SumOverflow)
    else if !FitsI64(posted - pending) then Failure(BalanceOverflow)
    else Success(AccountBalance(posted, pending, posted - pending))
  }

  /** The signed fold is the difference of the two side totals. */
  lemma {:induction false} DerivedIsSideDifference(entries: seq<Entry>, status: EntryStatus, nb: NormalBalance)
    ensures Derived(entries, status, nb) == SideDifference(entries, status, nb)
  {
    if entries != [] {
      DerivedIsSideDifference(entries[..|entries| - 1], status, nb);
    }
  }

  lemma StatusTotalStep(entries: seq<Entry>, i: nat, status: EntryStatus, side: EntryType)
    requires i < |entries| && ValidEntries(entries)
    ensures StatusTotal(entries[..i + 1], status, side)
            == StatusTotal(entries[..i], status, side) + StatusAmount(status, side)(entries[i])
    ensures StatusTotal(entries[..i + 1], status, side) <= StatusTotal(entries, status, side)
  {
    SumPrefix(entries, i + 1, StatusAmount(status, side));
    assert entries[..i + 1] == entries[..i] + [entries[i]];
    SumSnoc(entries[..i], entries[i], StatusAmount(status, side));
  }

  /** Debits minus credits for a debit-normal account, credits minus debits for a credit-normal one. */
  function SideDifference(entries: seq<Entry>, status: EntryStatus, nb: NormalBalance): int {
    var debits, credits := StatusTotal(entries, status, Debit), StatusTotal(entries, status, Credit);
    match nb
    case DebitNormal => debits - credits
    case CreditNormal => credits - debits
  }

  predicate SideOverflows(entries: seq<Entry>) {
    || StatusTotal(entries, EntryStatus.Posted, Debit) > I64_MAX
    || StatusTotal(entries, EntryStatus.Posted, Credit) > I64_MAX
    || StatusTotal(entries, EntryStatus.Pending, Debit) > I64_MAX
    || StatusTotal(entries, EntryStatus.Pending, Credit) > I64_MAX
  }

  /** What each outcome of the recomputation says about the entries. */
  ghost predicate ComputedAs(nb: NormalBalance, entries: seq<Entry>, r: Result<AccountBalance, ValidationError>) {
    var posted := SideDifference(entries, EntryStatus.Posted, nb);
    var pending := SideDifference(entries, EntryStatus.Pending, nb);
    && (r == Failure(SumOverflow) <==> SideOverflows(entries))
    && (r == Failure(BalanceOverflow) <==> !SideOverflows(entries) && !(I64_MIN <= posted - pending <= I64_MAX))
    && (r.Success? <==> !SideOverflows(entries) && I64_MIN <= posted - pending <= I64_MAX)
    && (r.Success? ==> r.value.posted == posted && r.value.pending == pending && r.value.available == posted - pending)
  }

  lemma ComputeExact(nb: NormalBalance, entries: seq<Entry>)
    ensures ComputedAs(nb, entries, ComputeOutcome(nb, entries))
  {
    DerivedIsSideDifference(entries, EntryStatus.Posted, nb);
    DerivedIsSideDifference(entries, EntryStatus.Pending, nb);
  }

  /** Four checked accumulators, then three checked subtractions of which only the last can fail. */
  method ComputeAccountBalance(nb: NormalBalance, entries: seq<Entry>)
    returns (r: Result<AccountBalance, ValidationError>)
    requires ValidEntries(entries)
    ensures r == ComputeOutcome(nb, entries)
    ensures ComputedAs(nb, entries, r)
  {
    ComputeExact(nb, entries);
    var postedDebits, postedCredits, pendingDebits, pendingCredits := 0, 0, 0, 0;
    for i := 0 to |entries|
      invariant postedDebits == StatusTotal(entries[..i], EntryStatus.Posted, Debit)
      invariant postedCredits == StatusTotal(entries[..i], EntryStatus.Posted, Credit)
      invariant pendingDebits == StatusTotal(entries[..i], EntryStatus.Pending, Debit)
      invariant pendingCredits == StatusTotal(entries[..i], EntryStatus.Pending, Credit)
      invariant 0 <= postedDebits <= I64_MAX && 0 <= postedCredits <= I64_MAX
      invariant 0 <= pendingDebits <= I64_MAX && 0 <= pendingCredits <= I64_MAX
    {
      StatusTotalStep(entries, i, EntryStatus.Posted, Debit);
      StatusTotalStep(entries, i, EntryStatus.Posted, Credit);
      StatusTotalStep(entries, i, EntryStatus.Pending, Debit);
      StatusTotalStep(entries, i, EntryStatus.Pending, Credit);
      var entry := entries[i];
      if entry.status == EntryStatus.Voided {
        continue;
      }
      var amount := entry.leg.amount;
      if entry.status == EntryStatus.Posted {
        match entry.leg.side {
          case Debit =>
            var t := CheckedAdd(postedDebits, amount);
            if t.None? { return Failure(SumOverflow); }
            postedDebits := t.value;
          case Credit =>
            var t := CheckedAdd(postedCredits, amount);
            if t.None? { return Failure(SumOverflow); }
            postedCredits := t.value;
        }
      } else {
        match entry.leg.side {
          case Debit =>
            var t := CheckedAdd(pendingDebits, amount);
            if t.None? { return Failure(SumOverflow); }
            pendingDebits := t.value;
          case Credit =>
            var t := CheckedAdd(pendingCredits, amount);
            if t.None? { return Failure(SumOverflow); }
            pendingCredits := t.value;
        }
      }
    }
    assert entries[..|entries|] == entries;
    DerivedIsSideDifference(entries, EntryStatus.Posted, nb);
    DerivedIsSideDifference(entries, EntryStatus.Pending, nb);
    var posted, pending;
    match nb {
      case DebitNormal =>
        posted, pending := CheckedSub(postedDebits, postedCredits), CheckedSub(pendingDebits, pendingCredits);
      case CreditNormal =>
        posted, pending := CheckedSub(postedCredits, postedDebits), CheckedSub(pendingCredits, pendingDebits);
    }
    if posted.None? || pending.None? {
      return Failure(BalanceOverflow);
    }
    var available := CheckedSub(posted.value, pending.value);
    if available.None? {
      return Failure(BalanceOverflow);
    }
    return Success(AccountBalance(posted.value, pending.value, available.value));
  }

  function Live(): Entry -> bool {
    (e: Entry) => e.status != EntryStatus.Voided
  }

  /** The whole result, error included, depends only on the multiset of non-voided entries. */
  lemma ComputeIgnoresOrderAndVoided(nb: NormalBalance, entries: seq<Entry>, other: seq<Entry>)
    requires multiset(Filter(entries, Live())) == multiset(Filter(other, Live()))
    ensures ComputeOutcome(nb, entries) == ComputeOutcome(nb, other)
  {
    forall status | status != EntryStatus.Voided {
      SameLiveStatus(nb, entries, other, status);
    }
    SameSumsSameOutcome(nb, entries, other);
  }

  lemma SameSumsSameOutcome(nb: NormalBalance, entries: seq<Entry>, other: seq<Entry>)
    requires forall status, side | status != EntryStatus.Voided ::
               StatusTotal(entries, status, side) == StatusTotal(other, status, side)
    requires forall status | status != EntryStatus.Voided :: Derived(entries, status, nb) == Derived(other, status, nb)
    ensures ComputeOutcome(nb, entries) == ComputeOutcome(nb, other)
  {
  }

  lemma SameLiveStatus(nb: NormalBalance, entries: seq<Entry>, other: seq<Entry>, status: EntryStatus)
    requires multiset(Filter(entries, Live())) == multiset(Filter(other, Live()))
    requires status != EntryStatus.Voided
    ensures forall side :: StatusTotal(entries, status, side) == StatusTotal(other, status, side)
    ensures Derived(entries, status, nb) == Derived(other, status, nb)
  {
    forall side {
      SameLiveSum(entries, other, StatusAmount(status, side));
    }
    SameLiveSum(entries, other, StatusDelta(status, nb));
  }

  lemma SameLiveSum(entries: seq<Entry>, other: seq<Entry>, f: Entry -> int)
    requires multiset(Filter(entries, Live())) == multiset(Filter(other, Live()))
    requires forall e: Entry :: !Live()(e) ==> f(e) == 0
    ensures Sum(entries, f) == Sum(other, f)
  {
    SumFilter(entries, Live(), f);
    SumFilter(other, Live(), f);
    SumPermute(Filter(entries, Live()), Filter(other, Live()), f);
  }
}
