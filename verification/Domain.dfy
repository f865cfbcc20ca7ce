/** The value types of the ledger: ids, sides, statuses, legs, and the machine-integer ranges. */
module Domain {

  const I64_MAX: int := 0x7FFF_FFFF_FFFF_FFFF
  const I64_MIN: int := -0x8000_0000_0000_0000
  const I32_MAX: int := 0x7FFF_FFFF

  type i64 = x: int | -0x8000_0000_0000_0000 <= x <= 0x7FFF_FFFF_FFFF_FFFF
  type i32 = x: int | -0x8000_0000 <= x <= 0x7FFF_FFFF

  /** A reading of the wall clock in milliseconds; the epoch is past. */
  type Clock = x: int | 0 < x <= 0x7FFF_FFFF_FFFF_FFFF witness 1

  predicate FitsI64(x: int) {
    I64_MIN <= x <= I64_MAX
  }

  /** `i64::saturating_add`. */
  function SatAdd(x: int, y: int): int {
    Clamp(x + y)
  }

  /** `i64::saturating_sub`. */
  function SatSub(x: int, y: int): int {
    Clamp(x - y)
  }

  function Clamp(x: int): int {
    if x < I64_MIN then I64_MIN else if x > I64_MAX then I64_MAX else x
  }

  /** Saturation gives the i64 nearest to the true result. */
  lemma ClampNearest(x: int, y: i64)
    ensures I64_MIN <= Clamp(x) <= I64_MAX
    ensures Abs(x - Clamp(x)) <= Abs(x - y)
  {
  }

  function Abs(x: int): nat {
    if x < 0 then -x else x
  }

  datatype Option<+T> = None | Some(value: T)

  datatype Result<+T, +E> = Success(value: T) | Failure(error: E)

  datatype NormalBalance = DebitNormal | CreditNormal

  datatype AccountType = Asset | Liability | Equity | Revenue | Expense {
    function Normal(): NormalBalance {
      match this
      case Asset | Expense => DebitNormal
      case Liability | Equity | Revenue => CreditNormal
    }
  }

  datatype EntryType = Debit | Credit

  datatype EntryStatus = Pending | Posted | Voided

  datatype TransactionStatus = Pending | Posted | Voided | Failed {
    predicate IsTerminal() {
      Posted? || Voided? || Failed?
    }
  }

  /** Balances as the in-memory cache keeps them. */
  datatype Cached = Cached(posted: int, pending: int)

  /** One leg of a transfer: which account, which side, how much. */
  datatype Leg = Leg(account: int, side: EntryType, amount: int)

  /** What `TransferLeg::new` and `Amount::new` admit. */
  predicate ValidLeg(l: Leg) {
    0 < l.account <= I64_MAX && 0 < l.amount <= I64_MAX
  }

  predicate ValidLegs(legs: seq<Leg>) {
    forall i | 0 <= i < |legs| :: ValidLeg(legs[i])
  }

  /** Signed change of a balance: along the normal side positive, against it negative. */
  function Delta(nb: NormalBalance, side: EntryType, amount: int): int {
    if nb.DebitNormal? == side.Debit? then amount else -amount
  }

  function LegDelta(nb: NormalBalance, l: Leg): int {
    Delta(nb, l.side, l.amount)
  }
}
