# Fides in Dafny

Fides is a two-phase double-entry ledger. `authorize` reserves money by storing a Pending transaction with
its entries, `capture` turns the reservation into posted balances, `void` releases it. Balances exist three
times: they follow from the entries, they are materialised in the accounts table by signed deltas, and they
are kept in an in-memory cache that is updated after each commit with saturating arithmetic. Different loops
maintain the three. This project models those loops, the handlers around them, and the row locks under which
handlers run concurrently, and proves that the three balances agree, when they do, and what breaks when a
condition for it is missing.

## Layout

- `Domain`, `Sums`: machine-integer ranges, sides, statuses, legs; sums over sequences and finite sets.
- `Validation`: the two checked-arithmetic loops.
- `Tables`, `Invariance`: the three tables, what a hold, capture or void does to them, the invariant `Inv`
  every commit keeps.
- `Updates`: from legs to the lock order and to one balance update per account.
- `Ledger`: the serial machine. `Step` serves one request over tables, cache and id sequences; `Run` serves any
  sequence of requests and restarts.
- `Answers`: what every request answers and does, in terms of the fields of the request and of the tables alone.
- `Balances`, `History`, `Settlement`: what holds after every run.
- `Cache`, `Storage`, `Service`: the classes that change state in place, statement by statement. The handlers
  are proved to leave exactly the state and the answer of `Step`, so everything proved of runs holds of them.
- `Checker`: the three background integrity checks.
- `Protocol`: the concurrent machine. Each step is one statement, one leg of the funds check or one cache update
  of one handler; handlers can be started, advanced, rolled back and lost in a crash in any order.
- `Locks`, `Progress`, `Conservation`: what holds in every interleaving.
- `Isolation`, `CacheLag`: exactly which interleavings keep the tables sound and final statuses final, and exactly when
  the cache is right.
- `CacheSync`: what callers can do for the latter.
- `Overlap`: runs that show the conditions failing.

## What the concurrent results assume

Nothing is assumed for lock safety, absence of version conflicts, deadlock freedom, completion, the accounting
equation, balanced entries, the global check, or anything about serial runs. Three properties fail in some runs, and
for each there is an exact condition.

- Sound tables. The handlers read a status before they lock anything, and the status update has no status
  condition. All states of a run are reconciled if and only if every settlement commits while its transaction is
  Pending or moves nothing (`ReconciledThroughoutIff`), and satisfy the whole table invariant, version history
  included, if and only if every settlement commits while Pending (`SoundThroughoutIff`).
- Final statuses. For the same reason a transaction that is Posted can become Voided, with its entries. History is
  safe throughout a run if and only if every settlement commits while Pending or rewrites the row as it was
  (`HistorySafeIff`); two overlapping voids do no harm to it.
- The cache. `create_account` commits first and caches afterwards, `apply_delta` ignores ids that are not cached, and
  its adds saturate. `Lost` sums what `apply_delta` has so failed to add since the last restart. Table balance =
  cached balance + updates in flight + `Lost` in every state of every run (`CacheBooks`); so at a quiescent state cache
  and tables agree if and only if `Lost` is zero on every account (`QuiescentCacheAgreesIff`).

Callers ensure the first two with `NoOverlap`: a capture or void starts only when no other one of the same id is under
way. Without it every Pending transaction that moves money has a bad schedule (`OverlapBreaksReconciliation`,
`OverlapRewritesUnless`). They ensure the third with `CachedBeforeUse`, an authorize locks only accounts already cached,
and `Roomy`, balance and outstanding updates together fit i64 (`TameLosesNothing`).

Statements follow Read Committed, section 13.2.1 of the PostgreSQL manual: a statement sees committed rows and
its own transaction's writes, and row locks last until commit or rollback.

## Modelling choices

- A clock reading is a positive i64. The clock, and the order in which map contents are listed, are inputs.
- i64 ranges are explicit. The BIGINT, INTEGER and VARCHAR columns reject values that do not fit, and the SQL
  transaction then rolls back. `asset_scale as u8` is `% 256`.
- No key or asset code is too long for its column by trailing spaces only; PostgreSQL would cut those off and store
  the rest (section 8.3 of its manual).
- Id sequences are counters. An authorize that fails on a column range uses up a transaction id, as a rolled-back
  sequence does.
- `capture` and `void` differ only in the deltas, the target statuses and `posted_at`; one method,
  `LedgerService.Settle`, carries their common course.
- `sort_by_key` followed by `dedup` is the function `LockOrder`.
- An error return that sound tables rule out (a row that does not rebuild, a failing constructor after the commit)
  is kept as a branch in the handler and proved unreachable.
- In the concurrent machine a handler may also be rolled back at any time before its commit. Opening an account is
  one step up to its commit and one step for its `cache.set`.

## Where code and documentation differ

- The documentation says that concurrent mutations cannot corrupt state. `OverlapExample` is a run of two
  overlapping captures after which account balances no longer match their entries, while the global check that is
  to verify that money never appears or disappears stays silent.
- It says that entries are immutable, and the schema that no status is updated after Posted or Voided.
  `RewriteExample` is a run of an overlapping capture and void that turns a Posted transaction Voided.
- It describes optimistic locking in which a conflict leads to a retry. The handlers lock rows with
  SELECT FOR UPDATE before they read versions, so the version check never fails (`NoVersionConflict`).
- It says that all amount operations are checked. The handlers accumulate deltas with unchecked operators; the
  checked sums of the validation make that safe (`TallyNeverOverflows`, `StoredLegsFit`).
- `available` is posted minus a signed pending, so a pending withdrawal raises it, and reducing legs are tested
  one at a time. The model keeps both.

## Model

| member | source | states |
|---|---|---|
| `Ledger.StepKeeps` | fides-server/src/service/ledger.rs:144-361 | Any request or restart, served or refused, takes a state whose tables are sound and whose cache mirrors them to another such state: balances are the signed sums of entries, stored legs balance, versions count writes, keys are unique, statuses and `posted_at` agree. |
| `Ledger.Reachable` | fides-server/src/server.rs:122-127 | Every state after any finite sequence of requests and restarts from an empty database is of that kind. |
| `Ledger.CacheNeverClamps` | fides-server/src/storage/cache.rs:49-54 | When the new rows fit their columns, the saturating adds are plain adds and the updated cache is the snapshot of the updated rows. |
| `Ledger.ApplyAllIsCacheMoved` | fides-server/src/service/ledger.rs:339-343 | Applying the per-account updates one at a time after the commit moves each cached account by its net amount exactly once. |
| `Invariance.HoldKeeps` | fides-server/src/service/ledger.rs:253-333 | Committing an authorised transfer keeps every part of the table invariant. |
| `Invariance.SettleKeeps` | fides-server/src/service/ledger.rs:432-486 | Capturing or voiding a Pending transaction keeps every part of the table invariant. |
| `Invariance.SettleCoherent` | fides-server/src/storage/postgres.rs:284-289 | Capturing or voiding any stored transaction, Pending or not, keeps rows, keys, entry statuses, balanced legs and per-status totals in order. |
| `Invariance.SettleReconcilesIff` | fides-server/src/storage/postgres.rs:284-289 | A settlement keeps the tables reconciled iff its transaction is still Pending when it commits or moves no account. |
| `Invariance.SettleVersionsIff` | fides-server/src/storage/postgres.rs:461-468 | A settlement keeps versions equal to history iff its transaction is still Pending when it commits. |
| `Invariance.OpenKeeps` | fides-server/src/storage/postgres.rs:40-65 | A new account row keeps the table invariant. |
| `Balances.AccountingEquation` | README.md:20-32 | After any requests, posted balances of debit-normal accounts sum to those of credit-normal accounts, the same for pending, and debits equal credits within each entry status. |
| `Balances.SumExchange` | fides-server/src/domain/validation.rs:210-224 | Summing account by account or entry by entry gives the same total: debits minus credits. |
| `Balances.FastReadRefinesSlowRead` | fides-server/src/service/ledger.rs:126-140 | After any requests, the cached posted, pending and available of an account are what recomputation from its stored entries yields, unless that fails, which it does exactly when a side total of the account or the available balance leaves i64. |
| `Balances.VersionIsHistory` | fides-server/src/storage/postgres.rs:461-468 | After any requests, an account version is one per Pending and two per settled transaction touching it, net-zero ones included. |
| `History.RunEvolves` | migrations/20260203123052_initial_schema.up.sql:34-48 | Between any two points of any run: terminal transactions never change, entries are append-only with only a Pending status movable, account type, asset and creation time are fixed, versions do not decrease. |
| `History.SettleEvolvesIff` | fides-server/src/storage/postgres.rs:284-289 | One settlement respects history iff its transaction is Pending or it rewrites the row as it was. |
| `History.LifecycleSafety` | fides-server/src/domain/transaction.rs:82-93 | After any requests, each entry mirrors the status of its transaction, `posted_at` is positive exactly for Posted, Failed is never stored, and stored legs balance within i64. |
| `History.AcceptedIsStored` | fides-server/src/service/ledger.rs:347-360 | The transaction an answer reports, and the entries reported by authorize, are the stored ones. |
| `History.ReplayAnswersAlike` | fides-server/src/service/ledger.rs:173-195 | After a successful authorize, capture or void, any later capture or void of that id, or authorize with that key and any legs that parse and validate, changes nothing and reports the same id, key and creation time. |
| `History.ReplayErasure` | fides-server/src/service/ledger.rs:386-395 | Deleting any set of such repeats from any run gives the same final tables, cache and sequences. |
| `Settlement.BatchEffect` | fides-server/src/service/ledger.rs:432-486 | A batch of captures and voids of distinct Pending transactions has a closed-form effect in sums over the batch. |
| `Settlement.SettlementsCommute` | fides-server/src/service/ledger.rs:579-627 | Two orders of the same successful captures and voids end in the same state: balances, versions, statuses, cache. |
| `Answers.OpenAnswer` | fides-server/src/service/ledger.rs:40-86 | An account is opened iff type is 1 to 5, the code has 1 to 16 characters and the scale mod 256 is at most 18; it is stored and reported under the next id with the type, code, scale and time asked for, version 0 and zero balances, nothing else changing; else which of the two errors. |
| `Answers.CodesNameTypes` | fides-server/src/service/ledger.rs:723-735 | The codes 1 to 5 name Asset, Liability, Equity, Revenue and Expense, and no other code names any. |
| `Answers.SettleAcceptedIff` | fides-server/src/service/ledger.rs:386-405 | A capture or void is accepted iff its id is positive and stored, and the status is its own target, or Pending with every touched row in range after the move. |
| `Answers.SettleRefusals` | fides-server/src/service/ledger.rs:544-552 | Which error every other capture or void gets, the other terminal status with that status included; none changes anything. |
| `Answers.SettleAnswer` | fides-server/src/service/ledger.rs:498-512 | An accepted capture reports and stores Posted and an accepted void Voided, key and creation time kept; a capture of a Pending transaction stamps its own clock as `posted_at`, a void none; other transactions stay. |
| `Answers.SettleEntriesAnswer` | fides-server/src/service/ledger.rs:466-470 | The entries of the settled transaction take Posted or Voided, and no others change. |
| `Answers.AuthorizeMalformed` | fides-server/src/service/ledger.rs:150-166 | An empty key or a bad leg is refused with its own error, before anything is read or changed. |
| `Answers.AuthorizeUnbalanced` | fides-server/src/service/ledger.rs:166-167 | Legs that read well but do not balance within i64 are refused with the validation error that describes them. |
| `Answers.AuthorizeRepeats` | fides-server/src/service/ledger.rs:173-195 | A key that is taken is answered with the stored transaction and entries, whatever the legs, and nothing changes. |
| `Answers.AuthorizeMissing` | fides-server/src/service/ledger.rs:202-213 | Under a free key, the least account without a row is reported. |
| `Answers.AuthorizeOverdraft` | fides-server/src/service/ledger.rs:217-251 | Then the first leg that lowers its account by more than posted minus pending is reported, with that balance and its own amount. |
| `Answers.AuthorizeDoesNotFit` | fides-server/src/service/ledger.rs:253-265 | Then a key over 64 characters, or a balance or version leaving its column, is a database error that changes nothing but the id sequence. |
| `Answers.AuthorizeServes` | fides-server/src/service/ledger.rs:253-360 | Any other authorize is served: a new Pending transaction under the next id, one Pending entry per leg with the account, side and amount sent, every touched account pending its net and its version up by one, nothing else. |
| `Answers.AuthorizeAcceptedOnly` | fides-server/src/service/ledger.rs:144-361 | And an authorize under a free key is accepted only in that case. |
| `Answers.RestartAnswer` | fides-server/src/server.rs:122-127 | A restart keeps the tables and leaves every account cached with its materialised balances. |
| `Validation.ValidateTransactionBalance` | fides-server/src/domain/validation.rs:100-131 | Accepts exactly two or more legs with equal side totals within i64; too few legs, an overflowing side total and unequal totals each give their own error, in that order and with the count or totals of the whole list. |
| `Validation.ValidationPermutes` | fides-server/src/domain/validation.rs:100-131 | The outcome depends only on the multiset of legs. |
| `Validation.AcceptedHasBothSides` | fides-server/src/domain/validation.rs:41-56 | An accepted list of positive legs has a debit and a credit. |
| `Validation.ComputeAccountBalance` | fides-server/src/domain/validation.rs:134-201 | SumOverflow iff one of four side totals exceeds i64, else BalanceOverflow iff posted minus pending leaves i64, else posted and pending are the side differences by normal side and available their difference. |
| `Validation.DerivedIsSideDifference` | fides-server/src/domain/validation.rs:175-194 | The fold of signed deltas equals the difference of the two side totals, by normal side. |
| `Validation.ComputeIgnoresOrderAndVoided` | fides-server/src/domain/validation.rs:143-173 | The whole result, errors included, depends only on the multiset of non-voided entries. |
| `Updates.LockOrderExact` | fides-server/src/service/ledger.rs:197-200 | The lock list is strictly increasing and holds exactly the account ids of the legs. |
| `Updates.UpdatesExact` | fides-server/src/service/ledger.rs:308-316 | Find-or-push leaves exactly one update per touched account, carrying its net movement. |
| `Updates.PartialNetsFit` | fides-server/src/service/ledger.rs:441-452 | For legs whose side totals fit i64, every partial per-account sum lies in [-i64::MAX, i64::MAX]. |
| `Updates.BumpAllIsMoveAll` | fides-server/src/service/ledger.rs:319-333 | The loop of single-row updates has the effect of the transfer as a whole: net amount and one version bump per touched account. |
| `Cache.BalanceCache.Rehydrate` | fides-server/src/storage/cache.rs:34-38 | Rows are inserted in order; later rows win and other ids keep their entry. |
| `Cache.RehydrateRoundTrip` | fides-server/src/server.rs:122-127 | Loading any listing of a balance map into an empty cache gives the map back. |
| `Cache.BalanceCache.Get` | fides-server/src/storage/cache.rs:41-46 | Absent ids give nothing; present ids give the stored balances with available as the saturating difference. |
| `Cache.BalanceCache.ApplyDelta` | fides-server/src/storage/cache.rs:49-54 | Saturating adds on a cached id, no effect on a missing one, all other ids untouched. |
| `Cache.BalanceCache.Set` | fides-server/src/storage/cache.rs:57-59 | One id overwritten or added, the rest unchanged. |
| `Cache.BalanceCache.Iter` | fides-server/src/storage/cache.rs:69-74 | A listing of the map: each id once, with its balances. |
| `Storage.RebuildIff` | fides-server/src/storage/postgres.rs:604-668 | Exactly which account, transaction and entry rows rebuild, and to what. |
| `Storage.RowsRebuild` | fides-server/src/storage/postgres.rs:604-668 | Rows of sound tables always rebuild to domain values; DataCorruption cannot arise from them. |
| `Storage.PostgresStorage.CreateAccount` | fides-server/src/storage/postgres.rs:40-65 | A fresh id with version and balances 0, or a database error exactly when a column check fails. |
| `Storage.PostgresStorage.GetAccountForUpdate` | fides-server/src/storage/postgres.rs:101-132 | Missing row gives none; an existing row gives its rebuilt account or its corruption error. |
| `Storage.PostgresStorage.GetTransaction` | fides-server/src/storage/postgres.rs:209-239 | Missing row gives none; an existing row gives its rebuilt transaction or its corruption error. |
| `Storage.PostgresStorage.FindTransactionByKey` | fides-server/src/storage/postgres.rs:242-272 | The unique owner of the key, if any. |
| `Storage.PostgresStorage.CreateTransaction` | fides-server/src/storage/postgres.rs:179-206 | A fresh Pending row, a duplicate-key error exactly when the key is owned, or a database error exactly when a column check fails. |
| `Storage.PostgresStorage.UpdateTransactionStatus` | fides-server/src/storage/postgres.rs:275-305 | Status and `posted_at` of an existing row are set whatever its status was; a missing row is corruption. |
| `Storage.PostgresStorage.CreateEntry` | fides-server/src/storage/postgres.rs:310-340 | Appends the entry exactly when both foreign keys exist and the amount and time are positive. |
| `Storage.PostgresStorage.GetEntriesForTransaction` | fides-server/src/storage/postgres.rs:343-374 | The entries of the transaction in insertion order, or corruption exactly when one does not rebuild. |
| `Storage.PostgresStorage.UpdateEntryStatusByTransaction` | fides-server/src/storage/postgres.rs:412-433 | All entries of the transaction, and no others, get the status. |
| `Storage.PostgresStorage.UpdateAccountBalance` | fides-server/src/storage/postgres.rs:453-499 | Adds both deltas and bumps the version iff the version matches and the results fit their columns; otherwise which of the three errors, and no change. |
| `Storage.PostgresStorage.LoadAllBalances` | fides-server/src/storage/postgres.rs:502-517 | A listing of every account with its materialised balances. |
| `Service.ParseTransferLegs` | fides-server/src/service/ledger.rs:709-721 | Succeeds iff every leg has a positive id, type 1 or 2 and a positive amount; then each leg has its account, amount and side as sent; else the error of the first bad leg, looking at id, type, sign and zero in that order. |
| `Ledger.FirstMissingIsLeast` | fides-server/src/service/ledger.rs:202-213 | The account reported as not found is the least touched id without a row. |
| `Ledger.ReducesIffLowers` | fides-server/src/service/ledger.rs:223-232 | The legs whose funds are checked are those with a negative signed delta. |
| `Ledger.FundsReport` | fides-server/src/service/ledger.rs:234-250 | The error of the funds check is that of the first unfunded leg: not found if uncached, else its account, the cached available balance and its amount. |
| `Domain.ClampNearest` | fides-server/src/storage/cache.rs:49-54 | Saturating arithmetic gives the i64 nearest to the true result. |
| `Ledger.FundsExact` | fides-server/src/service/ledger.rs:215-251 | The funds check passes iff every reducing leg, taken alone, finds its account cached with enough available. |
| `Service.Tally` | fides-server/src/service/ledger.rs:444-452 | One round of find-or-push in i64 arithmetic, for the three kinds of movement. |
| `Service.TallyNeverOverflows` | fides-server/src/service/ledger.rs:441-452 | Legs whose side totals fit i64 keep every running total of the unchecked arithmetic within i64. |
| `Service.StoredLegsFit` | fides-server/src/service/ledger.rs:582-599 | The stored legs of any transaction have balanced totals within i64, so capture and void inherit the bound. |
| `Service.LegAccount` | fides-server/src/service/ledger.rs:271-275 | Every account lookup of a leg finds the account locked for it: no `unwrap` fails. |
| `Service.LedgerService.constructor` | fides-server/src/server.rs:121-130 | A service over sound tables starts with its cache equal to them. |
| `Service.LedgerService.CreateAccount` | fides-server/src/service/ledger.rs:40-86 | State and answer, the whole account, are those of the serial step; the constructor after the commit cannot fail; a refusal leaves tables and cache as they were. |
| `Service.LedgerService.GetBalance` | fides-server/src/service/ledger.rs:118-141 | Answers the materialised balances of an existing account, and which error otherwise. |
| `Service.LedgerService.LockAccounts` | fides-server/src/service/ledger.rs:202-213 | All rows in lock order, or not-found for the first missing one. |
| `Service.LedgerService.CheckFunds` | fides-server/src/service/ledger.rs:217-251 | The first shortfall in leg order, or none. |
| `Service.LedgerService.RecordLegs` | fides-server/src/service/ledger.rs:267-317 | One Pending entry per leg in order, and exactly the net updates. |
| `Service.LedgerService.ApplyUpdates` | fides-server/src/service/ledger.rs:319-333 | No version conflict: all rows updated, or a database error exactly when some row leaves its columns. |
| `Service.LedgerService.ApplyToCache` | fides-server/src/service/ledger.rs:339-343 | The updates applied in order. |
| `Service.LedgerService.Authorize` | fides-server/src/service/ledger.rs:144-361 | State and answer, errors included, are those of the serial step, on every request; a refusal leaves tables and cache as they were. |
| `Service.LedgerService.HoldFunds` | fides-server/src/service/ledger.rs:197-265 | From the unused key on: missing account, shortfall, bad key, out of range, or committed and cached. |
| `Service.LedgerService.CommitHold` | fides-server/src/service/ledger.rs:267-355 | Tables and cache move together, or neither does. |
| `Service.LedgerService.Capture` | fides-server/src/service/ledger.rs:364-513 | State and answer, errors included, are those of the serial step, on every request; a refusal leaves tables and cache as they were. |
| `Service.LedgerService.Void` | fides-server/src/service/ledger.rs:516-654 | State and answer, errors included, are those of the serial step, on every request; a refusal leaves tables and cache as they were. |
| `Service.LedgerService.SettlePending` | fides-server/src/service/ledger.rs:407-512 | From the Pending status on: either everything is settled and cached, or a database error and no change. |
| `Service.LedgerService.CommitSettlement` | fides-server/src/service/ledger.rs:432-508 | With the rows locked, tables and cache move together, or neither does. |
| `Checker.GlobalNeverCriesWolf` | fides-server/src/observability/integrity.rs:72-90 | After any requests the global check never reports an imbalance. |
| `Checker.VerdictExact` | fides-server/src/observability/integrity.rs:72-90 | On arbitrary entries the global check reports an imbalance iff the totals of non-voided debits and credits fit BIGINT and differ, and balance iff they fit and are equal. |
| `Checker.DebitNormalMatchesDomain` | fides-server/src/observability/integrity.rs:288-290 | The raw-code classification agrees with the account type, debit-normal being Asset and Expense, and codes read back. |
| `Checker.CheckAccountBalances` | fides-server/src/observability/integrity.rs:136-178 | The counter is the number of mismatched rows; its subtractions cannot overflow. |
| `Checker.CleanIffReconciled` | fides-server/src/observability/integrity.rs:112-178 | On arbitrary tables the check is clean iff every account is reconciled with its entries. |
| `Checker.AccountCheckNeverCriesWolf` | fides-server/src/observability/integrity.rs:136-178 | After any requests the account check counts nothing. |
| `Checker.CountDbMismatches` | fides-server/src/observability/integrity.rs:224-250 | Counts the rows missing from the cache or different there. |
| `Checker.CountStrays` | fides-server/src/observability/integrity.rs:252-263 | Counts the cached ids without a row. |
| `Checker.CheckCacheConsistency` | fides-server/src/observability/integrity.rs:214-265 | On one snapshot the two passes count each id on which the maps disagree exactly once. |
| `Checker.NoDisagreementIffEqual` | fides-server/src/observability/integrity.rs:267-275 | That count is zero iff the maps are equal. |
| `Checker.CacheCheckNeverCriesWolf` | fides-server/src/observability/integrity.rs:201-265 | After any requests the cache check counts nothing. |
| `Locks.LocksSafe` | fides-server/src/service/ledger.rs:202-213 | In every state of every interleaving, rollbacks and crashes included: rows read under a lock are still the committed ones, and no two handlers hold one row, key or transaction. |
| `Locks.StartEndsIff` | fides-server/src/service/ledger.rs:173-195 | In the concurrent machine an authorize with a taken key, and a settlement of a transaction not Pending, end at once and change nothing; others go on. |
| `Overlap.SoloRun` | fides-server/src/service/ledger.rs:197-337 | A handler that holds or awaits its locks, undisturbed and with nothing in the tables or cache against it, commits, with the effect of the serial step. |
| `Locks.CommitIsAtomic` | fides-server/src/service/ledger.rs:335-337 | A commit has the effect of the serial transfer or settlement on the tables as they are at that moment. |
| `Locks.NoVersionConflict` | fides-server/src/storage/postgres.rs:477-495 | No interleaving reaches a version conflict, or a funds check or update of an account that was not locked and read. |
| `Progress.WaitsUpwards` | fides-server/src/service/ledger.rs:414-430 | A holder of rows waits only for a larger row; a holder of a key or transaction row waits for nobody. |
| `Progress.NoWaitCycle` | fides-server/src/service/ledger.rs:197-213 | No interleaving has a wait-for cycle. |
| `Progress.SomeoneCanAdvance` | fides-server/src/service/ledger.rs:561-577 | While some handler is unfinished, some handler can take its next step. |
| `Progress.AdvanceShrinks` | fides-server/src/service/ledger.rs:254-265 | Each step uses up part of a well-founded amount of remaining work. |
| `Progress.EveryoneFinishes` | fides-server/src/service/ledger.rs:601-637 | From any reachable state the handlers under way can all finish without an abort. |
| `Conservation.NetExchange` | fides-server/src/domain/validation.rs:210-224 | What a transfer moves, account by account, sums to its debits minus its credits. |
| `Conservation.MoveKeepsEven` | fides-server/src/service/ledger.rs:432-486 | A balanced transfer, held, captured or voided any number of times, leaves debit-normal and credit-normal totals equal. |
| `Conservation.InterleavedConservation` | fides-server/src/service/ledger.rs:488-490 | In every committed state of every interleaving, overlapping settlements included: rows and keys in order, entries mirror their transaction, stored legs and per-status totals balance, the accounting equation holds. |
| `Conservation.InterleavedAccountingEquation` | README.md:20-32 | The accounting equation, posted and pending, in every committed state of every interleaving. |
| `Conservation.InterleavedGlobalCheck` | fides-server/src/observability/integrity.rs:72-90 | The global check reports no imbalance in any interleaving. |
| `Isolation.ReconciledThroughoutIff` | fides-server/src/storage/postgres.rs:284-289 | For every interleaving: all states are reconciled iff each settlement commits while its transaction is Pending or moves nothing. |
| `Isolation.SoundThroughoutIff` | fides-server/src/service/ledger.rs:376-405 | For every interleaving: all states satisfy the whole table invariant iff each settlement commits while its transaction is Pending. |
| `Isolation.NoOverlapCommitsPending` | fides-server/src/service/ledger.rs:376-405 | If captures and voids of one transaction id do not overlap, each settlement commits while its transaction is Pending. |
| `Isolation.HistorySafeIff` | migrations/20260203123052_initial_schema.up.sql:34-48 | For every interleaving: between all pairs of states terminal transactions never change and entries are append-only, iff each settlement commits while its transaction is Pending or rewrites its row as it was. |
| `Isolation.InterleavedTablesSound` | fides-server/src/service/ledger.rs:414-490 | Every interleaving without overlap satisfies the whole table invariant in every committed state and keeps history safe. |
| `Overlap.OverlapBreaksReconciliation` | fides-server/src/service/ledger.rs:376-405 | From any idle state, two overlapping settlements of any Pending transaction that moves money can reach unreconciled tables that the global check accepts. |
| `Overlap.OverlapExample` | fides-server/src/service/ledger.rs:523-552 | A concrete run from an empty database, funds checks included, that does so while the accounting equation holds. |
| `Overlap.OverlapRewritesUnless` | fides-server/src/service/ledger.rs:386-405 | From any idle state, two settlements of any Pending transaction can overlap so that the second rewrites what the first made final, Posted to Voided for a capture and a void, unless both are voids or captures at one time. |
| `Overlap.RewriteExample` | README.md:32 | A concrete run from an empty database in which a transaction is Posted and later Voided. |
| `CacheLag.CacheBooks` | fides-server/src/storage/cache.rs:49-54 | In every state of every interleaving, on every account and for both columns: table balance = cached balance + committed updates not yet applied + what `apply_delta` has lost since the last restart, on a missing id or to clamping. |
| `CacheLag.StepKeepsLagIff` | fides-server/src/service/ledger.rs:71-78 | From a state in which the cache only lags, the next is such iff an `apply_delta` on a cached account does not clamp, and an account being cached has had no net update dropped before. |
| `CacheLag.LagsThroughoutIff` | fides-server/src/service/ledger.rs:488-496 | For every interleaving: in all states each cached account has table balance = cached balance + updates in flight, iff no step loses anything in that sense. |
| `CacheLag.QuiescentCacheAgreesIff` | fides-server/src/service/ledger.rs:629-637 | At every quiescent state of every interleaving, cache and tables agree on every account iff nothing is lost on any. |
| `CacheLag.FundsCheckMeans` | fides-server/src/service/ledger.rs:234-250 | In every interleaving, a leg that lowers its account passes the funds check iff the account is cached and the available balance of the tables, less what is in flight or lost, covers the amount. |
| `CacheLag.CacheShaped` | fides-server/src/service/ledger.rs:71-78 | In every interleaving, cached accounts exist and every other account has exactly its own `cache.set` outstanding. |
| `CacheSync.TameLosesNothing` | fides-server/src/service/ledger.rs:335-343 | If accounts are cached before an authorize locks them, and balance plus outstanding updates fit i64, nothing is lost on any account. |
| `CacheSync.CacheLagsByFlight` | fides-server/src/service/ledger.rs:488-496 | So in every state of such an interleaving each table balance is the cached balance plus the committed updates not yet applied. |
| `CacheSync.QuiescentReadsExactIff` | fides-server/src/storage/cache.rs:41-46 | At quiescent states of interleavings that settle soundly, a cached read equals recomputation from the stored entries iff nothing is lost on the account. |
| `Overlap.EarlyUseRightIff` | fides-server/src/service/ledger.rs:71-78 | From any idle state, a transfer that passes its checks, commits and updates the cache before an account just opened is cached leaves that account cached right iff it does not touch it. |
| `Overlap.EarlyUseExample` | fides-server/src/service/ledger.rs:71-78 | A concrete run from an empty database, funds checks included, that ends finished with a wrong cache. |

## Left out

- No-overdraft and per-currency conservation: the code guarantees neither; legs need not share an asset code and the funds check tests legs singly against a cache.
- Metadata JSON: stored and returned unchanged, so a transaction row has no such column here.
- Entry ids: entries are kept in insertion order, which is the order of their ids within a transaction.
- Storage.PostgresStorage.CreateAccount: refuses a code that exceeds its column by trailing spaces only, which PostgreSQL would truncate and accept. An insert refused for its length is modelled as using up no account id; whether the sequence has been drawn on by then depends on when the server evaluates the column default. Exhaustion of BIGSERIAL is not modelled.
- Storage.PostgresStorage.CreateTransaction: the same for a key. A key truncated in this way would be missed by `find_transaction_by_key`, so that its repeat ends in a duplicate-key error; `History.ReplayAnswersAlike` does not speak of such keys.
- GetAccount and GetEntries: plain reads that would only add easy members.
- Cache and storage calls the handlers do not make: `remove`, `get_account`, `get_entries_for_account`, `get_account_balance`, `increment_account_version`.
- `Amount::checked_add` and `Amount::checked_sub`: the handlers do not use them.
- Asset semantics: only that the code is non-empty and at most 16 characters and the scale at most 18.
- Connection pooling, statement timeouts and failing connections: a blocked statement waits, and a lost connection is a rollback or a crash.
- A commit whose outcome the client does not learn: commits either happen or do not.
- gRPC, proto and status-code mapping, error texts, HTTP, metrics, tracing, configuration, the command line, shutdown and the load generator.
- The timer of the integrity checker and its logging; each check is a decision on one snapshot.
- Idempotency of `create_account`: it takes no key, so `ReplayErasure` does not speak of it.
- Progress.EveryoneFinishes: gives one completing schedule and, with `AdvanceShrinks`, a decreasing measure for every step; fairness of the scheduler is not modelled.
