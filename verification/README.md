# A verified model of the ledger, the variant backfill and the AI response cache

Three parts of the back office, modelled in Dafny 4.11 and proved over all inputs and all runs.

**The general ledger.** Callers post batches of debit and credit lines under an idempotency key, edit
posted batches, reverse them (a reversal can be reversed in turn) and open, soft-close or close fiscal
months. `Money` is the two-decimal rounding, `Calendar` the dates, months and period keys, `Journal`
the validation of a batch, `Ledger` the operations as functions from books to books, and
`LedgerService` the same operations step by step on a mutable ledger, each method proved equal to its
function. `Invariant` proves what every reachable state satisfies; `Reversals`, `Periods` and `Replay`
prove what follows from it over whole runs: reversal chains telescope, closed months are frozen,
replayed posts change nothing, editing is posting anew. `Interleaving` splits the check and the insert
of concurrent posts and reversals into separate steps and shows what the unique constraint is for.
`Overtaking` lets any operations of other callers pass between the checks of a post, an edit or a
reversal and its write, and says exactly when the ledger and its locks survive that. `Schedules` lets any
number of such calls interleave on the same books, and proves what survives every schedule.

**The variant backfill.** `Backfill` gives the result of the migration as functions of the nine line
tables and proves its counters exact, its links right and a second run without effect, and says from
the tables beforehand exactly when the run meets no constraint. `BackfillScript` is the script's loops
on mutable tables, proved to compute that result.

**The AI response cache.** `ResponseCache` proves exactly when a look-up in the append-only log of AI
calls, with clean-ups, answers as a map of last successful writes does. `UsageLogService` is the service
on a mutable table.

How things are represented:

- Raw amounts and exchange rates are whole numbers of units; `scale` units make one cent, for every
  scale from 1. Stored amounts are whole cents. Rounding is half to even (roundTiesToEven,
  section 4.3.1 of IEEE 754-2008), the default context of Python's `Decimal.quantize`.
- Dates are proleptic Gregorian, years 1 to 9999. Computing the bounds of December 9999 fails in the
  code (year 10000), so the model answers `DateOutOfRange` there. Period keys are the reduced-precision
  month of section 4.1.2.3 of ISO 8601:2004.
- Entries have consecutive ids in the order of posting; `entries[n - 1]` is the entry with id n. A
  period is stored under its key.
- The chart of accounts is a pair of functions in `Env`: what it has against the account and party of one
  line, and what against one bare account; every statement holds for all of them. The base currency is in `Env` too,
  missing while accounting is not configured.
- Clocks are parameters: `today` and `now`. The digest that makes a cache key and the price of a call are
  arbitrary functions; JSON objects are maps from names to JSON texts.
- Each service call is one atomic step, except in `Interleaving`, `Overtaking` and `Schedules`. There a
  write is what the session makes of the rows it finds: it updates only the columns that differ from what
  it had read and deletes only the lines that it had read, and deleting a line that is gone has no effect.
  Lines written together form a batch, whose id stands for the identities of their rows; outside
  `Schedules` and the overtaken edits an entry has one batch.

Where the code and its own wording disagree, the model follows the code:

- `app/services/accounting_service.py:46` says that posting under a used key returns the existing
  entry. The code returns None, and does so before it looks at the rest of the request
  (`Replay.DuplicateComesFirst`).
- `app/models/journal_entries.py:15` calls an entry immutable; an entry that is neither a reversal nor
  reversed can be edited (`app/services/accounting_service.py:293-359`). What is immutable is proved in
  `Reversals.SealedForever` (both ends of a reversal) and `Periods.ClosedPeriodIsFrozen`.
- `app/services/accounting_governance_service.py:64` reserves the soft-close flag for reversals; posts
  take it as well (`app/services/accounting_service.py:43`), so `Periods.LockedPeriodOnlyGrows` names both.
- `app/services/accounting_governance_service.py:92` and `:108` speak of permanently closed periods;
  the transition table lets every status follow every other (`Periods.NoStatusIsFinal`). The frozen
  period is therefore stated for runs in which the period stays closed.
- The backfill calls itself safe to run many times. It is, once it has succeeded
  (`Backfill.SecondRunChangesNothing`); `Backfill.SucceedsIff` says which shops it succeeds on, and
  `Backfill.BackfillCanFail` gives one on which it does not. That two stock levels or two branch costs can
  collide is about tables from before their variant columns were made NOT NULL; under the present schema
  only the codes decide (`Backfill.RequiredSucceedsIff`).
- Nothing in the repository calls `save_cached_response`, and the advisors log without a cache key
  (`app/services/ai_call_context.py:53-66`), so their look-ups never find anything
  (`ResponseCache.KeylessNeverFound`).

Results that are negative, each with its exact condition where there is one:

- Raw amounts that balance can be refused (`Journal.BalancedYetRefused`); they are accepted exactly when
  the rounding errors of the lines cancel (`Journal.BalancedAcceptedIff`). Accepted amounts can be out of
  balance by up to a cent a line, and that is attained (`Journal.RoundingBoundsAreTight`).
- Branches of one entry need not balance (`Reversals.BranchesNeedNotBalance`): all of them do exactly
  when the lines of each branch could have been posted as an entry of their own
  (`Reversals.BranchesBalanceIff`).
- A reversal names no customer, supplier or employee. It never moves the position of one, so posting and
  reversing restores a position exactly when the post had left none (`Reversals.ReversalKeepsPositions`,
  `Reversals.PositionRestoredIff`, with an instance in `Reversals.PositionNeedNotReturn`).
- A post whose key looks like a reversal's can block that reversal (`Replay.ReversalCanBeBlocked`). The
  exact condition of a reversal is `Replay.ReverseSucceedsIff`; without such posts none is ever blocked
  (`Replay.ReversalNeverBlocked`).
- The guards of a call protect the ledger only because the call is one step: no row is locked. An edit
  overtaken between its checks and its write leaves the ledger sound exactly when no other edit of the
  entry has passed in between and the entry has not been reversed or keeps its figures; an overtaken
  reversal exactly when it is refused or the figures have not been edited; an overtaken post always. Each
  keeps the period locks exactly when its months still admit it at the write. The `Overtaken...` theorems
  of `Overtaking` say so, each with an instance that fails.
- Two edits of one entry that overtake each other leave the lines of both in it, still balanced, and can
  leave it with a date outside its period; `Overtaking.OvertakenByEditMixes` says exactly when.
- Of the invariant, unique keys, single reversals, balanced entries and whole, disjoint periods survive
  every schedule (`Schedules`); mirrors, the numbering of lines, the month of an entry and the locks do not.
- A look-up in the log can differ from the map of last writes. It never does exactly when no write is in
  the way: one that holds something and is followed, under its key, by writes with earlier times only
  (`ResponseCache.LogRefinesMapIff`, with an instance in `ResponseCache.WriteInTheWay`). A clean-up goes
  unnoticed exactly when its window is at least the lifetime of a cached response
  (`ResponseCache.CleanUpNoticedIff`).

## Model

| member | source | states |
|---|---|---|
| `Money.CentsIsNearestEven` | app/services/accounting_service.py:22-23 | an amount rounds to c cents exactly when c is nearest to it, the even one of two equally near |
| `Money.CentsError` | app/services/accounting_service.py:22-23 | rounding moves an amount by at most half a cent |
| `Money.WholeCentsFixed` | app/services/accounting_service.py:143 | rounding a total of rounded amounts once more changes nothing |
| `Money.SignThresholds` | app/services/accounting_service.py:80-84 | an amount counts as positive, zero or negative with the border at half a cent, which itself is zero |
| `Text.StripMeaning` | app/services/accounting_service.py:119-124 | trimming takes blanks away from both ends, nothing else, and leaves none there |
| `Text.UpperComparesLetters` | app/services/accounting_service.py:124 | texts are equal in upper case exactly when they have, place by place, the same letter in whichever case |
| `Calendar.PreviousDayIsOneLess` | app/services/accounting_governance_service.py:35 | subtracting a day lowers the day number by one, across months, years and leap days |
| `Calendar.MonthLengths` | app/services/accounting_governance_service.py:29-37 | how long each month is, February by the leap-year rule |
| `Calendar.MonthsTile` | app/services/accounting_governance_service.py:29-37 | every date lies in its month and the day after a month's end is the next month's start |
| `Calendar.NoBoundsIff` | app/services/accounting_governance_service.py:29-37 | the bounds fail exactly in December 9999, the month after which no date comes |
| `Calendar.InMonthIffSameKey` | app/services/accounting_governance_service.py:29-37 | the dates between a month's bounds are exactly those with its key, and all have its bounds |
| `Calendar.MonthsDisjoint` | app/services/accounting_governance_service.py:29-55 | two months with a day in common are the same month |
| `Calendar.KeyRoundTrip` | app/services/accounting_governance_service.py:36 | a period key is four digits, a dash and two digits, and parses back to its year and month |
| `Calendar.SameKeyIffSameMonth` | app/services/accounting_governance_service.py:17-20 | keys are equal exactly for dates of the same year and month |
| `Calendar.KeyOrderIsDateOrder` | app/services/accounting_governance_service.py:29-37 | keys as strings sort as the starts of their months do |
| `Calendar.SameFiscalPeriodMeaning` | app/services/accounting_governance_service.py:23-26 | the test for today's period holds exactly for the dates within today's month |
| `Journal.LineThreshold` | app/services/accounting_service.py:79-88 | a line passes exactly when one raw side is over half a cent and the other within half a cent of zero; and when it fails as negative |
| `Journal.LineCurrency` | app/services/accounting_service.py:120-141 | a line's currency details pass exactly when a code that differs from the base, letter by letter, has an amount and a positive rate, and any other line has both or neither; and which error each failure gives |
| `Journal.FirstAmountErrorIsFirst` | app/services/accounting_service.py:79-88 | the amount error reported is that of the first line out of range |
| `Journal.FirstCurrencyErrorIsFirst` | app/services/accounting_service.py:120-141 | the currency error reported is that of the first line with incomplete currency details |
| `Journal.FirstLineRefusedIsFirst` | app/services/chart_account_service.py:771-782 | a strict check reports the first line that the chart refuses |
| `Journal.LeastAccountReported` | app/services/chart_account_service.py:784-787 | a loose check reports the least account that the chart refuses |
| `Journal.ChartTakesAllIff` | app/services/chart_account_service.py:760-787 | the chart takes a batch exactly when it takes every line |
| `Journal.AcceptedIff` | app/services/accounting_service.py:57-147 | exactly which raw batches are accepted; a line counts as foreign when its trimmed code is there and is not the base currency's letter by letter |
| `Journal.VerdictOrder` | app/services/accounting_service.py:57-147 | the answer to any batch: which of several errors is reported, about which line, and with which totals |
| `Journal.StoredAsSubmitted` | app/services/accounting_service.py:91-187 | line k is stored with the submitted account, branch, memo, parties and rate, its amounts in cents, its code cut to three characters or USD when blank, under number k + 1 |
| `Journal.TotalsAsSubmitted` | app/services/accounting_service.py:89-90 | the totals compared are the sums of the submitted amounts in cents |
| `Journal.AcceptedIsWellFormed` | app/services/accounting_service.py:79-187 | accepted lines are stored numbered from 1, one-sided, with a currency of one to three characters, debits equal to credits |
| `Journal.RoundingGapBound` | app/services/accounting_service.py:76-90 | rounding n lines shifts debits less credits by at most n cents, or n half-cents when unused sides are zero |
| `Journal.AcceptedIsNearlyBalanced` | app/services/accounting_service.py:76-147 | an accepted batch of n lines was balanced before rounding to within those bounds |
| `Journal.RoundingBoundsAreTight` | app/services/accounting_service.py:76-147 | accepted batches that attain both bounds |
| `Journal.BalancedAcceptedIff` | app/services/accounting_service.py:76-147 | a batch balanced before rounding that passes the other checks is accepted exactly when the rounding errors of its lines cancel |
| `Journal.BalancedYetRefused` | app/services/accounting_service.py:143-147 | a batch balanced before rounding that is refused as unbalanced |
| `LedgerService.ValidateAccounts` | app/services/chart_account_service.py:760-787 | line by line, or over the sorted accounts once each, the verdict of the specification |
| `LedgerService.NormalizeLine` | app/services/accounting_service.py:221-255 | one line's amount error, or the line made of it, which `Journal.StoredAsSubmitted` explains |
| `LedgerService.BuildNormalizedJournalLines` | app/services/accounting_service.py:192-290 | the loops give the verdict of the first-error specification: same error, same lines |
| `LedgerService.CheckPostedLines` | app/services/accounting_service.py:57-147 | the copy inside posting gives the same verdict on every input |
| `LedgerService.StoreLines` | app/services/accounting_service.py:165-187 | the loop stores every line, its currency cut to three characters or defaulted |
| `LedgerService.MirrorLines` | app/services/accounting_governance_service.py:287-303 | the loop writes the mirror of the original lines, which `Reversals.MirrorNegates` and `Reversals.ReversalMirrors` explain |
| `LedgerService.FindKey` | app/services/accounting_service.py:51-54 | finds an entry with the key exactly when there is one |
| `LedgerService.Service.constructor` | app/models/journal_entries.py:14-40 | a new ledger has no entries and no periods and is reachable |
| `LedgerService.Service.GetOrCreatePeriod` | app/services/accounting_governance_service.py:40-55 | changes the ledger and answers as `Ledger.GetOrCreate` does |
| `LedgerService.Service.EnsurePeriodOpen` | app/services/accounting_governance_service.py:58-81 | changes the ledger and answers as `Ledger.EnsureOpen` does |
| `LedgerService.Service.CanPostToPeriod` | app/services/accounting_governance_service.py:98-108 | changes the ledger and answers as `Ledger.CanPost` does, reason included |
| `LedgerService.Service.SetPeriodStatus` | app/services/accounting_governance_service.py:116-157 | changes the ledger and answers as `Ledger.SetStatus` does, which `Periods.StatusWords` explains |
| `LedgerService.Service.GetJournalByIdempotency` | app/services/accounting_service.py:362-368 | finds the entry with the key when there is one, and there is never a second |
| `LedgerService.Service.FindReversal` | app/services/accounting_governance_service.py:259-262 | tells whether some entry reverses the given one |
| `LedgerService.Service.PostJournalEntry` | app/services/accounting_service.py:34-189 | changes the ledger and answers as `Ledger.Post` does |
| `LedgerService.Service.CheckJournalEdit` | app/services/accounting_service.py:302-325 | the part before the writes changes the ledger and answers as `Ledger.CheckEdit` does |
| `LedgerService.Service.UpdateJournalEntry` | app/services/accounting_service.py:293-359 | changes the ledger and answers as `Ledger.Edit` does |
| `LedgerService.Service.ReverseJournalEntry` | app/services/accounting_governance_service.py:240-307 | changes the ledger and answers as `Ledger.Reverse` does |
| `LedgerService.Service.Execute` | app/api/v1/accounting.py:262-857 | any operation on a reachable ledger leaves a reachable one, with exactly the operation's effect |
| `Invariant.SetStatusOutcome` | app/services/accounting_governance_service.py:123-157 | succeeds exactly for a stored period and a known status; changes status and sign-off of that period alone, with the time and the user of a closing, and nothing when the status stays; `Periods.StatusWords` says what each word does |
| `Invariant.StepShape` | app/services/accounting_service.py:293-359 | every operation leaves the entries alone, appends one, or replaces one that is no end of a reversal, keeping its key and link |
| `Invariant.PostKeeps` | app/services/accounting_service.py:34-189 | posting keeps the invariant |
| `Invariant.EditKeeps` | app/services/accounting_service.py:313-333 | editing keeps the invariant, mirrors included, because of the two guards |
| `Invariant.ReverseKeeps` | app/services/accounting_governance_service.py:248-303 | reversing keeps the invariant |
| `Invariant.SetStatusKeeps` | app/services/accounting_governance_service.py:131-157 | changing a status keeps the invariant |
| `Invariant.ReachableInv` | app/services/accounting_service.py:34-359 | every run from a state with the invariant ends in one: unique keys, whole months with unique ids, entries in their periods, well-formed lines, exact mirrors |
| `Invariant.RunKeepsIdentities` | app/services/accounting_service.py:331-333 | over any run every entry keeps its id, key, source type and link |
| `Invariant.RunBatchesTell` | app/services/accounting_service.py:327-358 | over any run an entry whose lines have not been replaced is the same entry |
| `Invariant.ReachableOk` | app/services/accounting_governance_service.py:40-307 | every reachable state satisfies the invariant |
| `Reversals.MirrorNegates` | app/services/accounting_governance_service.py:287-303 | a mirror has the opposite balance in every account and branch |
| `Reversals.EntriesChained` | app/services/accounting_governance_service.py:259-282 | each reversal follows and mirrors what it reverses, and no entry has two |
| `Reversals.ReversalMirrors` | app/services/accounting_governance_service.py:287-303 | after any run every reversal has its original's lines with the sides exchanged, line by line, and is the only one |
| `Reversals.ChainShape` | app/services/accounting_governance_service.py:259-282 | along a chain ids grow, each entry reverses the one before, and the last is not reversed |
| `Reversals.ChainsPartition` | app/services/accounting_governance_service.py:259-282 | each entry is on the chain of exactly one head |
| `Reversals.BalanceTelescopes` | app/services/accounting_governance_service.py:259-303 | the balance of an account in a branch is the sum over the heads of the chains of odd length |
| `Reversals.ReachableBalanceTelescopes` | app/services/accounting_governance_service.py:240-307 | the same in every reachable state |
| `Reversals.ReversalUndoes` | app/services/accounting_governance_service.py:287-303 | a reversal lowers every balance by what its entry contributed |
| `Reversals.ReversalText` | app/services/accounting_governance_service.py:270-303 | a reversal's source type and id, key and description name the entry reversed, the description with the reason and cut to 512; each line's memo names the line it undoes and the line no party |
| `Reversals.PostMovesBalance` | app/services/accounting_service.py:34-189 | a post moves the balance of every account and branch by the cents submitted for it; a refused or repeated one moves none |
| `Reversals.EditMovesBalance` | app/services/accounting_service.py:293-359 | an edit takes the entry's old lines out of every balance and puts in the cents submitted; a refused one moves none |
| `Reversals.PostThenReverse` | app/services/accounting_governance_service.py:240-307 | posting and reversing restores every balance |
| `Reversals.ReverseTwice` | app/services/accounting_governance_service.py:240-307 | reversing the reversal restores every balance |
| `Reversals.SealedForever` | app/services/accounting_service.py:313-320 | no run changes an entry that is a reversal or has been reversed |
| `Reversals.SealedRefuses` | app/services/accounting_service.py:313-320 | neither end of a reversal can be edited, and the entry reversed cannot be reversed again |
| `Reversals.ReversalSeals` | app/services/accounting_governance_service.py:259-303 | after a reversal both its ends stay as they are over any run |
| `Reversals.ReversalKeepsPositions` | app/services/accounting_governance_service.py:288-302 | a reversal, made or refused, leaves the position of every customer, supplier and employee in the ledger unchanged |
| `Reversals.PositionRestoredIff` | app/services/accounting_governance_service.py:288-302 | posting and reversing restores a party's position exactly when the posted lines had left none |
| `Reversals.PositionNeedNotReturn` | app/services/accounting_governance_service.py:288-302 | a post and its reversal after which a customer still owes 1.00 |
| `Reversals.BranchStandsAloneIff` | app/services/accounting_service.py:143-147 | the lines of one branch of an accepted batch are accepted alone exactly when there are some and they balance |
| `Reversals.BranchesBalanceIff` | app/services/accounting_service.py:143-147 | all branches of an accepted batch balance exactly when each could have been posted as an entry of its own |
| `Reversals.BranchesNeedNotBalance` | app/services/accounting_service.py:143-147 | an accepted batch whose two branches are each out of balance |
| `Reversals.BooksBalance` | app/services/accounting_service.py:76-147 | in every reachable state debits equal credits in each entry, each period and the whole ledger, and lines are one-sided |
| `Periods.EntryInItsPeriod` | app/services/accounting_service.py:322-333 | an entry's period id names the one stored period whose interval contains its date, after edits too |
| `Periods.PeriodsDisjoint` | app/services/accounting_governance_service.py:40-55 | stored periods do not overlap |
| `Periods.KeysSortPeriods` | app/services/accounting_governance_service.py:111-113 | ordering stored periods by start is ordering them by key |
| `Periods.StatusDecides` | app/services/accounting_governance_service.py:70-81 | what each status admits on every date of the period; closing time and user are set exactly while closed |
| `Periods.StatusLocks` | app/services/accounting_governance_service.py:58-108 | in every reachable state a stored period answers the lock, with and without the flag, and the advance check as its status says, errors and reasons included |
| `Periods.StatusWords` | app/services/accounting_governance_service.py:116-157 | the three words are the ones accepted, by any stored period, and say what it then lets in on every date of its interval; other words and unknown keys are refused with their errors |
| `Periods.OutOfRangeIff` | app/services/accounting_governance_service.py:29-55 | the look-up fails exactly for dates in December 9999 |
| `Periods.LookUpStores` | app/services/accounting_governance_service.py:40-55 | a look-up in a month without a period leaves a new, open one with the month's bounds, by either operation |
| `Periods.LockChecksAgree` | app/services/accounting_governance_service.py:98-108 | the advance check says yes exactly when the lock passes without the flag; the flag adds only the soft-closed case |
| `Periods.LockedStep` | app/services/accounting_governance_service.py:58-81 | one operation leaves the entries of a locked period alone and adds one only as a reversal or flagged post, while it is soft-closed |
| `Periods.LockedRun` | app/services/accounting_governance_service.py:58-81 | the same over any run during which the period stays locked, each added entry traced to the operation that appended it |
| `Periods.ClosedPeriodIsFrozen` | app/services/accounting_governance_service.py:71-75 | while a period stays closed its entries are the same ones, unchanged |
| `Periods.LockedPeriodOnlyGrows` | app/services/accounting_governance_service.py:76-81 | while it is soft-closed or closed its entries neither change nor move, and each entry that joins was appended, as it is, by a reversal or flagged post at a moment when the period was soft-closed |
| `Replay.DuplicateComesFirst` | app/services/accounting_service.py:51-55 | a used key, and only a used key, is answered None, whatever else the request holds |
| `Replay.ReplayIsIdentity` | app/services/accounting_service.py:51-55 | repeating accepted posts in any order and number after any run changes nothing |
| `Replay.RefusalLeavesNoTrace` | app/services/accounting_service.py:51-151 | a refused post or reversal changes nothing |
| `Replay.RefusedEditTrace` | app/services/accounting_service.py:302-325 | a refused edit leaves at most one new period, open and empty, and only when its lines are refused |
| `Replay.EditAcceptedIffRepost` | app/services/accounting_service.py:322-325 | posting and then editing to other contents succeeds exactly when the other contents could have been posted strictly and the first month is open; same error when both months are open |
| `Replay.EditEqualsRepost` | app/services/accounting_service.py:327-357 | the edited entry has the date, description, lines and month of the repost, and the identity of the post |
| `Replay.PostedAsSubmitted` | app/services/accounting_service.py:153-188 | an accepted post stores each submitted line as it was given |
| `Replay.EditedAsSubmitted` | app/services/accounting_service.py:331-358 | and so does an accepted edit |
| `Replay.PostVerdict` | app/services/accounting_service.py:57-164 | under a new key the lines come before the month among the errors; an accepted post has the requested date, source and key and the description cut to 512 |
| `Replay.EditRefusals` | app/services/accounting_service.py:302-320 | an unknown id, a reversal and a reversed entry are refused, in that order |
| `Replay.EditVerdict` | app/services/accounting_service.py:322-325 | then the entry's own month comes before the new one and that before the lines |
| `Replay.ReverseRefusals` | app/services/accounting_governance_service.py:253-285 | which of several reasons against a reversal is given: unknown, reversed already, the month, the key |
| `Replay.ReversalKeysDiffer` | app/services/accounting_governance_service.py:278-279 | the keys of reversals of different entries differ |
| `Replay.ReversalNeverBlocked` | app/services/accounting_governance_service.py:253-285 | without posts under look-alike keys, an unreversed entry can always be reversed into a month not closed |
| `Replay.ReversalCanBeBlocked` | app/services/accounting_governance_service.py:274-285 | an entry posted under the key of another entry's reversal blocks it |
| `Interleaving.ReachableTable` | app/models/journal_entries.py:18 | concurrent callers may start from any reachable books |
| `Interleaving.PostsAreMoves` | app/services/accounting_service.py:51-163 | the check and the insertion of a post are the moves of a caller on the table of keys |
| `Interleaving.ReversalsAreMoves` | app/services/accounting_governance_service.py:259-285 | and so are those of a reversal |
| `Interleaving.CallerAlone` | app/services/accounting_governance_service.py:259-285 | with nobody in between, what the caller finds decides whether it inserts its row |
| `Interleaving.OnlyCheckedInsert` | app/services/accounting_governance_service.py:259-285 | only a caller that has checked inserts, only its own row, and no move touches another caller |
| `Interleaving.OnePeriodPerMonth` | app/services/accounting_governance_service.py:41-53 | however callers look periods up at once, no month gets two, and of those in one month at most one creates it |
| `Interleaving.AtMostOnce` | app/services/accounting_governance_service.py:259-285 | however checks and inserts interleave, no key and no reversal is stored twice, and of the callers with one key at most one inserts |
| `Interleaving.ChecksAloneDoNotSuffice` | app/models/journal_entries.py:18 | without the unique constraint two callers can both reverse one entry; with it the second fails |
| `Overtaking.OvertakenPostKeepsInv` | app/services/accounting_service.py:51-189 | a post checked on some books and inserted after any operations keeps the invariant |
| `Overtaking.OvertakenPostRespectsLocksIff` | app/services/accounting_service.py:149-163 | it is refused exactly when its key has been taken; inserted, it respects the locks exactly when its month still admits it |
| `Overtaking.OvertakenEditKeepsInvIff` | app/services/accounting_service.py:302-358 | an edit checked on some books and written after any operations keeps the invariant exactly when none of them edited the entry, and it is not reversed by then or keeps its figures |
| `Overtaking.BatchRenewedIff` | app/services/accounting_service.py:327-358 | over any run the lines of an entry are replaced exactly when some operation edits it |
| `Overtaking.OvertakenByEditMixes` | app/services/accounting_service.py:327-358 | after another edit in between, the entry holds the lines of both, balanced but misnumbered, and is out of its period exactly when the write changes the date within the month read and the other edit moved the entry |
| `Overtaking.OvertakenEditTearsEntry` | app/services/accounting_service.py:302-358 | two edits after which the entry is dated outside its period |
| `Overtaking.OvertakenEditBreaksLock` | app/services/accounting_service.py:322-358 | an edit of an entry whose month was closed after its checks |
| `Overtaking.OvertakenEditRespectsLocksIff` | app/services/accounting_service.py:322-357 | it respects the locks exactly when the month the entry is in is still open, and the month it goes to, if that is another than the one read |
| `Overtaking.OvertakenReversalKeepsInvIff` | app/services/accounting_governance_service.py:253-303 | a reversal inserted after any operations keeps the invariant exactly when it is refused for its key or the entry still has the figures it was prepared from |
| `Overtaking.OvertakenReversalRespectsLocksIff` | app/services/accounting_governance_service.py:267-285 | inserted, it respects the locks exactly when its month is not closed by then |
| `Overtaking.OvertakenReversalBreaksMirror` | app/services/accounting_governance_service.py:253-303 | a post, a reversal and an edit between its checks and its insertion, after which the invariant fails |
| `Overtaking.OvertakenReversalBreaksLock` | app/services/accounting_governance_service.py:267-285 | a reversal into a month closed after its checks |
| `Overtaking.OvertakenPostBreaksLock` | app/services/accounting_service.py:149-163 | a post inserted into a month closed since its checks |
| `Overtaking.OvertakenEditBreaksMirror` | app/services/accounting_service.py:313-357 | a post, an edit and a reversal between its checks and its write, after which the invariant fails |
| `Schedules.AloneIsWhole` | app/services/accounting_governance_service.py:253-303 | a call that checks and writes with nothing in between does what the whole operation does; the periods can differ after a reversal whose key is taken |
| `Schedules.WholesAreRun` | app/services/accounting_service.py:34-359 | a schedule of whole operations is a run |
| `Schedules.EveryScheduleInsertsOnce` | app/services/accounting_governance_service.py:259-285 | any posts, edits and reversals, however their checks and writes interleave with each other and with whole operations: keys stay unique, no entry gets two reversals, and of the calls with one key at most one inserts |
| `Schedules.EveryScheduleBalances` | app/services/accounting_service.py:143-188 | and debits equal credits in each entry, each period and the whole ledger, and each entry is in a stored period |
| `Backfill.ExistingMeaning` | app/scripts/backfill_product_variants.py:65-66 | the dictionary of existing variants has every product with a variant, and one of its own |
| `Backfill.LastIsMapped` | app/scripts/backfill_product_variants.py:65-66 | of several variants of a product the last one counts |
| `Backfill.CreatedMeaning` | app/scripts/backfill_product_variants.py:74-92 | created variants copy products that had none, with their codes and active while the product is, under the next ids |
| `Backfill.AddedVariantCopies` | app/scripts/backfill_product_variants.py:72-92 | every variant a run adds is for a listed product that had none, with its SKU and barcode, active exactly when the product's status is active |
| `Backfill.UncoveredGetsOne` | app/scripts/backfill_product_variants.py:72-92 | every listed product without a variant gets exactly one; the variants there were stay as they were |
| `Backfill.LinksNameOwn` | app/scripts/backfill_product_variants.py:73-104 | every product is mapped to a variant of its own |
| `Backfill.BackfillLinksRightly` | app/scripts/backfill_product_variants.py:200-299 | rows with a variant are untouched; every other row of a known product gets a variant of that product |
| `Backfill.LineGetsLastVariant` | app/scripts/backfill_product_variants.py:99-299 | a line without a variant gets the last variant of its product that there is after the run |
| `Backfill.CountersAreExact` | app/scripts/backfill_product_variants.py:113-299 | per table the updated count and the number of rows changed are equal, and the eligible count with them unless there are no products; created is the number of variants added, and with skipped adds up to the products |
| `Backfill.BackfillKeepsValid` | app/scripts/backfill_product_variants.py:200-316 | a run that succeeds keeps the schema's constraints |
| `Backfill.SecondRunChangesNothing` | app/scripts/backfill_product_variants.py:3-6 | a second run succeeds, creates and updates nothing |
| `Backfill.TableKeepsUniqueIff` | app/models/stock_level.py:15-19 | linking keeps a table's rows unique exactly when no two rows collide beforehand, in tables that still allow a missing variant |
| `Backfill.SucceedsIff` | app/models/product_variant.py:23-34 | a run violates no constraint exactly when the codes to copy are free and no stock levels or branch costs, with variants still missing, collide |
| `Backfill.RequiredSucceedsIff` | app/models/stock_level.py:28-30 | with the variant columns NOT NULL but in the purchase order lines, exactly when the codes to copy are free |
| `Backfill.BackfillCanFail` | app/scripts/backfill_product_variants.py:72-96 | a shop that meets every constraint and on which the backfill fails |
| `Backfill.HalfLinkedFailsIff` | app/models/stock_level.py:15-19 | two rows of a product of which one is linked make the run fail exactly in the stock levels and the branch costs |
| `BackfillScript.UpdateRows` | app/scripts/backfill_product_variants.py:202-211 | one UPDATE links exactly the product's unlinked rows and returns their number |
| `BackfillScript.Catalog.constructor` | app/scripts/backfill_product_variants.py:39-57 | starts from given tables |
| `BackfillScript.Catalog.ReadExisting` | app/scripts/backfill_product_variants.py:65-66 | the dictionary of `Backfill.ExistingMeaning` |
| `BackfillScript.Catalog.MakeVariants` | app/scripts/backfill_product_variants.py:72-104 | the variants of `Backfill.CreatedMeaning`, the links of `Backfill.LinksNameOwn`, and their counts |
| `BackfillScript.Catalog.UpdateTables` | app/scripts/backfill_product_variants.py:200-299 | the nine updates for one product, or a clash exactly when they break a constraint |
| `BackfillScript.Catalog.LinkAll` | app/scripts/backfill_product_variants.py:200-299 | the loop over products links as all links at once do, and clashes exactly when that breaks a constraint |
| `BackfillScript.Catalog.CountAndLink` | app/scripts/backfill_product_variants.py:106-299 | counts and links everything, or nothing when there are no products, and clashes exactly when linking breaks a constraint |
| `BackfillScript.Catalog.BackfillVariants` | app/scripts/backfill_product_variants.py:39-321 | succeeds exactly when no constraint is broken, with the outcome and the counters of module `Backfill`; otherwise keeps nothing |
| `ResponseCache.CleanCuts` | app/services/ai_logging_service.py:142-145 | to a look-up a clean-up is a later cut-off and nothing else |
| `ResponseCache.CleanMeaning` | app/services/ai_logging_service.py:142-145 | a clean-up keeps exactly the rows of the last days, in their order |
| `ResponseCache.CleaningInvisible` | app/services/ai_logging_service.py:142-145 | a look-up that sees past every clean-up answers as if nothing had been deleted |
| `ResponseCache.NewestIsFreshWrite` | app/services/ai_logging_service.py:93-104 | the row that a look-up takes is that of the last write not older than the cut-off |
| `ResponseCache.LogRefinesMapIff` | app/services/ai_logging_service.py:84-145 | under a key every look-up answers as the map of last successful writes, clean-ups included, exactly when no write under that key is in the way |
| `ResponseCache.LogRefinesMap` | app/services/ai_logging_service.py:84-145 | each single look-up answers as the map when no write is in the way |
| `ResponseCache.OrderedLogRefinesMap` | app/services/ai_logging_service.py:84-145 | with times in order and windows no shorter than the lifetime they always agree |
| `ResponseCache.WriteInTheWay` | app/services/ai_logging_service.py:98-101 | a log in which the two disagree |
| `ResponseCache.SaveThenGet` | app/services/ai_logging_service.py:84-139 | a saved response is given back for its lifetime, cut to the limit, unless it was empty, whatever came before; later only something written with a later time is |
| `ResponseCache.SavedRow` | app/services/ai_logging_service.py:125-139 | a saved response is logged as a success and a hit under its key, with a payload that names the key and its text cut to 262144 |
| `ResponseCache.RowRecords` | app/services/ai_logging_service.py:53-81 | every column of a row holds what was given for it; the total only when it is more than none, the summary only when something is left |
| `ResponseCache.KeylessNeverMatter` | app/services/ai_logging_service.py:93-104 | taking out the calls logged without a key changes no look-up |
| `ResponseCache.KeylessNeverFound` | app/services/ai_call_context.py:53-66 | when nothing is logged with a key nothing is ever found |
| `ResponseCache.CleanUpNoticedIff` | app/services/ai_logging_service.py:142-145 | a clean-up can be noticed now or later exactly when its window is shorter than the lifetime |
| `ResponseCache.CleanKeepsUsage` | app/services/ai_logging_service.py:142-167 | statistics over no longer than the clean-up's window do not change |
| `ResponseCache.UsageMeaning` | app/services/ai_logging_service.py:148-170 | each statistic is its own column added up over the rows counted |
| `ResponseCache.HitRateMeaning` | app/services/ai_logging_service.py:180 | the rate is to a hundred as the hits to the calls, and nothing without calls |
| `ResponseCache.UsageAddsUp` | app/services/ai_logging_service.py:148-181 | prompt and completion tokens add up to at most the total, and to the total exactly when no counted call reported a negative number in all; the hit rate lies between 0 and 100 |
| `UsageLogService.UsageLog.constructor` | app/models/ai_usage_log.py:14-40 | a new log is that of no events |
| `UsageLogService.UsageLog.LogAiUsage` | app/services/ai_logging_service.py:36-81 | appends the row of the call, with its digest and cost; `ResponseCache.RowRecords` says what the row holds |
| `UsageLogService.UsageLog.SaveCachedResponse` | app/services/ai_logging_service.py:114-139 | logs a successful call under the key of the input |
| `UsageLogService.UsageLog.GetCachedResponse` | app/services/ai_logging_service.py:84-111 | the search from the newest row answers as `ResponseCache.Get` does |
| `UsageLogService.UsageLog.CleanupExpiredCache` | app/services/ai_logging_service.py:142-145 | deletes exactly the rows older than the window and returns their number |
| `UsageLogService.UsageLog.GetUsageStats` | app/services/ai_logging_service.py:148-181 | the statistics of `ResponseCache.UsageMeaning` over the last days and the rate of `ResponseCache.HitRateMeaning` |

## Left out

- LedgerService.Service: sessions, flushes and commits are not modelled, so a refused request at the API level also discards the period that a refused edit looked up.
- LedgerService.Service.PostJournalEntry: `posted_at`, column widths, the 14-digit bound of stored amounts and the precision of Python's decimal context are not modelled, nor are requests with missing fields or amounts that are not numbers.
- LedgerService.Service.ReverseJournalEntry: the acting user is not stored by the code and is not a parameter; an id used up by a failed insertion is reused in the model and skipped by the database.
- Journal.AcceptedIff: the rules that `app/services/chart_account_service.py` applies to one account are arbitrary functions; trimming and upper-casing know the ASCII characters only; a base currency that cannot be found counts as not configured.
- Overtaking.OvertakenEditKeepsInvIff: a period created by the checks of a call counts as visible to the others at once, and the calls in between are whole; in `Schedules` they are not, but periods are visible at once there too.
- Schedules.EveryScheduleBalances: a call that waits for another's transaction, or is undone with its own, is not modelled beyond the refusal of a taken key.
- BackfillScript.Catalog: SQL's unspecified row order is the order of the sequences; constraints on variant barcodes are checked with the others instead of at the commit, which ends the same transaction; timestamps and the columns the script does not read are not modelled.
- BackfillScript.Catalog.BackfillVariants: the progress messages are not modelled.
- UsageLogService.UsageLog.LogAiUsage: a negative length limit is not modelled; the digest's bytes and the price, which the code works out in binary floating point, are arbitrary functions.
- UsageLogService.UsageLog.GetUsageStats: the hit rate is an exact real number, and the window given back with the sums is left to the caller.
- `get_fiscal_period_detail`, `list_journal_entries_for_source` and `ensure_period_not_hard_closed` would add only read-only members; the last agrees with the lock check under the soft-close flag.
- Deleting users, periods or entries (ON DELETE rules) is not modelled; no modelled operation deletes one.
- Stock, point of sale, payroll, loyalty, receivables and payables, and the services that prepare posts for them.
