# Verification of the backend's arithmetic and protocols

This Dafny project models the parts of the backend whose correctness rests on an argument rather than on a
single branch, and proves the argument. `dafny verify dfyconfig.toml` checks all of it.

| part | modules |
|---|---|
| Calendar: timestamps, Julian Day Numbers and the Jalali calendar | `CivilCalendar`, `BusinessDate`, `JulianDay`, `JalaliYears`, `Jalali`, `Truncation` |
| Exact decimals, quantities and money | `Rounding`, `Decimals`, `HalfStages`, `DecimalText`, `Quantity`, `Money` |
| Message bodies frozen in depth | `DeepFreeze` |
| Transaction boundary and outbox recorder | `Transactions` |
| Outbox table, publisher and their concurrency | `OutboxRows`, `OutboxPublisher`, `OutboxProtocol`, `OutboxBatchRun`, `OutboxGuarantees`, `OutboxTimed`, `OutboxLateRun` |
| Job queue, dispatcher and their concurrency | `JobRecords`, `JobQueue`, `JobDispatcher`, `JobProtocol`, `JobSafety`, `JobConservation`, `JobHazards`, `JobDispatchRun`, `JobQueueRun` |
| Rate limiter and retry backoff | `RateLimiter`, `RetryPolicy` |
| Results and options | `Outcome` |

**Form.** Objects whose methods change state are classes, and each method is proved against a function of the
old state; loops are loops with invariants; expressions are functions. `Truncation` defines the source's
truncating `div` and `mod`, since Dafny's own division is Euclidean. The properties are lemmas about the
specification functions.

**Concurrency.** The outbox and the job queue are state machines. A step is one stored statement of one run or
delivery, or a crash, a requeue, a reclaim or the passing of time. Two steps of the outbox merge statements that
follow each other in the store: `Sweep` is the two updates of the release, and `Take` is the update of the claim
with the select keyed by its fresh token. An execution is any sequence of enabled
steps from the empty state, so runs interleave in every way and stop at any point. A statement that reports an
error may or may not have taken effect wherever the code handles the error. `OutboxBatchRun`, `JobDispatchRun`
and `JobQueueRun` prove that a publisher's batch, a dispatch, and the queue's push, claim, takeover and promotion
are executions of these machines that nothing interrupts.

**Assumptions.** What holds in every interleaving is in `OutboxProtocol`, `OutboxGuarantees` and `JobSafety`,
with the exact steps that end it where it can end. `OutboxTimed` adds one assumption, the timing
`OutboxTimed.Prompt`: the clock never passes the timeout of a run that still has rows to settle.
`JobConservation` assumes the three conditions of `JobConservation.Careful`. Each assumption has an execution
that shows what fails without it, in `OutboxLateRun` and `JobHazards`. The idempotency results take it that a
job's own code, which is handed the guard, releases no key itself.

**What the environment decides** is a parameter: the current time, ids, jitter in [0, 1), the transport's
answers, how a job's own code ends, whether the database driver begins and commits.

## Where the code and its documentation differ

The model follows the code.

- The dispatcher documents that a job is skipped when a completed execution claimed its key. It is skipped
  whenever the key is claimed, and then recorded as completed: also when the holder died
  (`JobHazards.DeadHolderSkipsJob`), and beside an execution that is under way and later throws
  (`JobHazards.SkipBesideFailureCompletesJob`). `JobSafety.SkipIsRight` gives the exact condition under which a
  skip follows the documentation, and `JobSafety.LostKeyIsSkippedForGood` what a lost key costs.
- The publisher documents one owner per record and a bounded budget. The mark statements match on the row's id
  alone, so a run past its timeout breaks both (`OutboxLateRun.LateRunBreaksBudget`);
  `OutboxGuarantees.OwnedUntilUsurped` and `OutboxGuarantees.BudgetUntilOverdrawn` give the exact conditions.
- The publisher documents that a record settles into exactly one next state. A mark that is applied but reported failed takes the publication
  back (`OutboxLateRun.LostReplyUnpublishes`); `OutboxGuarantees.PublishedUntilRefused` is the exact condition.
- The rate limiter's reported reset is the next whole-window boundary, while the bucket expires one window
  after its first hit (`RateLimiter.ResetIsExpiryOnlyOnBoundary`).
- The first attempt of a job is made even when its budget is zero or negative, since an enqueue may state any
  `maxAttempts` (`JobHazards.BudgetlessJobIsDelivered`); attempts are within the budget exactly when it allows
  one (`JobSafety.AttemptsAreOfEnqueuedJobs`).
- Civil days of 622 before 1 Farvardin convert to a Jalali year 0 that the converter back refuses
  (`Jalali.CivilDayRoundTrip`).

## Model

| member | source | states |
|---|---|---|
| CivilCalendar.AssertCivilDate | apps/backend/src/shared/primitives/calendar.ts:42-64 | accepts exactly the dates that exist in the years 1 to 9999, and returns the date it was given |
| CivilCalendar.MakeDayFinds | apps/backend/src/shared/primitives/calendar.ts:82-97 | the day number built from year, month and date decomposes, under section 21.4.1 of ECMA-262, into that year, month and date |
| CivilCalendar.ToUtcMillisCounts | apps/backend/src/shared/primitives/calendar.ts:82-97 | laying the parts out in the year 2000 and then replacing the year loses nothing: the result is the timestamp of the parts themselves, for every year |
| CivilCalendar.InstantRoundTrip | apps/backend/src/shared/primitives/calendar.ts:82-111 | decomposing the timestamp of a real instant gives the identical instant back, for every year |
| CivilCalendar.TimestampInParts | apps/backend/src/shared/primitives/calendar.ts:82-97 | a timestamp is the day count times 86,400,000 plus the time of day, and counts from the start of 1970 |
| CivilCalendar.EpochDaysIsDayNumber | apps/backend/src/shared/primitives/calendar.ts:113-125 | the day count through timestamps is the year's first day plus the place in the year |
| CivilCalendar.DayRoundTrip | apps/backend/src/shared/primitives/calendar.ts:99-125 | every integer is the day count of exactly the civil day it decomposes into |
| CivilCalendar.NextDayIsOneLater | apps/backend/src/shared/primitives/calendar.ts:29-40 | the next civil day, over month ends, leap days and year ends, counts exactly one more |
| CivilCalendar.CountPreservesOrder | apps/backend/src/shared/primitives/calendar.ts:113-125 | calendar order and the order of day counts are the same, equality included |
| BusinessDate.CompareIsDayOrder | apps/backend/src/shared/time/business-date.ts:112-140 | comparing field by field agrees in sign with the difference in days, and is zero only on the same date |
| BusinessDate.AddDaysLands | apps/backend/src/shared/time/business-date.ts:102-105 | moving by days succeeds exactly when the offset is within 3,650,000 days and the date that many days away lies in the years 1 to 9999, and returns that date |
| BusinessDate.AddDaysUndone | apps/backend/src/shared/time/business-date.ts:102-121 | a successful move is measured by the difference in days and undone by the opposite move |
| JulianDay.CivilRoundTrip | apps/backend/src/shared/time/jalali-calendar.ts:189-206 | civil day to Julian Day Number and back is the identity from 1 March of year -100100 on, with no upper limit |
| JulianDay.JdnRoundTrip | apps/backend/src/shared/time/jalali-calendar.ts:189-206 | day number to civil day and back is the identity on the same range, and the civil day exists |
| JulianDay.JdnIsEpochDays | apps/backend/src/shared/time/jalali-calendar.ts:189-197 | the closed form equals the day count through `Date` plus 2440588 |
| JulianDay.JdnSteps | apps/backend/src/shared/time/jalali-calendar.ts:189-197 | each next civil day has the next day number |
| JulianDay.FirstDayIsSharp | apps/backend/src/shared/time/jalali-calendar.ts:199-206 | the range cannot be extended: the day before it decomposes into a 31 February |
| JalaliYears.WalkBreaks | apps/backend/src/shared/time/jalali-calendar.ts:151-181 | the loop over any table of breakpoints returns what the recursive walk over the table defines |
| JalaliYears.JalaliYearInfo | apps/backend/src/shared/time/jalali-calendar.ts:151-181 | refuses exactly the years outside 1 to 3177 |
| JalaliYears.BreaksAreWellShaped | apps/backend/src/shared/time/jalali-calendar.ts:141-144 | every jump of the table is at least 29 and is 4 or 29 modulo 33, and the table ends after the last year |
| JalaliYears.LawOnWalk | apps/backend/src/shared/time/jalali-calendar.ts:157-181 | on every well-shaped table, through every segment boundary: the leap count rises exactly after a year of position 0, and position 1 follows exactly position 0 |
| JalaliYears.FarvardinIsLinear | apps/backend/src/shared/time/jalali-calendar.ts:173-176 | the Gregorian leap days cancel: the day number of 1 Farvardin is 365 times the year plus the Jalali leap count plus a constant |
| JalaliYears.YearLengthLaw | apps/backend/src/shared/time/jalali-calendar.ts:151-181 | on every well-shaped table consecutive years' first days are 366 apart exactly after a leap year and 365 otherwise |
| JalaliYears.FarvardinInMarch | apps/backend/src/shared/time/jalali-calendar.ts:173-176 | the computed day of March lies between 16 and 24 for every year of the table |
| JalaliYears.LeapYearsOfThisEra | apps/backend/src/shared/time/jalali-calendar.ts:141-181 | from 1210 to 1629 leap years recur in cycles of 33: every fourth year, and once after five |
| Jalali.DayNumberToJalali | apps/backend/src/shared/time/jalali-calendar.ts:208-227 | the step-by-step conversion computes the split by civil year and offset, with the error of the year range |
| Jalali.SplitIsExact | apps/backend/src/shared/time/jalali-calendar.ts:208-227 | the split of a day number names a date of the calendar with that very day number, in the year before exactly when the day precedes 1 Farvardin |
| Jalali.FromJalaliCounts | apps/backend/src/shared/time/jalali-calendar.ts:91-97 | a Jalali date's civil day exists and carries the date's day number |
| Jalali.ToJalaliCounts | apps/backend/src/shared/time/jalali-calendar.ts:86-89 | converting a civil day succeeds exactly for the civil years 622 to 3798 and keeps the day number |
| Jalali.JalaliRoundTrip | apps/backend/src/shared/time/jalali-calendar.ts:86-97 | Jalali to civil and back is the identity if and only if the date is not after 11 Dey 3177; the way back is refused for the later dates |
| Jalali.LastConvertible | apps/backend/src/shared/time/jalali-calendar.ts:91-97 | 11 Dey 3177 is 31 December 3798, through the whole table of breakpoints |
| Jalali.CivilDayRoundTrip | apps/backend/src/shared/time/jalali-calendar.ts:86-97 | civil to Jalali and back is the identity if and only if the day is not before 22 March 622; the earlier days convert to a year 0 that does not convert back |
| Jalali.OrderPreserved | apps/backend/src/shared/time/jalali-calendar.ts:91-97 | Jalali order and civil order are the same |
| Jalali.MonthsTileYear | apps/backend/src/shared/time/jalali-calendar.ts:104-131 | the twelve month bounds tile the year bounds: no gap, no overlap, the year's ends at the ends |
| Jalali.MonthsHaveTheirLength | apps/backend/src/shared/time/jalali-calendar.ts:104-131 | six months span 31 days, five 30, and the last 30 in a leap year and 29 otherwise |
| Jalali.YearsTileCalendar | apps/backend/src/shared/time/jalali-calendar.ts:99-131 | the year bounds tile the calendar, and a year spans 366 days exactly when it is leap |
| Jalali.MonthBoundsContain | apps/backend/src/shared/time/jalali-calendar.ts:117-125 | a day lies within a month's bounds exactly when it converts to a date of that month |
| Rounding.RoundedIffNamed | apps/backend/src/shared/primitives/decimal.ts:106-155 | for every sign of both operands the division returns r if and only if r is the integer the mode's own definition names |
| Rounding.NamedIsUnique | apps/backend/src/shared/primitives/decimal.ts:106-155 | each mode names at most one integer for a quotient |
| Rounding.RoundedMeetsRealRule | apps/backend/src/shared/primitives/decimal.ts:106-155 | each mode by the real quotient itself: floor, ceiling, towards and away from zero, and the nearest integer with its rule for ties |
| Rounding.RoundedIsNear | apps/backend/src/shared/primitives/decimal.ts:106-155 | the result is less than one unit away, and at most half a unit under HALF_UP and HALF_EVEN |
| Rounding.RoundedIsMonotone | apps/backend/src/shared/primitives/decimal.ts:106-155 | a larger numerator never rounds to a smaller integer |
| Rounding.RoundedNegates | apps/backend/src/shared/primitives/decimal.ts:106-155 | negation commutes with HALF_UP, HALF_EVEN, UP and DOWN and swaps FLOOR with CEILING |
| Rounding.ExactIsKept | apps/backend/src/shared/primitives/decimal.ts:124-134 | an exact quotient is returned unchanged by every mode |
| Decimals.CompareIsValueOrder | apps/backend/src/shared/primitives/decimal.ts:181-194 | the comparison is the order of the rational values, hence total and antisymmetric |
| Decimals.CompareIsTransitive | apps/backend/src/shared/primitives/decimal.ts:187-194 | the comparison is transitive, equality included |
| Decimals.TrimDecimal | apps/backend/src/shared/primitives/decimal.ts:201-209 | the loop computes the trimmed form |
| Decimals.TrimKeepsValue | apps/backend/src/shared/primitives/decimal.ts:201-209 | trimming keeps the value, never raises the scale and leaves nothing to trim |
| Decimals.TrimmedIsUnique | apps/backend/src/shared/primitives/decimal.ts:201-209 | two trimmed decimals of equal value are the identical pair |
| Decimals.CompareZeroIffTrimmedAlike | apps/backend/src/shared/primitives/decimal.ts:187-209 | comparing equal means trimming to the identical pair, so trimming is a canonical form |
| Decimals.RescaleTwice | apps/backend/src/shared/primitives/decimal.ts:158-178 | changing the scale in two stages equals changing it once under DOWN, UP, FLOOR and CEILING, and under every mode when the first stage loses nothing; `HalfStages.TwoStagesAgreeIff` has the remaining cases |
| HalfStages.TwoStagesAgreeIff | apps/backend/src/shared/primitives/decimal.ts:106-178 | for every decimal, all scales and every mode: two stages give what one stage gives if and only if the mode is directed, the first stage loses no digit or is the last one, or the lost digits pass a stated test of HALF_UP or HALF_EVEN |
| HalfStages.MagnitudeTwice | apps/backend/src/shared/primitives/decimal.ts:135-150 | the test on magnitudes: under HALF_UP the first stage must not lift the rest to one half, under HALF_EVEN it must not make a tie that goes to the other side |
| Decimals.RescaleIsNamed | apps/backend/src/shared/primitives/decimal.ts:158-178 | a scale outside 0 to 18 is refused, a larger one keeps the value, and a smaller one gives the decimal the mode names |
| Decimals.RescaleIsNear | apps/backend/src/shared/primitives/decimal.ts:172-178 | rescaling moves a decimal by less than one unit of the new scale, half a unit under the HALF modes |
| DecimalText.ParseOfFormat | apps/backend/src/shared/primitives/decimal.ts:54-72 | parsing the text of a decimal of scale 0 to 18 gives back the identical mantissa and scale |
| DecimalText.FormatIsInjective | apps/backend/src/shared/primitives/decimal.ts:224-234 | different decimals have different texts |
| DecimalText.FormatOfParse | apps/backend/src/shared/primitives/decimal.ts:224-234 | formatting a parsed text drops surplus leading zeros and the sign of zero, and nothing else |
| DecimalText.SpelledIsRead | apps/backend/src/shared/primitives/decimal.ts:54-72 | every optional minus, digits, and dot with one to eighteen more digits is read, as the number all digits denote at that scale |
| DecimalText.ReadIsSpelled | apps/backend/src/shared/primitives/decimal.ts:54-72 | and no other text is read |
| Quantity.SumIsExact | apps/backend/src/shared/quantity/quantity.ts:73-89 | addition and subtraction succeed exactly within one unit, are exact, and leave a trimmed result |
| Quantity.OfKeepsAmount | apps/backend/src/shared/quantity/quantity.ts:53-66 | reading a quantity keeps the number its text denotes |
| Quantity.AddAssociates | apps/backend/src/shared/quantity/quantity.ts:73-80 | addition is associative and commutative on the very representation |
| Quantity.SubtractUndoesAdd | apps/backend/src/shared/quantity/quantity.ts:73-89 | subtraction undoes addition to the identical quantity |
| Quantity.ResultsStayValid | apps/backend/src/shared/quantity/quantity.ts:53-131 | every result is trimmed, has a scale of at most 18 and keeps its unit |
| Quantity.ProductIsNamed | apps/backend/src/shared/quantity/quantity.ts:96-110 | a product is exact up to 18 digits of scale, and beyond it is the 18-digit decimal the mode names for the exact product |
| Quantity.QuotientIsNamed | apps/backend/src/shared/quantity/quantity.ts:117-131 | a quotient fails only on a zero divisor, and is the 18-digit decimal the mode names for the exact quotient |
| Quantity.DivideUndoesMultiply | apps/backend/src/shared/quantity/quantity.ts:96-131 | multiplying by a nonzero factor and dividing by it returns the identical quantity under any two modes whenever the scales sum to at most 18 |
| Money.TextRoundTrip | apps/backend/src/shared/money/money.ts:55-71 | reading back the text of an amount gives the same amount, whatever rounding is offered |
| Money.OfKeepsOrRounds | apps/backend/src/shared/money/money.ts:55-71 | an amount with no more digits than the currency keeps its value; one with more is refused exactly when no rounding is stated, and otherwise is the amount of minor units the rounding names |
| Money.ProductIsNamed | apps/backend/src/shared/money/money.ts:131-144 | a product is the integer of minor units the mode names for the exact product |
| Money.QuotientIsNamed | apps/backend/src/shared/money/money.ts:151-167 | a quotient fails only on a zero divisor, and is the integer of minor units the mode names for the exact quotient |
| Money.DivideUndoesMultiply | apps/backend/src/shared/money/money.ts:131-167 | multiplying by a nonzero whole number and dividing by it returns the identical amount |
| DeepFreeze.Walk | apps/backend/src/shared/messaging/message.ts:128-145 | one walk freezes exactly the objects it newly visits, each reachable from the root and leading only to visited ones; it ends on every finite graph |
| DeepFreeze.DeepFreeze | apps/backend/src/shared/messaging/message.ts:128-145 | an object is frozen afterwards if and only if it was before or is reachable through string-keyed own data properties, cycles and sharing included |
| DeepFreeze.ClosedSetKeepsPath | apps/backend/src/shared/messaging/message.ts:132-142 | no path leaves a set of objects that lead only into the set, so a skipped visited object hides nothing |
| DeepFreeze.ReachedStaysWithin | apps/backend/src/shared/messaging/message.ts:132-142 | no set that holds the body and the target of every string-keyed data property of its objects is left; symbol keys and accessors lead nowhere |
| Transactions.FailBoundary | apps/backend/src/shared/transaction/transaction-boundary.ts:160-165 | the boundary is marked and keeps its first defined failure |
| Transactions.Session.RunInside | apps/backend/src/shared/transaction/transaction-boundary.ts:171-182 | inside a boundary a program of nested frames has the effects, ends and first failure of its trace |
| Transactions.Session.RunWithinBoundary | apps/backend/src/shared/transaction/transaction-boundary.ts:171-182 | a nested frame reports its failure to the boundary it joined, and commits nothing |
| Transactions.Session.ExecuteBoundary | apps/backend/src/shared/transaction/transaction-boundary.ts:194-242 | for every tree of nested calls with any catching, the outermost call succeeds exactly when the driver is healthy and no frame at any depth failed; then every effect commits, otherwise none, and the caller gets the work's own failure or a boundary error with the first failure |
| Transactions.BoundarySurvives | apps/backend/src/shared/transaction/transaction-boundary.ts:194-242 | the same without traces: the call returns exactly when the driver is healthy and the program, followed along the returning path of every frame, meets no failure, and then leaves what that path leaves |
| Transactions.CaughtFailureRollsBack | apps/backend/src/shared/transaction/transaction-boundary.ts:171-182 | a frame that would fail as an outermost call makes the call around it fail and commit nothing, for every handler and every driver |
| Transactions.FirstFailureIsReported | apps/backend/src/shared/transaction/transaction-boundary.ts:160-182 | of two caught failures the caller gets the first that is not `undefined`; uncaught work hands on its own |
| Transactions.HandlerIsChosen | apps/backend/src/shared/transaction/transaction-boundary.ts:171-182 | the handler runs that matches how the frame failed, and a rethrow hands on that very end |
| Transactions.Session.RunOutside | apps/backend/src/infrastructure/outbox/outbox-recorder.ts:45-48 | outside a boundary writes commit one by one and a record is refused |
| Transactions.OutboxHoldsCommittedEvents | apps/backend/src/infrastructure/outbox/outbox-recorder.ts:45-68 | the outbox gains exactly the events recorded in committed boundaries, in order |
| RateLimiter.RedisRateLimiter.Consume | apps/backend/src/infrastructure/api/rate-limit/redis-rate-limiter.ts:112-152 | one call increments its own live bucket or opens one for a whole window, admits while the new count is within the limit, fails closed when the store does not answer, and reports the next window boundary |
| RateLimiter.IntervalBound | apps/backend/src/infrastructure/api/rate-limit/redis-rate-limiter.ts:40-46 | in any run on one key every half-open interval as long as the window admits at most twice the limit less one |
| RateLimiter.IntervalBoundIsTight | apps/backend/src/infrastructure/api/rate-limit/redis-rate-limiter.ts:40-46 | for every limit of at least one and every window longer than one millisecond the bound is reached, by a burst on each side of an expiry |
| RateLimiter.BucketBound | apps/backend/src/infrastructure/api/rate-limit/redis-rate-limiter.ts:40-46 | the window a fresh hit opens admits at most the limit |
| RateLimiter.BucketAdmitsExactly | apps/backend/src/infrastructure/api/rate-limit/redis-rate-limiter.ts:40-46 | within one live bucket answered calls are admitted exactly while the count is below the limit |
| RateLimiter.ResetIsNextBoundary | apps/backend/src/infrastructure/api/rate-limit/redis-rate-limiter.ts:82-85 | the reported reset is the next whole-window boundary after now |
| RateLimiter.ResetIsExpiryOnlyOnBoundary | apps/backend/src/infrastructure/api/rate-limit/redis-rate-limiter.ts:82-85 | that boundary is when a bucket opened now expires if and only if it opens on a boundary; otherwise it is earlier |
| RateLimiter.KeysAreSeparate | apps/backend/src/infrastructure/api/rate-limit/redis-rate-limiter.ts:55-57 | different keys have different buckets as long as scopes hold no colon, and different environments as long as their names hold none |
| RetryPolicy.BackoffBounds | apps/backend/src/infrastructure/jobs/retry.policy.ts:31-40 | the delay lies between half the capped exponential and all of it, so never beyond the cap |
| RetryPolicy.FirstDelay | apps/backend/src/infrastructure/jobs/retry.policy.ts:31-40 | the first delay is the capped base delay times the jitter, to the nearest millisecond, halves upward |
| RetryPolicy.BackoffDoubles | apps/backend/src/infrastructure/jobs/retry.policy.ts:31-40 | each later attempt waits as the one before would with twice the base delay |
| RetryPolicy.BackoffGrows | apps/backend/src/infrastructure/jobs/retry.policy.ts:31-40 | with the same jitter a later attempt never waits less |
| OutboxRows.DrizzleOutboxStore.Add | apps/backend/src/infrastructure/outbox/persistence/drizzle-outbox-store.ts:38-59 | a row is inserted as pending exactly when its id and its event are new |
| OutboxRows.DrizzleOutboxStore.ClaimDue | apps/backend/src/infrastructure/outbox/persistence/drizzle-outbox-store.ts:61-93 | the claim takes at most the limit of due rows, oldest first, leaves only younger ones, and marks exactly those |
| OutboxRows.DrizzleOutboxStore.MarkPublished | apps/backend/src/infrastructure/outbox/persistence/drizzle-outbox-store.ts:95-106 | publishes the row with the id, whatever its claim |
| OutboxRows.DrizzleOutboxStore.MarkRetrying | apps/backend/src/infrastructure/outbox/persistence/drizzle-outbox-store.ts:108-118 | reschedules the row with the id, whatever its claim |
| OutboxRows.DrizzleOutboxStore.MarkFailed | apps/backend/src/infrastructure/outbox/persistence/drizzle-outbox-store.ts:120-130 | fails the row with the id, whatever its claim |
| OutboxRows.DrizzleOutboxStore.ReleaseStale | apps/backend/src/infrastructure/outbox/persistence/drizzle-outbox-store.ts:132-156 | the two updates split the stale rows by budget, touch each once and count them all |
| OutboxRows.DrizzleOutboxStore.Requeue | apps/backend/src/infrastructure/outbox/persistence/drizzle-outbox-store.ts:158-172 | revives a failed row and no other |
| OutboxPublisher.Publisher.PublishRecord | apps/backend/src/infrastructure/outbox/outbox.publisher.ts:127-162 | one record is sent with its stored id, type and payload and settled into exactly one of three states, decided by the answer and the budget |
| OutboxPublisher.Publisher.SettleRecords | apps/backend/src/infrastructure/outbox/outbox.publisher.ts:127-162 | the loop settles each record by its own attempt, appends what the attempts appended, and accounts for every record |
| OutboxPublisher.Publisher.PublishBatch | apps/backend/src/infrastructure/outbox/outbox.publisher.ts:109-165 | a run releases, claims and settles; its summary counts every released and every claimed row |
| OutboxPublisher.BatchChooses | apps/backend/src/infrastructure/outbox/outbox.publisher.ts:109-127 | a batch claims waiting rows whose time has come and abandoned ones with budget left, and leaves such a row only when it is full; abandoned rows it does not claim are released, all others stay |
| OutboxPublisher.BatchEnds | apps/backend/src/infrastructure/outbox/outbox.publisher.ts:127-162 | each claimed row costs one attempt and ends published, failed for good or scheduled after its backoff, by its own attempt's answer and budget |
| OutboxPublisher.AccountedInOrder | apps/backend/src/infrastructure/outbox/outbox.publisher.ts:127-162 | the entry and the report of an attempt stand at its place in the order of the records, with the stored fields |
| OutboxPublisher.AllAreAccounted | apps/backend/src/infrastructure/outbox/outbox.publisher.ts:127-164 | the stream gains one entry per append, the counts are the numbers of rows that ended so, and there is one report per row not published |
| OutboxPublisher.BatchRowByRow | apps/backend/src/infrastructure/outbox/outbox.publisher.ts:109-165 | after a batch each claimed row is in the settlement of its own attempt and every other row is at most released |
| OutboxPublisher.BatchIsProgress | apps/backend/src/infrastructure/outbox/outbox.publisher.ts:109-165 | a batch at a time when every wait has elapsed never raises the summed remaining budget, and lowers it while a row is unsettled, whatever the transport answers |
| OutboxPublisher.BatchesDrain | apps/backend/src/infrastructure/outbox/outbox.publisher.ts:52-84 | without overlap and crashes, as many such batches one after another as the summed budget settle every row; `OutboxTimed.EveryRowEnds` has the interleavings |
| OutboxProtocol.NothingIsLost | apps/backend/src/infrastructure/outbox/persistence/drizzle-outbox-store.ts:95-172 | between any two moments of any interleaving no committed row, no event and no stream entry is lost or changed |
| OutboxProtocol.OutboxIsSafe | apps/backend/src/infrastructure/outbox/outbox.publisher.ts:72-79 | in every interleaving of commits, runs, crashes, releases and requeues: a published row's event is on the stream, every entry carries the stored id, type and payload of a committed row, and copies never outnumber the claims of the row |
| OutboxProtocol.ClaimsAreClaimings | apps/backend/src/infrastructure/outbox/persistence/drizzle-outbox-store.ts:61-82 | the claim counter of a row is the number of claims that took it |
| OutboxBatchRun.BatchIsARun | apps/backend/src/infrastructure/outbox/outbox.publisher.ts:109-165 | the publisher's batch is one run of the protocol that nothing interleaves with, on the table and on the stream |
| OutboxGuarantees.OwnedUntilUsurped | apps/backend/src/infrastructure/outbox/outbox.publisher.ts:78-79 | one owner per record, exactly: in every execution all rows that runs list are theirs alone, as they claimed them, up to a moment if and only if no sweep came past a busy run's timeout and no mark was applied but reported failed before |
| OutboxGuarantees.OwnersAreAlone | apps/backend/src/infrastructure/outbox/outbox.publisher.ts:78-79 | until then a listed row is publishing under its lister's token, as claimed, and is listed once and by nobody else |
| OutboxGuarantees.PublishedUntilRefused | apps/backend/src/infrastructure/outbox/outbox.publisher.ts:72-77 | in every execution a published row stays published up to a moment if and only if no run that has it at its head refuses it before |
| OutboxGuarantees.BudgetUntilOverdrawn | apps/backend/src/infrastructure/outbox/outbox.publisher.ts:67-71 | with a budget of at least one, in every execution all rows stay within the attempt budget up to a moment if and only if no run retried, by the attempts its record shows, a row whose budget was spent since |
| OutboxGuarantees.SpendingIsBounded | apps/backend/src/infrastructure/outbox/outbox.publisher.ts:67-71 | until such a retry a row shows at most the allowed attempts, a claimable one fewer, and claims, hence copies, are at most the budget times one more than the requeues |
| OutboxTimed.OneOwner | apps/backend/src/infrastructure/outbox/outbox.publisher.ts:78-79 | when every live run settles before its timeout, no two runs ever list the same row |
| OutboxTimed.OwnedUntilReplyIsLost | apps/backend/src/infrastructure/outbox/outbox.publisher.ts:78-79 | then every listed row is publishing under its lister's token, exactly as claimed, up to a moment if and only if no mark was applied but reported failed before |
| OutboxTimed.TerminalIsFinal | apps/backend/src/infrastructure/outbox/outbox.publisher.ts:67-71 | then a failed row changes only by a requeue, and a published one only when its run refuses it |
| OutboxTimed.PublishedIsFinal | apps/backend/src/infrastructure/outbox/outbox.publisher.ts:72-77 | then a published row stays exactly as it is up to a moment if and only if no run that has it at its head refuses it before |
| OutboxTimed.PublishedIsFinalIfRepliesArrive | apps/backend/src/infrastructure/outbox/outbox.publisher.ts:72-77 | then, while no applied mark is reported failed, a published row never changes again |
| OutboxTimed.BudgetHolds | apps/backend/src/infrastructure/outbox/outbox.publisher.ts:136-139 | then no row shows more attempts than allowed, a claimable row shows fewer, and claims, hence copies, are at most the budget times one more than the requeues |
| OutboxTimed.ClaimsRunOut | apps/backend/src/infrastructure/outbox/outbox.publisher.ts:67-71 | then, without new rows and requeues, only as many claims win a row as the summed remaining budget allows, however runs overlap and crash and replies are lost |
| OutboxTimed.EveryRowEnds | apps/backend/src/infrastructure/outbox/outbox.publisher.ts:67-71 | then, without new rows and requeues, once as many claims had a chance as that budget allows, every row is published or failed and no mark of it is in doubt, in whatever way runs overlap, fail and crash and replies are lost |
| OutboxTimed.ReadyRunHasChance | apps/backend/src/infrastructure/outbox/outbox.publisher.ts:109-120 | a run that sweeps when every wait has elapsed and no run is about to refuse, and then claims, has such a chance |
| OutboxLateRun.LateRunBreaksBudget | apps/backend/src/infrastructure/outbox/outbox.publisher.ts:127-151 | past the timeout one execution ends all three: two runs list one row at once, the published row goes back to retrying, and it is claimed beyond its budget |
| OutboxLateRun.LostReplyUnpublishes | apps/backend/src/infrastructure/outbox/outbox.publisher.ts:127-151 | on time, too, a mark that is applied but reported failed takes a publication back |
| OutboxLateRun.PunctualRunPublishes | apps/backend/src/infrastructure/outbox/outbox.publisher.ts:127-131 | the timing is met by a run that publishes its row |
| JobQueue.RedisJobQueue.Push | apps/backend/src/infrastructure/jobs/queue/redis-job-queue.ts:49-63 | appends the envelope and records the job as queued |
| JobQueue.RedisJobQueue.Claim | apps/backend/src/infrastructure/jobs/queue/redis-job-queue.ts:65-86 | delivers the next entries to the consumer and returns the well-formed ones in order |
| JobQueue.RedisJobQueue.ToClaimed | apps/backend/src/infrastructure/jobs/queue/redis-job-queue.ts:229-267 | malformed entries are acknowledged and dropped, the others come back parsed |
| JobQueue.RedisJobQueue.ReclaimStale | apps/backend/src/infrastructure/jobs/queue/redis-job-queue.ts:94-120 | takes over the lowest idle entries, at most the count, among the ten for each one asked for that Redis examines |
| JobQueue.FirstIdle | apps/backend/src/infrastructure/jobs/queue/redis-job-queue.ts:98-105 | the scan finds exactly the first idle entries among those examined |
| JobQueue.FirstIdleMeans | apps/backend/src/infrastructure/jobs/queue/redis-job-queue.ts:98-105 | each entry taken was idle long enough, with fewer than ten pending ones below it per entry asked for, and such an entry is left only when the count is reached by lower ones |
| JobQueue.RedisJobQueue.ScheduleRetry | apps/backend/src/infrastructure/jobs/queue/redis-job-queue.ts:146-154 | stores the record and its due time |
| JobQueue.RedisJobQueue.PromoteDue | apps/backend/src/infrastructure/jobs/queue/redis-job-queue.ts:156-196 | promotes jobs whose time has come, the earliest first, all of them unless the limit is reached, and counts the pushes |
| JobQueue.EarliestDue | apps/backend/src/infrastructure/jobs/queue/redis-job-queue.ts:158-160 | lists the earliest due jobs in order |
| JobQueue.EarliestDueMeans | apps/backend/src/infrastructure/jobs/queue/redis-job-queue.ts:158-160 | a listed job's time has come, and one whose time has come is left out only at the limit, behind earlier ones |
| JobQueue.ClaimGivesOnce | apps/backend/src/infrastructure/jobs/queue/redis-job-queue.ts:65-86 | a claim gives every well-formed entry it reads to one consumer and to no one else |
| JobQueue.WellFormedIsExact | apps/backend/src/infrastructure/jobs/queue/redis-job-queue.ts:238-259 | exactly the well-formed entries come back, each with its own envelope |
| JobQueue.PromotionJobByJob | apps/backend/src/infrastructure/jobs/queue/redis-job-queue.ts:162-193 | each due job leaves the schedule; those still retrying are queued for their next attempt in order, and no other record changes |
| JobQueue.PromotionInFields | apps/backend/src/infrastructure/jobs/queue/redis-job-queue.ts:158-193 | a listed job leaves the schedule, a retrying one is recorded as queued for its next attempt with every other field kept, and a job whose time has not come keeps record and schedule |
| JobQueue.PromotedInOrder | apps/backend/src/infrastructure/jobs/queue/redis-job-queue.ts:162-193 | the entries queued are the next attempts of the retrying jobs, in order |
| JobDispatcher.JobEnqueuer.Enqueue | apps/backend/src/infrastructure/jobs/job-enqueuer.ts:47-72 | builds the first attempt: explicit input wins, then the definition or the ambient scope, then the default |
| JobDispatcher.RedisIdempotencyGuard.Claim | apps/backend/src/infrastructure/jobs/idempotency/redis-idempotency.guard.ts:27-35 | sets an absent key; only the first caller wins |
| JobDispatcher.RedisIdempotencyGuard.Release | apps/backend/src/infrastructure/jobs/idempotency/redis-idempotency.guard.ts:37-40 | deletes the key |
| JobDispatcher.JobDispatcher.Dispatch | apps/backend/src/infrastructure/jobs/job-dispatcher.ts:89-169 | leaves the queue, the keys and the status that the dispatch specification gives |
| JobDispatcher.JobDispatcher.Execute | apps/backend/src/infrastructure/jobs/job-dispatcher.ts:171-232 | refuses, skips or runs in the source's order, and keeps the key only on success |
| JobDispatcher.JobDispatcher.FailTerminally | apps/backend/src/infrastructure/jobs/job-dispatcher.ts:280-307 | records the terminal failure and acknowledges |
| JobDispatcher.DispatchSettles | apps/backend/src/infrastructure/jobs/job-dispatcher.ts:89-169 | a dispatch ends in exactly one of three recorded states; a broken execution waits for a retry exactly when it is retryable and an attempt is left; it acknowledges its own entry only and touches no other job |
| JobDispatcher.DispatchInFields | apps/backend/src/infrastructure/jobs/job-dispatcher.ts:89-169 | the whole new state from the job, the envelope and the keys: which record is stored with which times and failure, when the retry is due, what is acknowledged |
| JobDispatcher.DispatchKeeps | apps/backend/src/infrastructure/jobs/job-dispatcher.ts:193-232 | only an admitted execution that returns keeps its key, and the status reported is the one recorded |
| JobDispatcher.RetryComesBack | apps/backend/src/infrastructure/jobs/job-dispatcher.ts:137-165 | a retrying job comes back once its delay has passed: the same job, one attempt later, within its budget |
| JobDispatcher.DuplicateIsSkipped | apps/backend/src/infrastructure/jobs/job-dispatcher.ts:193-205 | in any sequence of attempts, every one after a success under a key that derives the key is skipped, unless it is refused first |
| JobSafety.AttemptsAreOfEnqueuedJobs | apps/backend/src/infrastructure/jobs/job-dispatcher.ts:133-167 | in every interleaving every stream entry, execution, record and push under way is an attempt of a job enqueued with exactly that type, payload, owner, correlation and creation time, lies within 1 to `maxAttempts` if and only if `maxAttempts` is at least 1, and retrying records are strictly below the budget |
| JobSafety.ExecutionsNeverOverlap | apps/backend/src/infrastructure/jobs/job-dispatcher.ts:193-205 | in every interleaving two executions with the same idempotency key never overlap |
| JobSafety.OneSuccess | apps/backend/src/infrastructure/jobs/idempotency/redis-idempotency.guard.ts:27-40 | in every interleaving at most one execution under a key ever succeeds |
| JobSafety.SkipIsRight | apps/backend/src/infrastructure/jobs/job-dispatcher.ts:61-63 | at every skip of every execution: an execution under the key has completed if and only if none is under way at that moment and the key was never lost, by a holder's death or a lost answer of the guard |
| JobSafety.SkipMeansEffect | apps/backend/src/infrastructure/jobs/job-dispatcher.ts:193-205 | at every moment of every execution: behind a claimed key stands an execution that succeeded or one under way if and only if the key was never lost so far |
| JobSafety.LostKeyIsSkippedForGood | apps/backend/src/infrastructure/jobs/job-dispatcher.ts:193-205 | a key lost that way is skipped for good: no execution under it starts afterwards and none succeeds at any moment |
| JobConservation.NoJobIsLost | apps/backend/src/infrastructure/jobs/job-dispatcher.ts:89-169 | with atomic pushes and promotions and dead owners of reclaimed entries, wherever dispatches die a pushed job is on the stream unacknowledged, or scheduled with a retrying record, or has a terminal record |
| JobConservation.ConservedAlways | apps/backend/src/infrastructure/jobs/queue/redis-job-queue.ts:88-120 | the entry behind a job's last record stays unacknowledged, with its only live delivery in a fitting phase, until the job is terminal or scheduled |
| JobHazards.InterruptedPromotionLosesJob | apps/backend/src/infrastructure/jobs/queue/redis-job-queue.ts:162-175 | a promoter that dies between the removal and the push loses the job |
| JobHazards.InterruptedPushHidesEnd | apps/backend/src/infrastructure/jobs/queue/redis-job-queue.ts:52-62 | a worker that outruns the producer's second write leaves a finished job queued for good |
| JobHazards.HastyReclaimLosesJob | apps/backend/src/infrastructure/jobs/queue/redis-job-queue.ts:94-120 | an entry taken over from a living delivery can lose the job |
| JobHazards.DeadHolderSkipsJob | apps/backend/src/infrastructure/jobs/job-dispatcher.ts:193-205 | a holder that dies keeps its claim: the redelivered job is recorded as completed although nothing succeeded |
| JobHazards.SkipBesideFailureCompletesJob | apps/backend/src/infrastructure/jobs/job-dispatcher.ts:193-205 | without any loss, a job skipped beside an execution that later throws is recorded as completed although nothing ever succeeded under the key |
| JobHazards.BudgetlessJobIsDelivered | apps/backend/src/infrastructure/jobs/job-enqueuer.ts:56-67 | a job enqueued with a budget of zero is delivered as its first attempt all the same |
| JobQueueRun.PushIsAStep | apps/backend/src/infrastructure/jobs/queue/redis-job-queue.ts:49-63 | a push is the protocol's push, and equals the two writes of a producer that nothing interrupts |
| JobQueueRun.PromoteDueIsARun | apps/backend/src/infrastructure/jobs/queue/redis-job-queue.ts:156-196 | a promotion of due jobs, up to any point of its loop, is that many promotions of the protocol in that order |
| JobQueueRun.PromotionInWrites | apps/backend/src/infrastructure/jobs/queue/redis-job-queue.ts:162-193 | the protocol's promotion equals its separate writes when nothing interrupts them |
| JobQueueRun.ClaimIsARun | apps/backend/src/infrastructure/jobs/queue/redis-job-queue.ts:65-86 | a claim of any size is as many deliveries of the protocol as it reads entries, of exactly the jobs it returns, in order |
| JobQueueRun.ReclaimIsARun | apps/backend/src/infrastructure/jobs/queue/redis-job-queue.ts:94-120 | a takeover of stale entries is as many reclaims of the protocol, of exactly the jobs it returns, in order |
| JobDispatchRun.DispatchIsARun | apps/backend/src/infrastructure/jobs/job-dispatcher.ts:89-307 | the dispatch method is one delivery of the protocol that nothing interleaves with, on the records, the schedule, the pending list and the keys |

## Left out

- Redis, MySQL and Drizzle themselves: each statement is one atomic step on maps and sequences. Stream trimming, connection handling, the lazy creation of the consumer group and the database's isolation levels are not modelled.
- The timeout of the rate limiter's store call appears only as an answer that is lost.
- What happens between the two updates of one release, or between a claim's update and its select.
- Releases of idempotency keys by a job's own code, which receives the guard in its context.
- Expiry of job records and of idempotency keys: keys stay until they are released.
- A rollback that itself fails, and frames of one boundary that run concurrently.
- Clocks of different processes: the outbox machine has one clock, which a run reads when it begins.
- Entries that do not parse are in the queue's methods, not in the job machine.
- The job machine has no clock: a scheduled job may be promoted, and a pending entry taken over, at any moment.
- `Intl` time zones, decimal input given as a JavaScript number, the tenant's canonical spelling and redaction of failure messages.
- The limits of JavaScript's numbers: integers are unbounded, and the timestamp range of `Date` is not enforced.
- The normalisation of unit names and currency metadata; a unit or currency is compared as given.
- `Object.freeze` on exotic objects (typed arrays, proxies), and the `Message` constructor around the freezing.
- Tenant columns, correlation and causation ids of outbox rows, which no statement of the model reads.
- The worker loop, the scheduler, logging, configuration reading and the frontend.
- Fiscal periods, tenancy, message names and error mapping: checks of one branch each.
- JobDispatcher.JobDispatcher.Dispatch: asks for an attempt of at least one, which every stored envelope has; a hand-made envelope below one would wait a fraction of the base delay.
- RateLimiter.RedisRateLimiter.Consume: asks for a positive window, which the configuration ensures.
- OutboxPublisher.Publisher.PublishBatch: asks for a claim token no row carries, which a fresh random id is.
- OutboxTimed.BudgetHolds: needs a budget of at least one attempt, which the configuration ensures, and so do `OutboxGuarantees.BudgetUntilOverdrawn` and all of `OutboxTimed`.
