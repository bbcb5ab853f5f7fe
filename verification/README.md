# Confero: a verified model of its dispatch engine, calendar feeds and import

Confero keeps academic conferences and their deadlines. Users star conferences; a scheduler mails them
reminders before each deadline and a weekly digest; calendar clients read iCalendar feeds; members
import conferences from YAML. This project models those parts in Dafny and proves what they keep.

**Reminders.** The table of reminder rows caches "stars x set deadlines x lead days".
`Reminders` says what the table should hold and what each service transaction does to it;
`ReminderStore` is the transactions themselves, as a class whose methods loop over the tables and spell the
program's own conditions, so that a method and the definition it is proved against are two accounts of one step;
`SendTime` and `Civil` are the send-time calculation over Go's calendar arithmetic and any time zone,
`DateLine` what becomes of it where a zone leaves out a day.
Main results: `ReminderSystem.ViewInEveryState` (in every state reached by any interleaving of service
transactions and workers, the pending rows are exactly the recomputed ones without a finished row),
`Reminders.UpdateRepairs` and `Reminders.SetSettingsRepairs` (one transaction repairs any corruption).

**Dispatch.** `Dispatcher` is the worker protocol: select and lock a batch, mail row by row, commit once.
It is generic in the table's unique key and serves reminders and digests. `DispatchRuns` holds the
safety theorems about whole runs, `Resend` the exact account of repeated mail and `SecondMails` the runs of the
reminder and digest systems that repeat it. `Drain` bounds the ticks until due rows are handled for good if rows
due at the same instant are always taken in one fixed order;
`DrainAnyOrder` is the bound that needs no such order, which the query does not give.
`DispatchLoop` is the dispatch loop as the program runs it, refined to protocol steps and to ticks.
Service transactions are atomic; they never touch a locked row, since they wait for its lock.

**Digest.** `Weeks` is the week arithmetic, `Digest` the probe, the item list, the dispatch and the
one-row-per-week runs. `ProbedWeeks.ProbedExactly` says for every zone which weeks are sure of a digest row:
those in which the chosen hour lasts, inside the UTC week, for as long as the probes may lie apart.

**iCalendar.** `ICalText` escapes and folds, `ICal` prints into a buffer, `ICalReader` is a reference
reader (unfold, split at line breaks, split at the first colon, follow BEGIN and END, unescape), and
`ICalFaithful.RoundTrip` says exactly when reading gives back what was printed, `ICalOutput` spells the output out,
and `Civil` ties the printed dates to the Gregorian calendar. `Feeds` builds the events.
Strings are sequences of code points.

**Import.** `Slug` and `Tags` are the canonical tag names, `Catalogue` what a document does to the
catalogue, `Import` the service on top of the reminder and tag tables, with the conference form beside it.

Instants are nanoseconds since 0001-01-01 UTC, the instant Go calls the zero time. A zone is any function
from instants to offsets. The clock, the mailer's answers, failing statements and commits, the time zone
database, `time.Parse`, the database's `LOWER`, the lower-casing of characters and which of them are white space
are parameters.

Where the code and its documentation disagree, the model follows the code:
- `docs/adr/0008-in-process-scheduler.md:51-53` claims at-most-once delivery across crashes. Mail goes out
  before the commit, so it can be repeated (`SecondMails.CrashResends`); `Resend.AtMostOnce` says exactly when it is.
- `docs/IMPORT_FORMAT.md:45-47` says strict mode aborts the whole import with all counters zero. Earlier
  entries stay written and counted (`Catalogue.StrictKeepsTheFirst`); `Catalogue.StrictLeftovers` gives the condition.
- `server/internal/ical/encoder.go:86` speaks of octets; the fold counts code points
  (`ICalOctets.AccentsOverflow`), and `ICalOctets.FoldedOctets` says which lines keep to 75 octets all the same.
- `server/db/queries/scheduler.sql:20-24` picks the fifty earliest due rows and leaves ties open; all reminders
  of one date and zone are tied. `Drain.DrainBound` needs a fixed order of ties: `DrainAnyOrder.TiesMatter` is a
  run without one that exceeds its bound, and `DrainAnyOrder.DrainAnyOrderBound` holds for every order.
- `server/internal/scheduler/digest.go:13` speaks of an hourly probe, which could miss weeks where the chosen hour
  runs across Monday midnight UTC (`ProbedWeeks.HalfHourZone`); `server/cmd/confero-server/main.go:98` ticks every
  minute, which never misses a week of one offset (`ProbedWeeks.AcceptedSettings`). An hour that the clock skips is
  missed by any probing (`ProbedWeeks.SkippedHour`).

A reminder with a lead of a day or more is meant to come before its deadline. For any zone
`SendTime.SendDistance` gives the exact distance and the exact condition; it holds wherever offsets change by
less than seven and a half hours (`SendTime.SmallChanges`), for leads of five days or more in any zone at all
(`SendTime.LongLeads`), and where a day is left out at local midnight exactly if the zone was more than nine hours
west of UTC (`DateLine.SkippedDay`).

`dafny verify dfyconfig.toml` checks everything.

## Model

| member | source | states |
|---|---|---|
| Dispatcher.InvWorker | server/internal/scheduler/scheduler.go:148-219 | whatever any number of workers do next (select, handle a row, commit, abort), locks stay disjoint, marks and mails stay tied to handled rows, refusal counters stay exact and mails stay within one plus the lost transactions |
| Dispatcher.InvService | server/db/queries/reminders.sql:1-35 | a service transaction that leaves locked rows alone keeps all of that, for rows it cancels, deletes, replaces or adds |
| Dispatcher.LocksSelect | server/db/queries/scheduler.sql:20-24 | a batch chosen with SKIP LOCKED is disjoint from every batch held already and holds pending rows only |
| Dispatcher.MarkedRow | server/internal/scheduler/scheduler.go:186-207 | after a committed answer the counter equals the refusals of a row that has not failed, and a failed row has seen exactly the limit although its counter stopped one short |
| Dispatcher.RowCommit | server/db/queries/scheduler.sql:26-45 | a commit keeps every row and its id, and every committed row's counter agrees with its refusals again |
| Dispatcher.RefusalsCommit | server/internal/scheduler/scheduler.go:186-203 | a commit adds one refusal for exactly the rows of the batch the mailer refused and leaves every other count as it was |
| Dispatcher.ServedRow | server/db/queries/reminders.sql:1-35 | a row after a service transaction is the old one, the old pending one cancelled, or a fresh one with a new id |
| DispatchRuns.RunInv | server/internal/scheduler/scheduler.go:148-219 | the invariant holds in every state of every run of any number of workers and service transactions |
| DispatchRuns.MailsPerKey | server/internal/scheduler/scheduler.go:163-218 | accepted mails for a key never exceed one plus the aborted transactions that held it; without such an abort a sent key got exactly one, over deletions and re-insertions |
| DispatchRuns.MailsPerRow | server/internal/scheduler/scheduler.go:163-218 | the same bound for the individual row |
| DispatchRuns.AttemptsBounded | server/internal/scheduler/scheduler.go:187-203 | in every reachable state a pending row has fewer attempts than the limit and exactly as many committed refusals, a failed row exactly the limit of refusals |
| DispatchRuns.LockedBatches | server/db/queries/scheduler.sql:1-24 | batches held at the same time are disjoint and hold rows that are pending for everyone |
| DispatchRuns.HeldRowsStay | server/internal/scheduler/scheduler.go:158-218 | while a worker's transaction is open nobody cancels, deletes, replaces or marks a row of its batch |
| DispatchRuns.SelectedBefore | server/db/queries/scheduler.sql:20-24 | every open transaction goes back to a selection at which its rows were pending and their time had come, and they are still the same |
| DispatchRuns.TerminalForever | server/db/migrations/000013_create_reminder_dispatch_log.up.sql:15-16 | over any run a sent, failed, cancelled or skipped row stays exactly as it is, or it is on record as removed and its key never returns |
| Resend.AccountedInRun | server/internal/scheduler/scheduler.go:163-218 | in every reachable state and for every key, those of deleted conferences included, each accepted mail was either wasted by an aborted transaction or belongs to a row that is sent, was sent when it was removed, or is in flight, one for one |
| Resend.AtMostOnce | docs/adr/0008-in-process-scheduler.md:51-53 | every key has at most one mail beyond the wasted ones, and was mailed at most once exactly if no transaction that had mailed it was aborted, or one was and it has not been mailed again |
| Resend.BatchTwice | docs/adr/0008-in-process-scheduler.md:51-53 | from every state of the protocol, any batch a worker may select can be mailed twice as a whole: its mails go out, the commit is lost, and the next dispatch selects and mails the same rows |
| SecondMails.RemindersTwice | docs/adr/0008-in-process-scheduler.md:51-53 | every run of the whole system can go on like this from any batch of reminders that can be selected at its end |
| SecondMails.DigestsTwice | server/internal/scheduler/scheduler.go:221-302 | and so can every run of probes and digest workers |
| SecondMails.CrashResends | docs/adr/0008-in-process-scheduler.md:51-53 | for every deadline and lead there is a run of the system, from the empty database, that mails the reminder twice |
| Drain.DrainBound | server/internal/scheduler/scheduler.go:148-219 | if ties are broken by a fixed order, which the query leaves open, n due rows have left the pending rows after limit * ceil(n/50) ticks whatever the mailer answers and whatever becomes due later |
| Drain.TicksOnlyDrain | server/internal/scheduler/scheduler.go:148-219 | under the same tie rule, if only ticks happen each of those rows is then sent, failed or skipped |
| DrainAnyOrder.BatchCovers | server/db/queries/scheduler.sql:20-24 | whatever the order of ties, a batch holds all rows due by an earlier time or consists of fifty of them |
| DrainAnyOrder.RoundWorks | server/internal/scheduler/scheduler.go:186-207 | so a tick uses up fifty of the attempts still to be made or adds one to every due row that stays pending |
| DrainAnyOrder.DrainAnyOrderBound | server/internal/scheduler/scheduler.go:148-219 | with ties broken in any way, differently at every tick, n due rows have left the pending rows after floor(n * limit / 50) + limit ticks |
| DrainAnyOrder.TicksOnlyAnyOrder | server/internal/scheduler/scheduler.go:148-219 | if only ticks happen each of those rows is then sent, failed or skipped |
| DrainAnyOrder.TiesMatter | server/db/queries/scheduler.sql:20-24 | a run of four ticks over a hundred tied rows with a limit of two after which a row is still due, although the bound under the tie rule is four |
| DispatchLoop.SelectDue | server/db/queries/scheduler.sql:20-24 | the selection returns distinct pending rows that nobody holds and whose send time is not after now, in the order of that time, at most fifty, and leaves one out only if it is held or fifty others come no later |
| DispatchLoop.HandleNext | server/internal/scheduler/scheduler.go:163-216 | one pass over one row, answer by answer, is the processing step of the protocol |
| DispatchLoop.HandleBatch | server/internal/scheduler/scheduler.go:163-218 | the loop mails exactly the accepted rows of its batch in order and commits all marks or none |
| DispatchLoop.MarksAre | server/internal/scheduler/scheduler.go:186-216 | a transaction that can commit has for every rendered row exactly the mark of that row's own answer |
| DispatchLoop.LoopEffect | server/internal/scheduler/scheduler.go:163-218 | told without the transaction: after a commit with no failed statement every row of the batch is sent, skipped, failed, counted up or unchanged as its own answer and the limit say, every other row is unchanged, and otherwise all rows are |
| DispatchLoop.Dispatch | server/internal/scheduler/scheduler.go:148-219 | selects the due rows, has that effect on them, and mails exactly those accepted |
| DispatchLoop.LoopStarts | server/internal/scheduler/scheduler.go:149-161 | its beginning is the protocol's selection step |
| DispatchLoop.LoopSteps | server/internal/scheduler/scheduler.go:163-216 | every pass of the loop is one processing step of the protocol |
| DispatchLoop.LoopEnds | server/internal/scheduler/scheduler.go:218 | its end is the protocol's commit, or its abort if a statement or the commit failed, with the rows and mails the loop returns |
| DispatchLoop.LoopIsTick | server/internal/scheduler/scheduler.go:163-218 | a loop that renders every mail and commits is a tick of the drain bounds, whatever the order of ties in its batch, digests with nothing to send included |
| DispatchLoop.LoopSkips | server/internal/scheduler/scheduler.go:163-216 | and of its batch it skips exactly the rows with nothing to send, so never a reminder |
| Civil.DateOfIs | server/internal/service/reminders.go:69-70 | the date found by stepping day by day is valid and has the given day number |
| Civil.DateOfDayNumber | server/internal/service/reminders.go:69-70 | day numbers and valid dates determine each other |
| Civil.DateIsCounted | server/internal/ical/encoder.go:62-69 | the date of a day number is the one reached by counting days and months of 28 to 31 days from January 1st of year 1, February by the leap rule |
| Civil.DayAfter | server/internal/ical/encoder.go:62-69 | every day number's date is followed by the next one of the calendar, before year 1 too |
| Civil.Epoch | server/internal/ical/encoder.go:62-69 | day 719162 is 1970-01-01 |
| SendTime.AddDaysMovesWall | server/internal/service/reminders.go:69 | adding calendar days, with the day of the month normalised across months and years, moves the wall clock by whole days |
| SendTime.SendsAtNine | server/internal/service/reminders.go:68-71 | a reminder goes out at 09:00 wall time of the date found by going back the lead days |
| SendTime.SendDistance | server/internal/service/reminders.go:68-71 | for every zone, deadline and lead: the exact distance from send time to deadline, and the send comes first exactly if the wall-clock distance exceeds the change of offset in between; where the reading a lead back exists the distance is lead days plus local time of day minus nine hours minus that change |
| SendTime.SentBeforeDeadline | server/internal/service/reminders.go:67-71 | a lead of a day or more precedes its deadline if the clock's jump over a skipped reading and the change of offset, both taken for this reminder alone, stay below fifteen hours |
| SendTime.SmallChanges | server/internal/service/reminders.go:67-71 | in particular wherever offsets around the reminder differ by less than seven and a half hours, whether readings are skipped or not |
| SendTime.LongLeads | server/internal/service/reminders.go:67-71 | in any zone whose offsets lie within a day of UTC, a lead of five days or more precedes its deadline |
| DateLine.SkippedDaySafe | server/internal/service/reminders.go:67-71 | where a zone more than nine hours west of UTC leaves out a day, every reminder with a lead of a day or more comes before its deadline; only leads below five days ask that no other change of offset be near |
| DateLine.SkippedDayLate | server/internal/service/reminders.go:67-71 | from any other offset there is a deadline whose one-day reminder does not come before it |
| DateLine.SkippedDay | server/internal/service/reminders.go:67-71 | so a left-out day, with no other change of offset within three weeks, is harmless to all leads and all deadlines within ten days of it exactly if the offset before it is below minus nine hours |
| SendTime.ConstantOffsetSpacing | server/internal/service/reminders.go:68-71 | with a constant offset consecutive leads are exactly 24 hours apart |
| SendTime.ConstantOffsetOrder | server/internal/service/reminders.go:68-71 | with a constant offset a lead of a day or more is strictly before the deadline, and lead zero after it exactly if the deadline is before 09:00 local time |
| DispatchLog.FilledCompose | server/db/queries/reminders.sql:1-5 | two rounds of insert-if-absent amount to one and never change a row that was there |
| Reminders.SendsAtNineThere | server/internal/service/reminders.go:46-71 | a wanted reminder goes out at nine in the zone the user's settings name, in UTC if the name is unknown, on the day found by going back from the deadline of its kind |
| Reminders.UpdateRepairs | server/internal/service/conferences.go:682-698 | from any row table at all, one conference update makes the view exact for that conference and every user: pending are exactly the wanted keys without a finished row; finished rows and other conferences are untouched |
| Reminders.SetSettingsRepairs | server/internal/service/settings.go:71-87 | from any row table at all, one settings update makes it exact in the same sense for every conference the user stars, and touches no other row |
| Reminders.StarAgrees | server/internal/service/stars.go:27-60 | starring keeps the view exact, key by key |
| Reminders.UnstarAgrees | server/internal/service/stars.go:64-93 | so does unstarring, by cancelling |
| Reminders.ArchiveAgrees | server/internal/service/conferences.go:251-276 | so does archiving; the rows it cancels stay |
| Reminders.SweepAgrees | server/internal/scheduler/scheduler.go:347-372 | so does the archive sweep, whichever expired conferences it locks |
| Reminders.DeleteAgrees | server/internal/service/conferences.go:239-248 | so does deletion with its cascade |
| Reminders.OpKeepsView | server/db/queries/reminders.sql:1-35 | every service transaction keeps the incremental view equal to the recomputed one |
| Reminders.ViewIsRecomputed | server/internal/service/reminders.go:37-65 | the key-by-key agreement is equality: pending rows with their times are the recomputed rows minus the finished keys |
| ReminderStore.ConferenceDeadlines | server/internal/service/reminders.go:21-33 | lists exactly the set deadlines, each kind once |
| ReminderStore.WantDeadlinesIsPair | server/internal/service/reminders.go:50-63 | for a starred conference the two insert loops ask for exactly the recomputed rows of the pair |
| ReminderStore.SettingsRound | server/internal/service/settings.go:75-87 | mid-loop the table is exact for the conferences processed so far, and one more pass extends that by one |
| ReminderStore.Store.InsertReminderRow | server/db/queries/reminders.sql:1-5 | inserts a fresh pending row unless the key has one |
| ReminderStore.Store.CancelUserConferenceReminders | server/db/queries/reminders.sql:7-14 | cancels exactly the pending rows of the pair |
| ReminderStore.Store.DeleteConferencePendingReminders | server/db/queries/reminders.sql:16-20 | drops exactly the pending rows of the conference |
| ReminderStore.Store.DeleteUserConferencePendingReminders | server/db/queries/reminders.sql:22-27 | drops exactly the pending rows of the pair |
| ReminderStore.Store.CancelConferenceReminders | server/db/queries/reminders.sql:29-35 | cancels exactly the pending rows of the conference |
| ReminderStore.Store.Materialize | server/internal/service/reminders.go:37-65 | in the zone of the given name, or else UTC, every deadline and lead without a row gets a pending one at nine on its day; nothing else changes, duplicates among the leads included |
| ReminderStore.Store.Rematerialize | server/internal/service/conferences.go:682-698 | drops the conference's pending rows and fills in the recomputed rows of all its starring users |
| ReminderStore.Store.Create | server/db/queries/conferences.sql:32-47 | the INSERT: adds an unarchived conference under a new id and leaves the rows alone |
| ReminderStore.Store.Update | server/internal/service/conferences.go:682-698 | the UPDATE with its rematerialisation: does what the update step says; archived conferences are rematerialised too and stay archived |
| ReminderStore.Store.Archive | server/internal/service/conferences.go:251-276 | marks the conference and cancels its pending rows |
| ReminderStore.Store.Unarchive | server/internal/service/conferences.go:279-288 | clears the mark and nothing else; cancelled reminders stay cancelled |
| ReminderStore.Store.Delete | server/internal/service/conferences.go:239-248 | removes the conference with its stars and all its rows |
| ReminderStore.Store.SelectExpiredConferences | server/db/queries/scheduler.sql:50-55 | returns exactly the unarchived conferences whose end date lies more than the grace days before today |
| ReminderStore.Store.SweepArchive | server/internal/scheduler/scheduler.go:347-372 | the sweep loop sets the archive mark of exactly those conferences, cancels their pending rows and leaves none expired |
| ReminderStore.Store.Star | server/internal/service/stars.go:27-60 | adds the star and fills in its recomputed rows, or fails and changes nothing |
| ReminderStore.Store.Unstar | server/internal/service/stars.go:64-93 | removes the star and cancels its pending rows, or finds no conference and changes nothing |
| ReminderStore.Store.UpdateSettings | server/internal/service/settings.go:37-115 | validates time zone, leads and digest choices, then the delete-and-refill loop rebuilds the rows of every starred conference |
| ReminderStore.Store.DispatchReminders | server/internal/scheduler/scheduler.go:148-219 | one dispatch on the stored rows: only pending rows whose time has come, the accepted ones mailed and sent, the refused ones counted up or failed at the configured limit, which is three if unset |
| ReminderSystem.ViewInEveryState | server/internal/service/conferences.go:682-698 | over every interleaving of service transactions and workers, a row is pending exactly if its conference is starred, its deadline set, its lead chosen and no finished row in the way, and then it is due at nine in the user's zone, as recomputed from the current deadline and lead |
| ReminderSystem.NoMailEarly | server/internal/scheduler/scheduler.go:148-219 | no reminder is mailed before a selection that found its send time, as it still is, had come |
| ReminderSystem.ProtocolRun | server/internal/scheduler/scheduler.go:148-219 | every run of the whole system is a run of the dispatch protocol |
| ReminderSystem.FinishedStays | server/db/migrations/000013_create_reminder_dispatch_log.up.sql:15-16 | a finished reminder stays exactly as it is while its conference exists, and has no row any more once the conference is gone |
| ReminderSystem.ReminderMails | server/internal/scheduler/scheduler.go:163-218 | so the mail bounds hold of reminders |
| ReminderSystem.UnstarIsFinal | server/db/queries/reminders.sql:7-14 | after an unstar no later star, update or settings change ever makes one of its keys with a row pending again |
| Weeks.MondayIsWeekStart | server/internal/scheduler/digest.go:43-51 | the day-of-month arithmetic, which may drop to zero and below, finds the start of the UTC week |
| Weeks.MondayBounds | server/internal/scheduler/digest.go:42-51 | the result is a Monday midnight at or before t and less than a week away, and a fixed point |
| Weeks.SameMonday | server/internal/scheduler/digest.go:43-51 | it is monotone, and two instants share it exactly if no Monday midnight lies between them |
| Weeks.OneSlotPerWeek | server/db/queries/scheduler.sql:62-63 | in a UTC week of one offset whose chosen hour does not run across its ends, the matching instants are one stretch of exactly an hour |
| Weeks.BrokenWeek | server/db/queries/scheduler.sql:62-63 | if it does run across them, they are the week's first part of an hour and the rest of one at its end |
| Weeks.BrokenSlot | server/db/queries/scheduler.sql:62-63 | in a UTC week of one offset the hour runs across the ends exactly if both ends match |
| Weeks.WholeHoursUnbroken | server/db/queries/scheduler.sql:62-63 | which no offset of whole hours allows |
| Digest.DigestStore.SelectDigestDueUsers | server/db/queries/scheduler.sql:57-67 | returns exactly the users with the digest switched on whose day and hour it is in their zone and who have no row for the week |
| Digest.DigestStore.ScheduleDigests | server/internal/scheduler/digest.go:16-40 | one probe gives every such user a pending row for the current UTC week, due now, and changes nothing else; a switched-off digest gets none |
| Digest.DigestStore.DispatchDigests | server/internal/scheduler/scheduler.go:221-302 | one dispatch on the digest rows whose time has come: mailed are exactly those that were built, list something, were rendered and accepted; after a commit with no failed statement these are sent, those with an empty list skipped, the refused ones counted up or failed at the limit, the others unchanged; if nothing but the mailer fails it is a tick of the drain bounds |
| Digest.SkippedExactly | server/internal/scheduler/scheduler.go:243-249 | in a committed batch the skipped rows are exactly those answered with nothing to send, and none of them is mailed |
| Digest.DigestStore.SkippedIfNothingUpcoming | server/internal/scheduler/scheduler.go:243-249 | so a digest is skipped exactly if it was built and no starred unarchived conference has a deadline after now and up to the horizon |
| Digest.BuildDigestItems | server/internal/scheduler/scheduler.go:305-345 | the nested loops collect the items in the order of conferences and kinds |
| Digest.ItemsAre | server/internal/scheduler/scheduler.go:314-343 | an item is listed exactly if its conference is starred and unarchived and its deadline is set, after now and not after the horizon |
| Digest.ItemsWithin | server/internal/scheduler/scheduler.go:311-343 | with the horizon as many weeks on by the wall clock as the user chose |
| Digest.AcceptedDigest | server/internal/service/settings.go:95-118 | accepted settings give a digest in the user's own zone, on a day of the week, at an hour of the day, with a horizon of 1 to 52 weeks |
| Digest.SkippedWhenNothingUpcoming | server/internal/scheduler/scheduler.go:305-345 | the item list is empty exactly if there is no such deadline |
| Digest.ProtocolRun | server/internal/scheduler/scheduler.go:221-302 | every run of probes and workers, whatever settings change meanwhile, is a run of the dispatch protocol |
| Digest.DigestMails | server/internal/scheduler/scheduler.go:221-302 | so at most one digest mail per user and UTC week beyond the aborted transactions, exactly one if sent without an abort |
| Digest.DigestAttempts | server/internal/scheduler/scheduler.go:267-283 | in every reachable state a pending digest row has fewer attempts than the limit and as many refusals, a failed one exactly the limit of refusals |
| Digest.DigestTerminal | server/internal/scheduler/scheduler.go:221-302 | a finished digest row stays as it is for the rest of any run |
| ProbedWeeks.ProbedExactly | server/internal/scheduler/digest.go:16-40 | for every zone, setting and UTC week: all probings at most a gap apart that go on through the week leave a user who keeps the setting a row for it, whatever other users and workers do, exactly if the chosen hour lasts for a whole gap somewhere inside the week |
| ProbedWeeks.SwitchedOff | server/db/queries/scheduler.sql:61 | a user who keeps the digest switched off gets no row from any probing |
| ProbedWeeks.ConstantWeek | server/internal/scheduler/digest.go:16-40 | in a week of one offset a user is sure of a row exactly if the digest is switched on and the gap is at most the hour, or the longer part of an hour that runs across Monday midnight |
| ProbedWeeks.LongestBounds | server/internal/scheduler/digest.go:16-40 | which is at least half an hour, so probes half an hour apart or less suffice, and a full hour exactly if the hour stays inside the week |
| ProbedWeeks.AcceptedSettings | server/cmd/confero-server/main.go:98 | with accepted settings and probes half an hour apart or less, as the server's ticks of a minute are, a user who wants the digest gets a row for every week of one offset |
| ProbedWeeks.HalfHourZone | server/internal/scheduler/digest.go:16-40 | Monday five o'clock at UTC+05:30: probes an hour apart may miss any week of that offset, probes half an hour apart none |
| ProbedWeeks.SkippedHour | server/internal/scheduler/digest.go:16-40 | Sunday two o'clock in the week Berlin's clocks go forward: no probing whatever inserts the row, although the hour stays inside the week under either offset |
| Digest.RowsOnlyInTheirWeek | server/db/queries/scheduler.sql:64-72 | a row is only inserted during its own week and the user's chosen hour |
| ICalText.EscapeIsOnce | server/internal/ical/encoder.go:109-115 | the four replace-all passes equal one escape per character |
| ICalText.UnescapeEscape | server/internal/ical/encoder.go:109-115 | unescaping gives back every text |
| ICalText.EscapeInjective | server/internal/ical/encoder.go:109-115 | different texts are escaped differently |
| ICalText.EscapedHasNoLf | server/internal/ical/encoder.go:113 | an escaped text holds no line feed |
| ICalText.FoldProperty | server/internal/ical/encoder.go:87-106 | the loop over the shrinking rest folds the line |
| ICalText.ChunksOk | server/internal/ical/encoder.go:96-104 | the chunks lose nothing, none is empty, each fits next to the continuation space |
| ICalText.UnfoldFold | server/internal/ical/encoder.go:87-106 | unfolding gives the line back whatever follows it |
| ICalText.FoldedLinesFit | server/internal/ical/encoder.go:89-101 | every physical line has at most 75 code points, its leading space included |
| ICalOctets.FoldedPieces | server/internal/ical/encoder.go:87-106 | the physical lines of a folded line are its first 75 code points and the spaced chunks |
| ICalOctets.FoldedOctets | server/internal/ical/encoder.go:86-106 | they keep to 75 octets exactly if the line is ASCII up to its last chunk and that chunk has room, or is short as a whole |
| ICalOctets.AsciiFits | server/internal/ical/encoder.go:86-106 | in particular every ASCII line does |
| ICalOctets.AccentsOverflow | server/internal/ical/encoder.go:86-106 | the property line of a summary of forty accented letters does not: 48 code points, not folded, more than 75 octets |
| ICal.Encode | server/internal/ical/encoder.go:39-54 | the encoder prints the content lines of the calendar in order |
| ICalOutput.OutputReads | server/internal/ical/encoder.go:39-84 | these are, name by name and with a line break after each, the five header lines, for every event BEGIN, UID, SUMMARY, its times and its optional lines, END, and the end of the calendar |
| ICal.DateTextIs | server/internal/ical/encoder.go:62-69 | a printed date has the eight digits of the Gregorian date |
| ICal.ClockTextIs | server/internal/ical/encoder.go:67-69 | a printed time the six digits of hour, minute and second |
| ICal.Buffer.EncodeEvent | server/internal/ical/encoder.go:56-84 | appends the content lines of one event, optional ones left out |
| ICal.Buffer.WriteLine | server/internal/ical/encoder.go:117-119 | appends one content line and its line break |
| ICalRoundTrip.DateTimeReads | server/internal/ical/encoder.go:67-69 | reading a printed time gives the time to the second |
| ICalRoundTrip.LinesOfPrint | server/internal/ical/encoder.go:39-84 | unfolding and splitting the output recovers its content lines |
| ICalRoundTrip.CollectReads | server/internal/ical/encoder.go:56-84 | the reader collects the printed values of an event and nothing else |
| ICalRoundTrip.InterpretReads | server/internal/ical/encoder.go:56-84 | and interprets them as the event, at the printed precision |
| ICalRoundTrip.RunEvents | server/internal/ical/encoder.go:48-50 | BEGIN and END lines nest as printed, whatever the texts contain |
| ICalFaithful.ReadIsOk | server/internal/ical/encoder.go:39-119 | no text at all reads as a calendar with a line break in UID, URL or PRODID or a year beyond four digits |
| ICalFaithful.RoundTrip | server/internal/ical/encoder.go:39-119 | reading the output gives back product id and events in order, at the printed precision, exactly if UID, URL and PRODID hold no CRLF and all years fit four digits |
| Feeds.UidInjective | server/internal/calendar/feeds.go:114-116 | a UID determines the conference and the slot |
| Feeds.EventsForConference | server/internal/calendar/feeds.go:69-102 | the events of the set slots in the order of the slots |
| Feeds.FeedExact | server/internal/calendar/feeds.go:43-112 | the events of a list are exactly one for every set slot of every conference, with pairwise distinct UIDs, and as many as there are set deadlines and complete date pairs |
| Feeds.Feed | server/internal/calendar/feeds.go:55-66 | the feed is those events conference by conference in the order of the list |
| Feeds.BuildPublicFeed | server/internal/calendar/feeds.go:43-53 | the same for the conferences that are not archived, in their order |
| Feeds.EndsAfterStart | server/internal/calendar/feeds.go:73-112 | an event ends after its start exactly if the event dates are in order |
| Feeds.FeedInOrder | server/db/migrations/000004_create_conferences.up.sql:33-34 | so with the table's constraint every event of a feed does |
| Feeds.FeedReads | server/internal/calendar/feeds.go:43-112 | a reader gets a feed back exactly if no shown website holds a CRLF and the shown years fit four digits |
| Slug.SlugIsJoin | server/internal/service/conferences.go:504-512 | a slug is the maximal alphanumeric runs of the lower-cased text joined by single hyphens |
| Slug.SlugKeepsLetters | server/internal/service/conferences.go:504-512 | a slug has the letters a to z and digits of the lower-cased text, all of them in order, and else only hyphens |
| Slug.SlugIdempotent | server/internal/service/conferences.go:507-512 | slugs are their own slugs |
| Slug.SameSlug | server/internal/service/conferences.go:504-512 | two texts share a slug exactly if their runs agree |
| Tags.TagStore.SetTagsAndTracks | server/internal/service/conferences.go:450-502 | the conference ends up with exactly the slugs of the given texts and the given tracks whatever it had before, other conferences keep theirs, an unknown track fails |
| Tags.TagStore.UpsertTagBySlug | server/db/queries/tags.sql:7-11 | a slug keeps its tag id or gets a new one |
| Catalogue.ReadEntry | server/internal/service/import.go:46-109 | a document entry read column by column: empty texts, an h5 index below one and unreadable dates are absent, dates try three layouts in turn |
| Catalogue.CheckInput | server/internal/service/conferences.go:514-554 | the form reports the first field, in the order of its checks, that is out of range, blank or out of order |
| Catalogue.FormAndTable | server/db/migrations/000004_create_conferences.up.sql:1-41 | the form lets through exactly what the table takes, but for blank texts and unknown ranks |
| Catalogue.SameKey | server/db/migrations/000004_create_conferences.up.sql:43-44 | two conferences have the same key exactly if the year and the lower-cased acronym agree |
| Catalogue.LastWriterWins | server/internal/service/import.go:16-44 | among entries for one key the last good one determines the catalogue |
| Catalogue.OthersUntouched | server/internal/service/conferences.go:315-400 | keys without a good entry keep their conference |
| Catalogue.CreatedCountsNewKeys | server/internal/service/import.go:37-41 | created is the number of distinct new keys among the good entries |
| Catalogue.KeysAre | server/internal/service/import.go:37-41 | those keys being exactly the keys that a good entry writes |
| Catalogue.ProblemsAre | server/internal/service/import.go:18-36 | an error is reported for exactly the entries that fail |
| Catalogue.AttemptedIs | server/internal/service/import.go:20-22 | all entries are attempted, in strict mode those up to the first failure |
| Catalogue.ShownAddsUp | server/internal/service/import.go:16-44 | created, updated and skipped, with the aborting entry, add up to the entries attempted |
| Catalogue.Reimport | docs/IMPORT_FORMAT.md:48-49 | a fully successful document imported again counts only updates and leaves every field as it is |
| Catalogue.StrictLeftovers | docs/IMPORT_FORMAT.md:45-47 | when strict mode stops at entry n, the n - 1 before it are written and counted and entry n changes nothing; the counters are all zero exactly if the first entry of the document is invalid, breaks a constraint or meets a failing database |
| Catalogue.StrictKeepsTheFirst | docs/IMPORT_FORMAT.md:45-47 | a two-entry document, the second entry without a name, that fails and leaves its first entry behind, counted as created |
| Import.ImportService.WriteRow | server/internal/service/conferences.go:330-389 | inserts the row, or updates it and rematerialises its reminders; the reminder view is kept |
| Import.ImportService.UpsertFromImport | server/internal/service/conferences.go:315-400 | creates or replaces the conference of the key with its tags and tracks, or changes nothing at all; the unique key index and the reminder view are kept |
| Import.ImportService.CreateConference | server/internal/service/conferences.go:122-173 | the conference form: a refused field, a taken key, a broken constraint or a failing database changes nothing at all and is reported as such; otherwise the key's conference is added with its tags and tracks |
| Import.ImportService.UpdateConference | server/internal/service/conferences.go:176-236 | likewise for an existing conference, which may move to another key unless another conference has it; its old key is gone, everything else in the catalogue stays, and the reminder view is kept |
| Import.ImportService.ImportEntry | server/internal/service/import.go:17-36 | validation first, then the transaction, with the reported reason |
| Import.ImportService.RunImport | server/internal/service/import.go:16-44 | the catalogue is the last-writer-wins fold of the attempted entries, created the number of new keys, every attempt counted once, and the reminder view kept |

## Left out

- HTTP handlers, authentication, the web client, mail transport and templates, metrics, logging, configuration, migrations: plumbing around the core.
- Anomalies between concurrent service transactions: they are atomic steps here; a star that reads the conference before its transaction (server/internal/service/stars.go:28-33) can leave a stale row, which the repair theorems cover.
- Deletion of users: not part of this model.
- Row uuids are numbers handed out once; conference ids are never reused.
- The hourly gate of the archive sweep (server/internal/scheduler/scheduler.go:139-144): the sweep may happen at any time.
- Rendering failures are an answer of their own and leave the row pending; the drain bound is about ticks that render.
- Errors while inserting a digest row; an error while building the items acts like a rendering failure and leaves the row pending.
- The digest items of a batch are built before its mails go out and with one reading of the clock; the code builds them row by row.
- The IANA time zone database and the details of lower-casing: parameters.
- Strings that are not valid UTF-8, which the fold would alter.
- The Version field of the calendar struct, which is never printed.
- Infinite dates and timestamps of the database.
- The ORDER BY of the feed queries, so that a feed keeps the order of the list it is given, and the acceptance rate of a conference.
- Archived conferences may still get reminders: star, update and settings never look at the archive mark, and the model follows.
- Catalogue.Reimport: speaks of catalogue fields, tags and tracks; the reminders of an updated conference are rebuilt, so a pending row starts again with no attempts.
- Drain.DrainBound: needs the tie rule, which the query does not give; DrainAnyOrder.DrainAnyOrderBound holds without it.
- Drain.TicksOnlyDrain: likewise, see DrainAnyOrder.TicksOnlyAnyOrder.
- Digest.DigestStore.DispatchDigests: its settings are those of the reminder store (Digest.DigestOf) but kept in a table of their own.
- Dispatcher.MarkedRow: a configured limit below one acts like a limit of one, as in the code.
- ReminderStore.Store.SweepArchive: skips nothing, since no other transaction is open; the step it refines allows any part of the expired conferences.
