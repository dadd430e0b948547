# HarborWorks: a model of its hard rules

HarborWorks is a booking server. Its hard rules live in a few services and in the SQL statements of
its repositories. This project models seven of them in Dafny and proves what they promise, for every
input and every run. Group buys, idempotency keys and captchas are proved for every interleaving of
their statements. Booking creation, the counting of failed logins and document upserts also run
concurrently in the code, but check and write in separate statements with nothing to guard them, so
their rules are stated for serial runs.

Each component has the same shape. A `Protocol`, `Rules` or `Chain` module says what one SQL
statement, one transaction or one service call does to the tables, as a function `Step`; a run is a
sequence of steps. A `Safety` module proves an invariant of every run and, from it, the results. A
`Server` module holds the tables in a class whose methods change them in place, loop by loop and
branch by branch as the services do, and proves each method to be the step, or the run of steps, that
the other modules reason about. What each operation answers and changes is also stated over the columns
of its tables, with the figures written out, so that these statements do not rest on the step they
are about. Clocks, random ids, hashes, password checks and delivery outcomes are
parameters, so every result holds for all of them. Times are integers in nanoseconds.

- **Group buys** (`GroupBuyDomain`, `GroupBuyProtocol`, `GroupBuySafety`, `GroupBuySweep`,
  `GroupBuyTiming`, `GroupBuyServer`). A join is a read, then one version-guarded commit, in a loop of three tries. Joins
  interleave with each other, with the deadline sweep (one list, then one write a row, any of which
  may fail) and with user deletion. The job runner
  (`repo/internal/infrastructure/jobs/runner.go:51-64`) gives one sequential sweeper.
- **Idempotency keys** (`IdempotencyProtocol`, `IdempotencySafety`, `HandlerAnswer`, `IdempotencyServer`). INSERT,
  lookup, every write of the handler, its return or panic, and the two closing statements are
  separate steps; the closing statements may be lost, and an INSERT may be stored and still report
  an error.
- **Bookings** (`BookingDomain`, `BookingRules`, `BookingSafety`, `BookingCutoff`, `BookingAnswers`,
  `BookingServer`, `Availability`). Admission checks a sum over a window, promotion checks for emptiness; the
  guarantee is about every instant.
- **Backups** (`BackupChain`, `BackupServer`). Full and incremental files, the restore plan, and a
  restore that upserts the planned files in order.
- **The PDF writer** (`PdfSyntax`, `PdfFile`, `PdfDocument`, `PdfPage`), against a reader that starts
  from the bytes alone and follows ISO 32000-1, sections 7.3.4.2, 7.3.8.2, 7.5.4, 7.5.5, 7.7.2 and 7.7.3.
- **Webhooks** (`WebhookQueue`, `WebhookServer`, `FieldMapping`). A queue with bounded retries and
  batches of 25, and a rename loop over a map in arbitrary order.
- **Logins and documents** (`LoginRules`, `CaptchaRace`, `LoginServer`, `Revisions`). Lockout with
  one-shot captchas, serial and racing; the chain of document revisions.

Several promises do not hold as stated. For each the model keeps the code and proves exactly when the
promise holds:

- The comment at `repo/internal/service/groupbuy.go:195-199` says that a campaign that ended without
  being finalized always holds zero seats. A join that straddles the sweep breaks this, because
  `UpdateStatus` neither checks the status nor bumps the version
  (`repo/internal/repository/groupbuy.go:218-227`) and the join's UPDATE does not look at the status
  (143-153). `AlwaysZeroSeatsExactly` proves, for every run, that the claim holds at all times if and
  only if no step is one of two that straddle; `StraddlingJoinKeepsSeats` is a run of eight steps that
  ends with a seat on an expired campaign; `QuietRunsReleaseSeats` proves the claim for every run in
  which no snapshot is held of a campaign listed for a write.
- `IsTerminal` (`repo/internal/domain/groupbuy.go:27-34`) says that an ended campaign no longer accepts
  joins. `EndedChangesExactly` proves when one starts again: a join lands on a finalized or expired
  campaign and the confirmed seats reach the threshold.
- A restore of the planned backups gives a row as of the last backup if and only if the row is not
  lost (`RowIsRestoredExactly`): no foreign key of it went to NULL without a stamp, no failed query
  left it out, and no later file overwrote the one that held it, unless a later backup took the row up
  again. It gives exactly the tables if and only if no row is lost and no planned file holds a row
  that was deleted (`RestoreIsFaithful`). Both hold for every run of one strictly increasing clock.
  `UnlinkIsMissed` and `SameSecondLosesRows` are runs that lose something, and `ReusedNameExactly`
  says when a second backup in the same second does harm.
- A replay is what the first client got if and only if the handler ended with the status and content
  type it had when the body began (`StoredIsSentExactly`); the body is always the same.
- Field renaming gives one result for every map order if and only if no two pairs share a target and
  no target is another pair's source (`ConfluentExactly`).
- A PDF string reads back as itself if and only if it has no carriage return
  (`RoundTripExactly`), and a cross-reference entry has its 20 bytes if and only if the offset is
  below 10^10 (`EntryWidth`).

## Model

| member | source | states |
|---|---|---|
| `GroupBuySafety.OversellSafety` | repo/internal/repository/groupbuy.go:112-216 | In every interleaving 0 <= remaining <= capacity and the seats of committed joins never exceed capacity; while the campaign is not failed, capacity - remaining is exactly those seats; and they are the seats on surviving participant rows plus those deleted with their users, at most one row a user. |
| `GroupBuySafety.JoinedMeansCommittedOnce` | repo/internal/service/groupbuy.go:110-133 | A Join call is told it joined if and only if it committed, and no call ever commits twice. |
| `GroupBuySafety.VersionCountsCommits` | repo/internal/repository/groupbuy.go:143-153 | The version is the number of committed joins, plus one once the campaign has failed, so it is at most capacity + 1. |
| `GroupBuySafety.StatusTellsThreshold` | repo/internal/repository/groupbuy.go:147-150 | Among campaigns that accept joins, met means exactly that the confirmed seats reach the threshold; finalized implies it; canceled never occurs. |
| `GroupBuySafety.LockErrorMeansForeignBump` | repo/internal/repository/groupbuy.go:142-161 | A held snapshot's commit ends in an optimistic-lock error if and only if the row's version has moved past the snapshot's; seats alone never cause it. |
| `GroupBuySafety.ExhaustedJoinSawThreeBumps` | repo/internal/service/groupbuy.go:119-133 | A Join that runs out of tries saw three version bumps one after the other, none its own, and two other joins committed on its campaign since its first read. |
| `GroupBuyTiming.CommitsAreReadInTime` | repo/internal/repository/groupbuy.go:122-140 | In every interleaving each committed join was read, by a read of its own in that run, on a campaign that was open or met and had the seats, at a time strictly before its deadline. |
| `GroupBuyTiming.EndedOnlyAfterDeadline` | repo/internal/repository/groupbuy.go:249-252 | In every interleaving a campaign is finalized, failed or expired only after a sweep that began at or after its deadline had listed it. |
| `GroupBuyTiming.ListedWasDue` | repo/internal/service/groupbuy.go:200-226 | In every interleaving, whatever is listed for a write was listed by a sweep at or after its deadline. |
| `GroupBuyTiming.TermsNeverChange` | repo/internal/repository/groupbuy.go:112-227 | Nothing changes the title, threshold, capacity, times or deadline of a campaign. |
| `GroupBuySafety.StepKeeps` | repo/internal/repository/groupbuy.go:112-266 | Every step of any session keeps the invariant behind these results: rows against history, snapshots against rows, listed rows against rows. |
| `GroupBuySafety.DeletionSplits` | repo/internal/repository/user.go:164-179 | Removing a user's participant rows splits the seats in two without losing one, and leaves other users' rows alone. |
| `GroupBuySweep.AlwaysZeroSeatsExactly` | repo/internal/service/groupbuy.go:195-199 | Over every run, expired and failed campaigns hold no seats at any time if and only if no step straddles: none expires a campaign that was joined since it was listed, and none commits a join below threshold on an expired one. |
| `GroupBuySweep.ZeroSeatsExactly` | repo/internal/service/groupbuy.go:195-239 | The same for one step: from any reachable state in which expired and failed campaigns hold no seats, a step keeps it so if and only if it is neither of the two. |
| `GroupBuySweep.EndedChangesExactly` | repo/internal/repository/groupbuy.go:143-153 | In every interleaving the status of an ended campaign changes if and only if a join lands on it while it is finalized or expired and its confirmed seats then reach the threshold, and it becomes met; a failed campaign never changes at all. |
| `GroupBuySweep.StraddlingJoinKeepsSeats` | repo/internal/repository/groupbuy.go:218-227 | A concrete run that ends with an expired campaign holding a seat. |
| `GroupBuySweep.QuietRunsReleaseSeats` | repo/internal/service/groupbuy.go:195-199 | In every run in which no snapshot is held of a campaign listed for a write, expired and failed campaigns hold no seats. Joins on other campaigns, deletions and anything else may interleave with the sweep, and its writes may fail. |
| `GroupBuySweep.SweepSettlesForGood` | repo/internal/service/groupbuy.go:206-226 | In such a run, a write of the sweep that does not fail finalizes, fails (releasing all seats, bumping the version) or expires its campaign by the count it has at that time, and the campaign stays so in every continuation. |
| `GroupBuySweep.UndisturbedSweepSettles` | repo/internal/service/groupbuy.go:200-239 | From any reachable state, a sweep with nothing in between settles exactly the due campaigns whose writes do not fail, changes no other, and leaves due exactly those whose writes failed, so a second sweep at the same instant changes nothing when none did. |
| `GroupBuySweep.WholeSweep` | repo/internal/service/groupbuy.go:200-239 | Listing and then writing each listed row, with nothing in between, applies the sweep's decision to exactly the due rows whose writes do not fail. |
| `GroupBuyDomain.DefaultsAreAccepted` | repo/internal/service/groupbuy.go:69-99 | Without a deadline of its own a campaign is accepted if and only if it has a title, starts in the future, ends later, and its threshold (5 when none is given) fits its capacity: the default deadline never spoils it. |
| `GroupBuyDomain.RefusedExactly` | repo/internal/domain/groupbuy.go:80-103 | Each rule is the answer exactly when it is the first that fails once defaults are filled in. |
| `GroupBuyDomain.AcceptedAsAsked` | repo/internal/service/groupbuy.go:69-96 | An accepted campaign is as asked for, with threshold 5 and the earlier of its start and 24 hours from now where nothing was said, open and with all its seats. |
| `GroupBuyServer.Server.Create` | repo/internal/service/groupbuy.go:56-105 | Refused for a missing or blacklisted organizer, a missing resource, or the first rule that fails after defaults, in that order; otherwise the row is stored, well formed, open, empty, and due in the future. |
| `GroupBuyServer.Server.JoinAtomic` | repo/internal/repository/groupbuy.go:112-187 | One try: read, other sessions' steps, commit. It answers not found, not open, deadline passed or oversold exactly when the row as read says so, and otherwise what the update and the insert answer; it ends the call or, after a lost race with tries left, leaves it ready for the next try. |
| `GroupBuyServer.Server.Commit` | repo/internal/repository/groupbuy.go:142-186 | The guarded UPDATE and the participant INSERT take effect together or not at all: a lost race, a row of the same user, and a user who is gone are each the answer exactly when they are the first obstacle. |
| `GroupBuyServer.Server.Join` | repo/internal/service/groupbuy.go:110-133 | Whatever other sessions do between its steps, the call is refused for a missing or blacklisted user, or for what its last read found, exactly; it commits its seats once if it reports success and never otherwise, and gives up only after three lost races. Undisturbed it joins if and only if the campaign is open or met, before its deadline and has the seats, and the user has not joined. |
| `GroupBuyServer.Server.ListExpiringBefore` | repo/internal/repository/groupbuy.go:249-266 | The ids listed, each once, are exactly those of the rows that are open or met with a deadline at or before the given time. |
| `GroupBuyServer.Server.MarkFailedAndReleaseSlots` | repo/internal/repository/groupbuy.go:189-216 | Fails the row and releases its seats if it accepts joins; otherwise changes nothing and answers not found. |
| `GroupBuyServer.Server.UpdateStatus` | repo/internal/repository/groupbuy.go:218-227 | Sets the status of that row whatever it was, and nothing else; not found when there is no such row. |
| `GroupBuyServer.Server.SweepExpired` | repo/internal/service/groupbuy.go:200-239 | It lists exactly the open and met campaigns whose deadline has come. With any steps of other sessions before each write, and any set of writes failing, it is one of the interleavings; undisturbed, it settles each listed campaign whose write does not fail and changes no other. |
| `IdempotencySafety.AtMostOnce` | repo/internal/api/middleware/idempotency.go:90-153 | In every interleaving, lost writes included, at most one request of a scope and key is running its handler, at most one handler ever returns, and once one has returned none is running. |
| `IdempotencySafety.CompletedIsForever` | repo/internal/repository/idempotency.go:91-118 | Once a row is completed it never changes, and no handler runs or owns the slot again. |
| `IdempotencySafety.ReplayIsFaithful` | repo/internal/api/middleware/idempotency.go:109-115 | Every replay carries the status and content type set last, and the bytes written in order, by the one run of its slot that returned, to a request with the same hash. |
| `IdempotencySafety.CapturedIsLast` | repo/internal/api/middleware/idempotency.go:30-38 | In every run a request has captured the status and content type that its own handler set last, 200 and none to begin with, and what it wrote, in order. |
| `IdempotencySafety.AnsweredAsFound` | repo/internal/repository/idempotency.go:55-89 | In every run a free slot lets the request run its handler; a taken one is looked up, and the row then found, or missing, decides between mismatch, in flight, the stored answer and an error; a failed insert never runs it. |
| `HandlerAnswer.AnswerIsLast` | repo/internal/api/middleware/idempotency.go:148-152 | What is stored has the status and content type set last, or the defaults, and the bodies written, in order. |
| `IdempotencySafety.ReturnedSlotStaysTaken` | repo/internal/api/middleware/idempotency.go:124-135 | After a handler has returned, even if storing its answer failed, a later request is told mismatch for another hash, and in-flight or the stored answer for the same one. |
| `IdempotencySafety.ScopesAreIsolated` | repo/internal/repository/idempotency.go:51-53 | Steps of other scopes never change the rows of a scope; anonymous requests are a scope of their own. |
| `IdempotencySafety.StepKeeps` | repo/internal/repository/idempotency.go:55-141 | Every step keeps the invariant: owners hold their own pending row, owners and returned requests are unique a slot, stored and replayed answers have a source. |
| `IdempotencyServer.Table.Reserve` | repo/internal/repository/idempotency.go:55-89 | Claims a free slot; otherwise changes nothing and reports mismatch, in flight, or the stored answer, in that order. |
| `IdempotencyServer.Table.Complete` | repo/internal/repository/idempotency.go:91-109 | Only a pending row is completed, and it keeps its hash. |
| `IdempotencyServer.Table.ReleasePending` | repo/internal/repository/idempotency.go:111-118 | Only a pending row is removed. |
| `IdempotencyServer.CaptureWriter.Write` | repo/internal/api/middleware/idempotency.go:30-33 | The captured body stays equal to the body the client has, and the head the client has is fixed by the first write. |
| `IdempotencyServer.StoredIsSentExactly` | repo/internal/api/middleware/idempotency.go:24-38 | For every sequence of writer calls the stored body is the sent body, and the stored answer is the one the client got if and only if the status and type set when the body began are those set last. |
| `IdempotencyServer.Table.Serve` | repo/internal/api/middleware/idempotency.go:90-153 | One request alone: a held slot answers by its row, without running the handler; a panic frees the slot; a return keeps it, completed with the status and type set last and the bytes written, or pending when that write is lost; the client gets the bytes written and the head set when the body began. |
| `IdempotencyServer.ServeIsARun` | repo/internal/api/middleware/idempotency.go:121-153 | Serving a free slot leaves the rows that the corresponding run of the protocol leaves. |
| `BookingSafety.SeatSafety` | repo/internal/service/booking.go:146-156 | In every serial run, at every instant, the parties of the bookings that hold seats on a resource sum to at most its capacity. |
| `BookingAnswers.NeverOverbooked` | repo/internal/repository/resource.go:119-137 | The same with the seats counted row by row: the parties of pending and checked-in bookings of the resource that cover the instant. |
| `BookingSafety.WindowBoundsInstant` | repo/internal/repository/resource.go:119-137 | The windowed sum is at least the seats taken at each instant of the window, so the windowed check protects every instant. |
| `BookingSafety.TransitionKeepsSeats` | repo/internal/service/booking.go:252-261 | Promotion, by its emptiness check and the party limit, and every other change of status keep that bound. |
| `BookingSafety.UserLimits` | repo/internal/service/booking.go:127-144 | A user's bookings that are not canceled are pairwise disjoint in time, and at most three active ones start on one day. |
| `BookingAnswers.NeverFourThatDay` | repo/internal/service/booking.go:127-135 | In every serial run no four pending, waitlisted or checked-in bookings of a user start on one UTC day. |
| `BookingAnswers.NewBookingsPassedTheGates` | repo/internal/service/booking.go:90-144 | In every serial run a step that adds a booking is a creation by a user who is known and not blacklisted at that step, at least two hours ahead, of a party that the resource can seat, with fewer than three active bookings that day and none at that time. |
| `BookingSafety.EndedIsForever` | repo/internal/domain/state.go:6-34 | In every run a completed or canceled booking stays as it is until its user is deleted. |
| `BookingSafety.StepKeeps` | repo/internal/service/booking.go:90-270 | Creation, transitions, deletion of users, new users and new resources all keep the invariant behind these. |
| `BookingCutoff.CutoffFreezes` | repo/internal/service/booking.go:121-125 | In any run inside the ten minutes before a start time, bookings at that time only move from pending to checked in to completed, none is created or promoted, and the seats they take at any instant do not grow. |
| `BookingCutoff.LateStepTakesNoSeat` | repo/internal/service/booking.go:241-250 | One step in that window never adds a seat taken by bookings at that start time. |
| `BookingServer.Server.Create` | repo/internal/service/booking.go:90-193 | Accepted if and only if every gate is passed, each error exactly when its gate is the first that fails, over the columns; the booking is as asked for, confirmed if and only if its party fits the seats not taken in its window, else waitlisted; seat safety and the user limits are kept. |
| `BookingServer.Server.Transition` | repo/internal/service/booking.go:228-270 | Allowed if and only if the actor owns the booking, the move is one of the seven of the table, it is not frozen in the last ten minutes, and a promotion finds the resource free; each error exactly when its gate is the first that fails; only that status changes; seat safety and the user limits are kept. |
| `BookingServer.Server.DeleteUser` | repo/internal/repository/user.go:164-179 | The user's bookings go with the user. |
| `Availability.SlotAgreesWithTable` | repo/internal/service/resource.go:155-170 | A slot's occupancy from the day's list, in any order of ties, is the sum over the whole table that admission uses. |
| `Availability.ActiveParty` | repo/internal/service/resource.go:155-170 | The inner loop adds up exactly the parties of active, not waitlisted bookings that meet the slot. |
| `Availability.ComputeSlotCapacities` | repo/internal/service/resource.go:145-185 | The slots tile the opening hours, ceil((close - open) / slot) of them, the last cut at closing; each has the right occupancy, remainder and flag; degenerate input gives none. |
| `Availability.EachInstantHasOneSlot` | repo/internal/service/resource.go:150-154 | Every instant of the opening hours falls in exactly one slot. |
| `Availability.DayReport` | repo/internal/service/resource.go:76-114 | The fourteen hours from 8 to 22, each with the seats taken in the table and left, the true peak, and the smallest remainder, which is max(0, capacity - peak). |
| `Availability.QuoteDecidesAdmission` | repo/internal/service/resource.go:116-134 | A request for a slot's window that passes the gates is confirmed if and only if its party fits the seats the day's table quotes, which is also what the seat quote for that window says. |
| `BackupChain.RowIsRestoredExactly` | repo/internal/service/backup.go:81-133 | In every run of one strictly increasing clock, the restore gives a row as the last backup saw it if and only if the row is not lost: no unstamped change of it, no failed query that left a new version out, and no overwritten planned file that held it, that no later backup took up. |
| `BackupChain.RestoreIsFaithful` | repo/internal/service/backup.go:175-190 | In every such run, restoring the plan yields exactly the tables as of the last backup if and only if none of their rows is lost and no planned file holds a row whose last statement before that backup was its deletion. |
| `BackupChain.WholeTablesAreRight` | repo/internal/service/backup.go:127-160 | A row of a table without updated_at is always restored right, unless its query failed in the last backup. |
| `BackupChain.RestoreIsExact` | repo/internal/service/backup.go:72-190 | When every change is stamped, nothing is deleted, no query fails and no incremental falls in the second of a planned one, folding the planned files in order yields the tables as of the last backup. |
| `BackupChain.NamesDifferBySecond` | repo/internal/service/backup.go:85-87 | Two files have one name if and only if they are of one kind and were taken in one second. |
| `BackupChain.ReusedNameExactly` | repo/internal/service/backup.go:85-87 | When nothing is lost so far, an incremental keeps the restore exact if and only if no planned incremental of the same second has, in a table with updated_at, a row that is still live and unchanged, and no planned file is left with a deleted row. |
| `BackupChain.OverwriteLosesExactly` | repo/internal/service/backup.go:108-118 | The same for one row: it is lost to the new incremental if and only if a planned one of the same second held it as it still is, in a table with updated_at. |
| `BackupChain.TakeRow` | repo/internal/service/backup.go:125-133 | A row that a backup leaves out is restored right after it if and only if it was before and the backup does not part it from the planned files: the baseline of the last backup of either kind leaves out no newer version. |
| `BackupChain.PlanGrows` | repo/internal/repository/backup.go:69-111 | A full backup starts a new plan and an incremental is appended to the plan there is. |
| `BackupChain.PlanIsInOrder` | repo/internal/service/backup.go:178-190 | The plan is one full backup, then incrementals only, in the order they were taken. |
| `BackupChain.SameSecondLosesRows` | repo/internal/service/backup.go:85-87 | Two incrementals in one second: the second overwrites the first one's file and a row is missing from the restore. |
| `BackupChain.UnlinkIsMissed` | repo/migrations/0003_finalization.up.sql:19-27 | A campaign whose organizer is deleted between a full and an incremental backup: its foreign key went to NULL without a stamp, so the restore brings the old one back. |
| `BackupServer.Server.DumpAll` | repo/internal/service/backup.go:89-97 | The loop over the tables collects every row of every listed table whose query does not fail, filtered by time only where there is an updated_at column. |
| `BackupServer.Server.Take` | repo/internal/service/backup.go:81-123 | Writes the file of its kind and second, holding the rows of every table whose query did not fail, of the six stamped tables only the newer ones, and appends to the index, nothing else; when the file cannot be created nothing changes and there is no backup. |
| `BackupServer.Server.TakeIncremental` | repo/internal/service/backup.go:72-79 | The file has exactly the rows written after every earlier backup of either kind, and all rows of the tables without a stamp. |
| `PdfSyntax.RoundTripExactly` | repo/internal/service/document.go:171-174 | A reader of literal strings that follows section 7.3.4.2 returns the escaped string itself and stops at its closing parenthesis, whatever follows, if and only if the string has no carriage return. |
| `PdfSyntax.EscapedStringReads` | repo/internal/service/document.go:171-174 | For every string the reader returns it with CR and CR LF read as LF, and stops at its closing parenthesis. |
| `PdfSyntax.PaddedReads` | repo/internal/service/document.go:164-166 | A zero-padded number denotes the number, and has the padded width if and only if it fits. |
| `PdfFile.EntryWidth` | repo/internal/service/document.go:164-166 | A cross-reference entry is 20 bytes if and only if the offset is below 10^10. |
| `PdfFile.EveryObjectIsFound` | repo/internal/service/document.go:143-168 | In a file below 10^10 bytes, a reader that starts from the end marker finds every object at the offset its entry decodes to. |
| `PdfFile.XrefIsFound` | repo/internal/service/document.go:161-167 | startxref decodes to the offset of the table. |
| `PdfFile.CountIsRead` | repo/internal/service/document.go:161-163 | The table's header decodes to the number of its entries and where they begin. |
| `PdfFile.StreamIsRead` | repo/internal/service/document.go:155-157 | The declared length is the number of bytes between the stream markers. |
| `PdfDocument.DocumentIsNavigable` | repo/internal/service/document.go:140-168 | For every content, each of the five objects is found and the content stream is read back whole. |
| `PdfDocument.ReaderSeesFields` | repo/internal/service/document.go:121-168 | From the bytes of the file alone a reader gets the title, the caption, the stamp and every field line, for every order of the map. |
| `PdfPage.PageIsReached` | repo/internal/service/document.go:152-158 | A reader that follows the trailer to the root, the page tree and its first kid reaches the one page, and from it exactly the content stream and the font object. |
| `PdfPage.ReaderSeesPage` | repo/internal/service/document.go:118-169 | So from the trailer on it gets the title, the caption, the stamp and every field line. |
| `PdfDocument.ContentShows` | repo/internal/service/document.go:123-138 | The strings shown by a content stream are the texts that were escaped into it, one by one. |
| `PdfDocument.Writer.WriteObject` | repo/internal/service/document.go:143-148 | The offset recorded is where the object starts. |
| `PdfDocument.WriteFields` | repo/internal/service/document.go:134-137 | One line a field, every field once, in some order. |
| `PdfDocument.RenderSimplePDF` | repo/internal/service/document.go:121-169 | Produces, for some order of the fields, the document that the reader's results are about. |
| `WebhookQueue.RetriesAreBounded` | repo/internal/service/webhook.go:204-268 | In every run no delivery is tried more than 5 times, tries k and k + 1 are at least 2^(k-1) seconds apart, and a dead one was tried 5 times over at least 15 seconds. |
| `WebhookQueue.TerminalAbsorbs` | repo/internal/repository/webhook.go:132-142 | A delivery that is not pending is never touched again. |
| `WebhookQueue.DueIsServed` | repo/internal/service/webhook.go:192-202 | A due delivery with k pending ones ahead of it is tried by cycle k / 25 + 1, whatever is enqueued or rescheduled meanwhile. |
| `WebhookQueue.CycleServes` | repo/internal/service/webhook.go:192-202 | A cycle that passes a due delivery over serves 25 others that were ahead of it, and none of them comes back ahead. |
| `WebhookServer.Server.DequeuePending` | repo/internal/repository/webhook.go:132-159 | The batch holds due rows in order of due time, at most the limit, and leaves a due row out only behind a full batch. |
| `WebhookServer.Server.Attempt` | repo/internal/service/webhook.go:204-241 | An accepted delivery is delivered; one without webhook or request has failed; any other waits 1, 2, 4 or 8 seconds and is dead after the fifth try; that row only. |
| `WebhookServer.Server.HandleFailure` | repo/internal/service/webhook.go:261-268 | Dead after the fifth attempt, otherwise pending until the backoff is over. |
| `WebhookServer.Server.RunDeliveryCycle` | repo/internal/service/webhook.go:192-202 | A cycle takes at most 25 pending deliveries that are due, those due first before the others, tries each once from the copy it listed, and changes no other row. |
| `FieldMapping.ConfluentExactly` | repo/internal/service/webhook.go:288-311 | The result depends on the order of the walk, for some payload, if and only if two renaming pairs share a target or one's target is the other's source. |
| `FieldMapping.ApplyRenames` | repo/internal/service/webhook.go:298-305 | Otherwise every order gives the simultaneous renaming, field by field. |
| `FieldMapping.InverseRestoresExactly` | repo/internal/service/webhook.go:288-311 | Renaming and renaming back restores the payload if and only if no new name was already in use. |
| `FieldMapping.ApplyFieldMapping` | repo/internal/service/webhook.go:290-311 | The loop renames in some order of the map; a body that is not an object passes through; with distinct, unchained targets the result is the simultaneous renaming. |
| `LoginRules.GuessingIsBounded` | repo/internal/service/auth.go:139-173 | In every serial run since the last success, failures are 15 minutes apart from the fifth on, any window W sees at most 5 + floor(W / 15 min) of them, and each from the third on used up a captcha of its own. |
| `LoginRules.WindowBound` | repo/internal/service/auth.go:154-171 | That bound on wrong passwords for any window, from the spacing of one user's failures. |
| `LoginRules.StepKeeps` | repo/internal/service/auth.go:122-173 | Every login, registration and new captcha keeps counter, lock time and history in step. |
| `CaptchaRace.OneCaptchaOneAttempt` | repo/internal/repository/captcha.go:54-63 | In every interleaving of racing logins a captcha lets at most one attempt through, and only an attempt that saw fewer than two failures gets through without one. |
| `CaptchaRace.SerialLoginIsUninterrupted` | repo/internal/service/auth.go:122-173 | The separate steps of one login with nothing in between are the serial login, answer and state. |
| `LoginServer.Server.Login` | repo/internal/service/auth.go:122-200 | Each answer exactly when its condition over the columns holds: lock, captcha from the third attempt, password, session; success resets the counter and lock, a wrong password counts and from the fifth on locks for 15 minutes, a captcha tried in time is used up, and a session of 30 minutes is stored exactly on success; nothing else changes. |
| `LoginRules.TrimSpaceTrims` | repo/internal/service/auth.go:316-316 | The answer compared is what stands between blanks at both ends of the one given. |
| `LoginServer.Server.VerifyCaptcha` | repo/internal/service/auth.go:305-325 | Passed if and only if the challenge exists, is unused and in time, and the answer fits; any answer in time uses it up; each failure has its own error; other challenges are untouched. |
| `LoginServer.Server.Consume` | repo/internal/repository/captcha.go:54-63 | True exactly when the challenge was unused, which it then no longer is. |
| `LoginServer.Server.RecordFailedLogin` | repo/internal/repository/user.go:101-114 | One more failure; the lock time is set when given and otherwise kept; nothing happens when the user is gone. |
| `Revisions.ChainIsWhole` | repo/internal/repository/document.go:134-184 | In every run a document's revisions are exactly 1 to its current number, only the last stands, and each earlier one names the next one's id as what replaced it. |
| `Revisions.LatestIsCurrent` | repo/internal/repository/document.go:97-113 | The revision with the greatest number is the current one, and there is one once anything was appended. |
| `Revisions.ContentNeverChanges` | repo/internal/repository/document.go:152-165 | A stored revision keeps its id, content and type in every continuation for as long as its document exists. |
| `Revisions.AppendBecomesCurrent` | repo/internal/repository/document.go:134-184 | In every run an append makes its content the current revision, links the one before to it, and changes nothing else. |
| `Revisions.OneDocumentPerSubject` | repo/internal/service/document.go:54-98 | Serial upserts, some cut off after creating the document, keep one document an owner, related record and kind, and its chain whole. |
| `Revisions.Server.AppendRevision` | repo/internal/repository/document.go:134-184 | Mark, insert and bump happen together, exactly when the document exists and neither id nor number is taken, or not at all. |
| `Revisions.Server.GetCurrentRevision` | repo/internal/repository/document.go:97-113 | The revision with the greatest number, or none exactly when there is none. |
| `Revisions.Server.FindExisting` | repo/internal/service/document.go:86-98 | The newest document about the subject, or none exactly when there is none. |
| `Revisions.Server.UpsertDocument` | repo/internal/service/document.go:54-84 | Appends to the document there is or creates one first, which stays when the append fails; afterwards the given content is the current revision; keeps one document a subject and the chains whole. |

## Left out

- Routing, handlers, views, configuration, logging and migrations: no hard property.
- PostgreSQL, bcrypt, AES-GCM, SHA-256, random tokens and UUIDs: ids, hashes and password matches are parameters. Database errors are modelled where the code has a rule about them: sweep writes that fail, idempotency statements that are lost, an append that is rolled back.
- Group buys: notifications, and the organizer column of the row that deletion sets to NULL. The canceled status is declared in the code and assigned nowhere.
- Idempotency: requests without a key, which have no guarantee; expiry of old keys, which nothing in the code calls; a panic inside the closing statement itself.
- Bookings: creations that interleave. The service checks and then inserts outside any transaction, so its rules hold for serial runs only, and those are what is stated. The text of notes, and the check for missing ids in Validate.
- Availability.DayReport: takes the day as a UTC day, as the opening hours in the code are.
- Backups: one backup sees the tables at one instant, and the rounding of stored timestamps and the encoding of rows are not modelled. The code plans a restore but has none; the one modelled is the upsert in plan order that the plan is for. A row has one foreign key that can go to NULL, as each table concerned has.
- BackupServer.Server.Take: an index entry that cannot be inserted after its file was written, and a file cut short while it is written.
- PDF: a char stands for a byte, so text is taken as already encoded; the generation stamp is a parameter. The check-in image is left out.
- Webhooks: building and sending the request, address checks and event filters; what became of an attempt is a parameter. Writes of results succeed. JSON values are opaque and encoding is not modelled.
- WebhookQueue.DueIsServed: counts only cycles that begin after the delivery fell due, as cycles before it cannot take it.
- Logins: the life of a session after its creation, the dummy hash for unknown users, and username trimming; answers are trimmed of Latin-1 spaces only. The bound on guesses is for serial runs: racing logins read the counter before they bump it, which `CaptchaRace` models for captchas only.
- Documents: upserts that interleave, as finding and creating are two calls outside a transaction; the queries for lists and for one numbered revision.
- Analytics, anomaly alerts, governance, notifications, todos, tags, dictionary, CSV files, caches and name masking: little beyond what one body says.
