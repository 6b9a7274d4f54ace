# A verified model of the platform's hard cores

This project models the parts of the backend whose correctness does not follow from reading one
function, and proves what they promise:

- **Recurring events** (`Calendar`, `Selection`, `Recurrence`, `Expander`, `IcsText`): what a recurrence
  rule of the supported subset (section 3.3.10 of RFC 5545) means day by day, and that the expansion loops,
  with their arithmetic jump, early stops, cap and iteration guard, return exactly that; line unfolding
  (section 3.1 of RFC 5545) and the feed-wide cap.
- **Cohort-isolated messaging** (`Membership`, `CohortSafety`, `CohortRuns`, `Authority`, `Records`, `MessagingService`,
  `Paging`): users, cohorts, guardianships, consents, conversations and messages under every interleaving of the
  messaging, guardianship, assurance and erasure services; who can be where, by whose act, who gets a key, what
  becomes of every stored fact, and history paging.
- **Video attachments** (`VideoLifecycle`, `VideoHistory`, `VideoQueue`): admission, claims, the frame scan,
  publication, evidence, purge, where every stored byte belongs, and the drain loop's termination.
- **Provider calls** (`Breaker`, `Retry`, `ProviderCalls`): the circuit breaker under every interleaving of the
  calls it admits, stale results included, the retry loop that reports to it, and the two together.
- **Durable work** (`TaskQueue`, `Outbox`): at-least-once tasks with bounded retries and deduplication, and
  the removal of a deleted row's bytes.
- **Upstream events and sweeps** (`EventSync`, `Reverify`, `Guardrail`): late observations, tombstones and
  snapshot reconciliation; the capped re-verification sweep; the strictest combination of guardrails.

Each database transaction is one step of its model, and a crash between two is a run that stops there.
Almost every service is one transaction. Verification (`apply_assurance`) is not: it stores the band, evicts
and records the proof in three commits, and is modelled as three steps of which the later ones may never come.
Bytes in the object store are deleted outside any transaction. Objects the source updates in place
are classes, whose methods are proved equal to functions on values; the invariants and the statements over
whole runs are proved about those functions. Clocks, rate limits, scanners, providers, handlers and storage
failures are arbitrary parameters.

Where the code does less than its documentation or its obvious reading says, the model follows the code,
shows the input, and states exactly when the promise holds:

- The iteration guard hides every later occurrence of a weekday series that began long enough ago
  (`OldWeekdaySeriesVanishes`); the expansion is complete exactly under the condition of `ExpandRrule`.
- A verification that changes a cohort commits the new band before it evicts. Between the two,
  for a moment or for good after a crash, a message in a TEEN conversation is wrapped for an adult
  (`InterruptedVerificationLeaks`) and an adult can come to observe one (`InterruptedVerificationAdmits`). Storing the
  band alone is safe if and only if the rows already fit it (`BandAloneIsSafe`), and verifying again does not
  repair what was left (`RetryRepairsNothing`). In every reachable state whoever has no eviction pending and
  still crosses cohorts is an adult observing a ward, who is a child or has an eviction pending; as soon as no
  eviction is pending nobody crosses cohorts but guardians observing their children, whatever was interrupted
  before (`RunKeepsInv`). If no verification is interrupted all observers are such guardians (`PromptRunIsSafe`).
- A breaker that needs two or more successes to close can have more than its limit of probes in flight,
  because a stale success frees a slot it never took (`ProbesInFlight`).
- An exception the retry loop does not catch leaves a half-open breaker's slot taken for good, although the
  breaker's documentation says every grant is paired with a result. In every configuration calls can wedge their
  breaker this way (`EscapesWedge`, `WedgedForGood`); with one success enough to close, the next ask is granted
  exactly as long as fewer calls of the episode escaped than it has slots (`GrantedUnlessEscaped`).
- A purge that fails half way keeps the row but has lost bytes, contrary to the comment at
  apps/media/services.py:1516-1517 (`PurgeAtomicity`); it cannot happen exactly to rows with at most one key
  (`PurgeNeverComesApart`).
- With a key limit of zero, cleanup tasks succeed without deleting anything and the bytes are forgotten
  (`NothingIsForgotten`).
- A tombstoned event can come back in two upserts of which neither both clears the tombstone and names a
  lifecycle (`RevivalInTwoSteps`); `Revival` is the exact rule for runs.
- The snapshot order check reads only the first state row of a scope; it is sound exactly while that row is
  the latest (`OrderCheckIsSound`, `TwoSpellingsGoBack`).
- A page request whose anchor was purged shows the newest page over again, unless nothing newer is left
  (`NextPageContinues`).
- Combined category lists are stricter than each guardian's own (`CombinedIsStrictest`).
- A task exceeds its attempt limit in some run exactly when the limit is zero (`OnlyZeroIsExceeded`).
- An observer who left and is later proven a child can be invited back as an observer
  (`ReprovenObserverRejoins`, `AcceptSafeIff`); isolation is proved under the hypothesis that nobody once
  proven adult is later proven a child.

`dafny verify dfyconfig.toml` checks the whole project.

## Model

| member | source | states |
|---|---|---|
| Calendar.DayNumberDeterminesDate | apps/events/sources.py:106-110 | the Gregorian day numbering is one to one, with the full leap rule |
| Calendar.DayNumberOrdersDates | apps/events/sources.py:106-110 | comparing instants is comparing (year, month, day) |
| Calendar.DaysAreCounted | apps/events/sources.py:106-110 | day 0 is Monday, 1 January of year 1; each next day, across the ends of months and years, has the next number |
| Calendar.AddMonthsLands | apps/events/sources.py:106-110 | a month step lands exactly that many months on, on the same day or the month's last |
| Calendar.ChainingDrifts | apps/events/sources.py:180-181 | stepping month by month agrees with the direct step exactly when no intermediate month cuts the day |
| Selection.CutIsFirst | apps/events/sources.py:153-154 | stopping early loses nothing exactly when the cap is reached or nothing follows |
| Selection.FirstIsUnique | apps/events/sources.py:113-140 | "the first so many occurrences" determines the list |
| Recurrence.ExpansionIsUnique | apps/events/sources.py:113-140 | the declarative meaning of an expansion admits one result only |
| Recurrence.MonthlyOrder | apps/events/sources.py:177-183 | monthly occurrences are strictly increasing in time |
| Recurrence.MonthlyByDate | apps/events/sources.py:177-183 | a date belongs to a monthly series if and only if it lies a whole number of intervals after DTSTART with DTSTART's day clamped to that month alone |
| Recurrence.NothingAfterRefusal | apps/events/sources.py:141-152 | once COUNT, UNTIL or the horizon refuses one occurrence, no later one is shown |
| Recurrence.GuardedExpansion | apps/events/sources.py:19-24 | looking only as far as a guard is the whole expansion if and only if the cap was reached or nothing shown lies beyond |
| Recurrence.ExaminedElements | apps/events/sources.py:141-154 | what looking up to a guard returns: shown occurrences, ascending, all of them up to the cap |
| Recurrence.CompletenessIsCheckable | apps/events/sources.py:19-24 | the same can be told from one day: the cap was reached, or the first occurrence at or after both guard and window start is not admitted |
| Expander.Recorder.Record | apps/events/sources.py:141-154 | one occurrence counts, is kept when admitted and in the window, and the walk goes on exactly while more may follow |
| Expander.ExpandStepped | apps/events/sources.py:184-201 | the jump over the past gives what stepping one occurrence at a time from DTSTART gives |
| Expander.ExpandMonthly | apps/events/sources.py:177-183 | the monthly loop returns the shown occurrences before its guard |
| Expander.ExpandWeekdays | apps/events/sources.py:155-176 | the two loops over weeks and weekdays return the shown occurrences before their guard |
| Expander.StepGuardSuffices | apps/events/sources.py:184-201 | the guard never cuts a daily or plain weekly expansion when horizon days + 3 is at most 4000 |
| Expander.OldWeekdaySeriesVanishes | apps/events/sources.py:160-176 | a weekly series from 4000 weeks ago shows nothing although an occurrence lies in the window |
| Expander.SeriesIsRule | apps/events/sources.py:155-201 | a rule occurs on its own days: every n-th day, DTSTART's or the listed weekdays (MO is Monday) of every n-th week, DTSTART's day clamped in every n-th month |
| Expander.ExpandRrule | apps/events/sources.py:113-201 | in the rule's own terms: an unsupported rule gives DTSTART alone; any other gives only occurrences of the rule within COUNT, UNTIL and the window, ascending, as many as asked for, and every one within 4000 intervals of DTSTART (any at all for daily and plain weekly rules); beyond that it is complete if and only if the guard lies beyond what matters; a cap below one gives at most one |
| IcsText.SplitJoin | apps/events/sources.py:76 | splitting undoes joining, whichever of CRLF, LF and CR stands between two lines |
| IcsText.Unfold | apps/events/sources.py:73-81 | the loop absorbs each continuation line into the line before |
| IcsText.UnfoldKeepsText | apps/events/sources.py:73-81 | unfolding loses and adds no text but the blanks before continuations, and yields one line per line that continues no other |
| IcsText.FoldRoundTrip | apps/events/sources.py:73-81 | however logical lines are cut, folded (each piece behind its own space or tab) and broken, unfolding gives them back |
| IcsText.DraftIsLatest | apps/events/sources.py:236-279 | a draft is open since the latest BEGIN not followed by an END and holds the last value of each key since then; the END hands over exactly that |
| IcsText.ParseTokens | apps/events/sources.py:229-281 | stopping at the feed cap gives the first events of the whole feed, never more than the cap |
| CohortSafety.RunKeepsInv | apps/messaging/services.py:173-512 | in every reachable state everyone with no eviction pending shares their conversation's cohort or is an adult observing a ward who is a child or has an eviction pending; once none is pending nobody crosses cohorts but adults observing an active child of theirs among children; and active observers are never children, which the services rely on |
| CohortSafety.PruneRestores | apps/messaging/services.py:449-468 | pruning the conversations where observers may have lost their ward re-establishes isolation there |
| CohortSafety.RemoveUserRestores | apps/messaging/services.py:493-512 | whatever was wrong with a user's rows and with the observers relying on them, removing the user puts it right |
| CohortSafety.RemovalIsExact | apps/messaging/services.py:493-512 | a removal ends the user's own presence and, where the user was, the observers left without a ward, and nobody else |
| CohortSafety.StoreBandKeeps | apps/accounts/services.py:48-56 | storing a band puts at most its user, and observers whose ward the user was, in the wrong place |
| CohortSafety.BandAloneIsSafe | apps/accounts/services.py:48-64 | between storing the band and evicting, isolation holds if and only if the user is present in no conversation of another cohort, observes nothing the new cohort may not and is nobody's only ward |
| CohortSafety.RetryRepairsNothing | apps/accounts/services.py:59-64 | verifying again to the same cohort evicts nobody, so an interrupted verification stays unrepaired |
| CohortSafety.RevokeKeeps | apps/accounts/services.py:654-678 | a revocation keeps isolation for everybody |
| CohortSafety.EraseKeeps | apps/accounts/services.py:892-946 | erasing an account with all its guardianships keeps isolation for everybody else |
| CohortRuns.PromptRunIsSafe | apps/accounts/services.py:48-76 | if every eviction a verification calls for follows at once, after every run members share their conversation's cohort and observers are adults with an active child among children |
| CohortRuns.InterruptedVerificationLeaks | apps/accounts/services.py:56-64 | an allowed run after which a TEEN's message is wrapped for an adult |
| CohortRuns.InterruptedVerificationAdmits | apps/messaging/services.py:400-429 | an allowed run after which an adult reads a TEEN conversation as observer |
| CohortRuns.ContactIsMutual | apps/messaging/services.py:137-156 | contact is mutual among enabled users, needs both to be eligible and never crosses cohorts |
| CohortRuns.WhoMeetsWhom | apps/messaging/services.py:137-156 | two active members with no eviction pending who may speak share a cohort; an adult among children is an observer with a ward there |
| CohortRuns.WhoReadsAndSends | apps/messaging/services.py:609-626 | nobody sends across cohorts; nobody reads across them but an observer once proven adult, who without a pending eviction is an adult with a ward there, and with none pending anywhere reads among children with an active child |
| CohortRuns.SentKeys | apps/messaging/services.py:651-742 | in every reachable state a send stores one key per active member and for nobody else, at most the cap; each is for that cohort, for an adult observing a ward, or for someone whose eviction is pending; with none pending, for that cohort or an observing guardian of an active child |
| CohortRuns.AcceptSafeIff | apps/messaging/services.py:264-279 | accepting keeps isolation if and only if the accepted row is not an old observer row |
| CohortRuns.ReprovenObserverRejoins | apps/messaging/services.py:307-345 | a run, with one step outside the hypothesis and no interruption, that ends with a child as observer: the hypothesis is needed |
| Authority.RevocationIsExact | apps/accounts/services.py:654-678 | after a revocation the link and this guardian's consent are inactive, no other is; the ward's rows stay as they were if the ward is verified, unexpired and over 16 or has somebody else's valid consent, and otherwise the ward is present nowhere; the guardian and the ward's other observers go on observing exactly where an active child ward is left |
| Authority.ErasureIsExact | apps/accounts/services.py:892-946 | the same for all guardianships an erasure ends, for every row not the erased user's own |
| Authority.MembersChange | apps/messaging/services.py:174-379 | every step, seen from any row that does not observe: it becomes active only by its own user's act, who is cleared to take part; it is invited only by an opener or the group's admin who may contact its user; it ends only by its own user, the admin, or an eviction that is due; it keeps its role and otherwise stays exactly as it was |
| Authority.ObserversChange | apps/messaging/services.py:449-512 | every step, seen from whoever observes a ward: they go on observing exactly as long as a child ward of theirs is active there and their own presence has not ended |
| Records.SendIsExact | apps/messaging/services.py:651-742 | an accepted send stores exactly one message, under the conversation it was sent in, with its sender, wrapped for whoever is active there; a refused one nothing; who may send is said in terms of the rows |
| Records.ReadersSendOrObserve | apps/messaging/services.py:609-626 | reading is being able to send there or observing, by an enabled account |
| Records.MessagesChange | apps/accounts/services.py:921-946 | every other step, seen from one message: a purge takes those listed, an erasure those the user sent and the user's keys, nothing else touches it |
| Records.MessagesHaveOrigin | apps/messaging/services.py:651-742 | after any run every stored message is that of an accepted send: its conversation, its sender, and the keys of the members active then, less those erased since |
| Records.KeysOnlyShrink | apps/messaging/services.py:651-742 | no later step adds a key to a stored message or moves it |
| Records.AccountsChange | apps/accounts/services.py:48-76 | every step, seen from one account: band, cohort, proof and status change only by the steps that name the user |
| Records.LinksChange | apps/accounts/services.py:529-545 | every step, seen from one guardianship: it begins by linking an adult to somebody else and ends by its revocation or an erasure |
| Records.ConsentsChange | apps/accounts/services.py:996-1054 | every step, seen from one consent: given by a cleared adult guardian of a ward under 16, withdrawn with the guardianship or by any guardian of the ward |
| Records.BlocksChange | apps/safety/services.py:361-373 | every step, seen from one block: set and lifted by the blocker alone |
| Records.ConvsChange | apps/messaging/services.py:174-253 | a conversation is of its opener's cohort and never changes |
| Records.ClearanceIsGiven | apps/accounts/services.py:518-526 | whether a user may take part changes only by their own proof, a guardian's consent or its withdrawal |
| Records.ErasedIsGone | apps/accounts/services.py:892-946 | of an erased account no row, link, block or consent is left, no message it sent and no key it held |
| Records.RunKeepsOneAdmin | apps/messaging/services.py:307-379 | over any run a conversation has at most one administrator, whoever opened it |
| Records.VerificationIsSteps | apps/accounts/services.py:48-76 | a verification is the band, the eviction of a user whose assigned cohort changed, and the proof, in this order, up to the commit reached |
| MessagingService.OneKeyEach | apps/messaging/services.py:711-727 | an exact key list has one entry per member |
| MessagingService.Service.PruneListed | apps/messaging/services.py:449-468 | the loop over observers, in any order, ends exactly the orphaned ones |
| MessagingService.Service.PruneOrphanedGuardians | apps/messaging/services.py:449-468 | the prune of one conversation |
| MessagingService.Service.DropGuardianObserversFor | apps/messaging/services.py:472-489 | ends a guardian's observation wherever no active child ward is left |
| MessagingService.Service.RemoveUserFromConversations | apps/messaging/services.py:493-512 | demotes all rows of the user, prunes each affected conversation and counts them |
| MessagingService.Service.StartDirect | apps/messaging/services.py:174-206 | opens or reuses a direct conversation, or refuses and changes nothing |
| MessagingService.Service.StartGroup | apps/messaging/services.py:210-253 | invites each distinct contactable target once, within the cap |
| MessagingService.Service.AcceptInvite | apps/messaging/services.py:264-279 | cohort and participation are checked again at acceptance |
| MessagingService.Service.DeclineInvite | apps/messaging/services.py:283-291 | declines and prunes |
| MessagingService.Service.Leave | apps/messaging/services.py:295-303 | leaves and prunes |
| MessagingService.Service.AddParticipant | apps/messaging/services.py:307-345 | an admin invites, a returning row keeps its role, the cap counts active and invited rows |
| MessagingService.Service.RemoveParticipant | apps/messaging/services.py:349-379 | an admin removes others but never an observer |
| MessagingService.Service.AddGuardianObserver | apps/messaging/services.py:400-429 | only a participating adult with an active child ward and a key becomes an observer |
| MessagingService.Service.PostMessage | apps/messaging/services.py:651-742 | accepted if and only if the sender may send and the keys address exactly the active members, each once |
| MessagingService.Service.CheckKeys | apps/messaging/services.py:711-727 | the loop over recipient keys decides exactness |
| MessagingService.Service.ApplyAssurance | apps/accounts/services.py:48-76 | the three commits in order, whichever is the last to happen; an eviction only on a changed, formerly assigned cohort |
| MessagingService.Service.RevokeGuardian | apps/accounts/services.py:654-678 | link, consent and observation end together, and presence exactly where `RevocationIsExact` says |
| MessagingService.Service.EraseUser | apps/accounts/services.py:892-946 | revokes each guardianship, removes presence, messages and rows, and keeps the invariant where it held |
| Paging.MessagesFor | apps/messaging/services.py:754-777 | the newest messages before the anchor, oldest first |
| Paging.GetPage | apps/messaging/views.py:325-343 | the cursor names the oldest kept message exactly when older ones remain |
| Paging.PagesIsCeiling | apps/messaging/views.py:325-343 | the number of pages is the ceiling of messages by page size |
| Paging.CursorWalkVisitsAll | apps/messaging/views.py:325-343 | with nothing purged and new messages arriving on top, the walk reads back exactly the history at its start, in the pages it fills |
| Paging.WalkIsAscending | apps/messaging/services.py:764-777 | whatever is purged or arrives meanwhile, as long as each cursor's own message is still there at the next request the pages read back strictly ascending and hold every message that was there all along |
| Paging.WalkEnds | apps/messaging/views.py:325-343 | if moreover messages only arrive on top, the walk ends within the pages the history filled at its start |
| Paging.PurgedAnchorRestarts | apps/messaging/services.py:764-772 | an anchor purged with everything older restarts the walk at the newest page |
| Paging.NextPageContinues | apps/messaging/services.py:764-772 | the next page continues the walk if and only if the anchor's message is still there or nothing at or after it is; otherwise it is the newest page |
| VideoLifecycle.RunKeepsInv | apps/media/services.py:880-940 | keys imply publication, sources imply withheld rows, attempts stay bounded, published means checked, in every reachable state |
| VideoLifecycle.ServedMeansChecked | apps/media/services.py:1274-1288 | bytes are served exactly when the row is ready, unpurged and (but for staff) unexpired, and then its digest and sampled frames were clean |
| VideoLifecycle.EvidenceSurvives | apps/media/services.py:1214-1231 | once blocked, a row stays blocked and its source stays stored through every claim, worker and purge |
| VideoLifecycle.StepSpendsClaim | apps/media/services.py:1003-1030 | every claim, also the one that only fails the row, uses up one of its claims and no step gives one back |
| VideoLifecycle.ClaimsAreBounded | apps/media/services.py:1003-1030 | over any run a row is claimed at most one more time than its attempt limit |
| VideoLifecycle.PurgeAtomicity | apps/media/services.py:1478-1519 | a failed purge keeps the row; its bytes are all still there if and only if the first deletion failed |
| VideoLifecycle.PurgeNeverComesApart | apps/media/services.py:1478-1519 | a row and its bytes cannot come apart in a purge, whichever deletion fails, if and only if it has at most one key |
| VideoHistory.RowsChange | apps/media/services.py:1003-1231 | every step, seen from one row: it becomes blocked exactly by a scan with a listed frame, ready by one without, failed by a rejected upload or an exhausted claim; attempts count claims that start one; expiry never moves; a blocked row keeps its source |
| VideoHistory.AdmissionIsExact | apps/media/services.py:912-939 | an upload becomes a row exactly when its digest is clean: withheld, unattempted, its source stored |
| VideoHistory.PurgeIsExact | apps/media/services.py:1478-1519 | a purge item that is exempt, unexpired, purged, blocked or being processed leaves row and storage alone; any other whose deletions succeed is purged with all its bytes and no others |
| VideoHistory.RowsHaveOrigin | apps/media/services.py:924-939 | after any run every row is of a clean upload of that run, with its creation time and expiry |
| VideoHistory.ClaimsAreSpaced | apps/media/services.py:1010-1020 | two successive claims of a row lie more than the abandonment time apart, whatever happens in between |
| VideoHistory.AbandonedIsDueAgain | apps/media/services.py:1010-1020 | an attempt whose worker died is taken up again exactly from then on |
| VideoHistory.StorageBalances | apps/media/services.py:1151-1231 | over any run with crashes and failing deletions every stored blob is named by a row or is one of the leftovers the run explains, and every blob a row names is stored unless its purge failed half way |
| VideoHistory.TidyStorage | apps/media/services.py:1151-1231 | when no deletion fails, no worker dies with outputs stored and no row is deleted, the storage holds exactly what rows name |
| VideoQueue.ScanFrames | apps/media/services.py:1065-1149 | the frame loop is clean exactly when every frame is |
| VideoQueue.Queue.OldestDue | apps/media/services.py:1010-1020 | the oldest row that waits or was left behind and is not locked |
| VideoQueue.Queue.ClaimNextVideo | apps/media/services.py:1003-1030 | starts an attempt or fails the exhausted row, always the oldest due one that is not locked |
| VideoQueue.Queue.ProcessOneVideo | apps/media/services.py:1033-1062 | each way of ending the work is the corresponding step, also for a row deleted meanwhile: published exactly when the poster and every sampled frame are clean, blocked otherwise, failed when rejected |
| VideoQueue.Queue.FinalizeReady | apps/media/services.py:1168-1211 | outputs are stored, the row is published and the source goes; a vanished row's outputs are reclaimed |
| VideoQueue.Queue.ProcessPendingVideos | apps/media/services.py:972-996 | beside workers on other rows, whose rows it leaves alone, the drain ends even without a limit, and then nothing unlocked is due |
| VideoQueue.PurgeRunRows | apps/media/services.py:1465-1528 | exactly the candidates retention does not spare and whose deletions succeed are purged |
| VideoQueue.PurgeRunKeepsInv | apps/media/services.py:1465-1528 | a purge run keeps the invariant |
| VideoQueue.Queue.PurgeExpired | apps/media/services.py:1465-1528 | counts what it reclaims, skips failing items and stops at the limit; every exempt, unexpired, blocked or processed row, in the list or not, is as before with all its bytes |
| Breaker.CircuitBreaker.Allow | apps/ops/resilience.py:98-113 | grants while closed, opens an episode after the cooldown, and caps its probes |
| Breaker.CircuitBreaker.RecordSuccess | apps/ops/resilience.py:115-123 | a success while half-open counts toward closing, otherwise it clears the streak |
| Breaker.CircuitBreaker.RecordFailure | apps/ops/resilience.py:125-133 | a failure while half-open opens at once, otherwise it lengthens the streak |
| Breaker.RunKeepsInv | apps/ops/resilience.py:51-54 | over every interleaving the probe counter never exceeds the episode's calls in flight |
| Breaker.NeverWedges | apps/ops/resilience.py:98-113 | with no call in flight and the cooldown over the next ask is granted |
| Breaker.UnrecordedProbesWedge | apps/ops/resilience.py:51-54 | without the pairing contract a full half-open breaker refuses for good |
| Breaker.EpisodeIsBounded | apps/ops/resilience.py:98-133 | one half-open episode grants at most half_open_max + success_threshold - 1 calls, whatever results arrive |
| Breaker.QuietWhileOpen | apps/ops/resilience.py:101-104 | nothing is granted before open_until, which stale failures only move out |
| Breaker.FailureOpens | apps/ops/resilience.py:125-144 | a failure opens the breaker until exactly one cooldown later if it is half-open or the streak is complete, and only counts otherwise |
| Breaker.FailingProbeReopens | apps/ops/resilience.py:125-144 | in every reachable half-open state a failure sends the breaker back to open: whatever is asked before, the next call is granted exactly when a cooldown has passed |
| Breaker.CooldownIsKept | apps/ops/resilience.py:125-144 | a failing probe and a failure that completes the streak keep every call out for the whole cooldown |
| Breaker.OpensOnStreak | apps/ops/resilience.py:130-133 | a closed breaker opens exactly when the failures in a row reach the threshold |
| Breaker.Recovers | apps/ops/resilience.py:115-121 | from every reachable idle state exactly the missing successes close it again |
| Breaker.ProbesInFlight | apps/ops/resilience.py:38-41 | the documented limit on probes in flight holds over all interleavings if and only if one success closes |
| Breaker.TooManyProbes | apps/ops/resilience.py:38-41 | a reachable state with one probe too many for every other configuration |
| Retry.RequestWithRetries | apps/ops/resilience.py:174-219 | at most max_attempts sends, the pauses between them, the verdict, and exactly one report for a granted call unless an uncaught exception escapes |
| Retry.RunIsUnique | apps/ops/resilience.py:174-219 | the rules determine the sends |
| Retry.StopsAtTheFirstFinalOutcome | apps/ops/resilience.py:185-212 | a call goes on exactly through connection errors, timeouts it may retry and listed statuses, until its attempts are used up |
| Retry.ReportFollowsLastSend | apps/ops/resilience.py:193-219 | the breaker hears of a success exactly when the last answer was below 500, of nothing exactly when an uncaught exception escaped, and of a failure otherwise |
| Retry.ReachedAtMostOnce | apps/ops/resilience.py:185-191 | no provider is reached twice by one call if and only if only connection errors are retried or there is one attempt |
| ProviderCalls.CallsKeepTheContract | apps/ops/resilience.py:51-54 | every interleaving of calls through the retry loop keeps the breaker's pairing contract, and the unrecorded grants are exactly the running and the escaped calls |
| ProviderCalls.CallsNeverWedge | apps/ops/resilience.py:174-219 | when no exception escapes, the breaker grants again once all calls have ended and the cooldown is over |
| ProviderCalls.WedgedForGood | apps/ops/resilience.py:98-113 | a half-open breaker whose slots are all held by calls that never report grants nothing ever again |
| ProviderCalls.EscapesWedge | apps/ops/resilience.py:174-219 | for every configuration, a run of calls from a fresh breaker that ends wedged |
| ProviderCalls.GrantedUnlessEscaped | apps/ops/resilience.py:98-113 | with one success enough to close, no call running and the cooldown over, the next ask is granted if and only if the breaker is not half-open or fewer of the episode's calls escaped than it has slots |
| TaskQueue.BackoffDoubles | apps/ops/tasks.py:130-135 | the first pause is the base, each later one twice the one before, up to the cap |
| TaskQueue.RunKeepsInv | apps/ops/models.py:62-70 | at most one pending task per kind and non-blank key, and bounded attempts, over every interleaving |
| TaskQueue.OnlyZeroIsExceeded | apps/ops/tasks.py:206-215 | a task's attempt limit is exceeded in some run if and only if it is zero |
| TaskQueue.FinishedIsFinal | apps/ops/tasks.py:164-172 | a done or failed task never runs or changes again |
| TaskQueue.History | apps/ops/tasks.py:159-220 | a pending task's outcomes determine its attempts and status after any run: done exactly after its one success, failed exactly when all attempts raised |
| TaskQueue.AttemptsAreDated | apps/ops/tasks.py:173-220 | over any run a task started at its first attempt, finished at its last, carries the last error, and after a failure is due exactly one backoff later |
| TaskQueue.RetriesAreSpaced | apps/ops/tasks.py:217-220 | two successive attempts are at least the backoff of the first apart |
| TaskQueue.EnqueueIsExact | apps/ops/tasks.py:66-127 | queueing adds one unattempted task due at the given time, unless a pending one of the kind stands for the non-blank key |
| TaskQueue.SummaryTells | apps/ops/tasks.py:142-156 | the summary of a drain tells the outcomes: done the successes, failed the last attempts that raised, retried the others |
| TaskQueue.Worker.Enqueue | apps/ops/tasks.py:66-127 | refuses unregistered kinds, finds the pending duplicate or adds one task |
| TaskQueue.Worker.NextDue | apps/ops/tasks.py:164-170 | the first due unlocked task by availability and id |
| TaskQueue.Worker.RunOne | apps/ops/tasks.py:159-220 | runs that task; a missing handler is an ordinary failure |
| TaskQueue.Worker.RunPendingTasks | apps/ops/tasks.py:142-156 | claimed = done + retried + failed, at most the limit, and nothing due is left when it stops early |
| Outbox.RunKeepsSound | apps/media/signals.py:22-69 | over every interleaving with crashes the bookkeeping of rows, bytes and tasks is consistent |
| Outbox.SurvivorsKeepTheirBytes | apps/ops/handlers.py:26-46 | no cleanup names or deletes a surviving row's key |
| Outbox.NothingIsForgotten | apps/ops/handlers.py:16-23 | after a committed deletion a key is gone or named by a pending or failed task, over all runs, if and only if the handler can act on it |
| Outbox.PayloadNames | apps/ops/handlers.py:16-23 | what a payload names: refused only as a true scalar, a text for itself, of a list the non-blank texts among its first entries |
| Outbox.RepeatedIsOnce | apps/ops/handlers.py:26-46 | crashes and partial executions before the final success leave the storage of one execution |
| Outbox.EnqueueAllCovers | apps/media/signals.py:36-43 | every non-empty key of a deleted row is named by a pending task |
| Outbox.MediaStore.EnqueueAllBlobCleanups | apps/media/signals.py:36-43 | one task per non-empty key |
| Outbox.MediaStore.DeleteRow | apps/media/signals.py:46-69 | row and tasks commit together or nothing changes |
| Outbox.MediaStore.ErasureBlobCleanup | apps/ops/handlers.py:26-46 | deletes the named keys in order and succeeds exactly when all deletions do |
| EventSync.EventTable.UpsertEvent | apps/events/services.py:39-128 | merges a record, keeps what it leaves out, ignores late scraper records |
| EventSync.EventTable.TombstoneEvent | apps/events/services.py:131-179 | marks removed, unless the marker is late |
| EventSync.EventTable.ReconcileSnapshot | apps/events/services.py:225-276 | refuses stale snapshots, otherwise retracts the absent rows, counts them and records completion |
| EventSync.EventTable.RecordCompletion | apps/events/services.py:267-275 | updates the state row with exactly this spelling or adds one |
| EventSync.UpsertIsExact | apps/events/services.py:39-128 | field by field: overwritten fields and hold become the record's, blank metadata keep what was known, a tombstone forces REMOVED, a lifecycle not given stays; a late scraper record changes nothing |
| EventSync.TombstoneIsExact | apps/events/services.py:131-179 | a marker that is not late removes the scraper's row and leaves everything it does not give |
| EventSync.RunRemembers | apps/events/services.py:77-80 | over any run an event's pack, city and times, once known, are never unknown again |
| EventSync.ObservationIsMonotone | apps/events/services.py:53-63 | over every run the observation time never goes back, exactly for the scraper's events |
| EventSync.RunKeepsMarked | apps/events/services.py:30-36 | a tombstoned event is removed and never discoverable |
| EventSync.RevivalInOneStep | apps/events/services.py:65-77 | one step revives a tombstoned event if and only if it is a not-older upsert that clears the tombstone, names a discoverable lifecycle and is not held |
| EventSync.RunDecides | apps/events/services.py:40-128 | the accepted decisions about an event determine its tombstone, lifecycle and hold after any run |
| EventSync.LateDecidesNothing | apps/events/services.py:53-63 | an upsert decides nothing exactly when it is late, and what decides nothing changes nothing |
| EventSync.Revival | apps/events/services.py:65-77 | over a run, a tombstoned event ends discoverable if and only if some accepted decision clears the tombstone for good, it or a later one names a discoverable lifecycle that stays, and the last accepted upsert is not held |
| EventSync.RevivalInTwoSteps | apps/events/services.py:65-77 | the two need not be one record |
| EventSync.ReconcileIsExact | apps/events/services.py:253-266 | exactly the scraper's live rows of this pack and city that the snapshot lacks are retracted, in the snapshot's name; every other row is untouched |
| EventSync.RefusedIff | apps/events/services.py:182-199 | a snapshot is refused exactly when, without approval, the first completion of its scope is later, or as late and of another snapshot; refused it changes nothing |
| EventSync.ReplayIsIdle | apps/events/services.py:242-276 | replaying an accepted snapshot retracts nothing and changes nothing |
| EventSync.OrderCheckIsSound | apps/events/services.py:182-199 | the order check keeps out every older snapshot if and only if the first row is the latest of its scope |
| EventSync.CompletedTimeIsMonotone | apps/events/services.py:182-199 | without rollback of the scope and with one spelling of its city the completed time never goes back over any run |
| EventSync.TwoSpellingsGoBack | apps/events/services.py:242-246 | with two spellings an older snapshot follows a newer one |
| Reverify.Sweeper.RunReverifySweep | apps/accounts/services.py:347-396 | the sweep with its cap, markers and alarm |
| Reverify.AtMostOncePerProof | apps/accounts/services.py:298-344 | over any run and clock each proof gets at most one reminder and one eviction |
| Reverify.TickAppends | apps/accounts/services.py:377-380 | no tick evicts more than the cap, and the counters are what was sent |
| Reverify.TickDrains | apps/accounts/services.py:362-396 | a tick counts the whole backlog and evicts the smaller of backlog and cap |
| Reverify.TickReminds | apps/accounts/services.py:381-384 | a tick reminds, once each, exactly the minors whose unmarked proof lapses within the reminder window |
| Reverify.TickEvicts | apps/accounts/services.py:362-380 | a tick evicts, once each, exactly the first overdue minors up to the cap |
| Reverify.NewProofStartsOver | apps/accounts/services.py:66-76 | verifying again starts over: the new proof is due by its own expiry alone |
| Reverify.FailingVisit | apps/accounts/services.py:362-394 | a visit that raises changes nothing and still counts an overdue proof |
| Reverify.DrainedAfter | apps/accounts/services.py:362-396 | a fixed backlog is gone if and only if ceil(backlog / cap) ticks have run |
| Guardrail.EffectiveGuardrail | apps/accounts/services.py:841-888 | the loops compute the strictest of each limit and the common days and categories |
| Guardrail.AloneMeans | apps/social/services.py:658-706 | one guardian's limits let a meetup through exactly when it meets each that is set |
| Guardrail.CombinedIsStrictest | apps/social/services.py:658-706 | a meetup passes the combination if and only if it passes every guardian's own limits and they share one of its categories |
| Guardrail.CategoriesOnlyStricter | apps/social/services.py:780-795 | the shared category is a real condition |
| Guardrail.OrderDoesNotMatter | apps/accounts/services.py:853-888 | only which guardrails exist matters |
| Guardrail.AnotherGuardianNeverWidens | apps/accounts/services.py:841-888 | a further guardian lets nothing more through |
| Guardrail.FlagIsExact | apps/accounts/services.py:1090-1104 | the flag is up if and only if no meetup at all can pass |

## Left out

- Expander.ExpandRrule: splitting a rule into tokens and reading its numbers and dates happen before the model, and Python's date range overflow is not part of it.
- IcsText.ParseTokens: takes lines already classified; reading single properties and building the derived ids of expanded occurrences are not modelled.
- CohortSafety.RunKeepsInv: takes transactions as serial and assumes that nobody once proven adult is later proven a child (`ReprovenObserverRejoins` shows why); of a user whose eviction is pending it promises nothing.
- MessagingService.Service.PruneListed: visits rows in an arbitrary order, which does not matter because no active observer is a child; the counts and audit entries of the prune loops are not modelled, nor joined and invited-by stamps, titles and standing groups.
- Records.LinksChange: the invitation that precedes a link, and standing groups a revoked ward is removed from, are not modelled.
- Paging.CursorWalkVisitsAll: assumes that nothing is purged between the requests; `WalkIsAscending` and `WalkEnds` say what remains when something is. The `after` parameter is not modelled.
- VideoLifecycle.ServedMeansChecked: assumes one live worker per video row. A crash between storing an uploaded source and creating its row, which leaves bytes no row names, is not modelled, nor are image and document attachments, thumbnails and the checks on who may ask.
- VideoQueue.Queue.ProcessPendingVideos: assumes that no row another worker is on looks abandoned while the drain runs, and does not interleave with their progress.
- VideoQueue.Queue.PurgeExpired: takes the candidate query and the moderation exemptions as given.
- Breaker.OpensOnStreak: speaks of a breaker that has been closed so far; floating-point rounding of clock readings is not modelled.
- Retry.ReachedAtMostOnce: takes a connection error to mean that the request never reached the provider, as the source's documentation does; a connection reset after the request was sent is reported the same way.
- TaskQueue.Worker.Enqueue: a check-then-create race is resolved by the unique constraint inside one step; truncation of texts to column widths is not modelled.
- Outbox.SurvivorsKeepTheirBytes: rows do not change between upload and deletion here; purging, finalising or replacing a row's bytes is not a step of this part, and a failed purge does lose bytes of a row that stays.
- Outbox.NothingIsForgotten: assumes that rows own their keys and that only the deletion receivers queue this kind of task; a negative key limit is not modelled. Keys made of blanks, which the handler skips, fall outside the condition too, but no upload generates one.
- EventSync.EventTable.UpsertEvent: only records with an external id; records matched by place, title and start are not modelled, nor is truncation of texts, and the fields that are simply overwritten are one opaque text.
- EventSync.CompletedTimeIsMonotone: assumes one spelling of the scope's city; `TwoSpellingsGoBack` shows why.
- Guardrail.FlagIsExact: assumes guardrails within the field validators.
- The consent renewal sweep repeats the pattern of the re-verification sweep and is left out, as are donations, notification mutes, place votes, connection requests and community thresholds.
- Web views other than the message cursor, serializers, consumers, templates, signed URLs, encryption and the audit chain are not part of this model.
