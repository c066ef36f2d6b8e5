# AVP verification

A Dafny model of the control software of an autonomous water profiler: a scheduler launches casts, a
winch moves the sonde, brokers are reached over sockets, an LCD and a hardware watchdog are driven, and a
database logs everything. Each module follows one source file (or one part of it) and proves what that part
promises over every input, every run or every interleaving. `dafny verify dfyconfig.toml` checks all of it.

| module | models |
|---|---|
| `Calendar`, `CronSearch`, `CronBounds` | the crontab-like search for the next minute of an entry, exactly when its cap of 200 passes lets it succeed, and what that means for families of entries |
| `Scheduler` | one scheduler tick on the shared record objects: rebuild, promote, merge duplicates, transfer |
| `SchedThreads`, `SchedSteps`, `SchedHistory`, `SchedRuns` | the scheduler and launcher threads interleaved, with records in an explicit heap; what each step changes, runs from the start of the program, and exactly when a cast completes |
| `SchedAgrees` | the two views of the scheduler tied together |
| `LaunchPlan` | the order in which the launcher visits the queued casts, and what it asks of each |
| `WinchMonitor` | the monitor loop of a winch move: five timers, ten stop codes |
| `CastAbort` | the phases of a cast and the abort that they record |
| `LcdText`, `LcdFlash` | the text layout and the flash writer of the display driver |
| `Watchdog` | both versions of the watchdog driver, down to the index and data ports of the chip |
| `BrokerRpc`, `BrokerSlot`, `Subscriptions` | request/reply matching, the message slot that callers share, and the subscription cache of a broker client |
| `SqlText` | the SQL text builder, which mangles the caller's dictionaries in place |
| `Power` | the one minute windows and the running amp hours |

Classes and their methods carry the step-by-step code; each method is proved against a function of the old
state, and the lemmas are about that function. `Scheduler` and `SchedThreads` are two views of the same
tables: the first is the sequential code of one tick, object by object; the second cuts both threads at their
lock boundaries, so it needs the record objects as an explicit heap. `SchedAgrees` proves that the merge and the
transfer of the first are runs of the second.

What the proofs show beyond the expected:

- The capped search succeeds exactly when it misses fewer than 200 times, and the misses are counted from the
  entry and the start alone. An entry that offers a day which all its months have every year misses 123 times at
  most, one with a wild month 142 times, and both bounds are reached. With one value in each field the search works
  from every start exactly for the dates of a common year. So an entry for 29 February can be lost, and so can one
  for day 31 that lists short months, though it matches on 31 January of every year (266 misses).
- The scheduler's early re-parse (`python/avp_sched.py:655-657`) can never happen. `insert_time` is set by a
  merge only, so an unmerged record never expires, and a reload of the table between the two halves of
  `do_cast` leaves its record 'casting' for good, which blocks its entry from then on. The cast that the launcher
  has taken completes exactly when the last table read still lists its entry and no purge comes an hour after its
  insert time. Runs from the start of the program reach both failures.
- A merged cast that runs for more than an hour marks the next record of its entry as done, which is then
  never cast.
- With two or more non-ISCO casts queued, no cast of the pass returns the sonde to its default position,
  because the skipped ones still count.
- A soft abort still parks, unless stop_sampling raises; an abort with 'park' False never does; an exception skips parking.
- An ISCO cast without a depth is sorted last, since the key function of the sort (`python/avp_sched.py:272`) replaces only
  an element that is None as a whole, and is then sent as deep as it goes, to 999.4.
- The display takes flash command 5 as its write enable, where the comment on the commands says 0.
- `nowayout` does not keep a disabling `WDIOC_SETOPTIONS` from stopping the watchdog, and nothing else can.
- Threads that share one broker client can be handed each other's replies exactly when one of them bumps the id
  counter while another stands between its bump and its read of it; one thread alone never does. Even with
  different ids, one message is sent twice and another not at all when a thread stores its message while another's
  is stored and not sent yet, and every thread sends its own message exactly when that never happens.
- A reload or a late purge between the launcher's look at the schedule and its marks ends the launcher thread for
  good, and no cast is started any more.
- Centred text does not fill its field: both centrings of `python/pylcdsysinfo.py:434` take the length from before
  the first one, so the field is filled exactly when the gap is under one space or a whole number of spaces, and is
  up to 16 pixels short otherwise. Text aligned to a side always fills it.
- An error entry in a notification drops everything after it, because reporting it raises.
- The retry of an update sets columns named after the mangled conditions whenever there is a condition, and
  forgets the caller's operator and joint.
- A gap of more than ten minutes stops the current meter until the next day, and a sample that goes
  back by a second is charged as almost a whole day.

Times are integers (minutes on the civil calendar, milliseconds for the winch, microseconds for the power
meters) and quantities are real numbers. Sensor values, clock readings, database rows, chip registers, the
answers of the display and the replies of the server are inputs.

## Model

| member | source | states |
|---|---|---|
| CronSearch.CronTime.FixInvalid | python/avp_sched.py:484-501 | the carry block computes the carried instant in place |
| CronSearch.CronTime.Bump | python/avp_sched.py:503-526 | reports a match exactly when all four fields match, else bumps the first one that does not |
| CronSearch.MatchesMeans | python/avp_sched.py:503-526 | an entry matches when each of its fields is the wildcard or lists the value |
| CronSearch.CarryIsCalendarSuccessor | python/avp_sched.py:485-524 | bump and carries (60 to hour, 24 to day, bad day to month, 13 to year) give the first instant of the next month, day, hour or minute, which is valid and later |
| CronSearch.AdvanceSkipsNoMatch | python/avp_sched.py:503-524 | no instant between a missing candidate and the next candidate matches |
| CronSearch.AfterNeverPassesAMatch | python/avp_sched.py:480-526 | after any number of passes, nothing from the start up to the candidate matches |
| CronSearch.Search | python/avp_sched.py:477-526 | the loop itself, with its counter and cap, returns the first match that 200 passes meet |
| CronSearch.NextOccurrence | python/avp_sched.py:467-526 | success returns the first matching instant at or after the start, exactly when the entry has a time of day and its count of misses from the start is under 200; a failure has passed over no match |
| CronSearch.UncappedSearchTerminates | python/avp_sched.py:480-526 | without the cap the search meets a match whenever one exists, within as many passes as lie between |
| CronSearch.EachMissUsesOne | python/avp_sched.py:503-524 | each miss takes exactly one off the count of misses, which is read off the entry and the start without searching |
| CronSearch.FoundAfterMisses | python/avp_sched.py:480-526 | n passes find a match exactly when the count of misses is at most n |
| CronSearch.SucceedsExactlyWhen | python/avp_sched.py:477-526 | the capped search succeeds exactly when the entry has a time of day and misses fewer than 200 times |
| CronBounds.AtMost124Passes | python/avp_sched.py:477-526 | with an in-range value in each field and a day that all the entry's months have every year (28 or less in particular), 123 misses at most precede the match, so the cap never cuts the search off |
| CronBounds.WildMonthIsFound | python/avp_sched.py:477-526 | with a wild month, any day up to 31 is found from every start, after 142 misses at most |
| CronBounds.WildBoundIsReached | python/avp_sched.py:477-526 | an entry and start that do miss 142 times |
| CronBounds.OneDateFoundExactlyWhen | python/avp_sched.py:477-526 | an entry with one value in each field is found from every start exactly when it is a time of day on a date of a common year |
| CronBounds.LeapDayMisses | python/avp_sched.py:477-526 | between two matches on leap days four years apart lie 238 misses, whatever the time |
| CronBounds.BoundIsReached | python/avp_sched.py:477-526 | one entry and start that do miss 123 times |
| CronBounds.CapLosesLeapDay | python/avp_sched.py:477-526 | an entry for 29 February whose search is given up 39 minutes before its match |
| CronBounds.CapLosesJanuary | python/avp_sched.py:477-526 | an entry for day 31 in months that include short ones, which matches every 31 January and misses 266 times in between, so the search fails |
| Scheduler.MergeDuplicates | python/avp_sched.py:663-681 | the nested loop gives each record its merged state, on the objects themselves |
| Scheduler.AbsorbDuplicates | python/avp_sched.py:665-680 | the inner loop for one record takes over exactly its unmatched duplicates |
| Scheduler.OuterLoopMerges | python/avp_sched.py:663-681 | running the outer loop record by record equals the declarative merge of each record |
| Scheduler.MergeKeepsOnePerClass | python/avp_sched.py:663-681 | exactly one unmatched record, the first, per class of equal non-ISCO entries, with the OR of the LISST flags; ISCO records are left alone |
| Scheduler.MergeMarks | python/avp_sched.py:663-681 | a duplicate of an earlier record is matched and unscheduled, the first of several is queued and stamped, any other record is unchanged |
| Scheduler.OneSurvivor | python/avp_sched.py:663-689 | of two non-ISCO records for one minute, the merge leaves at most one unmatched |
| Scheduler.ServedBySurvivor | python/avp_sched.py:663-681 | each record has an unmatched record that serves it, LISST included |
| Scheduler.SourcesAreLast | python/avp_sched.py:465-543 | an entry is pending exactly when one of its rows has a next time, and comes from the last such row |
| Scheduler.BuildRecord | python/avp_sched.py:467-543 | a record is built exactly when the search succeeds, blank and for the first matching minute |
| Scheduler.Tables.ParseDb | python/avp_sched.py:459-546 | pending holds one fresh, blank record per entry with a next time; nothing in schedule can be promoted again |
| Scheduler.Tables.Promote | python/avp_sched.py:604-654 | exactly the unscheduled records of the comparison minute go to ready and are marked; a re-parse is asked for exactly when no record is due or promoted for a minute that is not over |
| Scheduler.MergeOfMinute | python/avp_sched.py:663-681 | merging records of one minute leaves one non-ISCO record unmatched at most, keeps the status of the unmatched ones, and leaves one that stands for each, LISST included |
| Scheduler.Tables.MergeReady | python/avp_sched.py:660-681 | after the merge at most one non-ISCO record of ready is unmatched, and for every fresh one a record of its kind stands, with LISST if it asks for it |
| Scheduler.Tables.Transfer | python/avp_sched.py:683-689 | the unmatched records of ready, and no other, enter schedule queued, unless their key is there |
| Scheduler.Tables.HandOver | python/avp_sched.py:659-689 | merge and transfer add at most one non-ISCO record and keep what was scheduled; for every fresh record one of its minute and kind stands, with LISST if asked for, newly queued unless an older record still holds its key |
| Scheduler.Tables.Tick | python/avp_sched.py:604-689 | one tick: only due records enter schedule, one non-ISCO record at most; each due cast has a record that stands for it, newly queued unless an older record still holds that key; and no promotable record is in schedule |
| SchedThreads.DoKeepsInv | python/avp_sched.py:213-375 | every locked step of either thread keeps the invariant over pending, ready and schedule and their shared records |
| SchedHistory.RecordsEvolve | python/avp_sched.py:238-263 | from any state of the invariant, over every interleaving, a record is started at most once, and once scheduled its status only moves queued, casting, done or queued, done |
| SchedRuns.InitIsGood | python/avp_sched.py:213-223 | the start of the program satisfies the invariant |
| SchedRuns.EveryRecordEvolves | python/avp_sched.py:238-263 | over every run of the program each record that is ever created is started at most once, and its status moves forward from every prefix in which it appears |
| SchedHistory.LeavesExactlyWhenPurged | python/avp_sched.py:579-592 | a step takes a record out of schedule exactly when it is a purge of a done record or of one an hour past its insert time |
| SchedHistory.EntersExactlyWhenTransferred | python/avp_sched.py:683-689 | a step puts a record into schedule exactly when it transfers an unmatched one; it enters queued and has never been there |
| SchedHistory.StaysUntilPurged | python/avp_sched.py:579-592 | over every interleaving a scheduled record stays until a purge finds it done or overdue |
| SchedHistory.GoneForever | python/avp_sched.py:579-689 | over every interleaving a record that has left schedule never returns |
| SchedHistory.DoneNeverStarts | python/avp_sched.py:238-239 | a done record is not started by any later interleaving |
| SchedHistory.OverrunDropsNextCast | python/avp_sched.py:369-370 | a merged cast that runs over an hour marks the entry's next record done, which is then never started |
| SchedRuns.CastBeginsExactlyWhen | python/avp_sched.py:345-348 | whatever the scheduler does after the launcher has taken a cast, the second half of do_cast succeeds exactly when the last table read lists the entry; its record is then started once, else not at all |
| SchedRuns.StaysExactlyWhen | python/avp_sched.py:579-592 | a record being cast stays in schedule exactly when no purge comes an hour or more after its insert time |
| SchedRuns.CastCompletesExactlyWhen | python/avp_sched.py:341-375 | the cast ends done after one start exactly when its entry is still listed when it begins and no such purge comes before it ends |
| SchedRuns.NextCastIsLostExactlyWhen | python/avp_sched.py:369-370 | the end of a cast marks a record that was never started exactly when a late purge took out the record being cast and a transfer put another in its place; that one is never started |
| SchedRuns.FailedCastIsStuckExactlyWhen | python/avp_sched.py:345-372 | after a failed second half the record stays casting over every later run exactly when no merge gave it an insert time |
| SchedRuns.StuckIsReached | python/avp_sched.py:341-375 | a run from the start of the program that ends with a stuck record |
| SchedRuns.LostCastIsReached | python/avp_sched.py:369-370 | a run from the start of the program after which a scheduled cast is never started |
| SchedAgrees.MergeIsRun | python/avp_sched.py:663-681 | the nested duplicate loop is a run of the scheduler thread's merge steps and leaves the same records |
| SchedAgrees.TransferIsRun | python/avp_sched.py:683-689 | the transfer loop is a run of its transfer steps and adds the same records |
| SchedRuns.MarkKillsExactlyWhen | python/avp_sched.py:255-270 | whatever the scheduler does meanwhile, marking a pending entry ends the launcher thread exactly when the last table read does not list the entry |
| SchedRuns.SkipKillsExactlyWhen | python/avp_sched.py:260-262 | skipping a cast ends the thread exactly when a late purge has taken the cast out of schedule and nothing is in its place |
| SchedSteps.SkippedIsNeverStarted | python/avp_sched.py:257-263 | once the launcher is through with the casts to skip, whatever the scheduler did meanwhile, none of their records is ever started, none that is still in schedule is queued, and the next purge takes them out |
| SchedSteps.SkipMeans | python/avp_sched.py:260-262 | a skip marks its unstarted record done and nothing else; without the record the thread ends |
| SchedSteps.PickMeans | python/avp_sched.py:236-263 | a pass splits the queued keys: several non-ISCO casts are all skipped, all other keys are to be cast |
| SchedSteps.MarkMeans | python/avp_sched.py:255-270 | a mark sets one pending record processed and nothing else; without the record the thread ends |
| SchedSteps.TakeMeans | python/avp_sched.py:341-346 | the next cast is set casting, or passed over if it is incomplete or gone |
| SchedSteps.ActMeans | python/avp_sched.py:347-358 | the record taken is started once if its entry is still pending, whose record is set acting |
| SchedSteps.FinishMeans | python/avp_sched.py:369-370 | the end of a cast sets whatever is under its key done |
| SchedSteps.PurgeMeans | python/avp_sched.py:579-592 | a purge keeps just the records that are neither done nor 3600 seconds past their insert time |
| SchedSteps.ParseMeans | python/avp_sched.py:459-546 | a reload gives each entry of the table a new blank record, from its last row, and touches no other |
| SchedSteps.PromoteMeans | python/avp_sched.py:604-624 | what is due and unscheduled goes to ready as the same record, marked scheduled |
| SchedRuns.DeadForever | python/avp_sched.py:223-340 | after that, over every run, no cast is started any more |
| SchedRuns.DeathIsReached | python/avp_sched.py:238-270 | a run from the start of the program that ends so |
| SchedHistory.FailedActSticks | python/avp_sched.py:345-372 | when the entry has gone from pending, the second half of do_cast fails and leaves the record casting |
| SchedHistory.StuckForever | python/avp_sched.py:579-592 | such a record is never purged nor finished by any later interleaving |
| SchedHistory.ReloadLosesEntry | python/avp_sched.py:341-375 | any unmerged entry that the launcher is about to take is lost by one reload without it |
| LaunchPlan.Launch | python/avp_sched.py:238-313 | the pass skips all non-ISCO casts when there are several and visits the rest in order; only the first turn wipes, only the last queued one parks at default, an incomplete cast is not performed, and a missing depth casts to 999.4; of two ISCO casts the deeper comes first, a missing depth last, and at one depth the greater key |
| LaunchPlan.SortIsSorted | python/avp_sched.py:272 | the reverse sort of depth and entry pairs is a permutation in descending order |
| LaunchPlan.VisitsAreInOrder | python/avp_sched.py:264-280 | whatever is queued, each visit may precede the later ones: no deeper ISCO cast, and at one depth no greater key, comes after it |
| LaunchPlan.EveryEntryOnceDeepestFirst | python/avp_sched.py:242-280 | with at most one non-ISCO cast every queued entry is visited exactly once, the non-ISCO one first, then by falling depth and key |
| LaunchPlan.ExcessDropsAllNonIsco | python/avp_sched.py:257-263 | with several non-ISCO casts exactly the ISCO casts are visited |
| LaunchPlan.ParksExactlyWhen | python/avp_sched.py:283-313 | a cast parks at 'default' exactly when there is no excess and the last entry is complete, and then it is the last |
| WinchMonitor.MonitorMove | python/avp_winch.py:723-862 | the loop stops at the first pass that calls for a code, with that code; its five timers and counters are functions of the history |
| WinchMonitor.SinceIsLastReset | python/avp_winch.py:806-848 | a timer shows the last new sample that reset it, or loop start |
| WinchMonitor.StopFunctExactlyWhen | python/avp_winch.py:748-761 | 'stop_funct' is due exactly after an unbroken truthy streak of more than a second, for evaluations less than a week apart |
| WinchMonitor.EveryCodeIsJustified | python/avp_winch.py:748-854 | each stop code is backed by the samples themselves: the switch, velocity, position or silence that it names held for its whole limit since the last new sample to the contrary, or loop start |
| WinchMonitor.CodeIsVerdict | python/avp_winch.py:748-854 | and the code is the first justified one in the order in which they prevail: stop function, IPC, key, relay, silence, then position after 20 samples, no position change, no velocity, positive and negative limit, in position |
| WinchMonitor.StopsExactlyWhenJustified | python/avp_winch.py:736-856 | the loop stops at a pass exactly when the samples justify some code in that way, so no cause is missed, for stop functions evaluated at least once a week |
| WinchMonitor.RunningSampleIsRecent | python/avp_winch.py:837-842 | while the loop runs, each new sample comes within max_zero_v of the last fast one, or of loop start |
| WinchMonitor.MotorAtRestEndsLoop | python/avp_winch.py:736-856 | once the motor is at rest, no timeout check is passed max_zero_v + max_stopped after its last fast sample, or loop start |
| CastAbort.Cast.PreConfig | python/avp_cast.py:113-181 | an ISCO cast with LISST starts aborted; otherwise the abort is cleared |
| CastAbort.Cast.DoPreCastPark | python/avp_cast.py:621-660 | moves exactly when a calibration is due and nothing is aborted; the abort and the exception of every case |
| CastAbort.Cast.DoPrePosition | python/avp_cast.py:682-754 | the moves, the abort and the exception of every case |
| CastAbort.Cast.DoDataCollection | python/avp_cast.py:807-892 | the moves of a profile, with only the first one's stop code looked at, and the ISCO sampler; abort and exception of every case |
| CastAbort.Cast.DoPostCastPark | python/avp_cast.py:923-964 | parks in every cast but one with an unparkable abort, and not at the bottom; an unknown position becomes the default |
| CastAbort.Cast.TryPhases | python/avp_cast.py:218-240 | the try block follows the course that its answers call for: the first exception or fault decides, and an aborted cast goes on to stop_sampling and the park |
| CastAbort.Cast.Start | python/avp_cast.py:205-247 | a whole cast: if nothing goes wrong, exactly the calibration move if due, the waterline, the depth, the profile moves and the park; if a setup step fails, a soft abort and only the park; otherwise the course of its first exception or fault; an abort is never cleared and no park follows an unparkable one |
| CastAbort.NothingWrong | python/avp_cast.py:218-240 | without fault and exception the course makes all the moves, parks and keeps no abort |
| CastAbort.FaultAtTop | python/avp_cast.py:638-676 | a motor fault or positive limit on the way up ends the moves there for good; water where there should be none leads to the park |
| CastAbort.FaultAtWater | python/avp_cast.py:693-730 | so does a fault on the way to the waterline; a wipe that does not end leads to the park |
| CastAbort.FaultAtDepth | python/avp_cast.py:731-892 | so does a fault at depth or in the profile; a sampler that is not ready leads to the park with a soft abort |
| CastAbort.ExceptionAtTop | python/avp_cast.py:218-240 | an exception in the first two phases leaves the moves made by then, no abort and no park |
| CastAbort.ExceptionInPosition | python/avp_cast.py:218-240 | so does one in pre_position |
| CastAbort.ExceptionInCast | python/avp_cast.py:218-240 | so does one in the data collection |
| CastAbort.ExceptionAfterCast | python/avp_cast.py:218-240 | a later one leaves all moves made, and the park too if that raises it |
| CastAbort.UnparkableEnds | python/avp_cast.py:927 | after an abort that forbids it, the last move is no park |
| CastAbort.Cast.AnyPhases | python/avp_cast.py:218-240 | any phases in any order: an unparkable abort stays and stops the winch |
| LcdText.Truncate | python/pylcdsysinfo.py:445-454 | the loop finds the longest prefix that fits, and its width |
| LcdText.KeptIsLongestFit | python/pylcdsysinfo.py:445-454 | what is kept of a text is its longest prefix that fits |
| LcdText.TextConversion | python/pylcdsysinfo.py:441-455 | the longest prefix of the stripped and replaced text that fits a field of n at least 1, aligned; it takes up 40n-1 pixels less what its alignment leaves missing |
| LcdText.PadAdds | python/pylcdsysinfo.py:430-439 | on a side, padding adds 17 pixels for each space and one for each brace; in the centre only the braces beyond the number of spaces are added |
| LcdText.AlignedWidth | python/pylcdsysinfo.py:430-439 | the exact width of a text that fits, in each alignment |
| LcdText.FillsExactlyWhen | python/pylcdsysinfo.py:430-439 | the field is filled on a side always, and in the centre exactly when the gap is under one space or a whole number of spaces; it is never more than 16 pixels short |
| LcdText.EmptyFallsShort | python/pylcdsysinfo.py:434 | an empty text centred in one field takes up 37 of its 39 pixels |
| LcdText.StripIs | python/pylcdsysinfo.py:444 | stripping leaves the part between the first and the last character that is not blank |
| LcdText.SpacesAreReplaced | python/pylcdsysinfo.py:444 | each blank becomes three underscores and nothing else changes |
| LcdText.LeftIs | python/pylcdsysinfo.py:435-436 | text on the left comes first, then the spaces, then the braces |
| LcdText.RightIs | python/pylcdsysinfo.py:437-438 | text on the right comes after the spaces and the braces |
| LcdText.CentreIs | python/pylcdsysinfo.py:433-434 | centred text stands between the spaces, and these between the braces beyond their number |
| LcdText.SideFills | python/pylcdsysinfo.py:441-455 | a field of n aligned to a side takes exactly 40n-1 pixels, whatever its text |
| LcdText.ColumnFields | python/pylcdsysinfo.py:479-496 | a text is split at its first tab, other tabs are dropped, and the two columns keep their order and alignments around an empty field for the icon |
| LcdText.LineText | python/pylcdsysinfo.py:477-501 | the line is its one, two or three converted fields and a zero, and its width the sum over them |
| LcdText.LineIsFullExactlyWhen | python/pylcdsysinfo.py:477-498 | the line has the nominal width of its fields exactly when each of them is full |
| LcdFlash.Lcd.SendChunk | python/pylcdsysinfo.py:689-695 | sends 64 bytes of the file, continued with zeros |
| LcdFlash.Lcd.LocalChecksum | python/pylcdsysinfo.py:701-704 | the sum over the file's part of a page equals the sum of the 256 bytes sent |
| LcdFlash.Lcd.WriteSector | python/pylcdsysinfo.py:683-712 | erases its sector and programs its pages in order up to the first checksum mismatch |
| LcdFlash.Lcd.WriteRawImage | python/pylcdsysinfo.py:647-715 | the exact command log of every outcome, with the accepted headers in their bytes; it succeeds exactly when all page checksums agree |
| LcdFlash.HeaderFits | python/pylcdsysinfo.py:655-668 | the accepted headers in their bytes: 36 by 36 or 320 by 240 |
| LcdFlash.CommandsOf | python/pylcdsysinfo.py:674-715 | the bus codes of a write: 5 and 1 around it, 2 for each sector, four chunks, a checksum request and 3 for each page |
| LcdFlash.ChecksumFitsTwoBytes | python/pylcdsysinfo.py:697-704 | every page checksum is at most 65280 |
| LcdFlash.PageIsProgrammed | python/pylcdsysinfo.py:687-712 | the commands of one page program exactly that page with its 256 bytes |
| LcdFlash.WrittenImageIsInFlash | python/pylcdsysinfo.py:674-715 | executing the full log leaves the file and its zeros in consecutive pages, each programmed once after its erase, and every other page as it was |
| LcdFlash.MismatchLeaves | python/pylcdsysinfo.py:707-708 | a write that a mismatch ends leaves the earlier pages programmed, the rest of that sector blank, every other page as it was, and the flash enabled |
| LcdFlash.SumAdds | python/pylcdsysinfo.py:702-704 | the checksum of bytes in a row is the sum of their checksums |
| Watchdog.Driver.SelectWdRegister | wdt/w83627hf_wdt (3.11) with ignorehalt.c:86-119 | the port sequence leaves device 8 selected and changes only the routing of the pin and CR30 |
| Watchdog.Driver.SetTime | wdt/w83627hf_wdt (3.11) with ignorehalt.c:164-195 | the port sequence programs the count into CRF6 and leaves the chip locked |
| Watchdog.Driver.Init | wdt/w83627hf_wdt (3.11) with ignorehalt.c:126-162 | a running countdown is restarted with the timeout, a stopped one left alone; CRF5 and CRF7 are configured |
| Watchdog.Driver.GetTime | wdt/w83627hf_wdt (3.11) with ignorehalt.c:217-233 | returns CRF6 |
| Watchdog.Driver.SetHeartbeat | wdt/w83627hf_wdt (3.11) with ignorehalt.c:209-215 | the timeout changes exactly for 1 to 255 |
| Watchdog.Driver.constructor | wdt/w83627hf_wdt (3.11) with ignorehalt.c:380-395 | a bad timeout parameter is replaced by 60 |
| Watchdog.Driver.WdtWrite | wdt/w83627hf_wdt (3.11) with ignorehalt.c:235-255 | a write changes the driver as the write call of the model does, whose effects the next rows state: a reload of the counter unless a byte cannot be read, and the close flag |
| Watchdog.Driver.WdtIoctl | wdt/w83627hf_wdt (3.11) with ignorehalt.c:257-312 | state and return code of every ioctl |
| Watchdog.Driver.WdtOpen | wdt/w83627hf_wdt (3.11) with ignorehalt.c:314-324 | a second open is busy, the first one pings |
| Watchdog.Driver.WdtClose | wdt/w83627hf_wdt (3.11) with ignorehalt.c:326-337 | disarms exactly with the close flag, and clears it |
| Watchdog.Driver.WdtNotifySys | wdt/w83627hf_wdt (3.11) with ignorehalt.c:343-350 | disarms on down and halt unless ignorehalt |
| Watchdog.SetTimeTouchesOnly | wdt/w83627hf_wdt (3.11) with ignorehalt.c:86-195 | programming a count writes only the registers selected for the version and the chip |
| Watchdog.InitTouchesOnly | wdt/w83627hf_wdt (3.11) with ignorehalt.c:126-162 | initialisation writes only those and its two configuration registers |
| Watchdog.PinIsRouted | wdt/w83627hf_wdt (3.11) with ignorehalt.c:86-119 | each access activates device 8 and routes the output pin as the chip version asks |
| Watchdog.CountIsSet | wdt/w83627hf_wdt (3.11) with ignorehalt.c:164-195 | the count is in CRF6; the modified driver clears the status bit or sets the control bits of CRF7 |
| Watchdog.InitRestarts | wdt/w83627hf_wdt (3.11) with ignorehalt.c:131-139 | initialisation restarts a running countdown with the timeout and leaves a stopped one alone |
| Watchdog.CallProgramsExactly | wdt/w83627hf_wdt (3.11) with ignorehalt.c:235-350 | each call programs 0 if it stops the countdown and then the timeout if it restarts it, and nothing else; a valid WDIOC_SETTIMEOUT alone changes the timeout |
| Watchdog.CounterAfterCall | wdt/w83627hf_wdt (3.11) with ignorehalt.c:235-350 | what every call leaves in CRF6: a non-empty write without a fault, a keepalive, an open, an enabling option or a new timeout leaves the timeout |
| Watchdog.FlagsAfterCall | wdt/w83627hf_wdt (3.11) with ignorehalt.c:235-337 | the open flag, and the close flag as a readable 'V' of a write without nowayout sets it |
| Watchdog.ReturnOfCall | wdt/w83627hf_wdt (3.11) with ignorehalt.c:235-350 | the return code of every call |
| Watchdog.TimeoutRunsOutExactlyWhen | wdt/w83627hf_wdt (3.11) with ignorehalt.c:235-350 | after a call that restarts the countdown, with no other such call, the counter is at 0 exactly when the timeout has passed |
| Watchdog.RunCalls | wdt/w83627hf_wdt (3.11) with ignorehalt.c:209-215 | the timeout stays in 1..255 over every call trace |
| Watchdog.ProgramsZeroExactlyWhen | wdt/w83627hf_wdt (3.11) with ignorehalt.c:235-350 | which calls program 0, and that everything else programmed is the timeout |
| Watchdog.StopsExactlyWhen | wdt/w83627hf_wdt (3.11) with ignorehalt.c:235-350 | with nowayout and ignorehalt a trace programs 0 exactly when it holds a disabling WDIOC_SETOPTIONS |
| Watchdog.ArmedFromFirstOpen | wdt/w83627hf_wdt (3.11) with ignorehalt.c:314-350 | without one, the last count programmed after the first open is never zero |
| Watchdog.CloseDisarmsExactlyWhen | wdt/w83627hf_wdt (3.11) with ignorehalt.c:235-337 | without nowayout, a close disarms exactly when the last non-empty write since the last close had a 'V' among its readable bytes |
| Watchdog.VersionsAgree | wdt/w83627hf_wdt (3.11).c:144-311 | without ignorehalt both versions return the same codes and keep the same timeout, flags, counts and registers (CRF7 and the W83627HG pin apart) over every trace |
| Watchdog.InitAgrees | wdt/w83627hf_wdt (3.11).c:113-142 | and they start out alike |
| BrokerRpc.RepliesMatchById | python/avp_broker.py:84-149 | over every interleaving and any number of callers: a call returns once, a reply is returned once, under the id of its call |
| BrokerRpc.OwnReplyWithoutOverlap | python/avp_broker.py:701-708 | any number of callers: if no thread bumps the id counter while another is between its bump and its read, ids strictly increase and every reply answers the very call it is returned to |
| BrokerRpc.IdsDifferExactlyWhen | python/avp_broker.py:701-708 | in a run that ends with no caller between its bump and its read, the ids are all different exactly when no two callers overlapped |
| BrokerRpc.MixUpExactlyWhen | python/avp_broker.py:130-149 | in any reachable state, some further answers and polls hand over a foreign reply exactly when a call being polled for shares its id with another request that was sent |
| BrokerRpc.OverlapMixesUp | python/avp_broker.py:701-708 | once two callers overlap, their next steps reach such a state |
| BrokerRpc.OwnReplyOnly | python/avp_broker.py:169-188 | with one caller there is no overlap, so ids strictly increase and every reply returned answers that very call |
| BrokerRpc.ReachedWithoutOverlap | python/avp_broker.py:701-708 | every run without overlap reaches a state in which the ids are ahead, as the next two rows suppose |
| BrokerRpc.LateReplyNeverSurfaces | python/avp_broker.py:130-149 | without overlap, a reply that comes after its call is over is never returned, and never leaves the table |
| BrokerRpc.AnswerInTimeIsReturned | python/avp_broker.py:130-149 | once a call is answered, the next poll of its thread before the deadline returns an answer to it, whatever other threads do meanwhile without overlapping |
| BrokerRpc.TwoCallersCanMixUp | python/avp_broker.py:701-708 | two callers that bump the shared counter before either reads it: one gets the other's reply |
| BrokerSlot.OwnMessagesExactlyWhen | python/avp_broker.py:109-116 | in a run that ends with no message stored and unsent, every call has sent its own message exactly when none was stored over another one not sent yet |
| BrokerSlot.SecondStoreWins | python/avp_broker.py:109-116 | two callers that store before either sends: the second message is sent twice, the first not at all |
| BrokerSlot.MessageIsLost | python/avp_broker.py:109-116 | a run in which that happens to callers with different ids |
| BrokerRpc.CallEndsExactlyWhen | python/avp_broker.py:130-149 | over every interleaving a call is over exactly when some poll of its thread came at or after the deadline, on a closed socket or with its reply in the table, and it returns a reply exactly when the first such poll came before the deadline and found one |
| BrokerRpc.PickedUpExactlyWhen | python/avp_broker.py:130-149 | one poll: a reply in the table is taken before the deadline only, and any other end is a time-out |
| BrokerRpc.IdIsRead | python/avp_broker.py:701-708 | a call takes as its id what the shared counter shows after its own bump by one |
| BrokerRpc.LoadMeans | python/avp_broker.py:105-112 | without a connection a call is over at once, with nothing stored or sent |
| Subscriptions.NormalForms | python/avp_util.py:236-272 | normalising is idempotent; false comes only from a false or a word for it, so a numeric zero becomes none |
| Subscriptions.TrueExactlyWhen | python/avp_util.py:236-272 | what becomes true: true itself, a word for it in any case, a number other than zero, also as text |
| Subscriptions.Handler.Receive | python/avp_broker.py:180-187 | the reader thread only appends to the queue, which disturbs no item |
| Subscriptions.Handler.HandleNext | python/avp_broker.py:262-315 | taking the oldest notification keeps the items equal to the replay of what has been taken |
| Subscriptions.Handler.Process | python/avp_broker.py:263-315 | one notification, key by key, including its early end |
| Subscriptions.Handler.Drain | python/avp_broker.py:258-315 | a drained queue leaves the items as replaying the whole log in order does |
| Subscriptions.LastNotificationWins | python/avp_broker.py:265-281 | an item holds the value (normalised if boolean) of the last entry naming it, at the entry's own time, else the time of its notification, else its arrival |
| Subscriptions.LastUnitsWin | python/avp_broker.py:269-281 | an item has the time zone of the last notification that names it and carries one |
| Subscriptions.UnnamedKept | python/avp_broker.py:265-281 | an item that no notification names is unchanged |
| Subscriptions.CleanIsComplete | python/avp_broker.py:264-311 | a notification without error entries is processed to its end |
| Subscriptions.StampHolds | python/avp_broker.py:264-311 | the message time item holds the time of the last complete notification, also after others that ended early without naming it |
| Subscriptions.StampMeans | python/avp_broker.py:304-311 | a complete notification stamps the message time item and no other, and leaves its long sample time alone |
| Subscriptions.FaultDropsTheRest | python/avp_broker.py:290-315 | an error entry ends its notification exactly when no error is pending |
| Subscriptions.ErrorIsPendingExactlyWhen | python/avp_broker.py:266-300 | after a complete notification an error is pending exactly when its last subscribed entry has no value |
| Subscriptions.Client.Subscribe | python/avp_broker.py:876-914 | each parameter and its data name become keys of one item, what was subscribed stays, exactly new items are asked for, and the message time is not |
| Subscriptions.AliasFollows | python/avp_broker.py:892-905 | an alias reads what the last notification says under the data name |
| SqlText.Db.GenString | python/avp_db.py:356-431 | the text of every statement kind, and both dictionaries as they are rewritten in place |
| SqlText.StatementIs | python/avp_db.py:367-430 | the text of each kind of statement: verb, table, lists, conditions if there are any, RETURNING; DELETE without a condition is empty |
| SqlText.ConditionIs | python/avp_db.py:403-408 | a key and its mangled form make one condition: the bare column, the operator and the mangled placeholder |
| SqlText.JoinedIs | python/avp_db.py:370-408 | list items stand in order, the first after a blank and the others after the separator |
| SqlText.Db.MangleInPlace | python/avp_db.py:410-420 | the copy and delete loops mangle the dictionary |
| SqlText.Db.SelectRows | python/avp_db.py:270-305 | what is executed, bound to exactly its placeholders |
| SqlText.Db.DeleteRows | python/avp_db.py:226-266 | refused but for the debug log; an empty condition executes an empty command |
| SqlText.Db.InsertRow | python/avp_db.py:188-225 | what is executed, always with a location if the table has one |
| SqlText.LocationIsLast | python/avp_db.py:195-196 | a location that is given moves to the end of the row |
| SqlText.LocationIsHost | python/avp_db.py:195-196 | without one, the name of this host is put there |
| SqlText.Db.UpdateRows | python/avp_db.py:306-355 | what is executed at first and in the retry after a clash |
| SqlText.TimeIsBumped | python/avp_db.py:334-337 | the retry is 100 microseconds later in the same place, unless that leaves the second, where the source raises |
| SqlText.PlaceholdersOf | python/avp_db.py:368-430 | the placeholders read back from the text are the set columns in order and one mangled key for each condition |
| SqlText.WhereBound | python/avp_db.py:283-290 | the placeholders of SELECT and DELETE are exactly the keys of the mangled WHERE dictionary |
| SqlText.SetBound | python/avp_db.py:319-326 | the placeholders of INSERT and UPDATE are exactly the keys of the merged dictionary |
| SqlText.MangledGet | python/avp_db.py:410-420 | mangling leaves mangled keys only, with the caller's values |
| SqlText.ConditionBoundExactlyWhen | python/avp_db.py:403-423 | a condition is bound to the caller's value, also when its column is set too, except exactly for a bare and a mangled key with different values |
| SqlText.SetBoundExactlyWhen | python/avp_db.py:410-423 | a set column keeps its value except exactly as the mangled key of a condition on another value |
| SqlText.MangledAgain | python/avp_db.py:410-420 | mangling a WHERE dictionary again any number of times changes nothing |
| SqlText.ReuseKeepsConditions | python/avp_sched.py:38-66 | a dictionary that is used again makes the same conditions as at first |
| SqlText.MangledKeys | python/avp_db.py:410-420 | mangling leaves the mangled key of each condition and no other |
| SqlText.RetrySetsTheSameExactlyWhen | python/avp_db.py:330-342 | the retry of an update sets the same columns exactly when there is no condition, else also one named after the mangled key of each, whether the conditions were mangled before or not |
| Power.CurrentMonitor.AccumCurrent | python/avp_power.py:85-107 | one sample, including the daily reset and the refused one |
| Power.NewDayStartsAnew | python/avp_power.py:85-107 | the first sample of another day starts the meter anew, with itself alone in the window |
| Power.AcceptedMeans | python/avp_power.py:90-101 | an accepted sample charges the value held so far for the seconds passed, and may raise the maximum |
| Power.WindowMeans | python/avp_power.py:102-106 | the window takes the sample and gives up its oldest one just if that is over a minute older |
| Power.MaximumIsGreatest | python/avp_power.py:100-101 | over a run the maximum is the greatest sample, or the initial -99 |
| Power.SumAdds | python/avp_power.py:107 | the sums behind the averages add up |
| Power.SlidHoldsTheLastMinute | python/avp_power.py:102-125 | for samples in order, the window of either monitor is a suffix of them that contains all of the last minute |
| Power.SlidIsTheLastMinute | python/avp_power.py:102-125 | and exactly those if the samples never slow down, evenly spaced ones in particular |
| Power.WindowHoldsTheLastMinute | python/avp_power.py:102-107 | so it is for the current over a steady run, where no sample is refused |
| Power.WindowIsTheLastMinute | python/avp_power.py:102-107 | and exactly the last minute if the samples never slow down |
| Power.ExactAfterExactlyWhen | python/avp_power.py:104-106 | after one more sample the front is recent exactly when the second oldest was recent enough, since one sample at most is dropped |
| Power.AmpHoursAreCounted | python/avp_power.py:90-98 | amp hours are the initial value and the sum of each value over the whole seconds it was held |
| Power.AmpHoursError | python/avp_power.py:90-98 | they differ from the exact step integral by at most the greatest current over 3600 for each sample |
| Power.SlackIs | python/avp_power.py:90-98 | that bound is the greatest current over 3600 times the number of samples |
| Power.GapStopsTheMeter | python/avp_power.py:90-94 | after a gap of more than ten minutes no later sample of the day is accepted |
| Power.RefusedExactlyWhen | python/avp_power.py:85-94 | a sample is refused exactly for such a gap on the same day |
| Power.StepBackIsCharged | python/avp_power.py:91-98 | a sample that goes back in time, by whatever fraction, is charged as what is left of a day |
| Power.ChargedAsPassedExactlyWhen | python/avp_power.py:91-98 | the seconds charged for an accepted sample are the whole seconds passed exactly when it does not go back |
| Power.SumIsBounded | python/avp_power.py:107 | the average lies between the bounds of the window |
| Power.VoltageMonitor.AccumVoltage | python/avp_power.py:119-127 | after each sample the window is what all samples so far leave, with its average and its minimum |

## Left out

- Sockets, JSON text, select, psycopg2, threads' sleeping, logging, email, callbacks of subscriptions and terminal input: only the queues, maps and traces that they feed are modelled.
- Time zones, daylight saving, and years past 9999, where Python's datetime raises.
- The text of schedule fields (`is_wild`): a field is a wildcard or a list of integers; text that is no number raises in the source.
- The order in which Python 2 iterates its dictionaries: `Scheduler` takes any order, `SqlText` the insertion order.
- `python/avp_winch.py` outside `monitor_move` (`move_to_depth`, `at_depth`, `_check_wl`, `meters_to_clicks`): expressions over current readings.
- `Cast.initial_calibration`, which moves the winch whatever a soft abort says, and the moves inside a calibration.
- WinchMonitor.MonitorMove: takes one clock reading for each section of a pass, where the source reads the clock several times.
- Scheduler.MergeDuplicates: takes one insert time for the whole merge, where the source reads the clock for each pair.
- SchedRuns.CastCompletesExactlyWhen: a cast that is started is an atomic step; what it does is in `CastAbort`.
- CastAbort.Cast.Start: wait_for_sched, start_sampling and stop_sampling are only their exceptions, since they neither abort nor move the winch.
- BrokerRpc.OwnReplyWithoutOverlap: assumes that the server echoes ids, as the JSON-RPC 2.0 Specification, section 5, demands; it may answer late, repeatedly or never.
- Subscriptions.LastNotificationWins: is about notifications without error entries; `FaultDropsTheRest` says what those do.
- Subscriptions.Client.Subscribe: an alias and its data name are one item unless an alias hides another item's data name.
- SqlText.Db.InsertRow: the clock bump after an integrity error, which is not followed by another execution.
- SqlText.Db.UpdateRows: one dictionary object passed both as set values and as condition.
- SqlText.PlaceholdersOf: names with '%' or ')' in them, which the placeholder syntax cannot carry.
- SchedAgrees.MergeIsRun: `SchedThreads` merges any two fresh non-ISCO records, a superset of the pairs of equal minute, and carries no LISST flag; that flag is in `Scheduler`.
- LcdText.TextConversion: does not promise that a centred text fills its field, because it does not; `FillsExactlyWhen` says when.
- LcdText.LineText: takes the two alignments by value; a list that the caller passes is extended in place when there is an icon, so that using it again would shift it.
- BrokerSlot.OwnMessagesExactlyWhen: the parameters of a message, which are added to whatever is in the slot after it is stored.
- SqlText.ReuseKeepsConditions: a dictionary that mixes bare and mangled keys keeps its placeholders but may change their order.
- Rounding of floating-point numbers in `Power`, where quantities are real numbers.
- The effects of the watchdog chip beyond its registers, and request_region and registration failures at module load.
- `python/avp_console.py`, `python/Local_Interface.py`, `python/avp_LCD.py`, `python/pertd2.py`, `www`, `python/supervisor.py`, `python/notification.py`, `python/gislib.py` and the image conversion of `python/pylcdsysinfo.py`: user interface, polling, trigonometry and per-pixel arithmetic.
