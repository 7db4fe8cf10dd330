# zackup, verified

A Dafny model of the decision-making core of zackup, a daemon that backs hosts up to ZFS with rsync, and proofs
about it. Verify everything with `dafny verify dfyconfig.toml`.

What is modelled, and what is proved about it:

- **What gets backed up** (`Paths`, `FilterRules`, `FilterTheorems`, `RsyncConfig`, `FilterWalk`). The configured
  includes are compiled into a flat list of `--include`/`--exclude` rules, which rsync reads with first-match semantics while
  walking down from the root and never entering a dropped directory. The model has that walk as `Survives`. The main
  results say exactly which paths survive (`Selection`, `UserExcludes`) and exactly which rearrangements of the rules
  select the same paths (`Commute`); the source hopes that its order and BackupPC's commute, and they do
  (`LevelByLevelAgrees`). `TokensSelect` says the same of the walk over the emitted strings.
- **What rsync gets to see** (`Blacklist`, `ArgumentGrammar`, `OptionReading`, `ArgumentVector`). Forbidden arguments and
  their values are removed. `WhatRsyncReads` says what an option reader makes of the resulting command line, whichever
  options take a value, and `WhatValuesAreRead` which values they take: the ssh command is always that of `-e`.
  `OnlyOurRules`, `OnlyOurShell`, `OnlyOurDeletes` and `OnlyOurFiles` say exactly when the compiled rules, the given
  shell, the enforced deletions, and source and target are the only ones it reads.
- **The worker pool** (`Pool`, `Queue`). `Pool` is a transition system over enqueuers, the bounded channel, running
  jobs, and workers that are spawned, registered, told to quit or gone; every interleaving is a run. `Queue` is the
  object with its backing array, quit channels, job channel and counters; each method refines one transition.
- **The schedule** (`Schedule`, `Scheduler`, `PollRuns`, `HostRuns`, `Overlap`). Daily slots with jitter, in nanoseconds
  and UTC; the poll loop over all hosts, with workers at work in between; and the runs of polls, backups and restarts
  that one host sees: which slots its jobs serve (`NoBurst`, `NoSlotMissed`), when it is backed up at all
  (`SentExactly`, `BackedUpAgain`), and when its backups come one at a time (`OneAtATimeExactly`).
- **Status and its persisted copy** (`Metrics`, `Decimal`, `Persistence`, `Restart`, `HostState`). The status derived
  from three timestamps over whole runs of events, its copy in ZFS properties as decimal seconds and milliseconds,
  the tab-separated listing, and what a restart at any point brings back.
- **One backup** (`Runner`). The pipeline of steps with its deferred tunnel close and recorded result, for every
  pattern of failures.
- **Configuration layers** (`Merge`, `Slices`, `Config`). The override-aware merge as a value, and as an in-place update
  of job objects whose script lines are slices on shared backing arrays.

Where the code does less than its documentation or its callers might expect, the model follows the code:

- `Resize(0)` keeps no worker, although the documentation promises one (app/queue.go:24-25, 89). A job may then be left
  behind for good: `StrandsExactly` says from which states, `ResizeStrandsExactly` says after which calls (those with 0
  while no spawn was pending, and after no others), and `ResizeToZeroStrands` shows a run.
- A `Resize` that comes while spawned workers have not registered yet overshoots by exactly their number
  (`SizeAfterResize`); `ResizeTwiceOvershoots` asks for 3 twice and gets 5.
- Whole seconds do not always keep the status across a restart; `CoarseStatus` gives the exact condition, and
  `SameSecondLosesRunning` a run that comes back as failed. After a restart a host is backed up again by itself, as soon
  as a poll comes at or after its new schedule, exactly unless whole seconds showed it as running when the daemon was
  stopped (`BackedUpAgain`); so a backup under way at a crash usually keeps its host from being backed up
  (`CrashedHostIsNeverSent`).
- The poll loop looks at the status alone, so a host whose job still waits in the queue when it is due again is enqueued
  again, and two workers may then back it up at once (`SentTwiceStartedTwice`). `OneAtATimeExactly` gives the exact
  condition for that not to happen. The results that ask for an orderly run of events ask for that
  (`OneAtATimeIsOrderly`).
- An override in a middle layer can get lost, depending on the order in which three layers are merged; `Associative`
  gives the exact condition, `LostOverride` an example.
- Merging the global scripts into several hosts can write into spare capacity that the hosts share. `MergeIntoAll` says
  what every job holds in the end, and that all are merged as they should be exactly if, for each list of lines, those
  of the hosts that fit the spare room are beginnings of one another; with one spare place the first of two hosts
  loses its line (`HostLosesItsLine`).
- The blacklist goes by spelling. `-F`, `-C`, `--exclude-from=/x` and `-ae` are on no list, and neither are `--log-file`,
  which takes the enforced `--delete` for its value if it comes last, and `--`, after which no enforced flag is an
  option (`Unlisted`, `GapsShow`). An argument that is no option is a further source (`FurtherSource`).

Clocks, random draws, the outcome of external commands, the order of map iteration and the extra capacity that
`append` allocates are parameters.

Read `FilterTheorems`, `Pool`, `Restart`, `HostRuns`, `ArgumentVector` and `Config` first; the other files lead up to
them. Rows below that begin with "step" state what a single step does, on the way to the results beside them.

## Model

| member | source | states |
|---|---|---|
| `Paths.SplitJoin` | config/rsync.go:88 | splitting a cleaned path gives back exactly its components, so the branch for an empty element is never taken |
| `Paths.JoinSplit` | config/rsync.go:88 | joining the parts of any string with slashes gives the string back |
| `Paths.CleanFixesCanonical` | config/rsync.go:77 | cleaning leaves canonical paths alone, with or without leading slash, so it is idempotent and reaches every canonical path |
| `Paths.CleanIgnores` | config/rsync.go:77 | an empty component or a `.` can be left out of an include anywhere |
| `Paths.CleanCancels` | config/rsync.go:77 | a name followed by `..` can be left out anywhere |
| `Paths.CleanStartsAtRoot` | config/rsync.go:77 | a leading `..` can be left out: there is nothing above the root |
| `Paths.CleanIsUnique` | config/rsync.go:77 | only cleaning obeys these three laws and leaves canonical paths alone |
| `Paths.RenderInjective` | config/rsync.go:101-105 | distinct paths are spelled differently, so the string-keyed "done" maps identify paths |
| `FilterRules.InIncludes` | config/rsync.go:76-107 | the includes emitted are exactly the given ones and all their ancestors below the root |
| `FilterRules.InExcludes` | config/rsync.go:95-99 | the directories closed are exactly the proper ancestors of the includes |
| `FilterRules.NoRepeats` | config/rsync.go:78-105 | no rule is emitted twice, except `--include=/`, which comes as often as it was asked for |
| `FilterRules.Decision` | config/rsync.go:56-70 | in every arrangement with each include before its parent's exclude: includes and ancestors are kept, all else in a closed directory is dropped, and only the rest is left to the user's excludes |
| `FilterTheorems.Selection` | config/rsync.go:53-121 | without user excludes a path survives iff there is no include below the root, or it leads to an include, or it lies under an include that no other include narrows |
| `FilterTheorems.OnlyTheSetMatters` | config/rsync.go:76-107 | the selection depends only on the set of cleaned includes other than the root |
| `FilterTheorems.Commute` | config/rsync.go:69-70 | a rearrangement of the generated rules selects the same paths, under any user excludes, iff every include comes before the exclude that closes its parent |
| `FilterTheorems.BaseIncludesPrecede` | config/rsync.go:109-114 | step: the emitted list meets that condition |
| `FilterTheorems.LevelByLevelAgrees` | config/rsync.go:56-67 | BackupPC's level-by-level list selects the same paths as the emitted list |
| `FilterTheorems.UserExcludes` | config/rsync.go:115-118 | a path survives iff the includes select it and no level of it outside the includes and their ancestors is matched by a user exclude |
| `FilterTheorems.ExcludesOnlyShrink` | config/rsync.go:115-118 | adding user excludes never selects more and never hides an include or the way to it |
| `FilterWalk.TokensSelect` | config/rsync.go:53-121 | walked over as strings, with first-match patterns, the emitted tokens select exactly the includes, their ancestors and what lies below an include that none narrows, less what user excludes match outside the includes |
| `FilterWalk.SpellingIsFaithful` | config/rsync.go:95-105 | for wildcard-free includes the emitted patterns match, as anchored rsync patterns, exactly the nodes that the rules match |
| `RsyncConfig.RsyncConfig.Filter` | config/rsync.go:53-121 | the loops with their string-keyed maps emit the spelling of the compiled rules: includes, generated excludes, user excludes |
| `RsyncConfig.RsyncConfig.AddLevels` | config/rsync.go:87-106 | one include extends both lists by its levels that are not yet there |
| `RsyncConfig.RsyncConfig.Args` | config/rsync_blacklist.go:78-97 | the loop that skips swallowed tokens keeps exactly the allowed tokens |
| `RsyncConfig.RsyncConfig.BuildArgVector` | config/rsync.go:23-44 | the vector is filter, shell, sanitized arguments, enforced flags and both paths with a trailing slash |
| `Blacklist.PrefixMatch` | config/rsync_blacklist.go:57-64 | the match patterns in use, a literal followed by a star, are prefix tests |
| `Blacklist.Table` | config/rsync_blacklist.go:14-31 | what the table forbids, token by token, and that exactly the bare value-taking flags swallow the next token |
| `Blacklist.TableSpelledOut` | config/rsync_blacklist.go:14-31 | the same in literals: the tokens removed, and the nine that take the next token with them |
| `Blacklist.EntryMeaning` | config/rsync_blacklist.go:43-74 | any entry that matches a token swallows the same number of tokens |
| `Blacklist.TableOrder` | config/rsync_blacklist.go:85-91 | the order of the table makes no difference |
| `ArgumentGrammar.Subsequence` | config/rsync_blacklist.go:78-97 | the result is a subsequence in order, at exactly the places whose token is neither forbidden nor an operand |
| `ArgumentGrammar.RefinesGrammar` | config/rsync_blacklist.go:78-97 | the result is that of the recursive token grammar, for any order of the table |
| `ArgumentGrammar.SplitsOverConcat` | config/rsync_blacklist.go:78-97 | sanitizing splits over concatenation up to one operand that is still owed |
| `ArgumentGrammar.Idempotent` | config/rsync_blacklist.go:76-97 | sanitizing twice is sanitizing once |
| `OptionReading.OwingExactly` | config/rsync.go:31-43 | a command line without `--` leaves a value owed iff an odd number of bare value-taking options ends it |
| `ArgumentVector.WhatRsyncReads` | config/rsync.go:31-43 | for all arguments, and whichever options take the next token as their value: rsync reads the rules, the shell option, the sanitized options and the enforced flags, less the first of these if a value is still owed, and less all of them after a `--` |
| `ArgumentVector.FixedParts` | config/rsync.go:23-44 | where the parts of the vector stand, with the enforced flags in literals; a path that ends in a slash is left alone, any other gets one |
| `ArgumentVector.WhatValuesAreRead` | config/rsync.go:32 | for all arguments, the values rsync reads for its options: the ssh command for `-e`, those among the sanitized arguments, and `--delete` for a last option that still wants one |
| `ArgumentVector.ShellIsOurs` | config/rsync.go:32 | for all arguments, the ssh command is the value of `-e`, and no other value is read for a spelling of that option |
| `ArgumentVector.OnlyOurRules` | config/rsync.go:31-43 | the compiled rules, in order, are all the filter rules read iff no sanitized option adds one, whatever counts as adding one |
| `ArgumentVector.OnlyOurShell` | config/rsync.go:32 | `-e` is the only choice of a shell read iff no sanitized option chooses one |
| `ArgumentVector.OnlyOurDeletes` | config/rsync.go:35-40 | the enforced deletions are the ones read iff no sanitized option is one, no value is owed, and no `--` is read |
| `ArgumentVector.WhatRsyncCopies` | config/rsync.go:42 | the files read are those among the sanitized arguments, after a `--` the enforced flags, and then source and target |
| `ArgumentVector.OnlyOurFiles` | config/rsync.go:42 | source and target are the only files read iff the sanitized arguments hold no file and no `--` |
| `ArgumentVector.FurtherSource` | config/rsync_blacklist.go:78-97 | a plain argument becomes a further source |
| `ArgumentVector.WhatRsyncSees` | config/rsync_blacklist.go:14-31 | none of the spellings on the blacklist gets through: in these spellings, rules, shell and, unless a value is owed or `--` is read, deletions are ours alone |
| `ArgumentVector.Unlisted` | config/rsync_blacklist.go:8-13 | six tokens that are on no list |
| `ArgumentVector.GapsShow` | config/rsync_blacklist.go:8-13 | what four of them do: a further rule, a second shell, a swallowed `--delete`, and no enforced flag read |
| `Pool.InvKept` | app/queue.go:58-117 | every step in every interleaving keeps the accounting of jobs and workers |
| `Pool.Conservation` | app/queue.go:79-86 | at every moment of every run each ticket is in exactly one place, the job group counts the unfinished ones, and the bounded channel is first-in first-out |
| `Pool.WorkersAccounted` | app/queue.go:88-117 | the worker group counts registered, retiring and pending workers; registered ones are distinct and open, so no quit channel is closed twice |
| `Pool.WaitMeansDone` | app/queue.go:84-86 | once the job group was seen at zero, every job enqueued before Wait was called has been performed exactly once, and stays so |
| `Pool.StuckExactly` | app/queue.go:64-82 | with unfinished jobs the pool cannot move iff all workers are gone and no waiting job fits the channel |
| `Pool.ResizeKeepsLive` | app/queue.go:88-117 | step: after a Resize a worker remains or is on its way iff the argument was not 0 or a spawn was pending |
| `Pool.NeverStuck` | app/queue.go:58-117 | deadlock freedom of all runs without a Resize to 0 |
| `Pool.ResizeToZeroStrands` | app/queue.go:89-93 | a run in which Resize(0) leaves a job that can never be performed |
| `Pool.StrandsExactly` | app/queue.go:58-117 | left to itself, the pool may come to rest with unfinished jobs iff no worker is in the slice or on its way and some job has not been started |
| `Pool.ResizeStrandsExactly` | app/queue.go:88-117 | until the next Resize that is so iff the last one asked for 0 with no spawn pending and a job is waiting, hence after any Enqueue iff it did |
| `Pool.RunsDry` | app/queue.go:58-117 | once enqueues and resizes stop, the number of remaining steps is bounded, and at rest all jobs are done, all retired workers have exited and no spawn is pending |
| `Pool.SizeAfterResize` | app/queue.go:98-116 | until the next Resize the pool has the clamped size (1 for a negative one, at most 255) plus the spawns that were pending, hence the clamped size iff none was |
| `Pool.ResizeTwiceOvershoots` | app/queue.go:113-115 | two calls asking for 3 end in 5 workers |
| `Pool.ParallelBound` | app/queue.go:98-116 | until the next Resize no more jobs run at once than the clamped size, the spawns pending then, and the retired workers that have not exited |
| `Queue.Queue.constructor` | app/queue.go:46-56 | a new queue is the initial state: one worker, no job, and an array of 255 slots |
| `Queue.Queue.Register` | app/queue.go:58-62 | a late spawn appends its open quit channel, into a larger array if the slice is full, and is one transition |
| `Queue.Queue.Enqueue` | app/queue.go:79-80 | counting a call is one transition |
| `Queue.Queue.Send` | app/queue.go:81 | the job goes to the end of the channel and is one transition |
| `Queue.Queue.Receive` | app/queue.go:68 | the oldest job of the channel starts and is one transition |
| `Queue.Queue.Finish` | app/queue.go:69-70 | finishing a job is one transition |
| `Queue.Queue.Exit` | app/queue.go:71-75 | only a worker whose quit channel is closed leaves, and that is one transition |
| `Queue.Queue.CloseOldest` | app/queue.go:102-104 | the oldest quit channels are closed, each open before, and no others |
| `Queue.Queue.CopyDown` | app/queue.go:105 | the slice is shifted down in place, in order |
| `Queue.Queue.Resize` | app/queue.go:88-117 | shrinking keeps the youngest workers in order with nil behind them and closes exactly the others; growing only spawns; both are the abstract transition |
| `Schedule.NextIsEarliest` | config/service.go:81-91 | Next is strictly later, at most a day later, and no slot lies in between; it is slot k iff the time lies from slot k-1 to before slot k |
| `Schedule.NextShowsSlot` | config/service.go:81-91 | the clock at every next slot shows the configured hour, minute and second |
| `Schedule.OffsetIsStepped` | config/service.go:111-114 | the jitter is the centred draw cut toward zero to whole 100 ms steps |
| `Schedule.NextScheduleWindow` | config/service.go:101-117 | for every reference time and jitter the next schedule is strictly later, less than a day plus jitter later, belongs to exactly one slot and lies within half the jitter of it |
| `Schedule.NoSlotSkipped` | config/service.go:104-108 | slot k is chosen iff the reference lies from the opening of the window of slot k-1 to before that of slot k |
| `Scheduler.Scheduler.Run` | app/scheduler.go:73-110 | the poll loop updates hosts and queue host by host until a stop is noticed, while workers note starts and results in between; if no stop is, every host was running when it was looked at or is scheduled strictly after that or the rescheduling, and the due ones were enqueued once |
| `Scheduler.Scheduler.PollOne` | app/scheduler.go:87-108 | one host: schedule it if it has none, then enqueue and reschedule it if it is due and not running |
| `HostState.EventsPassReschedule` | app/state.go:80-122 | an event and a rescheduling change places, so those that fall between an enqueueing and its rescheduling may as well come after |
| `Scheduler.SeenAtPoll` | app/scheduler.go:77-97 | a host is looked at as its own events have left it by then, whatever the order and the other hosts |
| `Scheduler.PollIsPerHost` | app/scheduler.go:77-109 | each host is handled exactly once per poll, by what is seen of it alone |
| `Scheduler.PolledIsPlanned` | app/scheduler.go:98-108 | after its poll a host was running or is scheduled strictly after the moment it was last examined or rescheduled |
| `Scheduler.WhatPollDoes` | app/scheduler.go:87-108 | a host is due iff it is not running and has a schedule that has come; which of the three schedules it is left with, and that nothing else of it changes |
| `Scheduler.QueueGrows` | app/scheduler.go:103-105 | the queue grows by the due host of each poll, at its end |
| `PollRuns.PlanMatchesMetrics` | app/scheduler.go:87-108 | step: plan and metrics take the same decision in one poll |
| `PollRuns.RunIsSpaced` | app/scheduler.go:98-108 | over every run of polls and restarts each job is sent after its own slot's window opened, the next one's slot is chosen after that and before that slot's window opens, and slots increase strictly |
| `PollRuns.NoBurst` | app/scheduler.go:98-108 | over every run of polls and restarts no slot is served twice, and n jobs of one host span more than n - 2 days |
| `PollRuns.NextSlotServed` | app/scheduler.go:98-108 | a job's successor serves the very next slot iff its schedule was drawn, at the rescheduling or a later restart, before that slot's window opened |
| `PollRuns.RebootKeepsSlot` | app/state.go:124-145 | a restart keeps the planned slot iff it comes before that slot's window opens |
| `PollRuns.NoSlotMissed` | app/scheduler.go:98-108 | if a host is found idle so often that a gap and the jitter fit into a day, its jobs serve one slot after the other, and every slot from the planned one whose window was over when the host was last found idle has its job |
| `HostRuns.MetricsFollowPlan` | app/scheduler.go:73-110 | with backups starting and ending and restarts between the polls, a host's metrics keep following its run of plans, and the jobs sent are the same |
| `HostRuns.JobsSpaced` | app/scheduler.go:73-110 | for a host's metrics over any run of polls, starts, results and restarts: n jobs span more than n - 2 days |
| `HostRuns.EverySlotServed` | app/scheduler.go:73-110 | for a host's metrics over such a run, found idle often enough: every slot whose window was over has its job, sent after that window opened |
| `HostRuns.SentExactly` | app/scheduler.go:87-108 | a host left to the polls is sent iff it does not show as running and some poll comes at or after its schedule |
| `HostRuns.BackedUpAgain` | app/state.go:124-145 | after any events and a restart, a host left to the polls is sent iff whole seconds did not show it as running when the daemon was stopped and some poll comes at or after its new schedule |
| `HostRuns.RunningIsNeverSent` | app/scheduler.go:98 | step: a host that shows as running is never enqueued until something starts or ends |
| `HostRuns.CrashedHostIsNeverSent` | app/scheduler.go:98 | step: the case of a backup that was under way |
| `Overlap.OneAtATimeExactly` | app/scheduler.go:98 | the jobs and backups of a host come one at a time iff no poll finds the host due while a job of it still waits |
| `Overlap.BothStart` | app/queue.go:58-71 | two waiting jobs of a host can be under way at once |
| `Overlap.SentTwiceStartedTwice` | app/scheduler.go:98-108 | a run in which that happens |
| `Overlap.OneAtATimeIsOrderly` | app/scheduler.go:98 | between two restarts, backups that come one at a time make an orderly run of events |
| `Metrics.StatusMeaning` | app/metric_status.go:33-49 | each status characterised on its own, independently of the order of the tests; unknown iff started with two equal results not before the start |
| `Metrics.StartShows` | app/state.go:80-92 | step: a start shows as running iff it is later than all results |
| `Metrics.ResultShows` | app/state.go:94-114 | step: a result shows as itself iff the host was started, not later, and the opposite result is earlier |
| `Metrics.ResultRecords` | app/state.go:94-114 | step: a result records its time and the elapsed whole milliseconds and leaves the opposite record alone |
| `Metrics.EventTouches` | app/state.go:80-114 | step: a start makes its host known, a result of an unknown host changes nothing, and nothing but the fields of the event is touched |
| `Metrics.LongestDuration` | app/state.go:99 | step: a duration beyond 64 bits is cut to the longest one, in whole milliseconds |
| `Metrics.StatusNamesLastEvent` | app/metric_status.go:33-49 | after every orderly run the status of each host names its last event, and hosts without events are untouched |
| `Decimal.ParseFormat` | app/zprops.go:97-137 | parsing what was printed gives the number back iff it fits 64 bits |
| `Decimal.ParseByPlaces` | app/zprops.go:57-87 | what unsigned text parses to, character by character from the left |
| `Decimal.ParseSigned` | app/zprops.go:97-137 | what a sign does, and the range of signed numbers |
| `Decimal.FormatIsShort` | app/state.go:257 | numbers are printed without needless zeros or signs |
| `Persistence.LastLineWins` | app/state.go:174-211 | after loading any lines each field holds the last valid line for it |
| `Persistence.LinesCommute` | app/state.go:174-211 | only the order of valid lines for the same property matters |
| `Restart.DurationRoundTrip` | app/state.go:283-287 | durations survive truncation, printing, parsing and scaling exactly |
| `Restart.StartMirrored` | app/state.go:254-275 | storing a start keeps store and memory in agreement |
| `Restart.ResultMirrored` | app/state.go:277-302 | storing a result keeps store and memory in agreement |
| `Restart.MemoryAndStoreAgree` | app/state.go:80-114 | if every set succeeds, a host that agrees with its properties still does after any events of any hosts: a fresh process would read the metrics in memory at the store's precision |
| `Restart.LineColumns` | app/state.go:175-178 | a printed line splits into dataset, property and value |
| `Restart.LineSets` | app/zprops.go:97-137 | which field the line of a time or duration sets, under which name and in which unit |
| `Restart.SizeLineSets` | app/zprops.go:57-87 | the same for the four sizes |
| `Restart.LineIgnored` | app/state.go:175-197 | lines of other datasets, without a value, or for other properties set nothing |
| `Restart.StoredAs` | app/state.go:254-287 | under which names start and results are stored, and as which numbers; other properties stay |
| `Restart.LoadListing` | app/state.go:148-221 | loading a listing, in any order of its properties, gives the stored values |
| `Restart.CoarseStatus` | app/metric_status.go:33-49 | whole seconds keep the status iff they tell the deciding moment from what it has to be told from |
| `Restart.CoarseRunning` | app/metric_status.go:33-49 | cut to whole seconds a host shows as running iff they show its start and tell it from all results |
| `Restart.SameSecondLosesRunning` | app/state.go:254-275 | an orderly run that shows as running in memory and as failed at the precision of the store |
| `Restart.Reload` | app/state.go:124-145 | a fresh process reads back times cut to seconds, exact durations, and the same status iff whole seconds resolve it |
| `Restart.LoadedMirrors` | app/state.go:148-221 | a freshly loaded host agrees with its properties, whatever they are |
| `Restart.RestartAnywhere` | app/state.go:80-145 | a restart after any events of any hosts reloads each host as Reload says and leaves it in agreement with its properties, ready for the next restart |
| `HostState.HostMetrics.Decode` | app/zprops.go:56-138 | a decoder stores a valid value in its own field, scaled, and ignores an invalid one |
| `HostState.State.Start` | app/state.go:80-92 | the in-place update and its store are the start event |
| `HostState.State.Success` | app/state.go:94-103 | the in-place update and its store are the success event |
| `HostState.State.Failure` | app/state.go:105-114 | the in-place update and its store are the failure event |
| `HostState.State.Reschedule` | app/state.go:116-122 | a known host gets the next schedule, nothing else changes |
| `HostState.State.LoadHost` | app/state.go:148-221 | the line loop loads the lines of one dataset into one host |
| `HostState.State.Load` | app/state.go:124-145 | all configured hosts are set up and loaded |
| `HostState.LoadKnownHost` | app/state.go:199-206 | loading lines changes only the host they are for |
| `HostState.LoadAllHosts` | app/state.go:124-145 | loading into an empty state yields exactly the configured hosts, each with its own schedule and data |
| `HostState.RestartAll` | app/state.go:124-221 | after any events, a restart loads from what is listed under the root dataset, a slash and its name each configured host, with a new schedule, its times cut to seconds, its durations, and its status iff whole seconds resolve it, in agreement with its properties |
| `Runner.Runner.PerformBackup` | app/runner.go:30-83 | the trace, the metrics and the properties after one backup, for every pattern of failures of steps and of `zfs set`, and whatever other workers note between start and result |
| `Runner.RecordedOnce` | app/runner.go:37-58 | a failed dataset creation records nothing; otherwise one start and, at the very end, one result; the tunnel is closed immediately before it iff it was established |
| `Runner.WhatIsAttempted` | app/runner.go:30-83 | each step is attempted iff the job has it and all that come before it succeed: dataset, tunnel, pre-scripts, rsync, post-scripts, snapshot |
| `Runner.AttemptedInOrder` | app/runner.go:30-83 | the attempts stand in that order, once each, with their outcomes |
| `Runner.InPlanOrder` | app/runner.go:53-82 | a step is attempted only after all earlier steps of the plan were attempted and succeeded |
| `Runner.SuccessMeansSnapshot` | app/runner.go:42-50 | success is recorded iff the snapshot was attempted and succeeded |
| `Runner.BackupStatus` | app/runner.go:42-51 | step: after a backup that starts after all earlier results and is alone for its host the status names its outcome, with its own times, and the other hosts are as the other workers leave them |
| `Runner.BackupStores` | app/runner.go:37-51 | what a backup leaves in the properties of its host: start and result, each unless its own `zfs set` failed |
| `Runner.BackupKeepsAgreement` | app/runner.go:37-58 | a backup keeps a host in agreement with its properties if every `zfs set` for that host succeeds |
| `Merge.EmptyIsIdentity` | config/tree.go:92-101 | the empty job is neutral on both sides, so copying by merging gives an equal job |
| `Merge.OwnSettingsWin` | config/job.go:26-71 | own settings win, own rsync entries come first and alone when overriding, global script lines come first |
| `Merge.GlobalsFillGaps` | config/job.go:26-61 | field by field: a section only one side has is taken as it is; global user, port and timeout stand in for missing ones; a list not overridden is the own entries and then the global ones |
| `Merge.MergedIsUnique` | config/job.go:26-71 | nothing but the merged job has its own settings win, the globals fill its gaps, and the global script lines come first |
| `Merge.Associative` | config/job.go:26-71 | three layers merge the same in either order iff no override of the middle layer is lost |
| `Merge.LostOverride` | config/job.go:46-61 | three layers in which the middle one's override is lost |
| `Slices.Append` | config/job.go:65-70 | append writes in place when there is room and leaves the shared array alone otherwise |
| `Slices.OwnLinesKept` | config/job.go:65-70 | appended to one shared slice, every list ends up behind the shared lines iff those that fit the spare capacity are beginnings of one another |
| `Slices.SpareRoomMixes` | config/job.go:65 | with one spare place the last line appended replaces the first |
| `Config.JobConfig.MergeGlobals` | config/job.go:26-71 | the in-place merge is the merged value; new sections are fresh copies that share the timeout; each list of lines is appended to the global slice, in its array if it fits there |
| `Config.MergeIntoAll` | config/tree.go:139-142 | after the loop, in any order: each job's sections are merged, each list of lines is the global one and what was last written over its place, and all jobs are merged as they should be iff for each list those that fit the spare capacity are beginnings of one another |
| `Config.MergedExactly` | config/tree.go:139-142 | that equivalence, for the values the loop leaves |
| `Config.NoRoomNoMixing` | config/tree.go:139-142 | step: without spare capacity the condition holds |
| `Config.HostLosesItsLine` | config/job.go:65 | two hosts and one spare place: the first job ends up with the other's line |
| `Config.Host` | config/tree.go:92-101 | an equal copy that shares no section with the original but its slices and timeout, or nothing for an unknown host; nothing in the tree changes |

## Left out

- Wildcards in user include paths: includes are taken literally; user excludes are opaque predicates on paths.
- `match.Match` beyond `*` and `?`: the blacklist table has no backslash.
- Running `zfs`, `ssh` and `rsync`, pipes and signals: success or failure of each is a parameter.
- YAML decoding, globbing and reading script files, HTTP server, metrics export, logging, command line.
- Civil calendar and time zones: days are 24 hours, in UTC.
- The compression ratio, a floating-point number: its property is ignored like one without a decoder.
- A scanner error while reading the listing, and timestamps in properties so large that Go's time would overflow.
- `filepath.Join` for datasets: root and host names are taken as already clean.
- Which rsync options take a value, add filter rules, choose a shell or delete: a parameter of the results about the command line.
- Data races on unlocked fields: the poll of one host is a step, and so is what a worker notes.
- The nil check on hosts in the poll loop, and jobs without an ssh or rsync section or without a job at all, on which the source would panic.
- Sequences the runtime promises only in practice, such as the order in which blocked senders get into the channel: any of them may be next.
- FilterWalk.TokensSelect: takes every user exclude as a pattern; by rsync's manual (FILTER RULES) one that is `!` clears the rules before it and one that begins with `+ ` is an include.
- FilterTheorems.ExcludesOnlyShrink: likewise, user excludes are not `!` and do not begin with `+ `.
- FilterTheorems.UserExcludes: likewise.
- Config.JobConfig.MergeGlobals: the lists of an rsync section are values; the merge appends to the host's own lists there, in arrays that no other job holds, so no other job can see the write.
- Config.Host: for the same reason the copy shares the arrays of its script lines with the original, but not those of its rsync lists.
- Queue.Queue.Exit: asks for the worker accounting of its abstract state, which Pool.InvKept gives in every run; the object's own validity does not repeat it.
