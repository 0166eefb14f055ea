# WarpDeck: a verified model

WarpDeck supervises many WARP processes. The desired state lives in SQLite, one reconciler drives an
instance manager towards it, a crash watcher per instance and one health monitor write the actual state
concurrently, and two in-process gateways (SOCKS5 and HTTP) carry the traffic. This project models that
logic in Dafny and proves what the parts promise to each other.

`dafny verify dfyconfig.toml` checks everything.

## How it is built

- **Lifecycle** (`Health`, `HealthRounds`, `Runtime`, `Manager`, `ManagerRuns`). One lock section, statement or await of the
  program is one atomic step. `Runtime` holds the steps of the tasks that nobody serialises: watchers,
  the monitor, processes that die. The operations of the manager are methods of a class, written in
  the order of the program, with a pause wherever other tasks may run; a pause runs an arbitrary
  schedule, so each contract holds for every interleaving. The `runs` lock is what makes one operation
  at a time.
- **Desired state** (`Reconciler`, `Rounds`, `SpentInstances`, `Retries`, `RestartCommands`, `Backoff`,
  `Store`). A reconcile round is a class with the loops of the program and the answers of runtime and
  repository as input; in `Rounds` the runtime is the instance manager itself. Restart commands are a
  step protocol between handlers and reconciler. The database is three tables; each transaction or
  autocommitted statement is one step, and `accounts::update` is two, because it validates outside its
  transaction.
- **Log streams** (`LogTail`, `TailPage`, `TailChunks`). The live follower and the history pages, each
  against a specification on the whole file.
- **Gateways and arithmetic** (`Cidr`, `SessionLimits`, `LoginLimiter`, `SocksWire`, `SocksSession`,
  `ProxyAuth`, `Flow`).

## What the proofs found

The code was followed where it and its comments disagree.

- A stop that fails has consumed the watcher handle (manager.rs:489-491). The comment promises that it
  can be retried; `Manager.InstanceManager.Drive` proves that every later command on that instance fails.
  Once the entry says Stopping the reconciler does not call for the instance while its row is listed; when
  the row is deleted it calls a stop that fails in every round, and the entry never leaves
  (`SpentInstances.LeftAloneForever`).
- The run guard of the crash watcher (manager.rs:751-764) never drops an event
  (`Runtime.SeenCrashIsCurrent`): a live watcher always belongs to the current run.
- A start writes its entry three times without looking at it: `on_started` (manager.rs:339), Healthy
  (353) and, after a read that may be outdated by then, Degraded (375-385). `WriteHidesCrash` says
  exactly when such a write hides a crash, `HiddenCrashExample` shows all three, `HiddenCrashRun` leads
  there from the beginning of the manager, and `NextRoundReportsFailed` says how an entry without pid
  heals; `on_started` puts the pid of the dead process back, so only failing probes show that crash.
- A health verdict collected in one run can be applied to the next (`StaleVerdictRun`). That happens
  exactly if a stop, restart or delete of the instance got past its stop between the snapshot and the
  write, and the entry is Healthy or Degraded again by then (`Drive`, `VerdictOfSameRun`).
- Rowids of deleted instances are reused. A restart under way acknowledges by rowid and can consume the
  command of the row that took the place of its own (`StaleAcknowledgementLosesCommand`); otherwise no
  command is lost (`NoCommandLost`). A new instance can also inherit the running process of the old one
  (`ReusedRowidKeepsProcess`).
- `restart_pending` is a flag, and a restart under way clears it for a rebind that came in between
  (`RebindLost`); `ServedExactly` is the exact condition.
- `accounts::update` counts bindings before its transaction. `StepExact` proves this the only way to
  break the consistency of the database, `RaceBindsTwice` gives the run.
- The rewrite check of the log follower compares one byte. The comment calls a difference certain;
  `RewriteExactly` says what an unnoticed rewrite makes the follower publish and when that is right, and
  `RewriteCanBeMissed` shows one where it is not.
- The guard against endless lines loses a line that is longer than 1 MiB even when it fires before the
  line has ended (`GuardExactly`, `LongLineLost`).
- A history page that needs a further 32 KiB chunk shows the line over the boundary merged with the next
  one, unless nothing stood there (`MergeExactly`, `CollectedExactly`, `MergedLineExample`).
- A history page so far back that the sum of line counts overflows 64 bits panics where overflow is
  checked (`OverflowsExactly`).
- The proxy token joins user and password with a colon, and a user with a colon is accepted:
  `TokenIsOwnExactly` and `TokenIsUniqueExactly` say when other credentials pass.
- An IPv6 network with prefix 0 is not checked for host bits, and panics where overflow is checked.
- The HTTP dialer leaves two bytes of an IPv6 reply in the tunnel, the SOCKS dialer every reply that is
  not ten bytes long (`TunnelExactly`). A domain over 255 bytes, which lossy decoding can produce from a
  shorter one, is written with a truncated length (`RoundTripExactly`).
- A token bucket whose readings go back credits a second twice (`StaleReadingCreditsTwice`): the clock
  is read before the lock is taken. `ClimbBound` and `RefusedExactlyOnClimb` are the exact account.

## Model

| member | source | states |
|---|---|---|
| Health.Assess | crates/warpdeck-server/src/runtime/health.rs:88-143 | a dead process is always Failed, and Healthy is only ever concluded from a round in which all three layers succeeded |
| Health.Hysteresis | crates/warpdeck-server/src/runtime/health.rs:88-143 | over every report history: the counters are the trailing run lengths (saturating); the state is Failed exactly when a prefix ended with a dead process or a full failure run, and otherwise Healthy exactly when nothing failed yet or the trailing successes reach the recovery threshold |
| Health.HasFailedStep | crates/warpdeck-server/src/runtime/health_monitor.rs:58-71 | failure is absorbing: a history has failed exactly when its proper prefix had, or its last round fails |
| Health.DegradedStartIsOneFailedProbe | crates/warpdeck-server/src/runtime/manager.rs:375-385 | the entry a start leaves behind when the data plane stayed unverified is the one the monitor would reach after a single failed round |
| HealthRounds.RoundsFollow | crates/warpdeck-server/src/runtime/health_monitor.rs:58-71 | over any number of rounds on the real entry, the state and the counters are what the reports and the entry before say: Failed exactly if some round was one failure too many, else Healthy exactly if it always was or the good rounds at the end reach the recovery threshold |
| HealthRounds.FreshRounds | crates/warpdeck-server/src/runtime/health_monitor.rs:58-71 | from a fresh Healthy entry that is told by the trailing runs of the reports alone |
| HealthRounds.UnverifiedRounds | crates/warpdeck-server/src/runtime/manager.rs:375-385 | from the entry of an unverified start, by the same with one failed round before them |
| HealthRounds.ScheduleFollows | crates/warpdeck-server/src/runtime/manager.rs:580-710 | under any schedule, with dying processes and rounds on other instances in between, until a crash of the instance is recorded its entry is what the verdicts written to it make of it |
| HealthRounds.StartThenRounds | crates/warpdeck-server/src/runtime/manager.rs:318-710 | a start on the manager and then rounds: the entry follows from the verification and the reports |
| Runtime.StepEnv | crates/warpdeck-server/src/runtime/manager.rs:580-710 | one atomic step of a crash watcher, the health monitor or the operating system keeps the whole invariant and moves the world no further than the interference relation |
| Runtime.StepsEnv | crates/warpdeck-server/src/runtime/manager.rs:580-789 | no schedule of such steps, of any length and order, escapes the invariant or the interference relation: Failed stays Failed, a pid is erased only by a recorded crash, and an entry is written only while it is probed or by its own watcher |
| Runtime.EnvLeTransitive | crates/warpdeck-server/src/runtime/manager.rs:580-789 | interference composes, so one relation bounds everything between two steps of a lifecycle operation |
| Runtime.MovesTransitive | crates/warpdeck-server/src/runtime/manager.rs:580-789 | so does what other tasks may do to tasks, entries and processes |
| Runtime.LogLeTransitive | crates/warpdeck-server/src/runtime/manager.rs:580-710 | and so does what they may add to the record of reports |
| Runtime.EnvLeKeepsInv | crates/warpdeck-server/src/runtime/manager.rs:580-789 | any world within the interference relation, with justified events, reported Healthy entries and a health round that is right about its run, is consistent |
| Runtime.ApplyEnv | crates/warpdeck-server/src/runtime/manager.rs:629-710 | a health verdict is dropped unless the entry is Healthy or Degraded at the write itself, a Healthy verdict is backed by `warp=on`, and a verdict is written to the run it was reached on exactly if no stop of the instance has succeeded since its snapshot |
| Runtime.StepLog | crates/warpdeck-server/src/runtime/manager.rs:629-710 | one step makes an entry Healthy only together with a `warp=on` report of the monitor for it |
| Runtime.EveryWriteIsJustified | crates/warpdeck-server/src/runtime/manager.rs:580-789 | after any schedule every entry that became Healthy was reported with `warp=on` by the monitor in between, every Healthy entry was reported at some time, and every crash written belonged to the current and newest run |
| Runtime.AllReportedTransitive | crates/warpdeck-server/src/runtime/manager.rs:580-710 | that whoever became Healthy was reported in between holds over runs if it holds over their parts |
| Runtime.RecordEnv | crates/warpdeck-server/src/runtime/manager.rs:751-789 | a crash that is recorded belongs to the current and newest run of its instance and leaves the entry Failed without a pid |
| Runtime.SeenCrashIsCurrent | crates/warpdeck-server/src/runtime/manager.rs:751-764 | a live watcher always carries the current generation and is the only live one of its instance, so the stale-event branch is never taken |
| Runtime.AtMostOneWatcher | crates/warpdeck-server/src/runtime/manager.rs:215-227 | after any schedule two live watchers of one instance are the same task, with the current generation |
| Runtime.CrashIsKept | crates/warpdeck-server/src/runtime/manager.rs:629-789 | over every schedule a Failed entry stays Failed, and a watcher that ends with a crash leaves its entry Failed |
| Runtime.WriteHidesCrash | crates/warpdeck-server/src/runtime/manager.rs:336-385 | for any unguarded write of a start that is not Failed: a crash recorded later shows over every schedule; one recorded before leaves no trace, over every schedule if the monitor does not probe the entry written, else until the monitor looks |
| Runtime.HealthyWriteHidesCrash | crates/warpdeck-server/src/runtime/manager.rs:353 | the Healthy write: a crash of that run shows as Failed exactly when it is recorded after the write; the only-if half for schedules without the monitor |
| Runtime.DegradedWriteHidesCrash | crates/warpdeck-server/src/runtime/manager.rs:375-385 | the same of the Degraded write, although the entry was read before it |
| Runtime.StartedWriteHidesCrash | crates/warpdeck-server/src/runtime/manager.rs:339 | the same of `on_started`, over every schedule |
| Runtime.HiddenCrashExample | crates/warpdeck-server/src/runtime/manager.rs:336-385 | from a consistent state of a start whose watcher runs: the process dies, the crash is recorded, and each of the three writes turns the entry Healthy, Degraded or Starting |
| Runtime.VerdictOfSameRun | crates/warpdeck-server/src/runtime/manager.rs:580-660 | in whatever state a schedule leads to, a verdict that finds its entry Healthy or Degraded finds the run it was reached on exactly if no stop of the instance has succeeded since the snapshot; other tasks alone move no run, no counter and no generation |
| Runtime.FoundIsJudged | crates/warpdeck-server/src/runtime/manager.rs:580-660 | the same of every state between two steps: the newest run is the judged one exactly if the count of successful stops is the one at the snapshot |
| Runtime.RunOfHolder | crates/warpdeck-server/src/runtime/manager.rs:215-227 | the run in the runs table, or in the hands of the operation in progress, is the newest of its instance |
| Runtime.DownStays | crates/warpdeck-server/src/runtime/manager.rs:629-789 | no schedule moves the entry of an instance that neither a watcher nor the monitor looks at, whatever operation on another one is in progress |
| Runtime.NextRoundReportsFailed | crates/warpdeck-server/src/runtime/health_monitor.rs:46-71 | a falsely Healthy or Degraded entry without pid is reported Failed by the next whole health round; one whose pid `on_started` put back is not covered |
| Runtime.WatchersLeaveOthers | crates/warpdeck-server/src/runtime/manager.rs:728-789 | without the monitor, no schedule changes the entry of an instance that nobody watches |
| Runtime.JoinEnds | crates/warpdeck-server/src/runtime/crash.rs:64-94 | a cancelled watcher ends within three of its own steps, whatever the others did before |
| Runtime.JoinAlone | crates/warpdeck-server/src/runtime/crash.rs:64-94 | a watcher that had seen no exit ends without writing anything |
| Runtime.StaleIsIgnored | crates/warpdeck-server/src/runtime/manager.rs:751-764 | the watcher of a run that is not the current one ends without writing anything |
| Runtime.RoundDropped | crates/warpdeck-server/src/runtime/health_monitor.rs:58-71 | a round whose entry has left the monitor's sight is dropped before it is judged, or at the write at the latest |
| Runtime.BusOutlivesService | crates/warpdeck-server/src/runtime/manager.rs:268-290 | under every schedule, in starts, failed starts and stops, no warp-svc runs without the dbus-daemon of its attempt |
| Runtime.EntryWrites | crates/warpdeck-server/src/runtime/registry.rs:155-222 | what each write of the registry does to state, pid and counters, which saturate at 32 bits |
| Runtime.BeginInv | crates/warpdeck-server/src/runtime/manager.rs:222-227 | a start may register its generation because no watcher of an earlier run can still be alive, even when the counter starts at 1 again |
| Runtime.HandoverInv | crates/warpdeck-server/src/runtime/manager.rs:793-805 | putting a finished start into the runs table keeps the invariant |
| Runtime.TakeInv | crates/warpdeck-server/src/runtime/manager.rs:807-838 | taking an entry out of the runs table keeps the invariant as long as the operation holds its handles; of an entry without watcher handle nothing runs any more |
| Runtime.ReleaseInv | crates/warpdeck-server/src/runtime/manager.rs:470-531 | an operation may forget its handles once the watcher has ended and both processes are gone; if they were those of a run, that is one more successful stop, and a verdict on that run is out of date |
| Runtime.PutBackInv | crates/warpdeck-server/src/runtime/manager.rs:820-835 | an entry whose stop failed goes back without its watcher handle and the invariant holds |
| Runtime.ForgetRunInv | crates/warpdeck-server/src/runtime/manager.rs:820-838 | the generation counter may be dropped after a stop: nobody is left who compares with it |
| Runtime.PidOkStays | crates/warpdeck-server/src/runtime/manager.rs:336-353 | during the startup tail the entry carries the pid of this attempt unless the crash of this very attempt erased it |
| Runtime.NoOrphans | crates/warpdeck-server/src/runtime/manager.rs:215-531 | after any schedule at rest every child process belongs to a stoppable runs entry, except a dbus-daemon leaked by a start |
| Runtime.NothingLeft | crates/warpdeck-server/src/runtime/manager.rs:556-570 | with an empty runs table the only processes left are leaked dbus-daemons |
| Manager.InstanceManager.PollExit | crates/warpdeck-server/src/runtime/crash.rs:64-94 | one turn of the watcher loop: cancellation wins over a detected exit |
| Manager.InstanceManager.CompareGeneration | crates/warpdeck-server/src/runtime/manager.rs:745-764 | the run guard of the watcher task, as one step |
| Manager.InstanceManager.RecordCrash | crates/warpdeck-server/src/runtime/manager.rs:765-786 | the crash write, logged with the generation that was current and whether the run was the newest |
| Manager.InstanceManager.CollectLayers | crates/warpdeck-server/src/runtime/manager.rs:580-625 | the snapshot read that begins a health round |
| Manager.InstanceManager.JudgeLayers | crates/warpdeck-server/src/runtime/health_monitor.rs:58-71 | the judgement from the counters of the snapshot, not of the entry as it is now |
| Manager.InstanceManager.ApplyVerdict | crates/warpdeck-server/src/runtime/manager.rs:629-677 | the guarded write of the verdict |
| Manager.InstanceManager.Others | crates/warpdeck-server/src/runtime/manager.rs:580-789 | any schedule of the tasks above run on the real state is exactly the specified sequence of steps |
| Manager.InstanceManager.VerifyDataPlane | crates/warpdeck-server/src/runtime/manager.rs:432-467 | succeeds exactly when one of twelve probes reports `warp=on` |
| Manager.InstanceManager.StartupTail | crates/warpdeck-server/src/runtime/manager.rs:336-400 | ends Healthy, Degraded or Failed with the pid of its own attempt; Healthy, under any schedule, only if its own verification succeeded or the monitor reported it meanwhile; if nothing else runs, Healthy exactly when the verification succeeded, otherwise Degraded with one failure |
| Manager.InstanceManager.Conclude | crates/warpdeck-server/src/runtime/manager.rs:340-400 | the verdict of the verification is written: a crash recorded before the Healthy write, or between the read and the write of Degraded, is overwritten; one recorded before that read survives a failed verification |
| Manager.InstanceManager.SpawnWatcher | crates/warpdeck-server/src/runtime/manager.rs:318-339 | the watcher runs before the pid is recorded, and `on_started` writes Starting whatever the watcher has recorded, a crash of this run included |
| Manager.InstanceManager.Supervise | crates/warpdeck-server/src/runtime/manager.rs:318-400 | the rest of a start whose flow succeeded: Healthy only with a report made during this start; if nothing runs after the pid is recorded, the entry is the fresh one even if the crash of this run was recorded before |
| Manager.InstanceManager.SpawnDaemons | crates/warpdeck-server/src/runtime/manager.rs:268-290 | dbus-daemon first; on failure nothing of the attempt is left running, except a dbus-daemon whose socket was not found |
| Manager.InstanceManager.LeakDbus | crates/warpdeck-server/src/runtime/dbus.rs:75-79 | the handle of a daemon whose socket was not found, in time or because looking for it failed, is dropped without killing it |
| Manager.InstanceManager.KillProcesses | crates/warpdeck-server/src/runtime/stop.rs:76-116 | a graceful stop leaves neither process of the attempt, whatever runs between the two kills; only the directory cleanup can fail |
| Manager.InstanceManager.AbortStart | crates/warpdeck-server/src/runtime/manager.rs:302-331 | an attempt that fails after its processes were spawned leaves neither of them and a Failed entry |
| Manager.InstanceManager.FailStart | crates/warpdeck-server/src/runtime/manager.rs:419-430 | a failed start leaves a Failed entry with one failure more and releases its handles |
| Manager.InstanceManager.DoStart | crates/warpdeck-server/src/runtime/manager.rs:215-413 | succeeds exactly when every stage does; on failure the entry is Failed, the runs table unchanged and no process of the attempt left but a leaked dbus-daemon; the generation is always counted up; Healthy only with a report made since it began; the whole world is known if nothing else runs |
| Manager.InstanceManager.Attempt | crates/warpdeck-server/src/runtime/manager.rs:228-413 | the stages after the registration, with the first failure as the answer |
| Manager.InstanceManager.DoStop | crates/warpdeck-server/src/runtime/manager.rs:470-531 | succeeds exactly when the watcher handle is still there and the cleanup works, and only then counts as a stop of the run; a failed stop leaves Stopping, or Failed if a crash was recorded meanwhile, and exactly Stopping with the old pid if nothing else runs; the two processes are gone in any case in which the watcher was joined |
| Manager.InstanceManager.StopWatched | crates/warpdeck-server/src/runtime/manager.rs:488-518 | the stop of a run whose watcher handle is there: success is the cleanup alone, and only success writes Stopped and clears the pid |
| Manager.InstanceManager.TakeAndStop | crates/warpdeck-server/src/runtime/manager.rs:807-838 | a failed stop never loses the runs entry, it only loses its watcher handle, and the registry does not take it for done |
| Manager.InstanceManager.Start | crates/warpdeck-server/src/runtime/manager.rs:793-805 | fails without any effect on a running instance; otherwise adds exactly one runs entry or none, and leaves every other instance to the environment alone |
| Manager.InstanceManager.Stop | crates/warpdeck-server/src/runtime/manager.rs:807-838 | idempotent on an instance that is not running; the runs entry and the counter go exactly when the stop succeeds; a failed one leaves Stopping or Failed; on an entry whose stop failed before, it only writes Stopping |
| Manager.InstanceManager.Restart | crates/warpdeck-server/src/runtime/manager.rs:840-868 | succeeds exactly when the stop and the start in it do; a failed stop leaves Stopping or Failed, a failed start after a successful stop no runs entry |
| Manager.InstanceManager.Delete | crates/warpdeck-server/src/runtime/manager.rs:874-905 | removes exactly this registry entry after a successful stop, and keeps the runs entry after a failed one |
| Manager.InstanceManager.StopAll | crates/warpdeck-server/src/runtime/manager.rs:556-570 | if no entry is spent and every cleanup works, nothing is left running but leaked dbus-daemons; every instance whose stop failed stays in the table |
| Manager.InstanceManager.Execute | crates/warpdeck-server/src/runtime/manager.rs:793-905 | the runs table afterwards is a function of the one before, the command and its answer; a command fails on an entry whose stop failed before; the run in the table is the same afterwards exactly for a start or a failed stop; nobody becomes Healthy without a report in between, and instances that are down are left exactly as they are |
| Manager.InstanceManager.Drive | crates/warpdeck-server/src/runtime/manager.rs:479-491 | over any sequence of commands under any schedule: every verdict was written to the run it was reached on exactly if no stop, restart or delete of the instance got past its stop since the snapshot, and how many did is a function of commands and answers; nobody becomes Healthy without a report in between; once a stop has failed, every later command on that instance fails |
| Manager.AsToldOneMore | crates/warpdeck-server/src/runtime/manager.rs:793-905 | who is in the runs table, and how many of its runs were ended, follows from the commands and their answers alone |
| Manager.CommandOnRuns | crates/warpdeck-server/src/runtime/manager.rs:793-905 | what the runs table as a function of command and answer means: tokens, spent entries and all other instances |
| Manager.GenerationsIncrease | crates/warpdeck-server/src/runtime/manager.rs:222-227 | over any sequence of commands, two starts of an instance without a successful stop in between get increasing generations |
| ManagerRuns.StaleVerdictRun | crates/warpdeck-server/src/runtime/manager.rs:629-660 | from the beginning of the manager: start, a health round that looks and judges, stop, start, then the write: the fresh run of a live process is shown as Degraded or Failed by the verdict on the run before it |
| ManagerRuns.HiddenCrashRun | crates/warpdeck-server/src/runtime/manager.rs:318-385 | from the beginning of the manager: a start during which the process dies and is recorded as crashed ends Healthy or Degraded, with its pid and with nobody watching |
| ManagerRuns.RetryFailsRun | crates/warpdeck-server/src/runtime/manager.rs:479-531 | from the beginning of the manager: after a stop that failed at its cleanup the entry says Stopping with the pid of the dead process, no retry can succeed, and none changes that |
| RestartCommands.InvStep | crates/warpdeck-server/src/db/repo.rs:336-356 | every interleaved step of handlers and reconciler keeps the history and reading invariants |
| RestartCommands.AcknowledgeExact | crates/warpdeck-server/src/reconciler/mod.rs:373-416 | an acknowledgement keeps the promise exactly when the row already carried those commands as the call began |
| RestartCommands.KeptStep | crates/warpdeck-server/src/reconciler/mod.rs:373-416 | no step loses a command unless it acknowledges a row other than the one listed |
| RestartCommands.NoCommandLost | crates/warpdeck-server/src/reconciler/mod.rs:319-416 | in every run whose acknowledgements find the row they listed, observed <= command and every observed command was recorded before a successful start or restart began |
| RestartCommands.CountersGrow | crates/warpdeck-server/src/db/repo.rs:336-356 | over the whole life of a row, in every run, both counters only grow and its commands are never rewritten |
| RestartCommands.StaleAcknowledgementLosesCommand | crates/warpdeck-server/migrations/0002_warp_instances.sql:9-11 | a complete run in which a row is deleted, its rowid is reused, and the restart command of the new row is acknowledged by the restart of the old one |
| RestartCommands.ClearPendingExact | crates/warpdeck-server/src/db/repo.rs:302-310 | in every state of the protocol, clearing the pending flag is right exactly when no rebind to another profile came after the listing |
| RestartCommands.ServedExactly | crates/warpdeck-server/src/reconciler/mod.rs:373-416 | a step keeps every unflagged row served by a process of its own profile exactly when a clear finds the listed profile, a finished call the listed row, and a new row no process under its rowid |
| RestartCommands.EveryRowServed | crates/warpdeck-server/src/reconciler/mod.rs:319-416 | so in every run of such steps every unflagged row is served by a process of its own profile |
| RestartCommands.UndisturbedCallServes | crates/warpdeck-server/src/reconciler/mod.rs:373-416 | in every run, a call that succeeds while handlers leave its row alone ends with every command of the row acknowledged, its flag down and a process of its profile running |
| RestartCommands.RebindLost | crates/warpdeck-server/src/db/repo.rs:302-375 | a complete run in which a rebind during a restart loses its flag to that restart |
| RestartCommands.ReusedRowidKeepsProcess | crates/warpdeck-server/migrations/0002_warp_instances.sql:9-11 | a complete run in which a row is deleted and a new instance gets its rowid and, unnoticed, its process |
| Backoff.ClosedForm | crates/warpdeck-server/src/reconciler/mod.rs:433-472 | whatever the failure times, the k-th consecutive failure stores the gap min(base * 2^(k-1), max) |
| Backoff.FirstGapExact | crates/warpdeck-server/src/reconciler/mod.rs:433-472 | the closed form holds for the first failure exactly when the base is within the cap |
| Backoff.MatchesDelayFor | crates/warpdeck-server/src/runtime/backoff.rs:33-43 | the reconciler and the startup policy with factor 2 agree exactly where the 32-bit power does not saturate below the cap |
| Backoff.StreakGap | crates/warpdeck-server/src/reconciler/mod.rs:419-431 | two consecutive attempts of a retry streak are at least the stored gap apart |
| Backoff.StreakSpread | crates/warpdeck-server/src/reconciler/mod.rs:419-472 | attempts of one failure streak are spread at least as far as the sum of the default gaps |
| Backoff.AttemptsBounded | crates/warpdeck-server/src/reconciler/mod.rs:419-472 | T seconds of a retry streak hold at most 7 + T/300 attempts with the defaults |
| Retries.RoundCalls | crates/warpdeck-server/src/reconciler/mod.rs:319-360 | one failing round calls for an instance that is down exactly if it is Stopped or its window has closed, and stores the next window |
| Retries.RoundsAreStreak | crates/warpdeck-server/src/reconciler/mod.rs:319-472 | over any number of failing rounds the calls for an instance that went down form a retry streak and the row holds its window |
| Retries.RetriesBounded | crates/warpdeck-server/src/reconciler/mod.rs:319-472 | so any stretch of such rounds that lasts T seconds holds at most 7 + T/300 calls with the defaults |
| Retries.StoredSinceSuccess | crates/warpdeck-server/src/reconciler/mod.rs:373-472 | over any rounds, whatever handlers change in between and whichever calls succeed, the stored window is that of the failures since the last success |
| Retries.GapSinceSuccess | crates/warpdeck-server/src/reconciler/mod.rs:433-472 | so the k-th failure since the last success stores the gap min(base * 2^(k-1), max), and after a success there is none |
| Reconciler.Reconciler.Call | crates/warpdeck-server/src/reconciler/mod.rs:373-416 | a successful call clears the backoff and the flag and acknowledges the listed command, a failed one only records the failure, each as far as the repository lets it |
| Reconciler.Reconciler.ReconcileInstance | crates/warpdeck-server/src/reconciler/mod.rs:299-371 | the decision table for one instance, with no effect on any other row, entry or call |
| Reconciler.Reconciler.StopOrphans | crates/warpdeck-server/src/reconciler/mod.rs:262-280 | entries without a row are stopped, and leave the registry only if the stop succeeded |
| Reconciler.Reconciler.ReconcileOnce | crates/warpdeck-server/src/reconciler/mod.rs:243-294 | every instance ends as its own row, entry and answers say, whatever happened to the others and whichever repository calls failed; without a listing nothing happens |
| Reconciler.TakeTurn | crates/warpdeck-server/src/reconciler/mod.rs:282-291 | one turn of the round changes exactly its own instance, so the order of the rows does not matter |
| Reconciler.TurnSettles | crates/warpdeck-server/src/reconciler/mod.rs:299-371 | if the runtime does what it is asked, one turn settles the instance and a wanted Stopped one runs |
| Reconciler.SuccessClears | crates/warpdeck-server/src/reconciler/mod.rs:373-416 | a start or restart that succeeds clears the backoff and the flag and acknowledges the listed command, each as far as the repository lets it |
| Reconciler.FailureRecorded | crates/warpdeck-server/src/reconciler/mod.rs:419-472 | one that fails, commanded or not, keeps flag and command waiting and stores the next window: the gap before, doubled and capped, or the base |
| Reconciler.TurnKeepsWishes | crates/warpdeck-server/src/reconciler/mod.rs:299-371 | no turn changes what handlers decide, and a stop changes nothing of the row |
| Reconciler.CallSettlesExactly | crates/warpdeck-server/src/reconciler/mod.rs:373-416 | a successful call settles its instance exactly when the repository writes that its row needs have worked |
| Reconciler.SettledActsExactly | crates/warpdeck-server/src/reconciler/mod.rs:319-360 | a settled instance is acted on again exactly when an automatic retry is due |
| Reconciler.Converges | crates/warpdeck-server/src/reconciler/mod.rs:243-371 | if all calls succeed, one round makes the registry ids equal the row ids and settles every instance |
| Reconciler.SecondRound | crates/warpdeck-server/src/reconciler/mod.rs:243-371 | a second round with no outside change calls exactly the instances whose automatic retry has come due, and changes nothing else |
| Reconciler.CommandOverridesPolicy | crates/warpdeck-server/src/reconciler/mod.rs:325-345 | an unacknowledged command restarts the instance against policy and backoff, and is acknowledged exactly when that call and its acknowledgement succeed |
| Rounds.ReconcileOnce | crates/warpdeck-server/src/reconciler/mod.rs:243-294 | a round with the manager as the runtime and any schedule throughout: every listed instance had its turn as decided and every orphan was stopped or kept, each with the promises below |
| Rounds.RoundIsDecided | crates/warpdeck-server/src/reconciler/mod.rs:243-371 | that round is the one of the decision table on the states it met and the answers it got: the same rows, calls and entries, in states that other tasks have moved on at most |
| Rounds.RoundSettles | crates/warpdeck-server/src/reconciler/mod.rs:299-371 | under every schedule and whatever becomes of the others, an instance whose calls work is settled after the round, is in the runs table only if its row wants it, and surely if it was met Stopped or a command waited |
| Rounds.RoundLeavesWanted | crates/warpdeck-server/src/reconciler/mod.rs:243-294 | after a round that works every child process is that of a wanted instance, but for leaked daemons |
| Rounds.RoundToRest | crates/warpdeck-server/src/reconciler/mod.rs:243-371 | such a round makes the entries those of the rows and settles all, and if all were settled before, its calls are exactly the retries that are due |
| Rounds.AllRounds | crates/warpdeck-server/src/reconciler/mod.rs:243-371 | over any number of rounds that work, under any schedule: after each everybody is settled, and from the second on the only calls are due retries |
| Rounds.TakeTurn | crates/warpdeck-server/src/reconciler/mod.rs:299-371 | one turn on the manager: the call decided on the state as met, the row settled or its failure recorded by the answer |
| Rounds.DropOrphan | crates/warpdeck-server/src/reconciler/mod.rs:262-280 | an entry without a row leaves the registry exactly if its stop succeeded, and then nothing of it runs |
| Rounds.AtRestStays | crates/warpdeck-server/src/reconciler/mod.rs:299-371 | a settled instance stays settled while others have their turns and other tasks run |
| Rounds.RoundStands | crates/warpdeck-server/src/reconciler/mod.rs:282-291 | whatever is done to some instances and by other tasks to all, what the round has promised to the rest still holds |
| SpentInstances.LeftAloneForever | crates/warpdeck-server/src/reconciler/mod.rs:243-371 | over any number of rounds with any rows listed, any calls for other instances and any schedule in and between them, an instance without watcher handle whose entry says Stopping stays exactly as it is; it is called for exactly in the rounds that list the rows without its own, and that stop fails every time |
| SpentInstances.StuckDecision | crates/warpdeck-server/src/reconciler/mod.rs:262-371 | as decided, whatever is answered: such an instance is called for exactly if its row is gone, and its entry goes exactly if that stop succeeds |
| SpentInstances.StuckInRound | crates/warpdeck-server/src/reconciler/mod.rs:262-371 | in a round made on the manager itself that stop always fails, so the entry stays |
| Store.ResolveNeverFails | crates/warpdeck-server/src/db/credentials.rs:35-126 | in every consistent database the credentials of every instance resolve; no profile means the free account, and a WARP+ license is used by that one instance |
| Store.ResolvedExactly | crates/warpdeck-server/src/db/credentials.rs:72-126 | to exactly what is stored for the profile: free without secrets, WARP+ with its license, Zero Trust with its org, client id and client secret in their places |
| Store.ResolvesExactly | crates/warpdeck-server/src/db/credentials.rs:35-126 | in any database resolution fails exactly for a missing profile, org or secret; global secrets serve the default profile alone, and only where it has none of its own |
| Store.CreatedResolves | crates/warpdeck-server/src/db/credentials.rs:72-126 | over every consistent run, an instance bound to a profile resolves to what the profile was created with, until an update of it is committed |
| Store.UpdatedResolves | crates/warpdeck-server/src/db/credentials.rs:72-126 | and after a committed update to what it left: every secret kept, cleared or set as asked |
| Store.ProfileStays | crates/warpdeck-server/src/db/uow.rs:165-252 | over any run a profile and its secrets only change by a committed update or the deletion of that profile |
| Store.CreatedExactly | crates/warpdeck-server/src/db/uow.rs:165-205 | a creation succeeds exactly with a mode other than free, its requirements and an unused name, and leaves the profile and the secrets asked for |
| Store.UpdatedExactly | crates/warpdeck-server/src/db/uow.rs:206-252 | a committed update fails exactly for the free mode or a name in use, and leaves the name, mode and org asked for and every secret kept, cleared or set |
| Store.DeletedExactly | crates/warpdeck-server/src/db/profiles.rs:239-265 | a deletion takes the secrets of its profile along and leaves all others |
| Store.RowStatements | crates/warpdeck-server/src/db/repo.rs:240-346 | start and stop write the wish of their own row, restart its command, delete takes the row out; no other row, profile or secret changes |
| Store.BindingStatements | crates/warpdeck-server/src/db/repo.rs:358-409 | a new instance is enabled, wanted and without a command; a rebind changes the binding and raises the flag; nothing else changes |
| Store.CreateProfileKeeps | crates/warpdeck-server/src/db/uow.rs:165-205 | creating a profile keeps consistency, and a second free profile is always refused |
| Store.DeleteRowKeeps | crates/warpdeck-server/src/db/profiles.rs:239-265 | deleting keeps consistency, and the statement that unbinds disabled instances never finds one |
| Store.CreateInstanceKeeps | crates/warpdeck-server/src/db/repo.rs:376-443 | the guarded insert keeps every WARP+ profile bound at most once |
| Store.RebindKeeps | crates/warpdeck-server/src/db/repo.rs:358-443 | the guarded rebind keeps every WARP+ profile bound at most once |
| Store.CommitExact | crates/warpdeck-server/src/db/uow.rs:206-252 | a committed profile update keeps consistency exactly when its validation would still pass at the commit |
| Store.AtomicUpdateKeeps | crates/warpdeck-server/src/api/accounts.rs:127-249 | validated and committed without a step in between, an update always keeps consistency |
| Store.StepExact | crates/warpdeck-server/src/api/accounts.rs:127-249 | of all transactions only the commit of a stale update can break consistency, and then it does |
| Store.RunsStayConsistent | crates/warpdeck-server/src/api/accounts.rs:59-268 | from the migrated database every interleaving whose update commits are timely stays consistent |
| Store.RaceBindsTwice | crates/warpdeck-server/src/api/accounts.rs:150-249 | the interleaving in which two instances bind to a profile between the binding count and the commit, leaving one WARP+ license with two instances |
| Store.Database.WriteCredentials | crates/warpdeck-server/src/db/uow.rs:182-249 | the credential loop: a missing field keeps, an empty one clears, any other sets |
| Store.Database.InsertProfile | crates/warpdeck-server/src/api/accounts.rs:59-125 | succeeds exactly when the specified transaction does and keeps consistency |
| Store.Database.UpdateProfile | crates/warpdeck-server/src/api/accounts.rs:127-249 | succeeds exactly when validation and transaction do, never touches a free or bound profile, and leaves everything unchanged on failure |
| Store.Database.RemoveProfile | crates/warpdeck-server/src/db/profiles.rs:239-265 | succeeds exactly for an unbound profile other than the default, and takes its secrets with it |
| Store.Database.InsertInstance | crates/warpdeck-server/src/db/repo.rs:376-443 | the two error cases exactly, and after success the new instance is the only one on its WARP+ profile |
| Store.Database.RebindInstance | crates/warpdeck-server/src/db/repo.rs:358-443 | refused exactly when another instance holds the WARP+ profile; rebinding to the own profile is allowed |
| Store.Database.WriteDesired | crates/warpdeck-server/src/db/repo.rs:240-255 | the statement behind start and stop |
| Store.Database.CountRestart | crates/warpdeck-server/src/db/repo.rs:336-346 | the statement behind restart, which answers with the new command, or 0 without a row |
| Store.Database.RemoveInstance | crates/warpdeck-server/src/db/repo.rs:257-263 | the statement behind delete |
| LogTail.TailWatcher.Poll | crates/warpdeck-server/src/runtime/log_tail.rs:136-206 | one poll of the follower is the specified step: truncation, rewrite check, one batch, the endless-line guard, publication |
| LogTail.TailWatcher.PublishLines | crates/warpdeck-server/src/runtime/log_tail.rs:189-206 | every complete line leaves the pending buffer, non-blank ones with the next number |
| LogTail.TailWatcher.CapPending | crates/warpdeck-server/src/runtime/log_tail.rs:180-187 | the guard drops everything up to the last newline, or everything |
| LogTail.SplitAppend | crates/warpdeck-server/src/runtime/log_tail.rs:166-206 | where a byte string is cut does not matter as long as the unfinished line is carried over |
| LogTail.PollAppends | crates/warpdeck-server/src/runtime/log_tail.rs:136-206 | a poll of a file that has only grown sees no rewrite and takes in exactly the next batch |
| LogTail.StreamingEqualsSplitting | crates/warpdeck-server/src/runtime/log_tail.rs:136-206 | for every append-only history whose unfinished lines leave room for the next batch, every start offset and poll boundaries, the published lines are exactly the complete non-blank lines of the bytes read, once each, in order, numbered from 1 |
| LogTail.BatchByBatch | crates/warpdeck-server/src/runtime/log_tail.rs:166-180 | if the lines fit, k polls of a file that stopped changing read min(length, position + k batches) and the follower is right after them |
| LogTail.Advances | crates/warpdeck-server/src/runtime/log_tail.rs:166-180 | the same advance on lines of any length, also where the guard loses some |
| LogTail.CatchesUp | crates/warpdeck-server/src/runtime/log_tail.rs:166-180 | on lines of any length, catching up takes exactly ceil((length - position) / 64 KiB) polls |
| LogTail.TruncationStartsOver | crates/warpdeck-server/src/runtime/log_tail.rs:137-146 | a file that shrinks below the position is followed again from byte 0 with numbers from 1 |
| LogTail.PollExactly | crates/warpdeck-server/src/runtime/log_tail.rs:136-206 | whatever became of the file, a poll that finds nothing amiss publishes exactly the lines of what it splits, and is right about the file exactly when these continue the lines it had published to those of the file |
| LogTail.GuardExactly | crates/warpdeck-server/src/runtime/log_tail.rs:180-187 | on a file that has only grown the follower stays right exactly when the endless-line guard does not fire or drops only complete blank lines |
| LogTail.StreamingExactly | crates/warpdeck-server/src/runtime/log_tail.rs:136-206 | for every append-only history the follower is right after every poll, lines of any length, exactly when no poll meets the guard in a harmful way |
| LogTail.LongLineLost | crates/warpdeck-server/src/runtime/log_tail.rs:180-187 | a line of 1 MiB and one byte is never published |
| LogTail.RewriteNoticedExactly | crates/warpdeck-server/src/runtime/log_tail.rs:147-165 | a rewrite is noticed exactly when the byte before the position differs |
| LogTail.RewriteExactly | crates/warpdeck-server/src/runtime/log_tail.rs:147-206 | an unnoticed one is read as if the old bytes were still there, and that is right exactly when the old bytes with the new ones give the same lines and unfinished line as the file |
| LogTail.RewriteHarmless | crates/warpdeck-server/src/runtime/log_tail.rs:147-206 | in particular if the rewritten part has the same lines and the same unfinished line |
| LogTail.RewriteCanBeMissed | crates/warpdeck-server/src/runtime/log_tail.rs:147-165 | a rewrite that keeps the byte before the position is not noticed and a line of the new file is never published |
| TailPage.ReadTail | crates/warpdeck-server/src/runtime/logs.rs:185-203 | only an unreadable file is an error; a file that shrinks while read is read once more and then counts as empty; a build with overflow checks panics exactly where the sum overflows |
| TailPage.ReadTailOnce | crates/warpdeck-server/src/runtime/logs.rs:205-261 | the page cut from what the chunk loop collected, with the limit clamped to 1..500 and 64-bit saturating offsets; the unchecked sum wraps or panics as the build does |
| TailPage.OverflowsExactly | crates/warpdeck-server/src/runtime/logs.rs:221-224 | the sum overflows, and a build with overflow checks panics, exactly when offset * limit + limit + 1 reaches 2^64 |
| TailPage.ClampedExactly | crates/warpdeck-server/src/runtime/logs.rs:205-224 | a limit of 0 asks for one line, one above 500 for 500, any other for itself |
| TailPage.CollectTail | crates/warpdeck-server/src/runtime/logs.rs:225-245 | the chunk loop is the specified backwards collection |
| TailPage.OneChunk | crates/warpdeck-server/src/runtime/logs.rs:205-261 | for files of at most 32 KiB every page, in a build that does not panic, is the page of the whole file, saturation and wrap-around included |
| TailPage.PagesAreTheTail | crates/warpdeck-server/src/runtime/logs.rs:247-261 | the pages k-1 to 0 together are the last lines of the file: nothing lost, nothing twice, all lines once k is large enough |
| TailPage.HasMoreExact | crates/warpdeck-server/src/runtime/logs.rs:253-261 | `has_more` holds exactly when the next older page has lines |
| TailPage.LastChunkExact | crates/warpdeck-server/src/runtime/logs.rs:225-261 | when the last chunk alone satisfies the reader, the page equals the whole-file page exactly under a condition on three line counts |
| TailPage.EnoughLinesInLastChunk | crates/warpdeck-server/src/runtime/logs.rs:225-261 | without blank lines a last chunk with skip + limit + 1 complete lines always gives the whole-file page |
| TailPage.DroppedHalfLineMerges | crates/warpdeck-server/src/runtime/logs.rs:236-241 | dropping a half line between two chunks replaces two lines by one that the file does not hold, and leaves all others alone |
| TailPage.EachChunkMerges | crates/warpdeck-server/src/runtime/logs.rs:225-245 | every further chunk, whatever was collected before: its unfinished last line is glued to the first collected line and its own first piece dropped |
| TailPage.SecondChunkMerges | crates/warpdeck-server/src/runtime/logs.rs:225-245 | a page that needs a second chunk, which is the first of the file, is cut from the file with the line over the chunk boundary merged into the next |
| TailChunks.MergeExactly | crates/warpdeck-server/src/runtime/logs.rs:236-241 | dropping a half line between two parts leaves the non-empty lines as they were exactly when it is empty and either the part before ends a line or the one after begins with an empty one |
| TailChunks.CollectedPieces | crates/warpdeck-server/src/runtime/logs.rs:225-245 | for any number of chunks, what the reader collects is the pieces gathered chunk by chunk |
| TailChunks.GlueExactly | crates/warpdeck-server/src/runtime/logs.rs:236-241 | a chunk put in front of what is right so far keeps it right exactly at a harmless boundary |
| TailChunks.GlueLoses | crates/warpdeck-server/src/runtime/logs.rs:236-241 | and what is missing stays missing |
| TailChunks.CollectedExactly | crates/warpdeck-server/src/runtime/logs.rs:225-245 | for any number of chunks the lines collected are those of the file from where the reader stops exactly when every boundary it crossed was harmless |
| TailChunks.PageExactly | crates/warpdeck-server/src/runtime/logs.rs:225-261 | then its page is the page of the whole file exactly under the condition on line counts, for any number of chunks |
| TailChunks.AnyPageExactly | crates/warpdeck-server/src/runtime/logs.rs:225-261 | every page is right exactly when what was collected agrees with the file, counted from the end, on its lines and on whether there are more |
| TailChunks.OnePageFileExactly | crates/warpdeck-server/src/runtime/logs.rs:225-261 | a page that shows a whole file is right exactly when no line was lost |
| TailPage.MergedLineExample | crates/warpdeck-server/src/runtime/logs.rs:225-261 | a file of 32769 bytes whose page shows a line that the file does not contain |
| LoginLimiter.InMemoryLoginLimiter.Check | crates/warpdeck-server/src/auth/rate_limit.rs:60-72 | evicts the expired windows of all addresses, then decides from what is left |
| LoginLimiter.InMemoryLoginLimiter.RecordFailure | crates/warpdeck-server/src/auth/rate_limit.rs:83-100 | one failure more, in the open window or a new one, and the decision after it |
| LoginLimiter.InMemoryLoginLimiter.Login | crates/warpdeck-server/src/api/auth.rs:82-131 | the handler: Forbidden exactly when blocked before or by this failure; only a wrong password counts, only a right one clears |
| LoginLimiter.SameLiveWindow | crates/warpdeck-server/src/auth/rate_limit.rs:60-72 | after every run the evicting table and the table that never evicts agree on the live window of every address |
| LoginLimiter.EvictionAndOthersInvisible | crates/warpdeck-server/src/auth/rate_limit.rs:60-111 | the evicting table of all addresses decides exactly as a plain counter that only ever saw this address |
| LoginLimiter.BlockedExactly | crates/warpdeck-server/src/auth/rate_limit.rs:60-111 | told from the events alone: an address is blocked exactly if its latest window, opened by a failure that fell into none and closed by no success, is still open and holds as many failures as the limit allows |
| LoginLimiter.PlainIsWindow | crates/warpdeck-server/src/auth/rate_limit.rs:83-111 | after every run what is kept of an address is that window: when it was opened and how many failures have come since |
| LoginLimiter.BoundedAlways | crates/warpdeck-server/src/auth/rate_limit.rs:83-111 | the window invariant that holds after every run with at most `width` logins of the address in flight |
| LoginLimiter.FailuresBounded | crates/warpdeck-server/src/auth/rate_limit.rs:83-111 | no half-open interval of window length sees more than 2 * (max + width) - 3 failures, which is 2 * max - 1 for logins one at a time |
| LoginLimiter.BoundReached | crates/warpdeck-server/src/auth/rate_limit.rs:83-111 | for every limit and every width a run reaches the bound, given a window of at least two ticks of the clock |
| SessionLimits.TokenBucket.TryTake | crates/warpdeck-server/src/gateway/limits.rs:46-58 | tokens stay within [0, rate], and the refill is linear and capped |
| SessionLimits.IntervalBound | crates/warpdeck-server/src/gateway/limits.rs:46-58 | every interval [s, t] of an ordered run admits at most rate + rate * (t - s) sessions |
| SessionLimits.SpacedNeverRefused | crates/warpdeck-server/src/gateway/limits.rs:46-58 | readings at least 1/rate apart are never refused |
| SessionLimits.LevelIsLeastSlack | crates/warpdeck-server/src/gateway/limits.rs:46-58 | the level of the bucket is the least slack of that bound over all intervals ending now, unless it is full |
| SessionLimits.RefusedExactly | crates/warpdeck-server/src/gateway/limits.rs:46-58 | a request is refused exactly when granting it would break the bound for some interval that ends with it |
| SessionLimits.ClimbExactly | crates/warpdeck-server/src/gateway/limits.rs:46-58 | the gains of the clock from reading to reading add up to the time passed exactly when no reading goes back |
| SessionLimits.ClimbBound | crates/warpdeck-server/src/gateway/limits.rs:46-58 | on any readings, ordered or not, grants and tokens left are at most the tokens at first and what flowed in on these gains |
| SessionLimits.SameStraightened | crates/warpdeck-server/src/gateway/limits.rs:46-58 | the bucket does on any readings what it does on the ordered ones with the same gains |
| SessionLimits.RefusedExactlyOnClimb | crates/warpdeck-server/src/gateway/limits.rs:46-58 | on any readings a request is refused exactly when granting it would break the bound in this sense |
| SessionLimits.StaleReadingCreditsTwice | crates/warpdeck-server/src/gateway/limits.rs:49-53 | three grants within one second at rate 1: the bound in elapsed time fails for readings that go back |
| SessionLimits.Limiter.Acquire | crates/warpdeck-server/src/gateway/limits.rs:89-103 | admits exactly when both limits do; available permits and live sessions always add up to the cap; a session refused by the cap has spent its token |
| SessionLimits.Limiter.Release | crates/warpdeck-server/src/gateway/limits.rs:16-20 | dropping a permit gives back exactly its place |
| Cidr.V4AcceptedExactly | crates/warpdeck-server/src/net.rs:97-121 | an IPv4 network is accepted exactly when its prefix is at most 32 and its host bits are zero |
| Cidr.V6AcceptedExactly | crates/warpdeck-server/src/net.rs:123-137 | the same for IPv6 up to 128, except that a prefix of 0 accepts any address |
| Cidr.AcceptedIsStrict | crates/warpdeck-server/src/net.rs:80-141 | whatever is accepted has no host bits, and overflow checks change nothing but the panic |
| Cidr.ContainsExactly | crates/warpdeck-server/src/net.rs:37-65 | membership by masks is agreement of the leading prefix bits |
| Cidr.NestedOrDisjoint | crates/warpdeck-server/src/net.rs:37-65 | of two accepted networks of one family the narrower lies in the wider or they do not meet |
| Cidr.WiderHasMore | crates/warpdeck-server/src/net.rs:37-65 | a strictly wider network holds an address the narrower one does not |
| Cidr.SameSetSameNetwork | crates/warpdeck-server/src/net.rs:37-65 | two accepted networks of one variant denote the same addresses exactly when they are equal, IPv6 prefix 0 excepted |
| Cidr.V6PrefixZero | crates/warpdeck-server/src/net.rs:126-127 | the excepted case: a panic with overflow checks, otherwise acceptance of every address, each meaning all of IPv6 |
| Cidr.DecidedExactly | crates/warpdeck-server/src/gateway/mod.rs:453-461 | in either build the first entry that the client is in, or that panics, decides; only with overflow checks an IPv6 prefix of 0 panics |
| Cidr.DecidedWithoutChecks | crates/warpdeck-server/src/gateway/mod.rs:453-461 | without overflow checks nothing panics, and the order of the entries does not matter |
| Cidr.AllowedExactly | crates/warpdeck-server/src/gateway/mod.rs:453-461 | without overflow checks: an empty list allows everybody; otherwise exactly the union of the readable entries without host bits |
| SocksWire.RoundTripExactly | crates/warpdeck-server/src/gateway/socks5.rs:34-50 | a written target with any suffix is read back, suffix untouched, exactly when a domain has at most 255 bytes |
| SocksWire.ReadThenWrite | crates/warpdeck-server/src/gateway/socks5.rs:230-251 | a target that was read is written back byte for byte if its name was UTF-8 |
| SocksWire.UpstreamSeesTarget | crates/warpdeck-server/src/gateway/socks5.rs:270-274 | the upstream that reads the gateway's request finds the client's target and port |
| SocksWire.Dial | crates/warpdeck-server/src/gateway/socks5.rs:255-287 | the greeting, the request exactly after an accepted greeting, and on success, which needs both reply codes to be 0, the stream left at the byte after what the dialer consumed |
| SocksWire.RefusalsFail | crates/warpdeck-server/src/gateway/socks5.rs:255-287 | for both dialers, a refused method or a non-zero reply code never becomes a tunnel, whatever follows |
| SocksWire.TunnelFrom | crates/warpdeck-server/src/gateway/socks5.rs:255-287 | whatever an upstream sends, there is a tunnel exactly if both codes are 0 and it sends as much as the dialer skips, and the tunnel is the rest |
| SocksWire.TunnelExactly | crates/warpdeck-server/src/gateway/http.rs:241-266 | after a successful reply the stream sits on the first tunnel byte exactly for IPv4 and 3-byte domains in the SOCKS dialer, and for everything but IPv6 in the HTTP one |
| SocksWire.ConstantTimeEqual | crates/warpdeck-server/src/gateway/mod.rs:430-439 | the comparison without early exit is equality of byte strings |
| SocksWire.XorIsDifference | crates/warpdeck-server/src/gateway/mod.rs:434-438 | exclusive or of two bytes is zero exactly when they are equal |
| SocksWire.OrKeepsDifferences | crates/warpdeck-server/src/gateway/mod.rs:434-438 | accumulating with or stays zero exactly when both sides are zero |
| SocksSession.Negotiate | crates/warpdeck-server/src/gateway/socks5.rs:101-157 | greeting and credentials end in success exactly on the specified input, with the specified replies in every other case |
| SocksSession.Authenticate | crates/warpdeck-server/src/gateway/socks5.rs:127-157 | accepts exactly byte-equal user and password |
| SocksSession.Connect | crates/warpdeck-server/src/gateway/socks5.rs:173-227 | the upstream is dialled only for a well-formed CONNECT request, with the target and port the client asked for |
| SocksSession.HandleConn | crates/warpdeck-server/src/gateway/socks5.rs:86-227 | the limits are asked exactly when the allowlist and the credentials let the client through, the upstream is touched only with a permit and a CONNECT request, the permit is held until the relay ends, every permit is back afterwards, and every ending has its reply |
| SocksSession.EarlyRepliesExactly | crates/warpdeck-server/src/gateway/socks5.rs:101-157 | no greeting, no reply; 255 exactly if the wanted method is not offered; status 1 exactly for credentials that were read and are wrong |
| SocksSession.RepliesExactly | crates/warpdeck-server/src/gateway/socks5.rs:116-227 | the welcome bytes, and the codes 7 and 1 of the refusals |
| SocksSession.MethodsExactly | crates/warpdeck-server/src/gateway/socks5.rs:101-110 | the greeting is read exactly from its section 3 of RFC 1928 form |
| SocksSession.PastExactly | crates/warpdeck-server/src/gateway/socks5.rs:101-157 | a client gets to the limits exactly by offering the wanted method and sending the configured credentials byte for byte; credentials over 255 bytes lock everybody out |
| SocksSession.RequestedExactly | crates/warpdeck-server/src/gateway/socks5.rs:173-191 | a target is requested exactly by a CONNECT request in its section 4 of RFC 1928 form |
| ProxyAuth.Encode | crates/warpdeck-server/src/gateway/http.rs:273-295 | the encoding loop is the specified grouping |
| ProxyAuth.DecodedExactly | crates/warpdeck-server/src/gateway/http.rs:273-295 | an independent strict decoder and the encoder are inverse to each other on everything either yields |
| ProxyAuth.Injective | crates/warpdeck-server/src/gateway/http.rs:273-295 | equal encodings come from equal bytes only |
| ProxyAuth.Shape | crates/warpdeck-server/src/gateway/http.rs:273-295 | length 4 * ceil(n / 3), alphabet letters, and padding at the end only |
| ProxyAuth.ValueOfChar | crates/warpdeck-server/src/gateway/http.rs:271 | the table is the one of section 4 of RFC 4648 |
| ProxyAuth.TokenExactly | crates/warpdeck-server/src/gateway/http.rs:73-88 | the header token matches exactly on equal user, colon and password bytes |
| ProxyAuth.TokenIsCredential | crates/warpdeck-server/src/gateway/http.rs:73-88 | among users without a colon that is equality of user and password |
| ProxyAuth.TokenIsOwnExactly | crates/warpdeck-server/src/gateway/http.rs:73-88 | among users without a colon the token stands for the configured credentials only, exactly if the configured user has none either; the configuration only refuses an empty one |
| ProxyAuth.TokenIsUniqueExactly | crates/warpdeck-server/src/gateway/http.rs:73-88 | the token stands for the configured credentials only among all, exactly if neither user nor password has a colon |
| ProxyAuth.ColonMoves | crates/warpdeck-server/src/gateway/http.rs:73-88 | the input: two different credentials with one token |
| Flow.Daemon.EnsureRegistered | crates/warpdeck-server/src/runtime/flow.rs:171-207 | at most the configured attempts, a pause after each refused one but the last, and none at all with a registration on disk |
| Flow.Daemon.TryConnect | crates/warpdeck-server/src/runtime/flow.rs:215-249 | one connect, or for ZeroTrust retries of a missing registration; it gives up no sooner than the budget allows |
| Flow.Daemon.Verify | crates/warpdeck-server/src/runtime/flow.rs:128-160 | status polling; it gives up on a daemon that answers no sooner than the budget allows |
| Flow.Daemon.Configure | crates/warpdeck-server/src/runtime/flow.rs:103-121 | account, mode and port in this order, up to the first that fails |
| Flow.Daemon.Run | crates/warpdeck-server/src/runtime/flow.rs:93-165 | every phase runs only if all before it succeeded, with the specified calls and no others |
| Flow.FlowBounds | crates/warpdeck-server/src/runtime/flow.rs:93-249 | every run: at most max registrations (none for ZeroTrust), 31 ZeroTrust connects, 46 status calls and bounded sleep; success ends with a connected status |
| Flow.PollLogBound | crates/warpdeck-server/src/runtime/flow.rs:215-249 | what a polling phase adds to calls and sleep |
| Flow.RegisterBound | crates/warpdeck-server/src/runtime/flow.rs:171-207 | what the registration phase adds to calls and sleep |

## Left out

- Health.LayersReport: a probe report keeps only whether `warp=on`; exit addresses, colo, latency and the events about them are not modelled.
- Runtime.World: the registry keeps state, one process identity and the health counters; restart counts, error texts and bus events are not modelled. An attempt's identity stands for both of its pids, which the system may reuse.
- Manager.InstanceManager.Drive: tasks are never aborted and the `runs` lock is fair enough to be granted; removal of registrations on delete and the ZeroTrust file cleanup are not modelled.
- Manager.InstanceManager.JoinWatcher: waiting for the cancelled watcher is modelled as a schedule that ends with that watcher's own steps.
- HealthRounds.ScheduleFollows: schedules of other tasks alone; the writes of lifecycle operations in between are the subject of the manager's contracts.
- Store.CreatedResolves: runs whose update commits are timely, and no update of the profile since; `UpdatedResolves` is the other half.
- Runtime.CrashIsKept: the writes of a start itself are outside this lemma and are the subject of `WriteHidesCrash`.
- RestartCommands.NoCommandLost: assumes that an acknowledgement finds the row that was listed; `StaleAcknowledgementLosesCommand` shows why it must.
- RestartCommands.EveryRowServed: assumes timely steps; `RebindLost` and `ReusedRowidKeepsProcess` show why it must.
- Rounds.AllRounds: rows that nobody changes between the rounds, and calls that work; `RoundSettles` is per instance, for any round.
- Reconciler.Reconciler.ReconcileOnce: no handler runs inside the round; handlers inside a round are the subject of `RestartCommands`. The proxy synchronisation at its end is not modelled.
- Backoff.ClosedForm: times are integers; text timestamps, their parsing and corrupted columns are not modelled.
- Backoff.AttemptsBounded: stated for the default base and cap and whole seconds.
- Retries.RoundsAreStreak: assumes failures that are recorded, on a clock that does not go back, and a row that nobody changes meanwhile.
- Store.Database.UpdateProfile: runs validation and transaction without a step in between; the split is the subject of `StepExact`.
- Store.RunsStayConsistent: encryption, names as text after trimming, timestamps and the global secret rows as written by the settings handlers are not modelled.
- LogTail.TailWatcher.Poll: the file is fixed within a poll and keeps its identity; replaced files, the path check every ten polls and failing reads only begin a new epoch and are not modelled.
- LogTail.StreamingEqualsSplitting: needs room for each batch beside the unfinished line; `StreamingExactly` covers lines of any length. Text decoding and redaction are not modelled, and whether a line is blank is a parameter.
- TailPage.SecondChunkMerges: stated for files of two chunks; `TailChunks.CollectedExactly` and `TailChunks.PageExactly` are for any number.
- TailPage.LastChunkExact: stated for a skip that does not overflow 64 bits, which holds for every page inside a file.
- LoginLimiter.FailuresBounded: one clock reading per call, counters without 32-bit overflow, a threshold of at least 1 and no successful login of the address in the run.
- SessionLimits.TokenBucket.TryTake: tokens are exact reals; rounding of floating-point numbers is not modelled.
- Cidr.ParseCidr: reading address and prefix text is an input; bit sequences stand for the integer types.
- SocksSession.HandleConn: one session at a time; the ten-second dial timeout and refused connections are an absent upstream, and the relayed bytes after the handshake are not modelled.
- SocksWire.ReadTarget: lossy UTF-8 decoding is a parameter; theorems about names ask that it leaves them alone.
- ProxyAuth.TokenExactly: finding the header among the request lines and reading the request target are not modelled.
- Flow.Daemon.Run: which error text means a missing registration is an input of the script.
- The gateway supervisor and its listeners, the upstream pool and the injected fault are not modelled.
- The web interface, configuration files, sessions and passwords, event streaming and tracing are not modelled.
