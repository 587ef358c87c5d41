# The flyco control plane, modelled and proved

The control plane keeps its durable state in SQL tables without transactions, in durable
objects that run one handler at a time, and in a key-value store. This project models that
state in Dafny and proves what the code relies on when requests interleave, retry and fail.
`dafny verify dfyconfig.toml` verifies the whole project.

## How it is built

Each SQL statement, and each atomic batch, is one step. Requests interleave between steps in
any way, so a *run* is any sequence of steps, and a theorem about `Run`, `Play`, `Serve` holds
in every interleaving. Beside each such machine stands the code itself as methods over mutable
tables: what other requests do at each await is a parameter (`arriving`), about which nothing
is assumed but that it is not this request's. The methods of the budget store are proved to
give, under any such interference, what their contracts say; those of the idempotency keys,
handoffs and hosts are proved to be runs of their machines, step for step, so that what holds
of every run holds of them. What a whole call comes to is told once more without those
machines' own words, by the tables before and after, in money, seconds, bytes and names: in
`Thresholds`, `SweptMachines`, `SweptTime`, `PassEffects`, `Notices`, `Resuming`, `HostTokens`
and the modules named `Calls`.

| files | what they model |
|---|---|
| `BudgetEngine`, `BudgetTables`, `BudgetRuns`, `BudgetStore`, `PauseSignal`, `Thresholds` | the spend ledger, the cache a watermark certifies, the outbox of budget signals, and what stages and signals mean in money |
| `Metering`, `MeterRuns`, `MeterBills`, `OffMinute`, `BilledInFull`, `Dropped`, `LateStamps`, `Sweep`, `SweptMachines`, `SweptTime`, `MachineLife` | one-minute metering windows, forward-only cursors, machines that stop, start and end, what their meters bill, bill twice and never bill, the capped sweep and whom it charges |
| `Delivery`, `PassEffects`, `DeliveryRuns` | delivering the outbox across failures and repeats |
| `HostRoom`, `HostRoomRuns`, `Mailbox`, `Notices`, `Resuming`, `CommandFeed`, `CommandStreams` | the relay room of an enrolled machine: attach epochs, retransmitted frames, the job mailbox, revocation notices, command streams |
| `Idempotency`, `IdempotencyKeys` | claims under an idempotency key |
| `Handoffs`, `HandoffRuns`, `HandoffObjects`, `HandoffCalls`, `HandoffStore` | the handoff gate: uploads, manifest, completion, the one provisioning job |
| `Hosts`, `Enrollment`, `HostTokens`, `HostCalls`, `HostStore` | enrollment tokens, host tokens, rotation and removal |
| `MemoryTree`, `MemoryRuns`, `MemoryCalls`, `MemoryStore` | tree memory, its updates and the recursive delete |
| `Catalog` | the per-region catalog document |
| `Calendar`, `PathEncoding` | Gregorian arithmetic and percent-encoding |
| `Prelude` | shared arithmetic and sequence lemmas |

Randomness (identifiers, tokens), clocks, queue and room outcomes, the room's answer to a
status call and storage faults are parameters of the steps. SHA-256 and token hashes are taken
to be injective, and a generated identifier or token to be new.

## What the proofs found

Each of these is proved. Where an intended property fails, a lemma gives a run that fails it or
the exact condition under which it holds, or both.

- **Overlapping folds can lose the pause.** A fold announces what rises above the stage of the
  row it loaded. If the limit is raised and put back in between, and another fold un-crossed
  the top stage meanwhile, it leaves the budget exhausted with no pause signal
  (`PauseSignal.OverlappingFoldsLoseThePause`; exactly when:
  `PauseMissingExactlyAfterAStaleFold`).
- **One refusal holds up the outbox.** A pending pause of a session that is neither active nor
  paused ends `deliver` at that row on every pass, and every signal behind it, of any session,
  waits exactly as long as it refuses (`Delivery.HeldUpOnEveryPass`).
- **A late pause takes a session back.** `pause_for_budget` reads the state and then writes
  without a guard, so a session archived in between ends up paused
  (`DeliveryRuns.LatePauseRevivesASession`). A session that has left both states stays where it
  went exactly if no delivery has read it as active and is yet to write
  (`SessionStaysExactlyWhenNoPauseIsDue`).
- **A started or resized machine can be billed twice for an instant.** Those operations put the
  cursor at the present and leave the origin, while a sweep's last window ends on a whole minute
  from the origin. Sweeps that read such a cursor at different times cut windows that overlap
  under different keys, and both are charged. It cannot happen exactly if the cursor was put a
  whole number of minutes from the origin, as building and restarting do
  (`OffMinute.BilledOnceExactlyOnTheMinute`).
- **Stopping a machine drops what no sweep has billed.** Starting, stopping and restarting put the
  cursor at the present and bill nothing, so the time from what the stretch before has been billed
  through up to there is on no row, and stays so exactly if no sweep has it in hand
  (`Dropped.GapIsUnbilled`, `DroppedForGoodExactlyWhenNothingIsInHand`). Part of a minute is lost
  when the sweeps keep up, an hour when they have not come for one
  (`StoppedMachineDropsItsHour`). Nothing a meter ran through is ever dropped exactly if every such
  event found the cursor already where it put it (`NothingDroppedExactlyWhenNoEventDrops`,
  `EventDropsExactlyWhenBehind`). What the sweeps did bill is billed in full
  (`BilledInFull.LegIsBilledInFull`).
- **A restart that lands late bills twice.** A restart's time is read before its statement is sent.
  If a sweep bills past that time first, the cursor is put behind it, and unless it is behind by
  whole minutes the next sweep bills an instant again (`LateStamps.LateRestartBillsTwice`). Every
  other claim about a meter is for one that no event has put behind a sweep.
- **A recorded idempotency key never expires.** The module's documentation says rows older than
  the window stop counting; the code answers a committed row whatever its age
  (`Idempotency.RecordedAnswersForever`). A holder past its window can always come to bind a
  second session (`LateHolderCanBindTwice`).
- **An upload can slip between a completion's check and its update**, so the handoff completes
  under checksums its manifest never named, and an upload admitted before completion can replace
  the object after it (`HandoffObjects.RacingUploadBreaksTheManifest`,
  `LateUploadReplacesTheObject`).
- **The daemon's archive patch overwrites the handoff's.** Both lie under one key, and the row
  keeps the checksum of the first (`HandoffObjects.DaemonReplacesThePatch`; exactly when object
  and checksum agree: `CompletedMatchesStorage`).
- **A removed host can come back** through a rotation, a second removal, or a refresh that has
  not heard from the room or has heard of a change, that read it before, and only then
  (`Enrollment.RevokedForGoodExactlyWhenNothingPends`).
- **Memory trees hang by the foreign key.** A create checks its parent and inserts later, and the
  comment above it says D1 enforces no foreign keys; the schema declares one on `parent_id`, and
  later migrations say D1 does enforce them. With the key every run leaves a forest, and just the
  creates whose parent was forgotten in between are refused (`MemoryRuns.TreesStayAForest`,
  `OnlyLateInsertsAreRefused`). Without it exactly those would be orphans (`OrphansAreTheLate`,
  `RacingForgetOrphans`).
- **Racing updates undo each other.** An update of a memory node writes back the fields it was not
  given as it had read them, so of two updates that both read first, one given a title and the
  other a content, only the later write's field stays (`MemoryCalls.RacingUpdatesLoseOne`). An
  update spares a field it was not given exactly if nobody changed it since it read
  (`MemoryCalls.UpdateComesTo`).
- **Timestamps**: a day past its month's end is accepted and counts on into the next month, and
  dates before 1970 underflow, which the code does not check (`Calendar.SecondsCountTheCalendar`).

## Model

| member | source | states |
|---|---|---|
| BudgetEngine.ReplayIsTheTotal | crates/core/src/budget.rs:226-235 | Replaying a spend ledger event by event ends in the state its total alone implies, and panics exactly when that total, or its ratio to the limit, leaves `u64` |
| BudgetEngine.ReplayIgnoresOrder | crates/core/src/budget.rs:226-235 | Two readings of the same events in any order give the same state |
| BudgetEngine.CrossingsAnnounceTheRise | crates/api/src/budgets.rs:208-232 | The signals a replay announces rise strictly, lie above the recorded stage and at or below the one reached, and include the signal of the stage reached exactly when it is above the recorded one |
| Thresholds.StagesInMoney | crates/core/src/budget.rs:102-111 | Every replay that answers is exhausted exactly if the spend is at least the limit, and at the stages before exactly from nine tenths, four fifths and half of it on; nothing remains exactly when it is exhausted |
| Thresholds.SignalsInMoney | crates/core/src/budget.rs:163-170 | A replay announces exactly the signals whose threshold some prefix of the ledger stands at without reaching the next, past the stage on record, the first two only against a limit of five dollars or more |
| BudgetTables.ReadLedgerIsComplete | crates/api/src/budgets.rs:199-206 | A fold reads as many events as the ledger counts for the budget, and their sum is all it was charged |
| BudgetTables.UnmovedCountUnmovedTotal | crates/api/src/budgets.rs:112-118 | On an append-only ledger, a prefix with the same count of a budget's events has the same total |
| BudgetTables.WriteBackIsAllOrNothing | crates/api/src/budgets.rs:208-262 | The guarded batch writes all of cache, watermark and outbox, or nothing, decided by whether the limit is still the one replayed under |
| BudgetTables.WonFold | crates/api/src/budgets.rs:208-262 | A winning fold refreshes exactly its own budget's row, keeps other budgets' signals and those still crossed, drops the un-crossed, and adds only missing ones, undelivered |
| BudgetTables.LostFold | crates/api/src/budgets.rs:166-185 | A fold whose limit changed under it writes nothing |
| BudgetRuns.CertifiedCacheIsTheReplay | crates/api/src/budgets.rs:112-126 | In every reachable state of any interleaving of appends, limit changes (also away and back) and overlapping folds, a watermark equal to the ledger's length certifies that the cached spend and stage are a fresh replay under the present limit |
| BudgetRuns.ServedViewIsAReplay | crates/api/src/budgets.rs:112-185 | Every view served, from the cache or by a fold, replays a ledger holding every event there was when the call began, under the limit in force at the answering statement; a call folds in vain at most once per limit change since it began |
| Thresholds.ServedViewTells | crates/api/src/budgets.rs:112-185 | So every view served says what the ledger it saw was charged, what remains of the limit, and the stage that spend stands at in money |
| Thresholds.CoveredViewsAreServed | crates/api/src/budgets.rs:112-118 | In every run a view is answered from the cache, writing nothing, exactly while the watermark covers the ledger; otherwise it goes on to fold |
| Thresholds.CertifiedCacheTells | crates/api/src/budgets.rs:112-126 | And every certified cache |
| BudgetRuns.NoSignalAboveTheStage | crates/api/src/budgets.rs:239-249 | Under any interleaving no stored signal ranks above its budget's stored stage |
| PauseSignal.PauseAfterCommit | crates/api/src/budgets.rs:208-232 | A fold leaving a budget exhausted has its pause in the outbox exactly when it was there already or the row it loaded was not exhausted |
| PauseSignal.PauseMissingExactlyAfterAStaleFold | crates/api/src/budgets.rs:208-262 | In every run, whatever overlaps, an exhausted budget lacks its pause exactly if the last fold to commit had loaded an exhausted row and found the pause gone |
| PauseSignal.PausePresentExactlyWhileExhausted | crates/api/src/budgets.rs:208-262 | So in every run whose folds of one budget do not overlap, abandoned ones included, the pause is in the outbox exactly while the budget is stored exhausted |
| PauseSignal.ReExhaustionAnnouncesAfresh | crates/api/src/budgets.rs:234-249 | Exhausting a budget again after a raised limit un-crossed it adds a new, undelivered pause row under an unused identifier |
| PauseSignal.OverlappingFoldsLoseThePause | crates/api/src/budgets.rs:208-262 | A run of overlapping folds that ends exhausted, with a certified cache and no pause in the outbox |
| Thresholds.StoredSignalsWereCrossed | crates/api/src/budgets.rs:208-262 | In every run a stored signal means that its budget's last fold found spend past its threshold: for a pause, a prefix of the ledger that spends the limit it read |
| Thresholds.SignalsNameTheirSession | crates/api/src/budgets.rs:208-232 | In every run each signal, and each row a fold holds, names the session of its budget |
| BudgetStore.Store.Replay | crates/api/src/budgets.rs:191-264 | The loop returns the engine's replay of the ledger and exactly the batch that records it |
| BudgetStore.Store.ExecuteBatch | crates/api/src/budgets.rs:173-178 | Runs a batch's statements in order and reports whether the last one matched a row |
| BudgetStore.Store.Attempt | crates/api/src/budgets.rs:171-183 | One turn of a fold either lands a replay of the ledger under the limit in force, or loses to a change of limit |
| BudgetStore.Store.Fold | crates/api/src/budgets.rs:166-185 | Ends with a view that replays a ledger no shorter than at the call, under the limit in force, cached and certified; attempts after the first are paid for by concurrent limit changes, which is why it terminates; under positive limits it answers unless spend times 10000 leaves `u64` |
| BudgetStore.Store.Reconcile | crates/api/src/budgets.rs:136-138 | A load followed by such a fold |
| BudgetStore.Store.View | crates/api/src/budgets.rs:112-118 | Answers from the cache without a write while the watermark covers the ledger, and folds otherwise |
| BudgetStore.Store.Relimit | crates/api/src/budgets.rs:282-288 | One statement sets the limit and resets the watermark |
| BudgetStore.Store.SetLimit | crates/api/src/budgets.rs:277-290 | Refuses zero; otherwise sets the limit, which stands unless another request sets one, and answers with a replay of at least the ledger there was, under the limit in force |
| BudgetStore.Store.RecordAt | crates/api/src/budgets.rs:345-365 | Appends the event once per key and answers with a fold whose replay includes it; with nobody else about, nothing else is appended and nothing of another budget changes |
| Thresholds.FoldTells | crates/api/src/budgets.rs:166-185 | Every view a fold answers with, and the row it leaves, stands in money where some prefix of the ledger no shorter than at the call stands |
| Metering.CostsTelescope | crates/api/src/metering.rs:193-200 | Costs of adjacent intervals add up to the cost of the whole, losing nothing to rounding |
| Metering.BatchCovers | crates/api/src/metering.rs:144-167 | A batch of whole windows composed from any earlier cursor leaves the ledger billing each of the leg's first windows exactly once, whatever was billed before |
| Metering.RowsCostTheInterval | crates/api/src/metering.rs:144-162 | Whatever its windows, and however the last is cut short, a batch bills exactly the price of the time it covers |
| MeterRuns.DrainTakesWindows | crates/api/src/metering.rs:136-165 | The window loop takes exactly as many windows as are owed and allowed, and leaves the cursor behind the last |
| MeterRuns.EventsRewrite | crates/api/src/machines.rs:1572-1620 | Of a meter's columns, building, operating, resizing, draining, suspending, restarting, finding, losing and releasing a machine rewrite the price, or put the cursor, perhaps with the origin, at the statement's stamp, which may lie before the instant it lands, and nothing else |
| MeterBills.EachLegIsExact | crates/api/src/metering.rs:129-200 | After any interleaving of sweeps with stale reads, their own times and replayed batches, and of machines built, stopped, started, restarted, resized and destroyed under stamps that may lag, unless one put this cursor behind a sweep, the rows from where a cursor was put on a whole minute from its origin to where it was next put sum to the price of what that stretch has been billed through, its price unchanged |
| MeterBills.MeterIsExact | crates/api/src/metering.rs:129-200 | So while its origin and price stand, the rows from the origin on of a meter no event put behind a sweep sum to `floor(hourly * (cursor - started_at) / 3600)` |
| MeterBills.BilledRowsStay | crates/api/src/metering.rs:144-167 | No continuation of a run changes or removes a row billed |
| MeterBills.NoInstantBilledTwice | crates/api/src/metering.rs:144-162 | Any two rows of a meter no event put behind a sweep share no instant, except two rows of one stretch whose cursor was put off the whole minute |
| OffMinute.BilledOnceExactlyOnTheMinute | crates/api/src/machines.rs:243-250 | A live meter whose cursor was just put somewhere bills no instant of the stretch from there twice, in any continuation that does not put it behind a sweep, if and only if that is a whole number of minutes from its origin; otherwise sweeps alone come to bill some instant twice |
| OffMinute.StartedMachineBillsTwice | crates/api/src/machines.rs:243-250 | A run that builds a machine, starts it again ninety seconds later and bills an instant of it twice |
| LateStamps.LateRestartBillsTwice | crates/api/src/machines.rs:1756-1762 | Whenever a restart's stamp lies behind what has been billed, by no whole number of minutes, landing it and sweeping once bills an instant twice |
| LateStamps.RestartedLateBillsTwice | crates/api/src/machines.rs:1756-1762 | A run from nothing: swept through its first minute, then restarted under the stamp of the second before |
| BilledInFull.LegIsBilledInFull | crates/api/src/metering.rs:129-169 | On the minute or off it, a stretch whose price stood has been billed at least the price of everything up to where it has been billed through, and no more if it began on the minute |
| Dropped.BilledExactlyThroughReached | crates/api/src/metering.rs:129-169 | Between where a cursor was put and where it was next put, no row covers an instant past what has been billed through, and some row covers each one before, if a second costs a microdollar |
| Dropped.GapIsUnbilled | crates/api/src/machines.rs:243-250 | So when the cursor is next put somewhere, the instants on no row are exactly as many as lie between what has been billed through and there, and on the minute their price is exactly what the bill falls short of |
| Dropped.DroppedForGoodExactlyWhenNothingIsInHand | crates/api/src/machines.rs:1456-1466 | An instant put behind a cursor unbilled stays unbilled in every continuation if and only if no sweep has a batch or a reading in hand that bills past it |
| Dropped.NothingDroppedExactlyWhenNoEventDrops | crates/api/src/machines.rs:243-250 | Through a whole run nothing a meter ran through is ever put behind its cursor unbilled if and only if no event moves the cursor over an instant the meter ran through |
| Dropped.EventDropsExactlyWhenBehind | crates/api/src/machines.rs:1574-1590 | An event that puts the cursor of a meter that counted up to its stamp drops something if and only if the cursor it finds is behind that stamp |
| Dropped.IdleMeterStaysUnbilled | crates/api/src/machines.rs:1638-1650 | What the meter of a destroyed machine, or any that counts no more, has not been billed, and no sweep has in hand, stays unbilled until an event of its machine |
| Dropped.StoppedMachineDropsItsHour | crates/api/src/machines.rs:1456-1466 | A run: an hour of a machine no sweep came to is on no row when it is stopped, nor ever after |
| MeterBills.CertifiedSpendIsMetered | crates/api/src/metering.rs:81-116 | End to end: a certified cache says exactly what was recorded by hand plus its machines' rows, which is the price of the time behind every stretch of their meters if each began on a whole minute and kept its price, or was billed nothing, and no event put one behind a sweep; time dropped between stretches is in none |
| BilledInFull.CertifiedSpendCoversTheLegs | crates/api/src/metering.rs:81-116 | And in any case it is at least what was recorded by hand plus the price of what every stretch of their meters has been billed through, if none was repriced or put behind a sweep; dropped time is in neither |
| Sweep.SweptRowsTake | crates/api/src/metering.rs:95-106 | An undisturbed sweep consumes exactly the smaller of its allowance and all pending windows, in any row order |
| Sweep.SweepsDrain | crates/api/src/metering.rs:95-106 | Repeated sweeps at a fixed time lower what is owed by 600 windows each until nothing is |
| Sweep.DrainedIsAtTarget | crates/api/src/metering.rs:136-140 | With nothing owed, every priced meter's cursor has reached its target |
| Sweep.RepeatedSweepsReachTheTargets | crates/api/src/metering.rs:95-140 | So sweeping again and again at a fixed time brings every listed meter to its target, in as many sweeps as the windows owed fill |
| SweptMachines.SweepsReachTheMinute | crates/api/src/metering.rs:63-140 | So, in states and columns alone, every listed machine that runs has its compute, and every one not destroyed its disk, paid through less than a minute before the sweep |
| SweptMachines.SweepMovesOnlyCursors | crates/api/src/metering.rs:63-169 | However it is capped, a sweep moves cursors forward and changes nothing else: no compute cursor of a machine not running, nothing of a destroyed one |
| SweptMachines.SweepChargesOnlyWhatPays | crates/api/src/metering.rs:63-169 | It records nothing but windows of running machines' compute and existing machines' disks, each charged to its machine's budget |
| SweptMachines.TurnCostsTheMove | crates/api/src/metering.rs:129-200 | The rows of one meter's turn sum to the hourly price of the time its cursor moves over, rounded down from the origin |
| SweptTime.SweepBillsTheTimeItMoves | crates/api/src/metering.rs:94-169 | Every minute a sweep moves a listed machine's cursor over, the last perhaps cut short, is on the ledger if it costs anything |
| MachineLife.NothingPaidOnceGone | crates/api/src/machines.rs:1638-1650 | A machine that is gone has no price left, and nothing is paid for it, whatever happens, until it is built or priced anew |
| SweptMachines.GrownBudgetsAreFolded | crates/api/src/metering.rs:94-116 | Every budget the sweep recorded spend for is folded, and only budgets of listed machines |
| Sweep.Fleet.AccrueMeter | crates/api/src/metering.rs:129-169 | Bills exactly the windows owed and allowed, moves the cursor behind them, and reports whether spend was recorded |
| Sweep.Fleet.AccrueRow | crates/api/src/metering.rs:98-105 | Sweeps one machine's compute and then storage meter within the allowance |
| Sweep.Fleet.Accrue | crates/api/src/metering.rs:81-116 | Leaves machines and ledger as the sweep of all rows in order defines them, takes `min(600, owed)` windows, and folds once each budget whose ledger grew |
| Sweep.Fleet.FoldTouched | crates/api/src/metering.rs:112-114 | Reconciles each touched budget once and no other |
| Delivery.Courier.PauseForBudget | crates/api/src/sessions.rs:1160-1184 | Accepts an active or already paused session, pauses only an active one, refuses any other |
| Delivery.Courier.DeliverOne | crates/api/src/metering.rs:212-226 | Pauses first, then commands, then marks; a refusal sends and marks nothing |
| Delivery.Courier.Deliver | crates/api/src/metering.rs:211-228 | Over the pending signals in whatever order the store lists them, delivers and marks up to the first that refuses, and touches nothing after it |
| Delivery.PassDeliversAllUnlessOneRefuses | crates/api/src/metering.rs:211-228 | A pass, in any order, empties the outbox of pending signals exactly when none refuses |
| Delivery.HeldUpOnEveryPass | crates/api/src/budgets.rs:418-426 | After any number of passes in the store's order, a signal pending before them is still pending exactly if one at or before it in that order refuses |
| PassEffects.PassComesTo | crates/api/src/metering.rs:211-228 | A pass commands exactly the rows before the first it cannot deliver, in order, marks each right after its command, pauses a session before commanding its pause, and moves no session but the active ones pauses came up for |
| DeliveryRuns.TurnComesTo | crates/api/src/metering.rs:211-228 | Undisturbed, a delivery's turn with a row ends it if that is a pause its session will not take; otherwise the row is commanded once, its session paused before if it is a pause, and marked if still there, and nothing else is touched |
| DeliveryRuns.DeliveredWasSent | crates/api/src/metering.rs:211-228 | Across overlapping and failing deliveries and every budget request, a signal marked delivered was accepted by its room, and a pause only after its session was paused |
| DeliveryRuns.NoSignalIsLost | crates/api/src/budgets.rs:418-441 | After any continuation of a run a pending signal is still there, pending or delivered after its room accepted it, unless a fold that left its threshold un-crossed took it |
| DeliveryRuns.SessionStaysExactlyWhenNoPauseIsDue | crates/api/src/sessions.rs:1160-1184 | A session neither active nor paused stays in its state under every continuation in which nobody else moves it if and only if no delivery has read it as active and is yet to write its pause |
| DeliveryRuns.LatePauseRevivesASession | crates/api/src/sessions.rs:1160-1184 | A run where a session archived between the read and the write ends up paused |
| DeliveryRuns.StaleMarkSparesTheNewRow | crates/api/src/budgets.rs:433-441 | A delivery still holding a pruned row cannot mark the row announced anew |
| HostRoom.Object.Attach | crates/api/src/host_room.rs:180-217 | Mints the next epoch and keeps only that epoch's frame count |
| HostRoom.Object.AcceptBatch | crates/api/src/host_room.rs:396-494 | Refuses before an attach, on a stale epoch and on a gap; otherwise answers only the frames not seen before, advances the count, retires acknowledged non-jobs and renews presence |
| HostRoom.Object.Answer | crates/api/src/host_room.rs:541-556 | Deletes the oldest job of one container, if any |
| HostRoom.Object.Acknowledge | crates/api/src/host_room.rs:470-483 | Deletes acknowledged rows that name no container |
| HostRoom.Object.ForgetJobs | crates/api/src/host_room.rs:564-571 | Deletes every job row and no other |
| HostRoom.Object.Dispatch | crates/api/src/host_room.rs:715-765 | Holds a job whether or not the host is live, refuses `Superseded`, and on `Revoked` holds the notice only for a live host and forgets every job |
| HostRoomRuns.FramesApplyExactlyOnce | crates/api/src/host_room.rs:396-468 | Under drops, duplicates, splits, overlaps and reordering, the frames applied in an epoch are frames 1 to n of its stream in order, each once, n being the stored count for the attach in force; no superseded epoch's frame is applied after a newer attach's |
| HostRoomRuns.PostedFramesAreApplied | crates/api/src/host_room.rs:434-468 | An accepted batch leaves every frame it carries applied |
| HostRoomRuns.RetransmissionOnlyRenews | crates/api/src/host_room.rs:427-494 | Sending an accepted batch again changes nothing but presence |
| Resuming.BatchIsTakenExactlyInStep | crates/api/src/host_room.rs:396-434 | A batch is taken exactly if it is of the latest attach and leaves no gap after the frames of that attach applied so far; otherwise it is told how many attaches there were, or the number of the next frame |
| Resuming.GapsSayWhereToResume | crates/api/src/host_room.rs:427-434 | From the frame a gap names on, every frame sent is taken and is new |
| Mailbox.MailboxIsQueues | crates/api/src/host_room.rs:434-583 | In every run the rows held for each container are exactly the FIFO queue that planning, answers and revocations define; attaches, polls, acknowledgements and repeats leave it alone |
| Mailbox.OutstandingAreTheLatest | crates/api/src/host_room.rs:505-571 | Outstanding jobs are the most recently planned ones since the last revocation, in order; each answer removes one, unless it found none |
| Mailbox.PendingIsTheQueuesTogether | crates/api/src/host_room.rs:573-583 | `pending_jobs` is the queues' lengths together, up to `u32::MAX` |
| Notices.PostDropsTheAcknowledged | crates/api/src/host_room.rs:470-483 | An accepted batch takes a row that names no container away exactly if it acknowledges that far |
| Notices.NoticesWaitForTheirAcknowledgement | crates/api/src/host_room.rs:470-483 | A notice held is still there after any continuation exactly if no accepted batch of it acknowledged that far |
| Notices.NoticesHeldAreTheUnacknowledged | crates/api/src/host_room.rs:715-765 | In every run the notices held are exactly those of revocations that found the host in contact within thirty seconds, not acknowledged since |
| CommandFeed.CommandFeed.Step | crates/api/src/host_room.rs:299-380 | One poll, with each place its storage can fail: announces supersession, renews presence, hands over the rows beyond the cursor and moves it |
| CommandStreams.StreamsNeverSkip | crates/api/src/host_room.rs:265-380 | In every run a stream's commands strictly increase in number, every row still in the mailbox at or below its cursor was emitted by it, and its supersession notice came at most once, only when superseded and before it ended |
| CommandStreams.PollCatchesUp | crates/api/src/host_room.rs:345-380 | A poll nothing fails leaves its stream having said every row in the mailbox, only new ones, so a fresh stream repeats every unanswered job |
| CommandStreams.SupersededStreamsFallSilent | crates/api/src/host_room.rs:305-328 | Once a newer attach exists, no continuation lets the old stream emit a command |
| CommandStreams.PresenceIsTheLastContact | crates/api/src/host_room.rs:329-343 | A host reads as live until thirty seconds after its last attach, accepted batch or renewing poll, and no longer |
| Resuming.PollingKeepsAHostPresent | crates/api/src/host_room.rs:299-343 | While clocks rise, a poll of the stream in force that nothing fails leaves its host present for twenty-one seconds more, whether or not it was due to renew |
| Resuming.StreamsRenewEveryTenSeconds | crates/api/src/host_room.rs:329-343 | While clocks rise, a poll less than ten seconds after one of its stream that renewed presence leaves the room as it is |
| CommandStreams.SupersededStreamsSaySoThenEnd | crates/api/src/host_room.rs:305-328 | Its next two polls that can read presence give the notice once and then the end |
| Idempotency.AtMostOneSession | crates/api/src/idempotency.rs:62-148 | While holders record or release within the window, at most one session is ever bound to a user's key, and at most one live request may bind it |
| Idempotency.ReclaimSparesTheLiving | crates/api/src/idempotency.rs:94-110 | A reclaim deletes only a claim that named no session and whose holder's window has passed, never a newer claim |
| Idempotency.RecordedAnswersForever | crates/api/src/idempotency.rs:75-95 | Once a session is recorded, every later claim under the key, however late, collides and is told that session |
| Idempotency.ClaimsAreJudgedByTheirAge | crates/api/src/idempotency.rs:66-110 | Reading its key's row tells a request the session, or to wait, or to reclaim, exactly by whether the row names one and was a day old when the request began |
| Idempotency.OnlyTheLivingKeepOthersWaiting | crates/api/src/idempotency.rs:66-110 | In every run a request told its key is in flight read a claim that named no session and was at most a day old when it began |
| Idempotency.LateHolderCanBindTwice | crates/api/src/idempotency.rs:120-129 | The window is tight: whenever a holder is past it, the run can go on, in time, to where its recording binds a second session |
| Idempotency.LateRecordBindsTwice | crates/api/src/idempotency.rs:120-129 | Such runs exist for every valid key |
| IdempotencyKeys.Keys.Claim | crates/api/src/idempotency.rs:62-112 | Is a run of the protocol under any concurrent statements, and ends; with nobody else about it is fresh exactly on a key nobody holds, or held for more than a day by a claim that named no session, in flight on a younger such claim, and committed on one that named a session |
| IdempotencyKeys.Keys.InsertRow | crates/api/src/idempotency.rs:68-80 | One `INSERT OR IGNORE`, fresh exactly when it wrote a row |
| IdempotencyKeys.Keys.SelectRow | crates/api/src/idempotency.rs:82-110 | One read, judged as the loop judges it |
| IdempotencyKeys.Keys.DeleteRow | crates/api/src/idempotency.rs:100-108 | One delete of a row older than the cutoff |
| IdempotencyKeys.Keys.Record | crates/api/src/idempotency.rs:120-129 | One unconditional update of the key's row |
| IdempotencyKeys.Keys.Release | crates/api/src/idempotency.rs:138-147 | One delete of the key's row while it names no session |
| IdempotencyKeys.Keys.StartSession | crates/api/src/app.rs:253-292 | Answers a session as created only after recording it, replays a committed one, and gives the key back when the create fails; with nobody else about, which of these it is and what the key's row ends as follow from the row there was |
| HandoffRuns.AtMostOneJob | crates/api/src/app.rs:335-347 | Under any interleaving a session takes at most one job from creation and completion together, and a handoff's none before it is complete |
| HandoffRuns.CompletionIsFinal | crates/api/src/handoffs.rs:216-252 | Once complete, a row's checksums, both present, and the one call that answered true never change |
| HandoffRuns.DaemonSeesOnlyTheComplete | crates/api/src/handoffs.rs:126-146 | The daemon sees a handoff exactly when it is complete, then with its base commit and both checksums; the corrupt record is unreachable |
| HandoffCalls.UploadComesTo | crates/api/src/app.rs:3260-3325 | An upload to a pending handoff of at most 256 MiB of patch or 1 GiB of transcript is stored and recorded with its digest and true size; any other is refused, for the reason named, and changes nothing |
| HandoffCalls.FinishComesTo | crates/api/src/app.rs:3345-3375 | A completion marks the handoff and queues one job exactly if the session provisions and both objects are recorded as the manifest names them; every other answer is the one for its reason, and changes nothing |
| HandoffCalls.JobsFollowTheirCompletion | crates/api/src/app.rs:3360-3375 | In every run a handoff's job is in the queue exactly if the call that completed it was answered so, and any other session's exactly once it is created |
| HandoffObjects.CompletedMatchesManifest | crates/api/src/handoffs.rs:291-346 | The checksums a successful completion leaves are its manifest's, digest and size, exactly when those it read are still there at its update, as when no upload lands in between; a retry then answers false |
| HandoffObjects.RacingUploadBreaksTheManifest | crates/api/src/handoffs.rs:216-252 | A run where an upload lands in between and the handoff completes under checksums its manifest never named |
| HandoffObjects.CompletedMatchesStorage | crates/api/src/app.rs:3260-3290 | Both objects of a completed handoff are stored, and one has the checksum its row keeps if and only if the body last written to it, by any upload or by the daemon, is the body last recorded |
| HandoffObjects.ApartMatchesStorage | crates/api/src/app.rs:3260-3290 | So it does while uploads of the object overlap neither each other nor completion and, for the patch, the daemon writes none |
| HandoffObjects.DaemonReplacesThePatch | crates/api/src/app.rs:3187-3206 | From any completed handoff, a patch the daemon stores takes the place of the handoff's, and agrees with the checksum only if it is the recorded patch |
| HandoffObjects.LateUploadReplacesTheObject | crates/api/src/app.rs:3285-3290 | A run where an upload admitted before completion replaces the object after it, and only its record is refused |
| HandoffStore.Store.StoreUpload | crates/api/src/app.rs:3260-3290 | Is a run of the protocol: pending check, size check, put, then the guarded record |
| HandoffStore.Store.RecordUpload | crates/api/src/handoffs.rs:216-252 | One guarded update of one object's checksum and size |
| HandoffStore.Store.ReadRow | crates/api/src/handoffs.rs:291-331 | Reads the row once and answers, or goes on to mark it, as the source orders its checks |
| HandoffStore.Store.MarkRow | crates/api/src/handoffs.rs:333-346 | One guarded update, won exactly when the row was still pending |
| HandoffStore.Store.FinishHandoff | crates/api/src/app.rs:3345-3375 | Is a run of the protocol: provisioning check, completion, and a job only when this call completed it |
| Enrollment.OneHostPerToken | crates/api/src/hosts.rs:195-267 | However requests race on a token, at most one wins it, and the token is bound to that call's host, owned by the user it was minted for |
| Enrollment.NoStrayHosts | crates/api/src/hosts.rs:226-250 | Every stored host is bound by a token or still carried by a racer, so refused racers that ran to completion left none |
| Enrollment.OnlyPresentedTokensEnroll | crates/api/src/hosts.rs:206-250 | A call spends only a token that was unexpired when presented; spent already, it deletes its own host and is refused |
| Enrollment.BindingIsFinal | crates/api/src/hosts.rs:238-244 | Which host a token enrolled never changes, and the host stays |
| Enrollment.TokensOpenOneHost | crates/api/src/hosts.rs:528-540 | A token authenticates at most one host, a host has at most one live token, and no enrollment token authenticates any |
| HostTokens.HostsOpenToTheirLastToken | crates/api/src/hosts.rs:528-540 | In every run a token opens a host exactly if it was the last one generated for it, by its enrollment or a rotation that landed, and no removal or refusal took it since |
| HostTokens.EnrolledTokensOpen | crates/api/src/hosts.rs:226-267 | The token an enrolled call was answered opens its host exactly until such a step |
| HostCalls.EnrollComesTo | crates/api/src/hosts.rs:195-267 | Alone, a call enrolls exactly if its token is unspent and unexpired, and then leaves an offline host of the token's user that opens to the new token, its account, and the token spent; otherwise nothing changes |
| HostCalls.MintedTokensEnrollForTenMinutes | crates/api/src/hosts.rs:115-220 | Whatever happens since, a minted token goes on to enroll, for its user, exactly if unspent and less than ten minutes old |
| HostCalls.RotateComesTo | crates/api/src/hosts.rs:499-518 | Alone, the owner of a host not removed leaves it opening to the new token alone; anyone else, and a removed host, are refused |
| HostCalls.RefreshComesTo | crates/api/src/hosts.rs:361-406 | Alone, a refresh leaves a host as its room says it is, unless it is draining or removed or the room does not answer |
| HostCalls.RemoveComesTo | crates/api/src/hosts.rs:563-622 | Alone, a removal not refused drains the host while it stops, takes every live machine with a container off compute, and ends with the host removed and no token; one refused changes nothing |
| Enrollment.RemovalIsFinal | crates/api/src/hosts.rs:563-622 | A removed host no earlier call is still to write to stays removed, and nothing authenticates it again |
| Enrollment.PendingWriteReopens | crates/api/src/hosts.rs:499-518 | While an unguarded rotation, refresh or second removal is pending, a continuation authenticates the removed host |
| Enrollment.RevokedForGoodExactlyWhenNothingPends | crates/api/src/hosts.rs:499-622 | So removal is final if and only if no such write is pending as it lands |
| Enrollment.RevokedOnlyOnceStopped | crates/api/src/hosts.rs:582-614 | A removal clears a host's token only once every machine it found live, and with a container, is off compute |
| HostStore.Store.Mint | crates/api/src/hosts.rs:115-146 | Stores an unspent token that expires ten minutes on |
| HostStore.Store.Enroll | crates/api/src/hosts.rs:195-267 | Is a run of the protocol: check, insert, guarded spend, then the account or the compensating delete |
| HostStore.Store.Spend | crates/api/src/hosts.rs:238-245 | One guarded update, won exactly when the token was unspent |
| HostStore.Store.DeleteHost | crates/api/src/hosts.rs:245-250 | Removes the row a refused racer inserted |
| HostStore.Store.Rotate | crates/api/src/hosts.rs:499-518 | Is a run of the protocol: refuses a stranger's or removed host, otherwise replaces its token |
| HostStore.Store.FindAccount | crates/api/src/hosts.rs:574-574 | One read of the host's provider account |
| HostStore.Store.CountLive | crates/api/src/hosts.rs:575-580 | Goes on, with the live machines it found, exactly when there is none or the removal is forced |
| HostStore.Store.StopMachine | crates/api/src/hosts.rs:587-606 | One turn of the loop: takes a live machine that has a container off compute |
| HostStore.Store.Remove | crates/api/src/hosts.rs:563-622 | Is a run of the protocol: reads host, account and live machines in turn, refuses live sessions unless forced, drains, stops every live machine, then revokes |
| HostStore.Store.Arrive | crates/api/src/hosts.rs:424-437 | Marks an attaching host online, unless it is draining or removed |
| HostStore.Store.Hear | crates/api/src/hosts.rs:366-388 | Goes on to write exactly when the room answered with another state than was read, or with other facts or another time last seen |
| HostStore.Store.WriteBack | crates/api/src/hosts.rs:390-398 | One unguarded update of the state |
| HostStore.Store.Refresh | crates/api/src/hosts.rs:361-406 | Is a run of the protocol: leaves a draining or removed host alone as read, asks the room, and writes only what changed |
| MemoryTree.UnderIsOwned | crates/api/src/memory.rs:158-176 | Everything under a node is its owner's, and no node is above itself |
| MemoryTree.Subtree | crates/api/src/memory.rs:219-230 | The recursive statement ends, and lists each row of the subtree once and no other, whatever order children join in |
| MemoryTree.PruningKeepsFounded | crates/api/src/memory.rs:219-230 | Forgetting keeps the tree founded, and a forest a forest |
| MemoryRuns.TreesStayAForest | crates/api/src/memory.rs:158-234 | However handlers interleave, with the foreign key the schema declares on `parent_id` every node's parent is there, is the same user's, and the relation is acyclic |
| MemoryRuns.OnlyLateInsertsAreRefused | migrations/0004_registry.sql:80 | The key refuses exactly a create whose parent was forgotten since it checked, which then inserts nothing; every other statement is as without it |
| MemoryRuns.TreesStayFounded | crates/api/src/memory.rs:158-234 | With the key or without, the parent relation is acyclic and never crosses users |
| MemoryRuns.ForgetTakesTheSubtree | crates/api/src/memory.rs:215-234 | However handlers interleave, with the key or without, a forget is not refused, removes exactly the node with everything under it, all its own user's, and orphans nothing |
| MemoryRuns.OrphansAreTheLate | crates/api/src/memory.rs:155-176 | Were the key not enforced, a node's parent would be missing exactly when it was already gone at the insert, and the tree a forest exactly when no stored node was inserted late |
| MemoryRuns.RacingForgetOrphans | crates/api/src/memory.rs:155-176 | A run, without the key, where a create checks its parent and inserts after it was forgotten |
| MemoryCalls.CreateComesTo | crates/api/src/memory.rs:158-176 | Whatever lands in between, a create whose parent was the user's stores the node as asked, unless the parent is gone and the key enforced |
| MemoryCalls.UpdateComesTo | crates/api/src/memory.rs:187-208 | Whatever lands in between, an update writes the fields it was given and the others as it had read them, so it spares one of those exactly if nobody changed it since |
| MemoryCalls.RacingUpdatesLoseOne | crates/api/src/memory.rs:187-208 | From any run, two updates of a node that both read first, one of the title and one of the content, lose the title |
| MemoryStore.Memory.Create | crates/api/src/memory.rs:158-176 | Refused exactly when it names a parent the user does not own; otherwise adds exactly that node and keeps the forest |
| MemoryStore.Memory.Update | crates/api/src/memory.rs:187-208 | Changes title, content and stamp of the user's own node only |
| MemoryStore.Memory.Forget | crates/api/src/memory.rs:215-234 | Removes exactly the node and everything under it, all the user's, leaving a forest |
| Catalog.GroupingIsStable | crates/api/src/catalog.rs:266-291 | Grouping gives unique regions in first-seen order, each with its own entries in input order |
| Catalog.GroupingIsAPermutation | crates/api/src/catalog.rs:266-291 | The document's entries are the input's, none lost or repeated |
| Catalog.DocumentIsTheMap | crates/api/src/catalog.rs:236-333 | After any writes, with expiry, the document holds each region once, in the order first written, with what was last recorded for it, the time of the last reading, and a failure exactly after one |
| Catalog.StaleExactlyWhenAPartIs | crates/api/src/catalog.rs:185-197 | A document with no failure is due exactly when some region, or with none itself, has reached its time to live; a failure at its own shorter one |
| Catalog.DueByWhatWasWritten | crates/api/src/catalog.rs:185-197 | In what was written: a document is due six hours after the oldest reading it stands for, or fifteen minutes after the failure it carries |
| Catalog.Store.RecordRegion | crates/api/src/catalog.rs:236-255 | Replaces or appends one region over what is stored and unexpired |
| Catalog.Store.RecordAccount | crates/api/src/catalog.rs:266-304 | The loop stores exactly the grouping of its input |
| Catalog.Store.RecordFailure | crates/api/src/catalog.rs:316-333 | Replaces the document by a failure with no regions |
| Calendar.SecondsCountTheCalendar | crates/api/src/github.rs:690-702 | For every accepted field and any year, some subtraction underflows exactly before 1970, and from then on the days are those counted by year and month lengths |
| Calendar.SecondsRise | crates/api/src/github.rs:694-702 | Later valid fields give later seconds; only a leap second ties, with the start of the next minute |
| Calendar.WrittenReadsBack | crates/api/src/github.rs:682-702 | A valid timestamp written in the fixed-width form parses to the calendar's count |
| PathEncoding.UrlEncoding | crates/api/src/github.rs:211-226 | The loop computes the encoding byte by byte |
| PathEncoding.EncodingReadsBack | crates/api/src/github.rs:211-226 | Decoding an encoded segment, as section 2.1 of RFC 3986 decodes, returns it, for every byte string |
| PathEncoding.EncodedIsSafe | crates/api/src/github.rs:211-226 | The output is unreserved characters and upper-case percent triplets only, so never a path or query delimiter |
| PathEncoding.OnlyPlainBytesStay | crates/api/src/github.rs:211-226 | Exactly the letters, digits and four marks of section 2.3 of RFC 3986 are left as they are; every other byte takes three |
| PathEncoding.PathReadsBack | crates/api/src/github.rs:201-208 | Splitting an encoded path on slashes and decoding gives back the path's segments |
| PathEncoding.FileUrlsDiffer | crates/api/src/github.rs:201-208 | Two different paths or references of one repository never share a URL |

## Left out

- Idempotency.AtMostOneSession: assumes that an insert reaches the table within the window of the
  time stamped on it and that a holder records or releases within it, as the design does;
  `LateHolderCanBindTwice` shows that nothing weaker will do.
- PauseSignal.PausePresentExactlyWhileExhausted: claimed only of runs whose folds of one budget do
  not overlap, because it is false of others; `PauseMissingExactlyAfterAStaleFold` is for all.
- HandoffRuns.AtMostOneJob: at most once only; a queue that refuses the job after completion is not
  asked again, so a completed handoff may have none.
- HostRoomRuns.FramesApplyExactlyOnce: exactly once within an epoch; numbering restarts with each
  attach and the room does not compare frames across them. A handler is atomic here: a storage
  failure halfway through a batch, after some answers and before the count, is not modelled.
- HostStore.Store.Remove: which machines are live is a parameter; the stop and revocation commands
  to the room, whose failures the code only logs, are not modelled.
- Enrollment.OneHostPerToken: the provider account is one write; the account's credentials and the
  host's reported facts are not modelled.
- MeterBills.CertifiedSpendIsMetered: equality with the price is claimed only where every stretch is
  settled and no meter was put behind a sweep, because it is false of others; a stretch repriced in the middle has no one price.
- MeterBills.EachLegIsExact: all requests read one clock that never runs back, and a sweep's own
  time is no later than its read. It and every other claim about what a meter was billed is for a
  meter no lagging stamp has put behind a sweep, because it is false of others
  (`LateStamps.LateRestartBillsTwice`).
- OffMinute.BilledOnceExactlyOnTheMinute: speaks of a live meter with a price whose cursor was just
  put somewhere, at least two hours before the clock leaves `u64`.
- BudgetTables.ReadLedgerIsComplete: events of one second are read in insertion order where the
  source orders them by identifier; no result depends on it (`BudgetEngine.ReplayIgnoresOrder`).
- Catalog.DocumentIsTheMap: two writers that read before either writes are not modelled; the store
  offers nothing to order them by.
- Calendar.SecondsCountTheCalendar: an underflow is `None`; the wrapped number an unchecked build
  goes on with is not computed.
- Delivery.Courier.PauseForBudget: nothing moves the session between its read and its write;
  `DeliveryRuns` has the two as steps.
- HostStore.Store.Authenticates: the prefix test, which every generated token passes.
- Kind and detail of a spend event or signal, which nothing here decides by; a signal's creation
  time only through the order the store lists signals in, which is left open.
- The composer's catalog refresh claims, CLI login and other read-then-write flows on the key-value
  store, which offer no atomicity to prove races against.
- Foreign keys other than that of `memory_nodes.parent_id`: no statement modelled deletes
  what they point at, a refused racer's host apart, which nothing points at yet.
- HTTP clients, routing, error documents, configuration, cryptography and JSON encoding.
- The session lifecycle beyond the states a pause or a handoff reads, and the session room.
- Row-read budgets and stream heartbeats: a charge that fails is a fault of `CommandFeed`'s poll.
