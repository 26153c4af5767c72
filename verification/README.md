# NetFather: a verified model of its decision logic

NetFather watches a local network, keeps an inventory of devices, evaluates weekly schedules and
policies for each of them, and writes the addresses to be blocked into an nftables table. This project
models the parts of its backend that hold real logic and proves what they keep. `dafny verify
dfyconfig.toml` checks all of it.

| files | what they model |
|---|---|
| `Schedules`, `ScheduleText`, `ScheduleGrammar`, `Bits` | windows, weekdays and zones; the eight-day flip search; overlap by bit masks; schedule text and its grammar |
| `PolicyEngine`, `TransitionBudget`, `EffectivePolicy`, `Counting` | the decision, the jump search for its next change and its 2048-round cap, the addresses to block |
| `LivePresence`, `LivePresenceInvariant`, `LivePresenceSafety`, `LivePresenceEvents`, `LivePresenceTimers`, `LivePresenceStart`, `LivePresenceStop`, `LivePresenceReturn` | timers, reader thread, two locks and `stop` as a step relation over all interleavings |
| `DiscoveryService`, `DiscoveryOutcome`, `DiscoveryMerge`, `DiscoveryEntries`, `DiscoveryMac` | single-flight scans with a commit boundary and how each ends; merging of observations and what each entry says |
| `FirewallBase`, `FirewallBackends`, `FirewallEngine`, `Enforcement` | the normal form of address lists, the nft transactions, synchronisation with read-back and recovery; policy as the kernel enforces it |
| `InventoryModel`, `InventoryEffects`, `InventoryScanEffects`, `InventoryIdentity`, `InventoryEvidence`, `InventoryScan`, `InventoryPresence`, `InventoryLeaves`, `InventoryMerges`, `InventoryConflicts`, `InventoryWitnesses`, `Inventory`, `AutoName` | devices, aliases, address evidence and presence log; the sessions of the device and identity managers |
| `Prelude`, `Ordering`, `Addresses` | outcome types, sorting and deduplication, address text |

## How it is modelled

- Schedule time is an integer number of UTC minutes. A zone is any function from instants to a local
  weekday and minute, so gaps and repeated hours are included; results about all of time are stated for
  fixed offsets. A failure is a value (`Result`, `Option`, or an error out-parameter).
- Address text is a value with the address it denotes and its spelling, because some comparisons in the
  source compare text and others addresses. A hardware address that does not normalise is None.
- A database session is one atomic update: the methods of class `Inventory` write field by field, and a
  session that raises restores the state it began with. `InventoryModel` holds the specification of each
  session; the lemmas about runs speak of these specifications, and every method is proved to end in
  exactly the state its specification names.
- Threads are program counters. Each section under a lock is one step, the reconcile lock is held across
  steps, and any number of timer threads and callers interleave freely.
- An nft script is atomic. Every command may succeed, be refused, or time out after having run or not;
  the listing of the table may or may not be reliable.

## Where the code and its own documentation disagree

The model follows the code. Each point has a lemma that shows it on concrete input, or states exactly when it happens.

- `manager/schedules.py:107-108` says eight days include the next weekly transition across DST. That is so
  exactly in zones that show no later local time they did not show in the eight days
  (`Schedules.SearchIsFinalIff`); a window inside a skipped hour is missed
  (`Schedules.SkippedWallTimeHidesChange`).
- The transition search gives up after 2048 flips, so None need not mean a constant verdict
  (`TransitionBudget.CapCanHideTransition`; `PolicyEngine.NextTransition` says exactly when).
- `firewall/engine.py:24` says protected addresses must never be blocked. They are compared as text
  (`FirewallEngine.ProtectionIsTextual`, `FirewallEngine.RespelledAddressIsBlocked`).
- `manager/device_manager.py:487-489` says the grace period prevents false leave events. A merge keeps the
  retained device's last_seen, so it undoes this exactly when the retained device is online and the
  candidate was sighted after that last_seen (`InventoryMerges.MergeAllowsEarlyLeaveIff`). The program
  proposes merges into offline devices only (manager/identity_manager.py:46-47). A merge into an online one
  does harm only after one of two things: an explicit
  call of `update_presence` with `online=False`, which no module of the application makes
  (`InventoryWitnesses.OfflineThenMergedLeavesEarly`), or an earlier merge that dropped an online candidate
  (`InventoryWitnesses.MergedTwiceLeavesEarly`). Without both, no leave comes early
  (`InventoryMerges.LiveLeaveMeansUnseen`).
- A merge that drops an online candidate writes no leave event, nor does deleting an online device, and
  editing its hardware address leaves the log speaking of the old one (`InventoryPresence.ApplyShows`,
  `InventoryPresence.MergeExplainedIff`, `InventoryWitnesses.MergeCanLoseLeave`).
- `sync_discovered_hosts` and an edited address run no address check
  (`InventoryWitnesses.SyncCanMissConflict`, `InventoryWitnesses.EditCanMissConflict`; exactly when they
  leave two online holders of an address unflagged is `InventoryConflicts.SyncStaysFlaggedIff` and
  `InventoryConflicts.UpdateStaysFlaggedIff`).
- An existing table that the listing fails to show is installed over, which adds to it
  (`FirewallBackends.MisreadInstallIsExactIff`).
- A device that shares its address is not to be enforced (manager/policy_engine.py:87-95), but the search
  for other holders compares stored texts, and an edited address keeps its spelling
  (manager/device_manager.py:346). So an address can be blocked that an allowed device holds in another
  spelling (`EffectivePolicy.AllowedDeviceIsBlockedToo`); exactly when is
  `EffectivePolicy.BlockedHeldAloneIff`.
- `network/live_presence.py:64` says stop waits until no reconciliation can use the database. After a start
  whose reader thread could not be started, stop raises while joining it and never reaches that wait
  (network/presence.py:92-116), so it can end with a scan still running
  (`LivePresenceReturn.StopCanLeaveScanRunning`). It returns exactly when the last attempt to start that
  thread did not raise (`LivePresenceReturn.StopReturnsIff`), and then nothing is left running
  (`LivePresenceSafety.NothingRunsAfterStop`).

## Model

| member | source | states |
|---|---|---|
| `Schedules.Active` | manager/schedules.py:81-99 | the window loop with early return answers true exactly when some window covers the local time |
| `Schedules.SearchNextChange` | manager/schedules.py:102-113 | in any time zone, returns the least minute of the next eight days at which `active` differs from its present value, and None exactly when there is none; the all-days shortcut included |
| `Schedules.AlwaysActive` | manager/schedules.py:105-106 | the shortcut is sound: with every weekday selected and a start-equals-end window the schedule is active at every instant of every zone |
| `Schedules.NextChangeIsUnique` | manager/schedules.py:102-120 | no two results satisfy the search specification, so the specification fixes the answer |
| `Schedules.FixedOffsetNextChange` | manager/schedules.py:102-120 | with a fixed offset the eight-day search decides all of time: None exactly when `active` is constant for ever, otherwise exactly the least later flip |
| `Schedules.CoversIffOccurrence` | manager/schedules.py:92-98 | the three branches of the loop body are membership in an occurrence that starts on a selected weekday and may run past midnight |
| `Schedules.ActiveIffOccurrence` | manager/schedules.py:1-5 | at a fixed offset, `active` holds exactly inside such occurrences |
| `Schedules.WeekMask` | manager/schedules.py:123-129 | bit k of the mask is set exactly when the schedule is active k minutes after the anchor, for the minutes of eight days and no others |
| `Schedules.OverlapMasks` | manager/schedules.py:132-135 | the AND of the masks is nonzero exactly when both schedules are active at one of those minutes |
| `Schedules.FixedOffsetOverlap` | manager/schedules.py:132-135 | for fixed offsets, equal or different, and any anchor, that is so exactly when some minute past or future has both active |
| `Schedules.FlipIsAtBoundary` | manager/schedules.py:92-99 | at a fixed offset `active` flips only at a start, an end, or midnight for a whole-day window |
| `Schedules.SearchIsFinalIff` | manager/schedules.py:107-113 | in any zone, constant through the eight days means constant ever after, for every schedule, exactly when the zone shows no local time after them that it did not show in them |
| `Schedules.SkippedWallTimeHidesChange` | manager/schedules.py:107-113 | a concrete zone with a skipped hour, outside that condition, for which the search says None although the schedule opens ten days later |
| `Schedules.Calendar` | manager/schedules.py:87-93 | weekday 0 is Monday: a known Monday comes out as one, and weekdays follow each other at midnight |
| `ScheduleText.NormalizeWindows` | manager/schedules.py:19-32 | the loop accepts a text exactly when all of its one to sixteen parts read as windows and returns their two-digit texts without repetition |
| `ScheduleGrammar.ReadWindowIff` | manager/schedules.py:17 | a part reads as a window exactly when it spells it: blanks, hour of one or two digits, colon, two-digit minute, dash, the same again, in 24-hour range |
| `ScheduleGrammar.WrittenIff` | manager/schedules.py:20-31 | a text is accepted, and means given windows, exactly when it is one to sixteen parts between semicolons that spell them |
| `ScheduleText.WindowsAreThoseWritten` | manager/schedules.py:75-78 | slicing the normalised text gives the windows the user wrote, each once, in first-occurrence order |
| `ScheduleText.NormalFormIsWritten` | manager/schedules.py:19-32 | the normal form is itself accepted and reads as the deduplicated windows |
| `ScheduleText.NormalFormRoundTrip` | manager/schedules.py:19-32 | normalising is idempotent, keeps the windows, and yields 11 to 191 characters, within the 512-character column |
| `ScheduleText.ReadWindowText` | manager/schedules.py:24-31 | the formatted text of any window reads back as that window |
| `ScheduleText.DuplicatesDoNotMatter` | manager/schedules.py:92-99 | dropping repeated windows changes `active` at no minute of any zone |
| `PolicyEngine.DecisionAt` | manager/policy_engine.py:35-67 | the loop, the in-place sort and the precedence chain compute the specified decision, which allows exactly when no profile blocks, no block rule runs, and a controlled profile has an allow rule running |
| `PolicyEngine.DecideMeansAllowed` | manager/policy_engine.py:47-67 | the precedence chain over sorted rules equals that order-free statement |
| `PolicyEngine.DecisionForgetsRuleOrder` | manager/policy_engine.py:38-57 | verdict, reason, running rules, block-over-allow conflict and the set of rules to review do not depend on the order of the rules |
| `PolicyEngine.UniqueWinner` | manager/policy_engine.py:46-50 | per action there is a winner exactly when a rule of it runs: the one with the highest priority, then of the device rather than a group, then with the lowest id |
| `PolicyEngine.ReasonIsTrue` | manager/policy_engine.py:47-66 | the reason names what decided: the first blocking profile, else the winning block rule, else the controlled profile with the winning allow rule or its default, else the winning allow rule, else nothing |
| `PolicyEngine.ConflictsAreTrue` | manager/policy_engine.py:51-55 | a block-over-allow conflict is listed exactly when both actions run, with their winners, and a review exactly when an enabled rule is invalid, with those rules |
| `PolicyEngine.PriorityNeverChangesVerdict` | manager/policy_engine.py:71-75 | changing priorities never changes allowed versus denied |
| `PolicyEngine.BlockAlwaysDenies` | manager/policy_engine.py:58-59 | inserting a running block rule anywhere denies |
| `PolicyEngine.RuleNextChange` | manager/schedules.py:116-120 | an invalid rule raises, a disabled one has no change, any other gives the search result |
| `PolicyEngine.EarliestChange` | manager/policy_engine.py:104-114 | the least flip of any enabled valid rule between cursor and limit, None exactly when there is none |
| `PolicyEngine.NextTransition` | manager/policy_engine.py:99-117 | the jump search returns c exactly when c is the first minute of the next eight days with another verdict and at most 2048 rule flips lie up to c; any zones, any mix of valid, invalid and disabled rules |
| `TransitionBudget.FlipsWithinBudget` | manager/policy_engine.py:101-117 | for fixed offsets, eight days hold at most sixteen flips per window of the enabled rules |
| `TransitionBudget.CapHidesNothing` | manager/policy_engine.py:103-117 | so the cap never hides a transition when the enabled windows number at most 128 |
| `TransitionBudget.EightRulesHideNothing` | manager/policy_engine.py:103-117 | in particular with at most eight enabled rules of at most sixteen windows |
| `TransitionBudget.CapCanHideTransition` | manager/policy_engine.py:103-117 | thirteen concrete rules whose transition after six days lies behind more than 2048 flips |
| `EffectivePolicy.Evaluate` | manager/policy_engine.py:79-123 | verdict, eligibility (flag, invalid rules, shared address, unusable address) and transition of one device |
| `EffectivePolicy.EligibleIffSoleHolder` | manager/policy_engine.py:87-98 | denied and eligible means being the only registered holder of the text of an enforceable address, unflagged and with valid rules |
| `Addresses.LinkLocalPrefix` | manager/policy_engine.py:96 | the link-local test is the ten-bit prefix of fe80::/10 |
| `EffectivePolicy.BlockedIps` | manager/policy_engine.py:140-141 | lists exactly the stored texts that are stored for a single registered, denied, eligible device, each once, in text order |
| `EffectivePolicy.BlockedHeldAloneIff` | manager/policy_engine.py:87 | as an address every blocked text belongs to one device if and only if no device stores a blocked address in another spelling |
| `EffectivePolicy.AllowedDeviceIsBlockedToo` | manager/policy_engine.py:87 | two concrete devices, one denied and one allowed, that hold one address in two spellings: the text of the denied one is blocked |
| `LivePresenceInvariant.StepKeepsInv` | network/live_presence.py:50-178 | every step of every thread keeps the protocol invariant |
| `LivePresenceInvariant.RunKeepsInv` | network/live_presence.py:50-178 | so every state of every interleaving satisfies it |
| `LivePresenceSafety.NothingRunsAfterStop` | network/live_presence.py:63-88 | after stop returned and until a start takes effect no thread is in a scan, a callback or the reader, and no enabled step does such work |
| `LivePresenceSafety.OneScanAtATime` | network/live_presence.py:127-142 | at most one thread is between the stopped test and the release, and it finds no other scan running |
| `LivePresenceSafety.SafetyPathIsNeverLost` | network/live_presence.py:154-171 | while not stopped, a safety timer is armed or a thread is on its way to schedule one, whatever raises |
| `LivePresenceSafety.OnePendingTimerPerKind` | network/live_presence.py:111-120 | at most one event timer and one safety timer are pending |
| `LivePresenceEvents.EventIsHandled` | network/live_presence.py:90-120 | while the service is not stopped, a line from the monitor is handled in at most four steps of the reader: no event, and it is ignored; an event, and it is written exactly if it is confirmed and leaves an event timer armed |
| `LivePresenceEvents.ReaderComesUp` | network/presence.py:121-136 | a started reader whose child starts and lives is reading after four steps, unless the service is stopped |
| `LivePresenceEvents.ReaderStaysInService` | network/presence.py:144-154 | a reader in service stays in service until its child dies or the service is stopped |
| `LivePresenceEvents.NoChildOutlivesReader` | network/presence.py:155-174 | no child runs without the reader that started it, so none is left when stop has returned |
| `LivePresenceEvents.AskedReaderStartsNoChild` | network/presence.py:121-123 | a reader that is asked to stop before it starts its child does not start one |
| `LivePresenceTimers.ArmedTimerScans` | network/live_presence.py:122-171 | an armed timer of either kind runs one scan in at most ten steps of its own, unless the service is stopped; it notifies exactly if the scan returned and there is a callback, and a safety timer is armed again |
| `LivePresenceTimers.HintArmsTimer` | network/live_presence.py:111-120 | a request for a reconcile leaves an event timer armed, unless the service is stopped |
| `LivePresenceTimers.JoinedTimerNeverFires` | network/live_presence.py:77-83 | a timer that stop joins before its interval is over never fires |
| `LivePresenceStart.StartTakesEffectIff` | network/live_presence.py:50-61 | a start of a stopped service ends with it running, a reader thread started and a safety timer armed, or, exactly when that thread could not be started, stopped as before |
| `LivePresenceStart.SecondStartIsIdle` | network/live_presence.py:50-53 | a start of a running service changes nothing |
| `LivePresenceStart.NobodyIsStuck` | network/live_presence.py:127-171 | in every reachable state the chain of waits from any thread with work left ends within two waits at a thread that has a step |
| `LivePresenceStop.StopNeverDeadlocks` | network/presence.py:96-119 | as long as stop has not ended, the chain of waits that starts at it ends within three waits at a thread that waits for nobody and has a step, other than receiving a line, that lowers a rank of what stop still waits for; so a reader it joins is not stuck on the pipe of a living child |
| `LivePresenceStop.StopCanEnd` | network/live_presence.py:63-88 | from every reachable state inside stop, fewer than 1300 further steps of existing threads, none of them the arrival of a line, end it |
| `LivePresenceReturn.StopReturnsIff` | network/presence.py:111-116 | in every run a call of stop returns, rather than raises, exactly when the reader is not a thread whose start raised |
| `LivePresenceReturn.StopCanLeaveScanRunning` | network/live_presence.py:64-88 | a concrete run in which start is undone and stop then raises, while the timer left behind is inside its scan and holds the reconcile lock |
| `DiscoveryService.StepKeepsInv` | network/discovery_service.py:78-84 | every section and every call keeps the invariant that ties flag, token, boundary and writes |
| `DiscoveryService.RunKeepsInv` | network/discovery_service.py:131-229 | so it holds in every interleaving of scans and cancels |
| `DiscoveryService.SingleFlight` | network/discovery_service.py:131-136 | at most one scan is between setting and clearing the running flag |
| `DiscoveryService.AcceptedCancelPreventsWrite` | network/discovery_service.py:157-159 | a scan during which cancel returned True writes no device and never has a complete snapshot |
| `DiscoveryService.CommitIsNeverInterrupted` | network/discovery_service.py:157-170 | past the boundary cancel returns False and changes nothing, the snapshot is not cancelled, and unless it failed the scan ends with its one device transaction committed |
| `DiscoveryService.CancelReturnsTrueBeforeBoundary` | network/discovery_service.py:78-84 | cancel returns True exactly while an active scan has not crossed the boundary |
| `DiscoveryOutcome.ScanOutcome` | network/discovery_service.py:140-213 | the exact end of every scan in every interleaving, from what it met: it crosses exactly if its token is not cancelled at the boundary, it is written exactly if the write succeeded, and its snapshot is the report complete or not, cancelled, or failed, accordingly |
| `DiscoveryOutcome.RejectedIffBusy` | network/discovery_service.py:131-136 | a scan is turned away exactly when another one is under way as it begins |
| `DiscoveryOutcome.LastSnapshotIsShown` | network/discovery_service.py:214-216 | the service shows the snapshot of the scan that last stored one |
| `DiscoveryOutcome.TokenIsCancelledIff` | network/discovery_service.py:78-84 | a token is cancelled exactly by its caller or by a cancel that returned True while it was in use |
| `DiscoveryOutcome.AcceptedIff` | network/discovery_service.py:78-84 | a scan counts as cancelled by the service exactly when such a cancel met it under way |
| `DiscoveryOutcome.EveryScanEnds` | network/discovery_service.py:131-237 | a scan takes at most eight steps, always has a next one, and waits for nobody |
| `DiscoveryOutcome.IdleServiceIsClean` | network/discovery_service.py:228-232 | between scans the service holds no token and no commit is under way |
| `DiscoveryMerge.DiscoveredHost.Take` | network/discovery.py:95-111 | overwriting a kept host with another one leaves the specified combination and the other host untouched |
| `DiscoveryMerge.Place` | network/discovery.py:89-94 | the first kept host that matches absorbs the new one, otherwise it is appended |
| `DiscoveryMerge.MergeDiscovery` | network/discovery.py:80-112 | the in-place loop over distinct host objects leaves the values of the specified fold |
| `DiscoveryMerge.ResultIsApart` | network/discovery.py:89-94 | no two entries of the result could still be merged; what that means is EntriesDiffer |
| `DiscoveryEntries.EntriesDiffer` | network/discovery.py:89-91 | two entries with one address and valid MAC both name an interface, and different ones |
| `DiscoveryEntries.NamedPaths` | network/discovery.py:80-91 | the result has exactly one entry for each address, MAC and named interface that was observed, and no other |
| `DiscoveryEntries.UnnamedPaths` | network/discovery.py:83-91 | an entry without interface is there exactly when no observation of its address and MAC names one |
| `DiscoveryEntries.InterfacesStayApart` | network/discovery.py:83 | two observations that name different interfaces are represented by different entries |
| `DiscoveryEntries.EntriesSummarise` | network/discovery.py:86-112 | every observation belongs to one entry, and each entry says what its observations say: text by last strong, else first given value; state of the first confirmed one; latest latency and method; union of tags, sorted union of ports, services in order of first occurrence |
| `DiscoveryMac.ValidMacIff` | network/discovery.py:70-73 | a text is a valid MAC exactly when it writes six pairs of hexadecimal digits, not all zero, in any case, with colons or dashes and blanks around |
| `DiscoveryMerge.MergeIsIdempotent` | network/discovery.py:80-112 | merging the result again changes nothing |
| `DiscoveryMerge.EvidenceIsConserved` | network/discovery.py:95-111 | per address and valid MAC the ports, services, source tags and whether anything was confirmed are the same before and after |
| `DiscoveryMerge.EveryObservationIsCovered` | network/discovery.py:80-112 | every observation is represented by an entry with its address, its valid MAC, and its interface if it had one |
| `FirewallBase.NormalizeLocalIps` | firewall/base.py:14-32 | the loop with its membership test and final sort computes the normal form, or raises |
| `FirewallBase.NormalFormMeaning` | firewall/base.py:14-32 | a normal form exists exactly when all texts are local, and is the increasing list of the addresses they denote |
| `FirewallBase.NormalFormOrder` | firewall/base.py:23-32 | IPv4 before IPv6, and lower before higher within a family |
| `FirewallBase.NormalFormIsCanonical` | firewall/base.py:23-32 | two normal forms are equal exactly when the same addresses are denoted, whatever order, repetition or spelling |
| `FirewallBase.NormalizeIsIdempotent` | firewall/base.py:14-32 | normalising a normal form changes nothing |
| `FirewallBackends.NftablesBackend.Apply` | firewall/backends.py:107-169 | through install, upgrade and update: an error exit leaves everything that is blocked as it was, a timeout that or the whole target, success exactly the normalised input, the IPv4 addresses in one set and the IPv6 addresses in the other; success is certain when no command fails |
| `FirewallBackends.ExactlyIsSplit` | firewall/backends.py:76-84 | the written table holds each address once, as canonical text, in the set of its family |
| `FirewallBackends.NftablesBackend.Rollback` | firewall/backends.py:171-188 | clears both sets or, when it raises, changes nothing; it raises only if a command failed |
| `FirewallBackends.NftablesBackend.ReadBlockedIps` | firewall/backends.py:12-60 | a read that returns gives the increasing list of exactly what the kernel blocks |
| `FirewallBackends.ReadsAsIsUnique` | firewall/backends.py:12-60 | a kernel state reads back in one way only |
| `FirewallBackends.ExactlyReadsAs` | firewall/backends.py:107-169 | a written table reads back as exactly the normalised input |
| `FirewallBackends.MisreadInstallIsExactIff` | firewall/backends.py:119-125 | when the listing wrongly reports a missing table, the install leaves exactly the input if and only if all that was blocked before is in it |
| `FirewallEngine.FirewallEngine.Sync` | firewall/engine.py:55-152 | an unverified or host topology, or a gateway without forwarding, is refused and touches nothing; an applied success has read the kernel back equal to policy minus protected texts, and with all texts local it does succeed unless a command of the write or the read-back failed; a failure with recovery restores the snapshot or records a recovery error, the latter only if some command failed meanwhile or the table was unreadable; it writes nothing but the snapshot and never leaves a partial set |
| `FirewallEngine.FirewallEngine.WriteGuarded` | firewall/engine.py:64-137 | snapshot, write, read-back and recovery: what success, each failure and the record of it mean |
| `FirewallEngine.FirewallEngine.ApplyAndVerify` | firewall/engine.py:77-86 | success with effect means the kernel reads as the normalised desired set, and with all texts local only a failed command prevents success |
| `FirewallEngine.FirewallEngine.Recover` | firewall/engine.py:94-121 | given a snapshot, succeeds unless a command fails during the recovery, and success means the kernel reads as the snapshot; at most one write, of the snapshot |
| `FirewallEngine.FirewallEngine.DetectDrift` | firewall/engine.py:154-190 | no drift means the kernel reads as policy; drift records one event, and without a read error means it does not; a read error means that the backend is disabled, the table is unreadable or a command failed; nothing is written |
| `FirewallEngine.SnapshotIsNormal` | firewall/engine.py:66-75 | a snapshot read back is already in normal form, so writing it back writes exactly it |
| `FirewallEngine.RewriteKeepsWhole` | firewall/engine.py:106-119 | writing the snapshot, however it ends, leaves the old state, the policy or the snapshot |
| `FirewallEngine.ProtectionIsTextual` | firewall/engine.py:59-61 | no protected address is blocked if and only if policy never spells one differently from the protected text |
| `FirewallEngine.RespelledAddressIsBlocked` | firewall/engine.py:59-61 | a concrete IPv6 address of the host itself, stored by policy in another spelling, is protected and blocked all the same |
| `Enforcement.SyncPolicy` | firewall/engine.py:55-152 | after an applied success the kernel drops exactly the addresses denoted by the unprotected texts stored for a single registered, denied, eligible device |
| `AutoName.NumberedIsInjective` | manager/device_manager.py:474-475 | distinct counters print distinct candidate names |
| `AutoName.FreeFrom` | manager/device_manager.py:473-475 | some candidate is free for every finite set of names, and the result is the first one |
| `AutoName.ChosenIsFirstFree` | manager/device_manager.py:472-476 | the name is title and suffix, or the first free one of those numbered from 2 |
| `AutoName.BaseOfTitle` | manager/device_manager.py:469-471 | the title part is what is left of the allowed characters between spaces, at most 80, or "Device" |
| `AutoName.CleanTitleIsKept` | manager/device_manager.py:471 | a clean title of at most 80 characters is kept as it is |
| `AutoName.KeepOfOne` | manager/device_manager.py:471 | kept are ASCII letters and digits, underscore, full stop, space and hyphen, and nothing else |
| `AutoName.KeepOfParts` | manager/device_manager.py:471 | cleaning goes character by character, in order |
| `AutoName.DecimalPrints` | manager/device_manager.py:476 | the counter is printed in decimal, without leading zeros |
| `AutoName.SuffixOfMac` | manager/device_manager.py:472 | the suffix of a MAC in colon notation is its last three octets |
| `AutoName.AutoName` | manager/device_manager.py:467-478 | the loop terminates with a name outside the set and adds exactly it |
| `InventoryModel.Holder` | manager/device_manager.py:44-53 | a lookup by name or hardware address returns a row that holds the text, and None exactly when no row does |
| `InventoryModel.PickIsFirstBest` | manager/device_manager.py:512-514 | the representative observation of a group is the first of those no other beats: address class, then current address, then text order |
| `InventoryScanEffects.PickPrefersIPv4` | manager/device_manager.py:512-514 | that observation shows an IPv4 address if any does, else a routed IPv6 address, else a link-local one; within the kind the present address if observed again, then the first in order |
| `InventoryIdentity.FindIffResolves` | manager/device_manager.py:48-53 | own address first and alias second finds exactly the device to which the hardware address resolves |
| `InventoryIdentity.RegisterKeeps` | manager/device_manager.py:515-525 | registering a group keeps names and addresses unique, adds exactly the chosen name, and changes the lookup of its own key only |
| `InventoryIdentity.ApplyGroupsKeep` | manager/device_manager.py:509-542 | applying a scan's groups keeps every earlier lookup |
| `InventoryIdentity.ReconcileKeeps` | manager/device_manager.py:480-551 | a whole reconcile keeps the inventory valid; expiry and the address check leave identities alone |
| `InventoryIdentity.UpdateKeeps` | manager/device_manager.py:304-370 | a committed edit keeps names and hardware addresses unique |
| `InventoryIdentity.DeleteKeeps` | manager/device_manager.py:553-566 | deleting removes exactly the resolutions of that device |
| `InventoryIdentity.MergeRedirectsCandidate` | manager/identity_manager.py:51-84 | a committed merge redirects exactly the candidate's hardware addresses to the retained device |
| `InventoryIdentity.SplitMovesOneAlias` | manager/identity_manager.py:86-110 | a committed split redirects exactly the one alias |
| `InventoryIdentity.IdentitiesStayUnique` | manager/device_manager.py:48-53 | after every run of add, edit, delete, presence, sync, reconcile, merge, split and resolve, each hardware address resolves to at most one device, which the lookup finds, and names are distinct |
| `InventoryEvidence.MergeUnitesEvidence` | manager/identity_manager.py:69-79 | the retained device's address paths are the keyed union with earliest first_seen and latest last_seen, nothing stays with the candidate, others are untouched |
| `InventoryEvidence.SplitMovesEvidence` | manager/identity_manager.py:101-102 | exactly the paths observed under the alias move, unchanged |
| `InventoryEvidence.MoveOneKeepsRest` | manager/identity_manager.py:70-79 | moving one path at a time, in any order, works towards the same union |
| `InventoryScan.GroupingIsPartition` | manager/device_manager.py:499-508 | the groups have distinct keys and hold exactly the usable observations, each under the address of its device |
| `InventoryScan.GroupsLeaveTraces` | manager/device_manager.py:509-542 | applying the groups one after the other leaves every group its full trace: later groups undo nothing, and devices outside the scan are as they were |
| `InventoryScan.ScanIsRecorded` | manager/device_manager.py:480-551 | after a reconcile every usable observation of a known device has that device online and seen now and its path recorded with the earliest first_seen kept; no recorded path is lost |
| `InventoryScan.ScanShowsBestAddress` | manager/device_manager.py:512-531 | the address shown for each observed device is the best one of this scan, or the one before if none was observed |
| `InventoryScanEffects.ScanTakesOfflineIff` | manager/device_manager.py:543-550 | a scan takes an online device offline exactly when it is complete, observed nothing of it under any of its addresses, and last_seen is at least max(1, grace) seconds ago |
| `InventoryScanEffects.ScanRegistersIff` | manager/device_manager.py:515-525 | an unknown usable observation is registered exactly when automatic registration is on; without it no device is added |
| `InventoryScanEffects.ScanEvidenceIsObserved` | manager/device_manager.py:541-542 | every path that a scan adds or touches was observed in it, of that device, on that interface, with the recorded MAC |
| `InventoryScanEffects.ScanFlagsIff` | manager/device_manager.py:551 | after a scan a device is flagged exactly if it was before, or shares an address with another one, counting the address each is online under and those it was observed with |
| `InventoryScanEffects.SyncIsRecorded` | manager/device_manager.py:427-447 | a sync records the path of each host that refreshes a device, and no others |
| `InventoryPresence.SetPresenceExplained` | manager/device_manager.py:372-416 | one presence update logs exactly the change of the flag |
| `InventoryEffects.PresenceUpdateEffect` | manager/device_manager.py:372-416 | an online update stores the address it is given, or keeps the old one, and sets the flag and the time; an offline one changes the flag only; no other row changes apart from its conflict flag |
| `InventoryEffects.PresenceUpdateFlags` | manager/device_manager.py:407 | an online update flags exactly the devices that then share an address online, an offline one flags nobody |
| `InventoryEffects.UnknownPresenceIsIgnored` | manager/device_manager.py:374-381 | an update of an unknown or invalid hardware address changes nothing |
| `InventoryPresence.ReconcileExplained` | manager/device_manager.py:480-551 | one reconcile logs exactly the changes of the flags |
| `InventoryPresence.LogExplainsPresence` | manager/device_manager.py:372-551 | replaying what a run logged gives back every online flag at every point of the run, each device's joins and leaves alternating, exactly when no call of it drops or readdresses an online device |
| `InventoryPresence.ApplyShows` | manager/device_manager.py:304-370 | per call: the log explains the new flags, unless the call deletes, merges away or readdresses an online device, and then some flag changed without an event |
| `InventoryPresence.MergeExplainedIff` | manager/identity_manager.py:59-84 | a committed merge breaks that replay exactly when it drops an online candidate |
| `InventoryLeaves.ExpireMeaning` | manager/device_manager.py:543-550 | expiry takes exactly the overdue online devices offline and changes nothing else |
| `InventoryLeaves.GroupsCover` | manager/device_manager.py:499-508 | every usable observation lands in the group of its device, and no group is empty |
| `InventoryLeaves.RunCovers` | manager/device_manager.py:487-494 | under a clock that does not run backwards, and with merges into an online device absorbing no later sighting, the last_seen of every online device is at least as late as every confirmed observation of it |
| `InventoryLeaves.LeaveMeansUnseen` | manager/device_manager.py:543-550 | in such a run a leave written by reconcile implies that every confirmed observation of the device, aliases included, is at least max(1, grace) old; merges into an offline device are unrestricted |
| `InventoryMerges.LiveLeaveMeansUnseen` | network/live_presence.py:97-103 | the same with no assumption on times, for runs whose presence updates are all to online and whose merges drop no online candidate |
| `InventoryMerges.SurvivorIsRecent` | manager/device_manager.py:543-550 | an online device that a scan leaves online was seen by it or after its limit |
| `InventoryMerges.MergeAllowsEarlyLeaveIff` | manager/identity_manager.py:51-84 | after a merge a leave can fall inside the grace window of a sighting exactly when an online retained device absorbed a sighting later than its last_seen |
| `InventoryWitnesses.OfflineThenMergedLeavesEarly` | manager/device_manager.py:408-416 | a run from the empty inventory, with an explicit offline call before the merge, that ends in such a leave |
| `InventoryWitnesses.MergedTwiceLeavesEarly` | manager/identity_manager.py:59-84 | a run without offline calls that ends in such a leave, because its first merge drops an online candidate |
| `InventoryWitnesses.MergeCanLoseLeave` | manager/identity_manager.py:59-84 | a reachable committed merge that drops an online device and that the log does not explain |
| `InventoryConflicts.FlagConflictsSuffices` | manager/device_manager.py:55-73 | from any state the address check leaves every two online devices with one address flagged |
| `InventoryConflicts.SharersStayFlaggedIff` | manager/device_manager.py:55-73 | any two online devices with one address are both flagged at every point of a run exactly when every sync and every edit of it meets its condition; all other calls always do |
| `InventoryConflicts.UpdateStaysFlaggedIff` | manager/device_manager.py:304-370 | a committed edit of any fields keeps sharers flagged exactly when the address the online device ends with has no other online holder, or both are flagged |
| `InventoryConflicts.SyncRows` | manager/device_manager.py:427-461 | the row each device ends with after a whole sync, read off the inputs: the last address among the first hosts of the hardware addresses that resolve to it |
| `InventoryConflicts.SyncStaysFlaggedIff` | manager/device_manager.py:418-465 | a whole sync keeps sharers flagged exactly when no synchronised device ends with the address of another device that is or comes online, or both are flagged |
| `InventoryWitnesses.SyncCanMissConflict` | manager/device_manager.py:418-465 | a run from the empty inventory whose sync brings a device back with the address of an online one, and leaves both unflagged |
| `InventoryWitnesses.EditCanMissConflict` | manager/device_manager.py:345-351 | a run from the empty inventory whose edit gives an online device the address of another one, and leaves both unflagged |
| `InventoryConflicts.ResolveClearsIff` | manager/identity_manager.py:112-123 | a review that commits clears exactly that flag and leaves all online sharers flagged; for an online device it commits precisely when clearing is sound in this sense |
| `Inventory.Preferred` | manager/device_manager.py:512-514 | the scan for the minimum returns the specified representative |
| `Inventory.Inventory.CollectClaims` | manager/device_manager.py:57-64 | the claims dictionary lists a device under an address exactly when the device claims it |
| `Inventory.Inventory.CheckAddressConflicts` | manager/device_manager.py:55-73 | the loops over claims flag exactly the devices that share a claimed address |
| `Inventory.Inventory.RecordObservation` | manager/device_manager.py:76-90 | a confirmed path is created with both times, or refreshed keeping its first time |
| `Inventory.Inventory.UpdatePresence` | manager/device_manager.py:372-416 | leaves exactly the specified state and says whether the device is known |
| `Inventory.Inventory.SyncDiscoveredHosts` | manager/device_manager.py:418-465 | the host loop with its set of seen addresses leaves exactly the specified state |
| `Inventory.Inventory.CollectGroups` | manager/device_manager.py:499-508 | the grouping dictionary is the specified grouping |
| `Inventory.Inventory.ApplyOne` | manager/device_manager.py:509-542 | registers or refreshes exactly as specified, and the running set of names stays the set of stored names |
| `Inventory.Inventory.ExpireMissing` | manager/device_manager.py:543-550 | the expiry loop leaves exactly the specified state |
| `Inventory.Inventory.ReconcileDiscovery` | manager/device_manager.py:480-551 | the whole reconcile leaves exactly the specified state |
| `Inventory.Inventory.AddDevice` | manager/device_manager.py:173-246 | commits the new row or raises for the specified reason with nothing changed |
| `InventoryEffects.AddEffect` | manager/device_manager.py:173-246 | adding succeeds exactly when name and hardware address are valid and nobody has them, and stores an offline, unflagged row with them and the address |
| `InventoryEffects.UpdateSucceedsIff` | manager/device_manager.py:304-347 | an edit succeeds exactly when the new name and hardware address are valid and free or the own ones |
| `InventoryEffects.UpdateEffect` | manager/device_manager.py:304-370 | a committed edit stores exactly the fields given, in that row alone |
| `InventoryEffects.DeleteEffect` | manager/device_manager.py:553-566 | deleting drops that row and its paths alone, and needs the expected id if one is given |
| `InventoryEffects.UnknownNameIsNotFound` | manager/device_manager.py:318-321 | editing or deleting a name that nobody has raises not-found |
| `InventoryEffects.MergeEffect` | manager/identity_manager.py:51-84 | exactly when a merge commits, and that it drops the one row and leaves all others as they were |
| `InventoryEffects.SplitSucceedsIff` | manager/identity_manager.py:86-98 | exactly when a split commits |
| `InventoryEffects.SplitEffect` | manager/identity_manager.py:86-110 | a committed split adds an offline row with the alias and the name, and flags the retained device |
| `InventoryEffects.ResolveEffect` | manager/identity_manager.py:112-123 | exactly when a review commits, and that it clears the one flag |
| `Inventory.Inventory.WriteName` | manager/device_manager.py:322-331 | writes a free, non-empty name or raises without writing |
| `Inventory.Inventory.WriteMac` | manager/device_manager.py:333-343 | writes a hardware address no other device resolves or raises without writing |
| `Inventory.Inventory.UpdateDevice` | manager/device_manager.py:304-370 | checks while it writes; any failure restores the state it started from |
| `Inventory.Inventory.DeleteDevice` | manager/device_manager.py:553-566 | deletes the row with its aliases and paths, or raises |
| `Inventory.Inventory.MoveEvidence` | manager/identity_manager.py:69-79 | the row-by-row loop leaves the keyed union |
| `Inventory.Inventory.Merge` | manager/identity_manager.py:51-84 | refuses for the specified reasons, rolls back when the alias key exists, or commits the specified merge |
| `Inventory.Inventory.Split` | manager/identity_manager.py:86-110 | refuses or commits the specified split |
| `Inventory.Inventory.ResolveConflict` | manager/identity_manager.py:112-123 | refuses or commits the specified resolution |

## Left out

- User interface, translations, configuration, logging, topology, monitoring counters, profile and rule editing: plumbing without a hard property.
- Subprocesses, /proc and /etc/localtime, packet capture, Nmap, getent and the parsing of nft output: represented by values or failures.
- The IANA zone database and offsets that are not whole minutes; schedule instants are whole minutes, so the truncation of seconds is not modelled.
- The legacy calls of `active` with a bare time of day, and the parsing of weekday text beyond the exact all-days spelling that the shortcut tests.
- Digits and spaces outside ASCII in schedule text, which Python's pattern accepts.
- `lru_cache`: cached functions are functions of their arguments.
- Sorting of address text and of interface text: an order given as a parameter (`BlockedIps`, `Preferred`).
- Text of reasons, event descriptions, confidence values, vendor, hostname and type guesses.
- Observation records, service evidence, scan records, and the events for changed addresses, flags, edits, merges and splits: the log of the model holds joins and leaves only.
- `update_last_seen`, the runtime identity resolver, and the merge candidates that are offered for review.
- The numbers of new, updated and expired devices that reconcile and sync return.
- Reuse of row ids by SQLite after deleting the newest row: ids of the model are never reused.
- Policies that block a merge are one Boolean argument, and a raise by the database other than a key conflict is not modelled.
- Address text stored as the empty string counts as no address.
- InventoryLeaves.LeaveMeansUnseen: an observation belongs to the device that its address resolves to when it is made; after a split, earlier observations stay with the retained device. Runs in which a merge folds a sighting into an online device whose last_seen is earlier are excluded: `MergeAllowsEarlyLeaveIff` shows that such a merge is what an early leave takes.
- Live presence: `start` and `stop` do not overlap each other, `stop` is not called from a timer, reader or callback thread, and starting a timer thread does not fail (starting the reader thread may).
- Live presence: waiting for and killing the child process is one step; that every fair schedule ends `stop` is not stated, only that it never deadlocks and can always be ended by existing threads.
- DiscoveryMerge.MergeDiscovery: the source text of a host is the set of its tags, so a text that repeats one tag is identified with the single tag, and the hosts are distinct objects.
- FirewallEngine.FirewallEngine.Sync: recording an event is assumed to succeed, and nobody else changes the kernel between two commands of one call.
- FirewallBackends.NftablesBackend.Apply: that a table block adds to an existing table is an assumption about nft, not part of the source.
