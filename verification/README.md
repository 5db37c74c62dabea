# Verification of the panel's state machines, editors and algorithms

A Dafny model of the logic of a browser-side Kubernetes panel that lives in its dependency-free modules
and small state machines, with proofs of what the code and its comments promise. Six groups:

1. **The windows of several browser tabs over one table** (`TabProtocol`, `TabRuns`, `TabView`, `TabZ`,
   `SshTerminalStore`, `ZScale`). Tabs share a localStorage table by merging on write, with tombstones for
   deleted ids and a removed set of their own. `TabProtocol` gives every entry point as a function of tab
   and disk, `SshTerminalStore` is the store as the object it is, each method proved to make that step, and
   `TabRuns` states what holds in every run of any number of tabs; `TabView` says what a tab shows. A tab that takes no step for a while is a
   frozen tab, so staleness is part of every run. `ZScale` is the in-place allocator of stacking order.
2. **Timers, retries and awaits** (`DeployFastPoll`, `ClusterWatch`, `WatchFamily`, `MetricsSampler`,
   `MetricsWindow`). Timers, connections, relists and suspended ticks are explicit state, and the theorems are
   about all runs in which the environment calls back in any order.
3. **A cache that follows a log** (`WatchCache`): the list the pages show refines a finite map, and stays
   right over reconnects that replay part of the log.
4. **Cron** (`Cron`, `NextRuns`, `MinuteScan`, `Calendar`): the field parser against a declarative reading of
   each field, and the day-first search against a scan of every minute.
5. **Editors** (`ContainerTokens`, `EnvRefs`, `EnvShapes`, `SubContainer`, `Volumes`, `MountGate`, `GateRules`,
   `GateCross`, `OpenedPod`, `SecretEditing`, `IngressRules`): what goes from Kubernetes objects through a form and
   back, with the exact condition under which it comes back as it was, and what the form's gates guarantee.
6. **Algorithms** (`TaskbarFit`, `MergePatch`, `PatchEffects`, `Topology`): a fitting loop against arbitrary
   measurements, patches under RFC 7396, assignment of pods by longest name.

`Wrappers`, `Seqs`, `Maps`, `OrderedMap`, `JsText` and `Json` hold what the sources take from JavaScript: arrays,
`Map`, strings with `trim` and `split`, and JSON values.

Where the source changes things step by step the model does too: classes with the source's fields, methods
with its loops, each proved against a function on which the theorems are stated. What such a function stands for
is said without it: by keys, rows, lists and dates (`TabView`, `GateRules`, `GateCross`, `EnvShapes`,
`PatchEffects`, and lemmas beside the other functions). `dafny verify dfyconfig.toml` checks the whole project.

Where code and comment disagree the model follows the code:

- `parseCron` is said never to throw. `'constructor'` and `'__proto__'` are found by `in` on the shortcut
  table and make it throw (`Cron.ParseCron`, `ConstructorThrows`).
- A range that runs backwards wraps around in every field, not only in day of week (`Cron.ParseList`,
  `BackwardRangeWraps`).
- A cap trip during calm leaves the suppression on for the rest of that calm
  (`DeployFastPoll.CalmLiftsSuppressionIff`, `CalmTripMissesNextDeploy`).
- A reattached session whose id this tab once closed is not persisted (`TabRuns.ReattachPersistsIff`).
- The family channel's comment says that a denied or expired resource counts no failure. The stream reader calls
  `onClose` after an abort made inside `onMessage`, and that call counts one
  (`WatchFamily.DeniedLineCountsUnlessIgnored`, with a run in `DeniedLineIsCountedAfterAll`); any other error line
  counts two (`OtherLineCountsTwice`).
- Arguments are said to come back when they have no line break; one with white space at an end does not
  (`ContainerTokens.ArgsLosslessIff`).
- A recovery that bounces can fold one chip more than there are and than were folded (`TaskbarFit.OvershootIff`,
  `RecoveryAfterAChipWent`).
- `diffMap` never drops a key whose name every object inherits (`MergePatch.DiffAppliesIff`). Unsetting a default
  StorageClass leaves its beta key, and a default key listed among the annotations beats the switch
  (`MergePatch.ScDefaultTakesIff`, `BetaDefaultStays`, `ListedKeyBeatsTheSwitch`).
- A Secret's binary key that changed since its page was shown is encoded twice
  (`SecretEditing.StaleBinaryIsEncodedTwice`).
- Mounts of one volume are given each other's unmodelled keys (`SubContainer.UneditedMountsIff`,
  `SecondMountLosesItsPropagation`).
- The storage gate does not ask a row of unknown kind for its raw volume (`MountGate.VolumesMatchRowsIff`,
  `RawlessRowPasses`); rows read from a pod always carry it (`OpenedRowsCarryRaw`).
- The gate reports a volume that two containers share as a repeated name, so the form of such a pod opens with an
  error (`OpenedPod.OpenedPodPassesIff`, `SharedVolumeIsReported`).
- Pods by ReplicaSet are said to be grouped in the order of the ReplicaSet list, which holds only if the pods are
  in that order already (`Topology.ListOrderIff`, `PodsOverrideTheList`), and a longer workload name in another
  namespace takes pods away (`Topology.ShownInOwnNamespaceIff`, `LongerNameElsewhereTakesThePod`).

## Model

| member | source | states |
|---|---|---|
| TabRuns.PersistSpec | src/stores/sshTerminals.js:128-140 | persist is a merge: the ids on disk afterwards are those on disk or in memory, less the tab's own removed ones and the tombstoned; rows this tab holds are rewritten, all others stay byte for byte, no id twice |
| TabRuns.ActOnDisk | src/stores/sshTerminals.js:128-319 | every entry point of a tab touches the shared table only as a merge of its own windows: it drops an id only if that tab removed it, it is tombstoned, or it is being closed |
| TabRuns.TombsAfter | src/stores/sshTerminals.js:74-95 | the tombstones after any action: only a close adds one (and purges those past the age limit), only a reattach clears one |
| TabRuns.NoRevival | src/stores/sshTerminals.js:62-152 | in every run of any number of tabs, frozen ones included, no id is both tombstoned and on disk at the end of a turn, and every removed or tombstoned id is one that some tab closed |
| TabRuns.NeverClosedStays | src/stores/sshTerminals.js:126-140 | an id on disk that no tab ever closes stays on disk through every run, whatever stale tabs persist |
| TabRuns.HeldStays | src/stores/sshTerminals.js:74-86 | a tombstone outlives every run that neither reattaches the id nor lets it age past the limit |
| TabRuns.CloseIsFinal | src/stores/sshTerminals.js:206-213 | after a close, while the tombstone is held, the id is not on disk and no tab that loads or syncs shows it, whatever all tabs do |
| TabRuns.SyncShowsDisk | src/stores/sshTerminals.js:144-151 | a tab that handles a storage event shows row for row what a fresh page load shows |
| TabRuns.ReattachPersistsIff | src/stores/sshTerminals.js:240-262 | a reattached session is written to disk exactly when this tab has not itself removed the id before; with its window there and its popup alive nothing is written and it is on disk if it was |
| TabRuns.CloseThenReattachIsLost | src/stores/sshTerminals.js:206-250 | the counterexample the code allows: a session closed and reattached in one tab is shown until reload and then gone |
| TabView.FreshRow | src/stores/sshTerminals.js:97-104 | row by row in table order, a page load shows a minimised window for each row with an id and a server and without a tombstone, named after the server if it has no name, and nothing for any other row |
| TabView.SyncIsFreshRows | src/stores/sshTerminals.js:144-152 | a storage event changes the windows only, to as many as a page load would show |
| TabView.SyncTakesNew | src/stores/sshTerminals.js:144-151 | a row the tab has no window of comes in as on a page load |
| TabView.SyncKeepsStatus | src/stores/sshTerminals.js:142-151 | a row the tab has a window of keeps that window's status and z and follows the disk in the rest |
| TabView.PersistKeepsOrder | src/stores/sshTerminals.js:128-140 | what is saved is in order: the rows of the disk, then the windows that were not on it, less the removed and the tombstoned |
| TabView.SavedIsShown | src/stores/sshTerminals.js:128-140 | a saved window that was not closed shows on every page loaded next |
| TabView.AdoptionIff | src/stores/sshTerminals.js:176-200 | asking for a server opens a window for each live session not tombstoned and not closed here within 12 minutes, and for no other; a new terminal is started only when there is none |
| TabView.AdoptionLook | src/stores/sshTerminals.js:185-194 | the windows there were stay in place, the first session that may be adopted comes to the front open, the others are added minimised, each with its session's label |
| TabView.NewTerminalLook | src/stores/sshTerminals.js:154-159 | a new terminal is one open window after those there were |
| TabView.NewTerminalIsShown | src/stores/sshTerminals.js:154-159 | and it shows, minimised, on every page loaded next |
| TabView.CloseForgetsOnlyTheOld | src/stores/sshTerminals.js:27-31 | a close takes that window and no other; the log of closures keeps a week, the tab's own 12 minutes, and both drop what is older |
| TabView.ButtonsSetStatus | src/stores/sshTerminals.js:306-319 | minimise, restore and focus set that window's status to minimised, to open and not at all, and no other's |
| TabView.PopupStays | src/stores/sshTerminals.js:252-281 | a window sent to a popup is external, and asking for it again while the popup lives changes nothing |
| TabView.PopupComesBack | src/stores/sshTerminals.js:222-229 | when the popup is gone, by its farewell or found closed by the poll, its window is minimised and the reference dropped |
| TabView.FocusPopupReopens | src/stores/sshTerminals.js:265-281 | a popup not known to live is opened again; where that is blocked the window is minimised |
| TabView.SignOfLife | src/stores/sshTerminals.js:284-296 | a popup's sign of life makes its minimised window external, leaves any other alone, and makes a lost window again if it says which server it is of |
| TabView.ReattachLook | src/stores/sshTerminals.js:240-250 | a reattached session without a window comes back as one in a popup, with its label, named after the server if it has no name |
| TabView.RenameIsShown | src/stores/sshTerminals.js:311-317 | a new label, trimmed, is the window's and shows on every page loaded next |
| SshTerminalStore.LocalStorage.RecordTombstone | src/stores/sshTerminals.js:74-82 | the tombstone is dated now and only entries past the age limit go |
| SshTerminalStore.LocalStorage.ClearTombstone | src/stores/sshTerminals.js:88-95 | exactly one tombstone goes |
| SshTerminalStore.Store.constructor | src/stores/sshTerminals.js:118-126 | a new page holds the rows on disk, minimised, and nothing else |
| SshTerminalStore.Store.PersistWindows | src/stores/sshTerminals.js:128-140 | the two loops over a keyed table write what the merge specification says |
| SshTerminalStore.Store.SyncFromStorage | src/stores/sshTerminals.js:144-151 | the object makes the protocol's sync step |
| SshTerminalStore.Store.Add | src/stores/sshTerminals.js:154-159 | the object makes the protocol's step for a new window |
| SshTerminalStore.Store.AdoptSessions | src/stores/sshTerminals.js:185-194 | the loop gives every session a window and raises the first |
| SshTerminalStore.Store.Adopt | src/stores/sshTerminals.js:176-200 | adopting live sessions, or opening a new window, is the protocol's step |
| SshTerminalStore.Store.Close | src/stores/sshTerminals.js:206-213 | the object makes the protocol's close step |
| SshTerminalStore.Store.Reattach | src/stores/sshTerminals.js:240-250 | the object makes the protocol's reattach step |
| SshTerminalStore.Store.OpenInPopup | src/stores/sshTerminals.js:252-262 | the object makes the protocol's step for opening a popup |
| SshTerminalStore.Store.FocusPopup | src/stores/sshTerminals.js:265-281 | the object makes the protocol's step for focusing a popup, blocked windows included |
| SshTerminalStore.Store.OnPopupAlive | src/stores/sshTerminals.js:284-296 | the object makes the protocol's step for a popup's sign of life |
| SshTerminalStore.Store.OnPopupGone | src/stores/sshTerminals.js:302-305 | the object makes the protocol's step for a popup's farewell |
| SshTerminalStore.Store.RenameById | src/stores/sshTerminals.js:311-317 | the object makes the protocol's rename step |
| SshTerminalStore.Store.RestoreById | src/stores/sshTerminals.js:318-318 | the object makes the protocol's restore step |
| SshTerminalStore.Store.FocusById | src/stores/sshTerminals.js:319-319 | the object makes the protocol's focus step |
| TabZ.TakeZOnTop | src/stores/sshTerminals.js:121-121 | a fresh z is above every open window but the one it is for, and the others keep their order |
| TabZ.RaiseOnTop | src/stores/sshTerminals.js:318-319 | a raised window ends strictly above all other open ones |
| TabZ.RaiseInBand | src/stores/sshTerminals.js:318-319 | with at most 38 windows open the z given stays within the window band |
| TabZ.RunKeepsZ | src/stores/sshTerminals.js:118-344 | z values of open windows stay pairwise distinct and within the counter in every tab of every run |
| TabZ.RunStaysInBand | src/styles/zScale.js:27-41 | over every run in which no z is taken with more than 38 windows open, the open windows of every tab stay at or below the top of the window band |
| ZScale.RenumberKeepsOrder | src/styles/zScale.js:35-39 | renumbering keeps the order, breaks ties by position, gives distinct values just above the base |
| ZScale.RenumbersIff | src/styles/zScale.js:30-34 | items are renumbered exactly when the counter or an item has reached 99, and else stay while the counter goes up by one |
| ZScale.StrayComesBack | src/styles/zScale.js:22-25 | with at most 38 items open an item outside the band is back inside it after an allocation |
| ZScale.AllocateOnTop | src/styles/zScale.js:30-34 | the allocated value is above all other items and leaves their order alone |
| ZScale.AllocateInBand | src/styles/zScale.js:30-34 | the allocated value is at most the band's top exactly when no renumbering is due or at most 38 items are open |
| ZScale.WindowZAllocator.Renumber | src/styles/zScale.js:35-39 | the in-place loop over the sorted items writes each item base plus its rank, and the counter ends at base plus the count |
| ZScale.WindowZAllocator.NextZ | src/styles/zScale.js:30-34 | counter, items and result afterwards are those of the allocation specification |
| Cron.ParseList | src/utils/cron.js:26-62 | a field is accepted exactly when it is well formed; the set it gives has exactly the values some term names, by range, step and wrap-around |
| Cron.BackwardRangeWraps | src/utils/cron.js:54-58 | in every field but day of week a range hi-lo stands for hi up to the top and the bottom up to lo, although the comment says only day of week wraps |
| Cron.WeekdayNames | src/utils/cron.js:17-17 | the names sun to sat stand for 0 to 6, and 7 for Sunday as well |
| Cron.WeekdayRange | src/utils/cron.js:8-8 | a range of weekday names holds the days from the one to the other, across Saturday if the first comes later |
| Cron.StepsMean | src/utils/cron.js:38-57 | star/n counts from the field's first value to its last, a/n from a to the last, a-b/n from a to b |
| Cron.ShortcutsMean | src/utils/cron.js:18-21 | what each shortcut parses to: minute 0 of every hour, every midnight, and the midnights of Sundays, firsts of the month and firsts of January |
| Cron.AddRange | src/utils/cron.js:54-57 | the stepping loop adds exactly the values of the range that lie on the step |
| Cron.ParseFields | src/utils/cron.js:67-79 | five fields, each well formed; every set lies within its field's bounds and day 7 has become 0 |
| Cron.ParseCron | src/utils/cron.js:81-86 | shortcuts and their expansion, unknown @ words rejected, and the inherited names `constructor` and `__proto__`, on which the code throws although its header says it never does |
| Cron.ConstructorThrows | src/utils/cron.js:81-86 | at the text constructor the parser throws |
| Cron.ParsedInRange | src/utils/cron.js:10-16 | a parsed specification has only values within the bounds of their fields |
| Cron.StepOf | src/utils/cron.js:93-100 | a step is found exactly when the values run in that step to the end of the field |
| Cron.StepOfTerm | src/utils/cron.js:93-100 | the values of a term a/n do read back as step n |
| MinuteScan.ScanIsFirstRuns | src/utils/cron.js:219-255 | the minute-by-minute reference scan gives the first matching instants after now, in order, up to the count and the horizon |
| MinuteScan.FirstRunsUnique | src/utils/cron.js:219-255 | that description has one solution |
| NextRuns.RunsOf | src/utils/cron.js:219-255 | for every zone: at most count instants, after now and within the horizon, each reading back as a matching wall time, the wall times increasing; for a zone of fixed offset: exactly what the minute scan gives, so increasing instants too |
| NextRuns.ByWallInOrder | src/utils/cron.js:235-245 | the runs are increasing instants when the clock is not put back between now and the horizon |
| NextRuns.NextRuns | src/utils/cron.js:219-255 | the same from the expression text: soundness and order of wall times in every zone, the minute scan for a fixed offset, and [] for a rejected expression or a count that is not positive |
| NextRuns.SearchDays | src/utils/cron.js:227-254 | the day loop with its early exits leaves no earlier instant unseen |
| NextRuns.EveryFieldMatches | src/utils/cron.js:212-216 | with a day field left open a local minute matches exactly when each of the five fields holds its minute, hour, day, month and weekday |
| NextRuns.EitherDayMatches | src/utils/cron.js:5-7 | with both day fields restricted it matches exactly when it does with either of them alone |
| NextRuns.MondayOrTheFirst | src/utils/cron.js:212-217 | the midnights of 1sts and Mondays: Monday 8 January 2024 is one, Tuesday 9 January is not |
| NextRuns.YearlyRunIsFound | src/utils/cron.js:171-171 | the horizon is wide enough for a schedule that names one day of the year, 1 to 28 of a month: it has a next run at every moment, under every fixed offset |
| Calendar.DayNumberOfCivil | src/utils/cron.js:232-252 | civil dates and day numbers correspond one to one, as Date.UTC and its getters do |
| Calendar.CivilOfDayNumber | src/utils/cron.js:232-252 | and back: every date is read off its own day number |
| Calendar.WeekdayCycle | src/utils/cron.js:234-234 | day 0 is a Thursday, and weekdays go round by one a day |
| DeployFastPoll.Machine.Watch | src/composables/useDeployFastPoll.js:31-47 | the watcher's callback makes the machine's step for a busy or calm report |
| DeployFastPoll.Machine.OnFallTimer | src/composables/useDeployFastPoll.js:21-29 | the fall timer's callback makes the machine's step |
| DeployFastPoll.Machine.OnMaxTimer | src/composables/useDeployFastPoll.js:30-30 | the cap timer's callback makes the machine's step |
| DeployFastPoll.FastIffCapped | src/composables/useDeployFastPoll.js:34-41 | at every moment of every timed run fast mode is on exactly when the cap timer is armed, and never while suppressed |
| DeployFastPoll.FastEndsOnTime | src/composables/useDeployFastPoll.js:21-30 | fast mode goes off only maxFastMs after it came on, and then suppressed, or holdMs after the calm began |
| DeployFastPoll.RepeatsChangeNothing | src/composables/useDeployFastPoll.js:41-45 | a report that repeats the last one neither prolongs the cap nor restarts the hold |
| DeployFastPoll.DisposedIsStill | src/composables/useDeployFastPoll.js:50-50 | once the page is left no timer is armed and nothing changes |
| DeployFastPoll.FastIsBounded | src/composables/useDeployFastPoll.js:3-4 | no unbroken fast interval is longer than maxFastMs, however busy flaps |
| DeployFastPoll.CalmEndsFast | src/composables/useDeployFastPoll.js:21-29 | more than holdMs of unbroken calm ends fast mode |
| DeployFastPoll.CalmLiftsSuppressionIff | src/composables/useDeployFastPoll.js:4-5 | more than holdMs of unbroken calm lifts the suppression exactly when the cap did not trip within that calm |
| DeployFastPoll.TripsInCalm | src/composables/useDeployFastPoll.js:30-30 | whether the cap tripped inside a stretch of calm is seen of the poll: the suppression came on at some moment of it |
| DeployFastPoll.OrdinaryDeploy | src/composables/useDeployFastPoll.js:13-49 | a run for every length of deployment: fast from its start until holdMs after its end, then neither fast nor suppressed |
| DeployFastPoll.NoFastBeforeRest | src/composables/useDeployFastPoll.js:30-35 | after a cap trip fast mode does not return before a full holdMs of unbroken calm |
| DeployFastPoll.CalmTripMissesNextDeploy | src/composables/useDeployFastPoll.js:30-30 | a run for any length of calm after a trip in calm in which the next deployment stays slow |
| ClusterWatch.WatchController.DoOpen | src/composables/useClusterWatch.js:23-31 | opening aborts the previous connection and makes exactly one new one |
| ClusterWatch.WatchController.HandleFailure | src/composables/useClusterWatch.js:33-49 | a failure makes the controller's step: ignored when stopped, a relist for 410, else one more failure and a timer |
| ClusterWatch.WatchController.HandleRelistDone | src/composables/useClusterWatch.js:38-38 | the end of a relist reopens unless stopped |
| ClusterWatch.WatchController.DoStart | src/composables/useClusterWatch.js:52-52 | start makes the controller's step |
| ClusterWatch.WatchController.DoStop | src/composables/useClusterWatch.js:53-53 | stop makes the controller's step |
| ClusterWatch.ControllerIsSafe | src/composables/useClusterWatch.js:12-56 | in every interleaving of starts, stops, timers, relists and callbacks: off exactly when stopped, live without failures, degraded only with maxFailures of them, at most one connection alive, and while not stopped something is always outstanding |
| ClusterWatch.NoConnectionWhileStopped | src/composables/useClusterWatch.js:34-48 | nothing connects between a stop and the next start |
| ClusterWatch.FailuresInARow | src/composables/useClusterWatch.js:41-48 | without an open in between, the count is the number of ends, and the timer after an end has that count's delay |
| ClusterWatch.RetryDelaysGrow | src/composables/useClusterWatch.js:21-48 | the delays of failures in a row never shrink, and stay within maxMs, exactly under two conditions on the configuration; the default one meets both |
| ClusterWatch.DelaysDouble | src/composables/useClusterWatch.js:21-48 | the delays one by one: baseMs, twice the one before, none above maxMs, and a minute from the maxFailures-th failure on |
| ClusterWatch.EndOfConnection | src/composables/useClusterWatch.js:33-49 | a 410 counts nothing, drops any timer and asks for one relist; any other end counts one, sets the timer and degrades from the maxFailures-th on; a stopped controller hears nothing |
| ClusterWatch.StartAndStop | src/composables/useClusterWatch.js:52-53 | a start begins anew with one connection; a stop aborts it and leaves no timer |
| ClusterWatch.UsualRun | src/composables/useClusterWatch.js:23-52 | a run with a failed, an opened and an expired connection and what the controller ends up with |
| WatchFamily.FamilyChannel.OnConnect | src/stores/cluster/watch.js:110-124 | connecting asks for the resources that are not dropped |
| WatchFamily.FamilyChannel.HandleErrorLine | src/stores/cluster/watch.js:84-102 | an error line makes the family's step: drop the resource on 401 and 403, relist, abort, tell the controller |
| WatchFamily.ShownState | src/stores/cluster/watch.js:127-134 | in every run the state shown for a query is the controller's if some resource of it is not dropped, else off |
| WatchFamily.MixedStates | src/stores/cluster/watch.js:153-163 | how any states of the active watches of a key mix: degraded, then reconnecting, then live if all are, else off |
| WatchFamily.CodesOfALine | src/stores/cluster/watch.js:78-103 | 401 and 403, and no other code, drop the resource named and show it as off; 401, 403 and 410 ask for one relist; a second line, or one that names no resource of the family, does nothing |
| WatchFamily.ConnectsAgain | src/stores/cluster/watch.js:109-124 | a running channel connects when its timer fires and when its relist ends, asks for what is not denied and hears lines again |
| WatchFamily.StopForgetsDenials | src/stores/cluster/watch.js:146-153 | stopping forgets the denials: the next start asks for everything |
| WatchFamily.DeniedStaysOut | src/stores/cluster/watch.js:31-35 | a resource denied once is never asked for again while the family runs |
| WatchFamily.DeniedLineCountsUnlessIgnored | src/stores/cluster/watch.js:85-100 | the handler of a 401, 403 or 410 line counts no failure, but the stream's own close, called after the abort (src/api/client.js lines 659-671), counts one and sets a timer beside the relist: no failure is counted exactly when the line is not acted on or the channel is stopped |
| WatchFamily.OtherLineCountsTwice | src/stores/cluster/watch.js:95-101 | an error line of another code that is acted on counts two failures, by the handler and by the close of the stream |
| WatchFamily.RelistClearsTheTimer | src/composables/useClusterWatch.js:36-39 | the end of that relist clears the timer and reconnects without the denied resource; the failure stays counted |
| WatchFamily.DeniedLineIsCountedAfterAll | src/stores/cluster/watch.js:85-100 | a run from a fresh family, started, opened and answered 403: one failure counted, one relist under way and a timer set |
| WatchCache.UidKeyIdentifies | src/composables/useK8sQuery.js:29-35 | when two items get the same identity key |
| WatchCache.UidKeyReads | src/composables/useK8sQuery.js:29-35 | the identity is the uid, its own or else its metadata's, unless that is empty; then namespace and name, each its own or else its metadata's |
| WatchCache.EventEffect | src/composables/useK8sQuery.js:41-54 | one event on any list: a deletion takes out the first object of that identity, any other event writes its fields over that object's, which keeps the rest, or appends |
| WatchCache.ApplyRefines | src/composables/useK8sQuery.js:41-54 | one event on the list is one update or removal of the finite map the list stands for; keys stay distinct |
| WatchCache.FoldRefines | src/composables/useK8sQuery.js:41-54 | so is any stream of events |
| WatchCache.ReplayIsHarmless | src/stores/cluster/watch.js:103-106 | applying any suffix of an applied log again leaves the same map |
| WatchCache.ReplayMayReorder | src/composables/useK8sQuery.js:41-54 | but not always the same order: a log that swaps two items on replay |
| WatchCache.CacheAgreesWithLog | src/stores/cluster/watch.js:103-124 | with any deliveries and reconnects from older positions, a client back at its furthest position holds exactly that prefix of the log |
| WatchCache.DeliverTwice | src/composables/useK8sQuery.js:96-103 | a run of that kind, with the event that comes twice |
| MetricsSampler.MetricsSampler.ReloadWindow | src/stores/cluster/metrics.js:77-94 | the object makes the model's reload: nothing for the window's own cluster, else a new epoch and the stored samples |
| MetricsSampler.MetricsSampler.BeginTick | src/stores/cluster/metrics.js:95-102 | a tick up to its await: its three guards and the epoch it captures |
| MetricsSampler.MetricsSampler.EndTick | src/stores/cluster/metrics.js:103-113 | a tick after its await: dropped on another epoch, else push and persist |
| MetricsSampler.MetricsSampler.Start | src/stores/cluster/metrics.js:115-124 | the first consumer reloads, ticks and arms the timer |
| MetricsSampler.MetricsSampler.Stop | src/stores/cluster/metrics.js:125-131 | the last consumer clears the timer, the count never goes below zero |
| MetricsSampler.MetricsSampler.SetConnectedCluster | src/stores/cluster/clusters.js:57-67 | switching sets the cluster and reloads the window |
| MetricsSampler.SamplesStayHome | src/stores/cluster/metrics.js:55-62 | in every interleaving of suspended ticks, switches and consumers, every sample shown and every sample stored under a cluster's key is of that cluster; that a sample is of a cluster means that its tick began while that cluster was current |
| MetricsSampler.PushBounds | src/stores/cluster/metrics.js:104-112 | after a tick each window whose value was computed, cpu and memory alike, has at most 180 samples, none too old or invalid, the new one last, and is what is stored; the other window is as it was |
| MetricsSampler.WhatATickSaves | src/stores/cluster/metrics.js:70-113 | a tick that computed something saves both windows under the connected cluster and no other; one that computed nothing changes nothing |
| MetricsSampler.SwitchedAwayAndBack | src/stores/cluster/metrics.js:56-58 | a tick suspended over a switch away and back changes nothing when it resumes |
| MetricsSampler.SwitchShowsStored | src/stores/cluster/metrics.js:77-94 | connecting to another cluster shows exactly what is stored for it, in order, less the invalid and what is older than 15 minutes; connecting to the window's own cluster leaves it alone |
| MetricsSampler.SavedWindowComesBack | src/stores/cluster/metrics.js:70-94 | a saved window comes back after a switch away and back, less what is by then too old |
| MetricsSampler.NoTickWhileHeld | src/stores/cluster/metrics.js:95-101 | from the moment a switch is held until it is let go no tick begins, whatever else happens |
| MetricsSampler.TickBegins | src/stores/cluster/metrics.js:95-101 | the three guards of a tick, and the epoch it notes |
| MetricsSampler.ForeignIsShown | src/stores/cluster/metrics.js:77-94 | what another tab saved for a cluster is what a switch to it shows |
| MetricsSampler.TimerIffConsumed | src/stores/cluster/metrics.js:115-131 | in every run the timer runs exactly while some page consumes the samples |
| MetricsSampler.ConsumersCount | src/stores/cluster/metrics.js:115-131 | each start counts one up and each stop one down to none, and only the first start reloads and begins a tick |
| MetricsSampler.NavigationKeepsWindow | src/stores/cluster/metrics.js:63-64 | stopping and starting again for the same cluster keeps the window |
| MetricsWindow.PushSpec | src/logic/metricsWindow.js:13-18 | a push invents nothing, keeps the newest, drops only the old and what is over 180 |
| MetricsWindow.InvalidIsIgnored | src/logic/metricsWindow.js:13-15 | a sample that is not valid is not added; the valid ones stay, the last 180 |
| ContainerTokens.SplitCommandTokens | src/utils/containerTokens.js:11-37 | the character loop is the recursive scanner |
| ContainerTokens.QuotedText | src/utils/containerTokens.js:20-27 | single and double quotes alike enclose literal text; an empty pair is an empty token, a quote never closed takes the rest |
| ContainerTokens.BackslashInside | src/utils/containerTokens.js:21-23 | inside quotes a backslash before that quote or a backslash stands for that character, anywhere else for itself |
| ContainerTokens.PlainText | src/utils/containerTokens.js:28-35 | outside quotes white space ends a token, if there is one, and any other character joins it |
| ContainerTokens.QuotedArgument | src/utils/containerTokens.js:5-6 | two words and an argument in either quote are three tokens |
| ContainerTokens.CommandRoundTrip | src/utils/containerTokens.js:45-53 | splitting what was joined gives the tokens back without the empty ones, for every mix of quotes, backslashes and white space |
| ContainerTokens.CommandLosslessIff | src/utils/containerTokens.js:45-53 | so the round trip is lossless exactly when no token is empty |
| ContainerTokens.ReadLinesAreClean | src/utils/containerTokens.js:40-43 | arguments read from text are trimmed, not empty and on one line |
| ContainerTokens.ArgOfLine | src/utils/containerTokens.js:40-43 | each line gives one argument, without the white space at its ends, unless nothing is left of it |
| ContainerTokens.ArgsLosslessIff | src/utils/containerTokens.js:55-58 | arguments come back exactly when each is trimmed, not empty and without a line break; the comment promises it of every argument without one |
| ContainerTokens.LeadingSpaceIsLost | src/utils/containerTokens.js:55-58 | an argument without a line break that does not come back |
| TaskbarFit.Taskbar.RunFitLoop | src/utils/taskbarFit.js:32-53 | the loop over setters makes the model's steps, with the same outcome and iteration count |
| TaskbarFit.LoopWithinBudget | src/utils/taskbarFit.js:14-53 | against any measurements the changes stay within a budget that each change spends; recover is left at most once |
| TaskbarFit.FitLoopConverges | src/utils/taskbarFit.js:30-53 | at most folded + total + 2 changes, convergence whenever maxIters is more, ending fitted or with icons and everything folded |
| TaskbarFit.ShrinkOnlyShrinks | src/utils/taskbarFit.js:8-11 | in the shrink direction nothing is ever given back |
| TaskbarFit.RecoveryGivesBack | src/utils/taskbarFit.js:24-27 | a recovery that always finds room gives back one chip an iteration, then the names, and is done |
| TaskbarFit.ShrinkingTakesAway | src/utils/taskbarFit.js:20-22 | a bar that never finds room gives up the names, then one chip an iteration, until all are folded |
| TaskbarFit.TurningPoints | src/utils/taskbarFit.js:15-24 | a shrinking bar stays as it is once it fits; a recovery that went too far takes one step back and shrinks from there on |
| TaskbarFit.OvershootIff | src/utils/taskbarFit.js:14-33 | from any start, also with more chips folded than there are, more than were folded and than there are get folded exactly when a recovery starts with icons on, all folded and the first measurement overflowing; then it is one more than were folded |
| TaskbarFit.RecoveryAfterAChipWent | src/components/terminal/TerminalTaskbar.vue:167-182 | five folded, four left and a first overflow: six end up folded |
| EnvRefs.WriteEnv | src/logic/envRefs.js:46-69 | the loop writes one entry for each row that gives one, in order |
| EnvRefs.EnvEntryLosslessIff | src/logic/envRefs.js:3-5 | an env entry comes back from the form exactly when it is canonical: clean name, a text value or one whole source, unmodelled keys and unknown sources carried along |
| EnvRefs.EnvLosslessIff | src/logic/envRefs.js:46-98 | a whole env list comes back exactly when each entry is canonical |
| EnvRefs.EnvRefErrors | src/logic/envRefs.js:135-147 | the loop reports exactly the half-filled rows, with the fields each lacks |
| EnvRefs.MissingIff | src/logic/envRefs.js:135-147 | a row lacks nothing exactly when it would be written |
| EnvRefs.GateIffWritten | src/logic/envRefs.js:6-6 | no errors exactly when every row that is not blank is written; errors name only rows that would be lost |
| EnvRefs.GatedRowsAreWritten | src/logic/envRefs.js:6-6 | behind an empty report the list has exactly one entry for each row that is not blank |
| EnvShapes.PlainRowWritten | src/logic/envRefs.js:42-57 | a variable given directly is its trimmed name and its value, an empty value included |
| EnvShapes.SourceRowWritten | src/logic/envRefs.js:58-65 | a variable of each other kind is a valueFrom under that kind's key with its filled fields, trimmed; without a required one it is skipped |
| EnvShapes.KindRead | src/logic/envRefs.js:76-92 | a valueFrom is read as the first of the four kinds it holds an object under |
| EnvShapes.FieldsRead | src/logic/envRefs.js:67-74 | which keys of the source go to which fields of the row |
| EnvShapes.OtherKeysRemembered | src/logic/envRefs.js:70-87 | the keys of a source and of a valueFrom that the form has no field for are remembered in one object, the latter first |
| EnvShapes.EditKeepsOtherKeys | src/logic/envRefs.js:5-6 | whatever fields of a row are edited, the keys of its source that the form has no field for are written as they were read |
| EnvShapes.ListEntry | src/logic/envRefs.js:70-72 | a source that is a list is read as its items under their indices |
| EnvShapes.NoOtherEntry | src/logic/envRefs.js:70-72 | and as nothing else |
| EnvShapes.RowReported | src/logic/envRefs.js:134-146 | the gate reports a row exactly when something is filled in and a required field is not, with its empty required fields in order, the name first |
| EnvRefs.WriteEnvFrom | src/logic/envRefs.js:100-117 | the loop writes one entry for each envFrom row that gives one |
| EnvRefs.FromEntryLosslessIff | src/logic/envRefs.js:119-133 | an envFrom entry comes back exactly when its reference is an object with a clean name, or with keys but no name, or it is of an unknown shape |
| EnvRefs.EnvFromLosslessIff | src/logic/envRefs.js:100-133 | a whole envFrom list comes back exactly when each entry does |
| EnvShapes.FromRowWritten | src/logic/envRefs.js:95-104 | a row with a name writes one reference of its kind, a row without writes what it remembers |
| EnvShapes.FromRowRead | src/logic/envRefs.js:115-120 | a reference is read by its name, the config map first |
| EnvShapes.RenameKeepsTheRest | src/logic/envRefs.js:102-109 | renaming a reference keeps its other keys and those of the entry |
| SubContainer.ThirdKeysKept | src/logic/subContainer.js:93-113 | resource keys other than cpu and memory are kept whatever the form says |
| SubContainer.EditedQuantities | src/logic/subContainer.js:97-106 | the form decides cpu and memory of requests and limits: each is what was typed, trimmed, or gone |
| SubContainer.ClearedSections | src/logic/subContainer.js:107-113 | a section left empty is null if it was there and absent if not; there are no resources exactly when none were there and nothing is typed |
| SubContainer.CarriedNoneIff | src/logic/subContainer.js:73-91 | nothing is carried beside the form exactly when there are only cpu and memory of the two sections |
| SubContainer.UneditedResourcesIff | src/logic/subContainer.js:97-113 | resources merged over themselves come back exactly when they are not empty and each section is absent, null, or not empty with clean quantities (empty resources become null) |
| SubContainer.CopiedResourcesIff | src/logic/subContainer.js:75-113 | resources rebuilt from the form and the picked keys are the original exactly when they are not empty and each section is absent, or not empty with clean quantities |
| SubContainer.UneditedMountsIff | src/logic/subContainer.js:234-248 | mounts merged over themselves come back exactly when all mounts of one name have the same keys outside the form |
| SubContainer.EditedMount | src/logic/subContainer.js:234-248 | a mount of the form keeps its own keys and takes the unmodelled ones of the first mount of its name |
| SubContainer.NamelessMount | src/logic/subContainer.js:240-241 | a mount without a name takes nothing |
| SubContainer.SecondMountLosesItsPropagation | src/logic/subContainer.js:237-248 | two mounts of one volume, the second with a mountPropagation: saved unedited it is gone |
| SubContainer.SecondMountGainsPropagation | src/logic/subContainer.js:237-248 | with the two in the other order the second mount is given a mountPropagation it never had |
| Volumes.OctalRoundTripIff | src/logic/volumeBackfill.js:7-7 | a mode survives the octal text exactly for 0 to 4095, and for none |
| Volumes.VolumeRestoredIff | src/logic/volumeMountValidation.js:317-345 | a volume read into a row and written from it is the same exactly when its required fields are filled, its optional ones absent or filled, its mode within range; unknown kinds always |
| Volumes.RowWritten | src/logic/volumeMountValidation.js:317-345 | the volume of any row, kind by kind: none without a name or the field the kind needs |
| Volumes.ReadVolumes | src/logic/volumeBackfill.js:43-43 | the loop over the declared volumes fills the table of descriptions |
| Volumes.BackfillVolumes | src/logic/volumeBackfill.js:39-54 | the loops over containers and mounts and the placeholder loop fill the table the specification gives |
| Volumes.MountsForTarget | src/logic/subContainer.js:170-173 | the mounts of one target, or null for none |
| Volumes.TargetsDistinct | src/logic/volumeBackfill.js:45-48 | no two containers get the same target, native sidecars included |
| Volumes.ContainerHasTarget | src/logic/volumeBackfill.js:12-21 | every container has a target: the first is main, the others sidecars in order; there are as many targets as containers of both kinds |
| Volumes.InitHasTarget | src/logic/volumeBackfill.js:46-46 | init containers that stop are numbered on their own |
| Volumes.NativeHasTarget | src/logic/volumeBackfill.js:48-48 | those that do not stop are sidecars, numbered on after the others |
| Volumes.MountsReturnIff | src/logic/volumeBackfill.js:39-54 | a container's mounts come back in order exactly when they differ pairwise in name and path and no path is empty, whatever the other containers and volumes are |
| Volumes.WriteVolumes | src/views/NsWorkloadDetail.vue:1166-1169 | the first row of each name is written as a volume |
| Volumes.VolumesReturnIff | src/views/NsWorkloadDetail.vue:1165-1169 | a declared volume is among those written back exactly when it is restorable |
| Volumes.WrittenByFirstRows | src/views/NsWorkloadDetail.vue:1165-1169 | of any rows, the volumes written are those of the rows that come first with their name |
| Volumes.NothingElseIsWritten | src/logic/volumeBackfill.js:23-23 | anything else written is the emptyDir of a mount whose volume is not declared |
| Volumes.NamesWrittenOnce | src/views/NsWorkloadDetail.vue:1166-1168 | no volume name is written twice |
| MountGate.NormalizeSpec | src/logic/volumeMountValidation.js:16-22 | a normalised absolute path is absolute and tidy, and a tidy path is its own normal form |
| MountGate.ValidateEntry | src/logic/volumeMountValidation.js:47-137 | the rules of one row, in the order they report |
| MountGate.EntryOkIff | src/logic/volumeMountValidation.js:47-137 | a row draws no error exactly when it is in order, each demand said once |
| GateRules.SourceRequiredIff | src/logic/volumeMountValidation.js:52-54 | a row of the five kinds with a source is told when that field is empty |
| GateRules.SourceNotFoundIff | src/logic/volumeMountValidation.js:96-99 | a config map, secret or claim named in a row is reported exactly when the list of its own kind is loaded and does not have it |
| GateRules.TargetAndReadOnlyIff | src/logic/volumeMountValidation.js:71-72 | the container to mount into must be among those that may be chosen; a writable projection is pointed out |
| GateRules.MountPathCode | src/logic/volumeMountValidation.js:56-69 | each code of a mount path: absolute, normal form, backslash, and every path of the system by name |
| GateRules.NormalizeKeepsSegments | src/logic/volumeMountValidation.js:16-22 | normalising a path keeps its segments |
| GateRules.ItemsIff | src/logic/volumeMountValidation.js:74-90 | half-filled items, paths that are not plain, repeated paths and keys the object is known not to have |
| GateRules.SubPathIssuesIff | src/logic/volumeMountValidation.js:101-106 | a sub path must be relative and not climb |
| GateRules.NfsIssuesIff | src/logic/volumeMountValidation.js:108-112 | the directory of an NFS share must be absolute; none is pointed out |
| GateRules.HostPathIff | src/logic/volumeMountValidation.js:114-116 | the nine directories of a node that may not be mounted |
| GateRules.ModeIssuesIff | src/logic/volumeMountValidation.js:118-124 | a mode is three or four octal digits; any but 0400 and 0640 is pointed out |
| GateRules.ProjectionAdviceIff | src/logic/volumeMountValidation.js:91-134 | items that hide keys, and a sub path that is not in the volume |
| MountGate.ValidateVolumeMounts | src/logic/volumeMountValidation.js:141-181 | the loops over rows, groups and pairs produce the report of the specification |
| MountGate.FirstError | src/logic/volumeMountValidation.js:184-189 | null exactly when no row has an error, else an error of the first row that has one |
| MountGate.GroupedIff | src/logic/volumeMountValidation.js:147-162 | the errors among the groups are exactly the pairs of rows with one target and one path |
| GateCross.ClashReported | src/logic/volumeMountValidation.js:147-164 | a row is told of a clash exactly when another row of its container has the same normalised path |
| GateCross.NestingReported | src/logic/volumeMountValidation.js:159-163 | and warned of nesting exactly when another row of its container mounts above or below it |
| MountGate.NamesIff | src/logic/volumeMountValidation.js:164-170 | a name error is reported exactly when two rows share a name |
| GateCross.NameReported | src/logic/volumeMountValidation.js:166-172 | a row is told that its name is taken exactly when another row has it too, the first of them included |
| MountGate.NoOrphans | src/logic/volumeMountValidation.js:172-177 | the orphan rule never reports: the row's own check has said it |
| MountGate.GateOpensIff | src/logic/volumeMountValidation.js:139-189 | the gate is silent exactly when every row is in order, no container has a path twice, and no name is used twice |
| MountGate.PathsAreSafe | src/logic/volumeMountValidation.js:8-12 | behind the gate every mount written is absolute, off the root and the blocked paths, and distinct per container after normalisation |
| MountGate.MountHasVolumeIff | src/logic/volumeMountValidation.js:301-345 | behind the gate a named row's mount is written, and a volume of its name with it exactly when its kind is known or some named row of unknown kind carries a raw volume of that name |
| MountGate.VolumesMatchRowsIff | src/logic/volumeMountValidation.js:301-345 | behind the gate the volumes written are those of the named rows, in order and each under its row's name, exactly when every named row of unknown kind carries its own raw volume, which the gate does not ask |
| MountGate.RawlessRowPasses | src/logic/volumeMountValidation.js:139-181 | a row of unknown kind without its raw volume that is otherwise in order passes the gate; its mount is written and no volume is |
| MountGate.RawlessRowExists | src/logic/volumeMountValidation.js:47-137 | there is such a row |
| MountGate.OpenedRowsCarryRaw | src/logic/volumeBackfill.js:14-54 | every row read from a pod, whatever the pod, carries its raw volume if its kind is unknown |
| MountGate.OpenGateIsSound | src/logic/volumeMountValidation.js:139-189 | with that, every mount written names a volume written, and the volumes are those of the named rows, each once |
| OpenedPod.OpenedPodPassesIff | src/logic/volumeBackfill.js:39-54 | the form of an untouched pod shows no error exactly when every declared volume is mounted, none at two places, no two at one path of a container, and the row of each mount is in order |
| OpenedPod.SharedVolumeFails | src/logic/volumeMountValidation.js:164-170 | a volume that two containers mount keeps the form from opening without an error |
| OpenedPod.SharedVolumeIsReported | src/logic/volumeMountValidation.js:164-170 | an emptyDir shared by main container and sidecar is such a pod |
| SecretEditing.EncodeSecretData | src/composables/useResourceMappers.js:26-31 | the loop encodes every value except those equal to the stored one |
| SecretEditing.SplitSecret | src/stores/cluster/yaml.js:158-166 | the loop parts values that decode as text from those that do not |
| SecretEditing.UpdateSecret | src/stores/cluster/crud.js:123-143 | an update is encode, then split |
| SecretEditing.AddSecret | src/stores/cluster/crud.js:116-121 | a creation is encode without a base, then split |
| SecretEditing.SplitKeepsBytes | src/stores/cluster/yaml.js:146-181 | whichever block a value is sent in, the API server stores the bytes its base64 stands for |
| SecretEditing.SplitSorts | src/stores/cluster/yaml.js:158-166 | the base64 of a text is sent as that text under stringData, any other value as it is under data |
| SecretEditing.BlocksDoNotOverlap | src/stores/cluster/yaml.js:148-150 | no key is sent in both blocks |
| SecretEditing.MetadataEditKeepsBytes | src/stores/cluster/crud.js:166-166 | an edit of labels or annotations alone rewrites every key with the bytes it has |
| SecretEditing.UntouchedKeepsBytes | src/composables/useResourceMappers.js:20-25 | a key the user did not touch keeps its exact bytes, text or binary |
| SecretEditing.UntouchedKeepsBytesIff | src/composables/useResourceMappers.js:20-31 | and when the secret changed since the page was shown, exactly when that still holds |
| SecretEditing.EditedGetsText | src/composables/useResourceMappers.js:26-31 | an edited key gets the UTF-8 of the new text, exactly unless that text is the stored base64 of other bytes |
| SecretEditing.StaleBinaryIsEncodedTwice | src/composables/useResourceMappers.js:20-31 | a binary key changed since the page was shown is stored as its base64 text, encoded once too often |
| SecretEditing.AddEncodesOnce | src/stores/cluster/crud.js:116-121 | creation encodes each text exactly once |
| SecretEditing.RemovedIsNotSent | src/views/NsSecretDetail.vue:109-113 | a key removed in the form is in neither block |
| IngressRules.PushRules | src/composables/useIngressRules.js:35-67 | the nested loops flatten rules or rows in order |
| IngressRules.OpenEditor | src/composables/useIngressRules.js:35-60 | rules to flat rules to rows by host |
| IngressRules.BuildRules | src/composables/useIngressRules.js:11-22 | rows to flat rules to rules by host |
| IngressRules.EditorKeepsPaths | src/composables/useIngressRules.js:10-67 | for every host the same paths in the same order, each as one path fares alone |
| IngressRules.PathsReturnIff | src/composables/useIngressRules.js:8-67 | a host's paths come back unchanged exactly when each is a v1 service path with a path, a type and a port that is not a name of digits |
| IngressRules.OpenedPaths | src/composables/useIngressRules.js:35-60 | the editor opens with every path of a host, in order, / and Prefix where they are left out, the port of either backend form as text |
| IngressRules.SentPaths | src/composables/useIngressRules.js:10-22 | it sends every path of a host's rows, in order, as a v1 service whose port is a number if it is all digits and a name if not |
| IngressRules.HostsKeepTheirOrder | src/composables/useIngressRules.js:52-60 | the hosts saved are those with a path, each once, by first appearance |
| IngressRules.HydrateHostTls | src/composables/useIngressRules.js:88-92 | the loops over entries and hosts give each row the secret of the last entry naming it |
| IngressRules.TlsFromHosts | src/composables/useIngressRules.js:100-110 | the loop keeps what the rows do not speak for |
| IngressRules.SavedSecrets | src/composables/useIngressRules.js:94-110 | a host's secrets after a save: those of its ticked rows, and its old entries only if no row speaks for it |
| IngressRules.SavedEntries | src/composables/useIngressRules.js:94-110 | the entries saved, each: one for every ticked row with a host, of that host alone, and what is left of the old ones |
| IngressRules.UneditedTls | src/composables/useIngressRules.js:85-110 | without an edit every host keeps its effective secret; hosts without a row keep their entries |
| IngressRules.UntickedIsRemoved | src/composables/useIngressRules.js:95-97 | unticking a host takes it out of every entry |
| IngressRules.HostlessAreKept | src/composables/useIngressRules.js:98-105 | entries without hosts are kept, all and in order |
| IngressRules.OpenedRowsAreFresh | src/composables/useIngressRules.js:53-92 | the rows opened have one host each, and TLS does not touch their paths |
| MergePatch.DiffMap | src/composables/useStoragePatch.js:6-15 | the two loops build the diff of the specification |
| MergePatch.DiffIsMinimal | src/composables/useStoragePatch.js:5-5 | every key of the diff is one on which the maps differ |
| MergePatch.DiffAppliesIff | src/composables/useStoragePatch.js:6-15 | merging the diff into the original (RFC 7396, section 2) gives the desired map exactly when no key to drop has a name every object inherits |
| MergePatch.InheritedNameStays | src/composables/useStoragePatch.js:11-13 | a label named `constructor` is never dropped |
| MergePatch.InheritedNamesStay | src/composables/useStoragePatch.js:11-13 | nor is one of the six other names that a label key can have |
| MergePatch.OrdinaryNameGoes | src/composables/useStoragePatch.js:11-13 | one named `app` is |
| MergePatch.DepthIsEnough | src/composables/useStoragePatch.js:1-2 | the depth given to the merge does not matter once it covers the patch |
| MergePatch.ApplyIsWhole | src/composables/useStoragePatch.js:36-40 | applying an assembled patch is merging it whole, at its nesting of three or any greater depth |
| MergePatch.BuildPVPatch | src/composables/useStoragePatch.js:20-40 | the builder gives the patch of the specification |
| MergePatch.PvPatchNoneIff | src/composables/useStoragePatch.js:19-35 | no patch exactly when everything asked for is already there |
| MergePatch.PvPatchApplies | src/composables/useStoragePatch.js:20-40 | after the patch the volume has what was asked for and is otherwise as it was, field by field |
| PatchEffects.PolicyAsAsked | src/composables/useStoragePatch.js:20-27 | read off the patched object: the reclaim policy is the one asked for, the rest of the spec stays |
| PatchEffects.VolumeMetadataAsAsked | src/composables/useStoragePatch.js:28-35 | its labels and annotations are those asked for, where any are |
| MergePatch.BuildIngressClassPatch | src/composables/useClassPatch.js:12-52 | the builder gives the patch of the specification |
| MergePatch.IcPatchNoneIff | src/composables/useClassPatch.js:47-47 | no patch exactly when nothing changes and the default key is not among the annotations asked for |
| MergePatch.IcPatchApplies | src/composables/useClassPatch.js:12-52 | after the patch labels and annotations are as asked, and the other metadata as it was |
| MergePatch.IcPatchLeavesTheRest | src/composables/useClassPatch.js:37-51 | of the spec only the controller can change, and nothing outside spec and metadata |
| PatchEffects.ControllerAsAsked | src/composables/useClassPatch.js:37-37 | read off the patched object: the controller is the one asked for, the rest of the spec stays |
| PatchEffects.ClassLabelsAsAsked | src/composables/useClassPatch.js:32-35 | its labels are as asked |
| PatchEffects.ClassAnnotationAsAsked | src/composables/useClassPatch.js:25-30 | and its annotations beside the default mark |
| PatchEffects.DefaultMarkAsAsked | src/composables/useClassPatch.js:16-30 | the class is the default as the listed key says, else as the switch asks, else as it was |
| MergePatch.BuildStorageClassPatch | src/composables/useStoragePatch.js:43-62 | the builder gives the patch of the specification |
| MergePatch.ScPatchApplies | src/composables/useStoragePatch.js:43-62 | after the patch labels and annotations are as asked, and the other metadata as it was |
| PatchEffects.StorageClassAsAsked | src/composables/useStoragePatch.js:43-62 | read off the patched object, by API keys: labels, both default keys and every other annotation |
| MergePatch.ScPatchNoneIff | src/composables/useStoragePatch.js:42-62 | no patch exactly when the default mark, the labels and the annotations beside the default keys are as asked |
| MergePatch.PvPatchIsMerged | src/composables/useStoragePatch.js:20-40 | what is said of applying the volume's patch holds of the merge of the whole patch |
| MergePatch.IcPatchIsMerged | src/composables/useClassPatch.js:12-52 | and of the IngressClass patch |
| MergePatch.ScPatchIsMerged | src/composables/useStoragePatch.js:43-62 | and of the StorageClass patch |
| MergePatch.ScDefaultTakesIff | src/composables/useStoragePatch.js:43-62 | when the default switch takes effect, whatever annotations are asked for with it: a listed key wins over it, and the beta key is never written |
| MergePatch.UnlistedDefaultTakesIff | src/composables/useStoragePatch.js:46-49 | with neither key listed, it takes effect exactly unless a class is unset whose beta key says true |
| MergePatch.ListedKeyBeatsTheSwitch | src/views/StorageClassDetail.vue:56-62 | a default class switched off with its first key listed as true stays the default |
| MergePatch.ListedBetaBeatsTheSwitch | src/views/StorageClassDetail.vue:56-62 | a class that is the default by its beta key, kept on with that key listed as false, ends as no default |
| MergePatch.BetaDefaultStays | src/composables/useStoragePatch.js:46-49 | a class that is the default by its beta key is unset: a patch is sent and the class is still the default |
| Topology.ClaimIff | src/logic/topology.js:69-78 | a workload claims a pod exactly when no listed name the pod starts with is longer |
| Topology.ExactlyOneClaims | src/logic/topology.js:69-78 | every pod some name matches is claimed by exactly one name, every other pod by none |
| Topology.ShownIff | src/views/NsWorkloadDetail.vue:105-122 | a detail page shows a pod of its namespace by selector, else template app label, else app label, else by the longest matching name over the workloads of all namespaces |
| Topology.ShownMeans | src/views/NsWorkloadDetail.vue:105-122 | the same, label by label and character by character of the name |
| Topology.ShownInOwnNamespaceIff | src/views/NsWorkloadDetail.vue:105-122 | a pod is shown by a workload of its namespace exactly when one claims it by labels or one that goes by its name has the longest matching name over all namespaces |
| Topology.LongerNameElsewhereTakesThePod | src/views/NsWorkloadDetail.vue:121-121 | where no workload has labels to go by: a pod nobody of its namespace shows, for a workload of another namespace with a longer name |
| Topology.GroupPods | src/logic/topology.js:51-67 | the loop with its index gives the groups and the rest of the specification |
| Topology.GroupHolds | src/logic/topology.js:49-67 | a group holds exactly the pods of its ReplicaSet, in order |
| Topology.GroupOrder | src/logic/topology.js:50-66 | groups come in the order the pods first name them |
| Topology.ListOrderIff | src/logic/topology.js:49-52 | groups come in the order of the ReplicaSet list, as the comment promises, exactly when of two listed ReplicaSets with pods the one listed first has the first pod |
| Topology.PodsOverrideTheList | src/logic/topology.js:49-67 | ReplicaSets a and b with the pod of b first: the groups come as b, a |
| Topology.ListOrderIsLost | src/logic/topology.js:50-52 | the order of the ReplicaSet list has no part in the groups at all |
| Topology.SuggestNodePorts | src/logic/topology.js:135-144 | the loop gives the first free ports of the range |
| Topology.FreePortsSpec | src/logic/topology.js:135-144 | those are free, increasing and within range; a free port is passed over only for lower ones, and fewer come back only when none is left |

## Left out

- Network, WebSocket, DOM, Vue reactivity and query wiring: they are the callbacks, events and parameters of the models; requests are taken to be answered at any time or never.
- localStorage failures: reads and writes of one turn are atomic and succeed; records on disk are well formed.
- TabRuns.CloseIsFinal: holds while the tombstone is held; after the age limit of seven days a frozen tab that still holds the window may bring it back, which is what the code does.
- `isRecentlyClosed` deletes an expired entry while it reads; the model only reads, which gives the same answers.
- `sshApi.listSessions`, `killSession`, `setSessionLabel` and window identifiers from `genSid`: parameters or dropped; a new identifier is one no tab and no row has used.
- NextRuns.RunsOf: for a zone that changes its offset soundness and the order of wall times are shown; with an offset that changes the search may pass over an instant of the repeated hour, so completeness is stated for fixed offsets.
- `Intl.DateTimeFormat`, `toLowerCase` and `Number` of a step's text: oracles given to the methods.
- `describeStructure` and the texts built from it: they ignore fields, and promise nothing that could be stated.
- WatchCache.CacheAgreesWithLog: about one contiguous log; a list response older than events already applied may overwrite them in the code and is not a move here.
- WatchCache.ApplyRefines: items are whole mapped objects with one set of fields; a partial object is merged into the old one, which `EventEffect` says of one event.
- The manual pod and event watch controllers (`controllerFor`) beside the family channel: the same controller, connected in the same way.
- MetricsSampler.SamplesStayHome: rests on the epoch alone; the hold flag is in the model but the claim does not need it. `refreshMetrics` leaves the previous usage in place when a request fails, so the number in a sample may be older than its tick; that is not in the model. Values are whole numbers.
- TaskbarFit.LoopWithinBudget: the total is fixed during one loop, as between two renders.
- EnvRefs.EnvEntryLosslessIff: a fractional number keeps only its text; row types named like an inherited property are not modelled; `duplicateEnvNames` and the counters are left out as easy.
- Volumes.VolumeRestoredIff: about the fields the form has; keys such as a claim's `readOnly`, `optional`, a projection item's own `mode` or an emptyDir's `medium` are not in the model, and the code drops them.
- Volumes.MountsReturnIff: names are non-empty and have no `|`, as the API server requires of volume names; mounts are on name, path, subPath and readOnly.
- OpenedPod.OpenedPodPassesIff: about volume names that are non-empty and have no `|`, as the API server requires.
- The field, parameter and text of an issue, `buildMountCtx` and the preview of projected files: display only.
- `buildSubContainerSpec` outside resources, mounts, env and command: field by field copies; probes, lifecycle and security context among them.
- SecretEditing.UpdateStores: base64 and UTF-8 are any codecs that invert each other, UTF-8 strictly (`LawsCanBeMet` shows that there are some, with bytes that are not text); how the API server treats keys that a manifest leaves out is not modelled.
- YAML text: manifests are the data they carry. It is not a round trip for every string.
- `defaultBackend` of an Ingress and `parameters` of a class: objects that a merge patch merges rather than replaces; not part of the theorems.
- Wizard text for an Ingress, `appendPathToIngress`, `ingressHostsErrors`, `hostsToK8sSpec`: easy members.
- MergePatch.Merge: takes the nesting depth as a number because map values do not decrease; `DepthIsEnough` shows that any sufficient depth gives the same result.
- API tables, routers, most resource mappers, quantity conversion, theming and charts: wide but easy, or floating point.
