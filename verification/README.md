# CT BLE Devices: updater, scanner and report parser in Dafny

This project models the core of the Home Assistant integration
`ct_ble_devices` and proves properties of it. It covers three parts.

- **The self-updater** (`updater.py`).
  - `_get_latest_version` reads GitHub's "latest release" answer into a
    version and a download URL.
  - `check_and_update` installs only a strictly newer version, compared as
    `packaging` compares versions.
  - `_download_and_update` is a staged install. It finds the payload inside
    the archive in three ways, backs up the live directory and overlays the
    payload on a staging copy. It checks the required files and the manifest,
    rewrites the manifest version, swaps the directories by two renames, and
    then reloads, cleans up or rolls back.
  - `_periodic_check` is a scheduler. It runs a regular check after 24
    hours. After a failed check it retries every 30 minutes while fewer than
    three attempts have failed, so at most two retries follow the failed
    check: three attempts in all.
  - `async_setup_auto_update` reads the installed version and starts the
    updater.
- **The Bluetooth scanner** (`scanner.py`, class `BLEScanner`).
  - The device table and its broadcast counts.
  - The update and entity callback registries.
  - The filter that keeps only advertisements of devices named `Gait…`.
  - The buffer of Gait advertisements and its flush.
  - The flags for scanning, the Bluetooth subscription, the 4-second restart
    timer and the flush task.
- **The report generator's Markdown parser** (`generate_docx.py`). It turns
  each line into a heading, table, bullet, emphasised or plain paragraph.
  It also models the `IndexError` raised while filling a table whose row has
  more cells than its header row.

## How the model is built

Code that changes state is imperative Dafny. `BLEScanner` and
`IntegrationUpdater` are classes whose fields the methods update. The four
directories the installer touches are the `Disk` class: the live
integration directory and its `.backup`, `.staging` and `.old` siblings.
Each such operation also has a pure function on a snapshot of the state.
Each method is proved to compute exactly that function, and the lemmas state
the promised properties of the functions:

- `ScannerState` for the scanner, with the invariant `Inv`;
- `SchedulerState` for the scheduler, with the invariant `Valid`;
- `InstallOutcome` for a whole install;
- `Parse` for the report parser.

Loops stay loops, each with its invariants:

- the payload-root search;
- the overlay over the payload files;
- the callback loops;
- the generator's line loop and its inner table loop;
- the table filling.

Inputs from outside become parameters:

- what the download and extraction produce;
- which rename fails;
- what the host answers during a reload;
- whether posting a notification raises;
- the clock.

Callbacks are identifiers. Calling one appends it to a log, so the
contracts can say which callbacks were called, how often and with what.

## Model

Paths are relative to the repository root.

| member | source | states |
|---|---|---|
| Release.SourceArchiveUrl | custom_components/ct_ble_devices/updater.py:227-229 | the fallback URL is the repository's tag archive `.../archive/refs/tags/v` followed by the version and `.zip`, and nothing else: it starts with that prefix, ends with the version and `.zip`, and is exactly as long as the two |
| Release.FirstZipAsset | custom_components/ct_ble_devices/updater.py:220-225 | the chosen asset is a `.zip` asset, and no earlier asset is one (none is when the result is None) |
| Release.DownloadUrl | custom_components/ct_ble_devices/updater.py:219-229 | the URL is the first `.zip` asset's `browser_download_url` when that is non-empty. It is the tag archive when no asset is a `.zip`, and also when the first `.zip` asset's URL is missing or empty |
| Release.GetLatestVersion | custom_components/ct_ble_devices/updater.py:201-247 | a result exists exactly when the status is 200 and the tag minus its leading `v`s is non-empty. The version is the tag with every leading `v` removed, and the URL is the one `DownloadUrl` chooses. Every other status and every request failure gives `(None, None)` |
| Release.TagArchiveFallback | custom_components/ct_ble_devices/updater.py:213-231 | a release tagged `v<version>` with no `.zip` asset yields that version and its tag-archive URL |
| Release.OnlyVsGiveNoVersion | custom_components/ct_ble_devices/updater.py:213-217 | a tag made only of `v`s (or missing) gives no version |
| Versions.ParseFormat | custom_components/ct_ble_devices/updater.py:176-177 | parsing the dotted decimal text of a release gives back that release |
| Versions.ParseVersion | custom_components/ct_ble_devices/updater.py:176-177 | `version.parse` on release versions: surrounding whitespace ignored, an optional `v`, then dot-separated digit runs. A parsed release has at least one segment; `ParseFormat` proves the round trip |
| Versions.SurroundingSpaceIgnored | custom_components/ct_ble_devices/updater.py:176-177 | whitespace before and after a version does not change how it parses, so `" 1.0"` and `"1.0 "` parse as `1.0` |
| Versions.Less | custom_components/ct_ble_devices/updater.py:179 | `current < latest`: the order of the releases with trailing zeros dropped. `VersionTrichotomy`, `LessTransitive` and `TrailingZerosIgnored` state its properties |
| Versions.Normalize | custom_components/ct_ble_devices/updater.py:179 | the compared form is the release with its trailing zero segments removed, ending in a non-zero segment |
| Versions.VersionTrichotomy | custom_components/ct_ble_devices/updater.py:179 | exactly one of less, equal and greater holds for two versions |
| Versions.NotAtMostIsGreater | custom_components/ct_ble_devices/updater.py:179 | `latest <= current` fails exactly when `current < latest` |
| Versions.LessTransitive | custom_components/ct_ble_devices/updater.py:179 | the version order is transitive |
| Versions.TrailingZerosIgnored | custom_components/ct_ble_devices/updater.py:179 | appending zero segments gives an equal version (`1.0 == 1.0.0`) |
| Updater.Newer | custom_components/ct_ble_devices/updater.py:175-184 | the update gate holds exactly when both versions parse and the installed one is strictly less than the latest. An unparsable version means no update |
| Updater.EqualVersionNotNewer | custom_components/ct_ble_devices/updater.py:179-180 | a version equal to the installed one (such as `1.0` for `1.0.0`) is never installed |
| Updater.NewerOrder | custom_components/ct_ble_devices/updater.py:179-180 | of two versions at most one is newer than the other, and "newer" is transitive |
| Updater.Restored | custom_components/ct_ble_devices/updater.py:467-482 | the outer `except`: the live directory is replaced by the backup when there is one. `RestoreBackup` is proved to compute it |
| Updater.RolledBack | custom_components/ct_ble_devices/updater.py:429-451 | the rollback: the live directory is replaced by `.old` when it exists, else by the backup. `RollBack` is proved to compute it |
| Updater.SwapOutcome | custom_components/ct_ble_devices/updater.py:389-408 | the swap as a value. `Swap` is proved to compute it, and `InstallRestoresOld` and `InstallSuccess` state what it leaves |
| Updater.FinishOutcome | custom_components/ct_ble_devices/updater.py:410-465 | reload, clean-up and notification as a value. `Finish` is proved to compute it, and `FinishFailure`, `FinishNotifyFails` and `FinishKeepsStaging` state its properties |
| Updater.InstallOutcome | custom_components/ct_ble_devices/updater.py:249-482 | the whole `_download_and_update` as a value. `DownloadAndUpdate` is proved to compute it, and the `Install…` lemmas state its outcomes case by case |
| Updater.StageOutcome | custom_components/ct_ble_devices/updater.py:316-387 | staging is ready exactly when the live directory exists and a staging directory results. On every failure the staging directory is removed, or left as it was when the backup copy raises |
| Updater.InstallSuccess | custom_components/ct_ble_devices/updater.py:249-465 | success implies all of these: a 200 download with a payload root, every required file copied, a staged manifest that passes the manifest check, both renames done, no notification raising, and a successful reload when auto-reload is on. The live tree is then the old tree with the payload overlaid and the version written. The backup holds the old tree, and neither staging nor `.old` remains |
| Updater.InstallSucceeds | custom_components/ct_ble_devices/updater.py:249-465 | the converse of `InstallSuccess`: an archive that passes every check, both renames done, no notification raising, and a successful reload when auto-reload is on, give success |
| Updater.InstallDownloadRejected | custom_components/ct_ble_devices/updater.py:249-314 | a download or extraction that raises puts back an earlier backup, if any. A non-200 answer, or an archive in which no payload root is found, fails with nothing changed |
| Updater.InstallChecksFail | custom_components/ct_ble_devices/updater.py:364-382 | a payload missing `manifest.json` or `__init__.py`, or a staged manifest that fails the check, fails the install. The backup has been taken, staging is removed, and nothing else changes |
| Updater.InstallRestoresOld | custom_components/ct_ble_devices/updater.py:389-482 | after an accepted archive, a rename that raises or a notification that raises ends with the old tree live, the backup kept, and no staging or `.old` left |
| Updater.InstallReloadFails | custom_components/ct_ble_devices/updater.py:410-427 | with auto-reload on, a reload that reports failure (or a missing entry id) gives failure with no rollback. The new tree stays live, the backup holds the old one, and `.old` is kept exactly when a reload was attempted |
| Updater.InstallWritesVersion | custom_components/ct_ble_devices/updater.py:386-387 | after a successful install, a live manifest that decodes carries the new version |
| Updater.InstallFailure | custom_components/ct_ble_devices/updater.py:249-482 | a failed install leaves the old tree live, with two exceptions. A download error restores an earlier backup. With auto-reload on, a failed reload or a missing entry id leaves the new tree live, with the old one in `.old` when a reload was tried |
| Updater.FinishFailure | custom_components/ct_ble_devices/updater.py:410-465 | after the swap, a failed finish comes from one of two causes. A notification that raised restores the old tree and leaves no `.old`. Otherwise auto-reload was on and the reload failed or had no entry id: the new tree stays live, and `.old` is kept exactly when a reload was attempted |
| Updater.FinishNotifyFails | custom_components/ct_ble_devices/updater.py:429-482 | after the swap, a notification that raises (even after a successful reload) ends with the old tree live and no `.old` left |
| Updater.NoStagingLeft | custom_components/ct_ble_devices/updater.py:323-408 | an install never leaves a staging directory of its own. Any that remains is the one that existed before, untouched. This relies on the copies and writes of the overlay never raising (see Left out) |
| Updater.FinishKeepsStaging | custom_components/ct_ble_devices/updater.py:410-465 | the reload, clean-up and rollback step never touches the staging directory |
| Updater.CheckAndUpdateOutcome | custom_components/ct_ble_devices/updater.py:162-199 | a version is attempted exactly when the release answer gives one that passes the gate, and it is that version. Success implies an attempt. Without an attempt nothing on disk changes. With one, the reported success and the directories are those of `InstallOutcome` for that version |
| Updater.AttemptedIsTruthy | custom_components/ct_ble_devices/updater.py:145-149 | an attempted version is never empty, so a failed regular check always records it |
| Updater.InitialVersion | custom_components/ct_ble_devices/updater.py:43-64 | set-up fails exactly when the manifest exists but does not decode to a JSON object. A missing manifest gives `1.0.0`. A manifest object gives its `version` field when it has one, and `1.0.0` otherwise |
| Updater.VersionReadBack | custom_components/ct_ble_devices/updater.py:496-511 | after the version rewrite, reading the manifest at start-up gives the installed version |
| Updater.RestoreBackup | custom_components/ct_ble_devices/updater.py:470-482 | the live directory is replaced by the backup when a backup exists; otherwise nothing changes |
| Updater.Stage | custom_components/ct_ble_devices/updater.py:316-387 | the backup, staging, overlay, checks and version rewrite produce exactly `StageOutcome` |
| Updater.Swap | custom_components/ct_ble_devices/updater.py:389-408 | the two renames produce exactly `SwapOutcome`. A failing rename removes staging and restores the backup |
| Updater.RollBack | custom_components/ct_ble_devices/updater.py:429-451 | the live directory is replaced by `.old` when it exists, and by the backup otherwise |
| Updater.SetupAutoUpdate | custom_components/ct_ble_devices/updater.py:29-64 | with an undecodable manifest there is no updater and nothing changes. Otherwise a fresh updater holds the manifest's version and the entry id, with an empty schedule and a running periodic task, and the disk is as one `check_and_update` leaves it |
| Updater.IntegrationUpdater.constructor | custom_components/ct_ble_devices/updater.py:70-80 | the version and entry id are stored, auto-reload is on, there is no task and the scheduler starts empty |
| Updater.IntegrationUpdater.DownloadAndUpdate | custom_components/ct_ble_devices/updater.py:249-482 | the result and the directories are exactly `InstallOutcome` |
| Updater.IntegrationUpdater.Finish | custom_components/ct_ble_devices/updater.py:410-465 | the result and the directories are exactly `FinishOutcome` |
| Updater.IntegrationUpdater.CheckAndUpdate | custom_components/ct_ble_devices/updater.py:162-199 | the pair returned and the directories are exactly `CheckAndUpdateOutcome` |
| Updater.IntegrationUpdater.Start | custom_components/ct_ble_devices/updater.py:82-100 | one check runs, its result is ignored, the scheduler is unchanged and the periodic task is running |
| Updater.IntegrationUpdater.PeriodicPass | custom_components/ct_ble_devices/updater.py:102-154 | one pass moves the scheduler fields as `Next` says, for the outcome of the check it runs. It keeps the scheduler invariant and changes the disk only when it runs a check |
| Updater.IntegrationUpdater.RecordOutcome | custom_components/ct_ble_devices/updater.py:130-151 | the outcome is folded into the scheduler fields as `Recorded` says |
| Updater.IntegrationUpdater.DuePass | custom_components/ct_ble_devices/updater.py:108-127 | the method reports whether a retry and a regular check are due, and drops a failure record whose retries are spent |
| Updater.IntegrationUpdater.Stop | custom_components/ct_ble_devices/updater.py:590-593 | the periodic task is cancelled. The version, entry id, auto-reload flag and scheduler fields are unchanged |
| Schedule.NextKeepsValid | custom_components/ct_ble_devices/updater.py:102-154 | every pass keeps the invariant: `0 <= retry_count <= 3`, a failed version is recorded exactly when the count is positive, and a recorded failure has a time |
| Schedule.Prepared | custom_components/ct_ble_devices/updater.py:110-122 | the start of a pass: a failure record whose retries are spent and whose delay has passed is dropped |
| Schedule.Recorded | custom_components/ct_ble_devices/updater.py:130-151 | the end of a pass that ran a check: the outcome folded into the prepared state |
| Schedule.Next | custom_components/ct_ble_devices/updater.py:102-154 | one pass of `_periodic_check` as a value. The `Schedule` lemmas state its properties and `PeriodicPass` is proved to compute it |
| Schedule.RunsExactlyWhenDue | custom_components/ct_ble_devices/updater.py:108-131 | a pass runs `check_and_update` exactly when a retry is due (30 minutes after a failure, fewer than 3 tries) or a regular check is (never checked, or more than 24 hours ago) |
| Schedule.SuccessResets | custom_components/ct_ble_devices/updater.py:133-137 | success clears the failure record and sets `last_check` to now |
| Schedule.FailedRetryCounts | custom_components/ct_ble_devices/updater.py:140-143 | a failed retry adds one to the count, keeps the failed version and sets `last_check` to now |
| Schedule.FailedCheckRecords | custom_components/ct_ble_devices/updater.py:145-149 | a failed regular check that attempted a version records it with count 1 |
| Schedule.QuietCheckStaysDue | custom_components/ct_ble_devices/updater.py:124-154 | a regular check that attempted nothing leaves the state exactly as the pass prepared it (`Prepared`), so `last_check` is unchanged and the check is due again on the next pass |
| Schedule.ExhaustedRetriesAbandoned | custom_components/ct_ble_devices/updater.py:110-122 | after 3 failed attempts the failure record is dropped without a retry. Unless the 24-hour interval has passed, nothing runs |
| Schedule.StepBudget | custom_components/ct_ble_devices/updater.py:108-149 | a retry uses up one unit of retry budget, and only a newly recorded failure adds budget (2 units) |
| Schedule.RetriesBounded | custom_components/ct_ble_devices/updater.py:102-154 | over any run of passes, the retries are at most the starting budget plus 2 per recorded failure |
| Schedule.FreshRunRetries | custom_components/ct_ble_devices/updater.py:76-80 | from the initial state, a run makes at most 2 retries per recorded failure |
| Install.VersionedFrom | custom_components/ct_ble_devices/updater.py:291-298 | the second way finds nothing exactly when no listed top-level directory named like the integration holds `custom_components/ct_ble_devices` with a manifest. What it finds has a manifest |
| Install.LegacyFrom | custom_components/ct_ble_devices/updater.py:300-310 | the third way finds nothing exactly when no listed directory has a manifest, directly or in `ct_ble_devices`. What it finds has a manifest |
| Install.PayloadRoot | custom_components/ct_ble_devices/updater.py:283-314 | the payload root chosen, if any, holds `manifest.json` |
| Install.PayloadRootMissing | custom_components/ct_ble_devices/updater.py:283-314 | no root is found exactly when the standard layout is absent and no top-level directory matches the second or third way |
| Install.PayloadRootPriority | custom_components/ct_ble_devices/updater.py:286-310 | the three ways are tried in order: the standard layout wins, then any second-way candidate |
| Install.FindPayloadRoot | custom_components/ct_ble_devices/updater.py:283-310 | the search loops with their early exits return exactly `PayloadRoot` |
| Install.RelPathsMember | custom_components/ct_ble_devices/updater.py:337-351 | `rglob` visits exactly the files strictly below the payload root, by relative path |
| Install.OverlayContents | custom_components/ct_ble_devices/updater.py:328-362 | after the overlay, staging holds every copied payload file at its relative path and every other file as it was |
| Install.RequiredIn | custom_components/ct_ble_devices/updater.py:354-356 | only required names are recorded |
| Install.RequiredFound | custom_components/ct_ble_devices/updater.py:334-356 | the recorded names are required names |
| Install.RequiredFoundMeaning | custom_components/ct_ble_devices/updater.py:364-369 | the required-file test passes exactly when `manifest.json` and `__init__.py` are each the name of some copied file, at any depth |
| Install.OverlayPayload | custom_components/ct_ble_devices/updater.py:331-362 | the loop, in any visiting order, leaves staging as `Overlay` says, records exactly `RequiredFound`, and counts every payload file, excluded or not |
| Install.OverlayFile | custom_components/ct_ble_devices/updater.py:338-362 | one file is copied and its name recorded unless its path string contains an excluded pattern |
| Install.Excluded | custom_components/ct_ble_devices/updater.py:332-345 | a file is skipped when its path string contains one of the seven exclude patterns |
| Install.Overlay | custom_components/ct_ble_devices/updater.py:328-362 | the staging tree after the overlay: the live tree with every non-excluded payload file written over it. `OverlayContents` and `OverlayPayload` state its contents |
| Install.ManifestReadable | custom_components/ct_ble_devices/updater.py:371-382 | the staged manifest check passes when there is no manifest; an object always passes, an array or a string passes only when `"version"` is not an element or a substring, and anything else fails. `InstallChecksFail` and `InstallSuccess` use it |
| Install.WithVersion | custom_components/ct_ble_devices/updater.py:496-511 | the version rewrite on one tree; `WithVersionContents` states what it changes |
| Install.WithVersionContents | custom_components/ct_ble_devices/updater.py:496-511 | the rewrite sets only the manifest's `version` field and keeps every other field and file. A manifest that is missing, does not decode, or decodes to something other than an object is left as it was |
| Install.UpdateVersionInfoInPath | custom_components/ct_ble_devices/updater.py:496-511 | the directory becomes `WithVersion` of itself, and a missing directory is left as it is |
| Install.ReloadIntegration | custom_components/ct_ble_devices/updater.py:548-588 | the reload succeeds exactly when there is an entry id, the entry is loaded (at once, or after its set-up finishes) and the host reports success |
| FileTree.Disk.RemoveTree | custom_components/ct_ble_devices/updater.py:318-319 | the directory is gone and nothing else changes |
| FileTree.Disk.CopyTree | custom_components/ct_ble_devices/updater.py:320 | the destination becomes a copy of the source and nothing else changes |
| FileTree.Disk.Rename | custom_components/ct_ble_devices/updater.py:396-398 | the source moves to the destination and nothing else changes |
| FileTree.Disk.WriteFile | custom_components/ct_ble_devices/updater.py:359-362 | one file of the directory is written and nothing else changes |
| Text.LStrip | custom_components/ct_ble_devices/updater.py:213 | `lstrip("v")` removes exactly the leading run of `v`s: the input is that run followed by the result, and the result does not start with `v` |
| Text.StripMeaning | custom_components/ct_ble_devices/generate_docx.py:30 | `strip()` gives the infix left after the leading and trailing whitespace. It is empty exactly when the line is all whitespace |
| Text.SplitPieces | custom_components/ct_ble_devices/generate_docx.py:26 | `split('\n')` gives one more line than there are newlines, none holding a newline |
| Scanner.RegisterAdds | custom_components/ct_ble_devices/scanner.py:322-325 | registering keeps the list free of duplicates and in order, and adds exactly the callback |
| Scanner.RegisterIdempotent | custom_components/ct_ble_devices/scanner.py:322-325 | registering twice is registering once |
| Scanner.UnregisterRemoves | custom_components/ct_ble_devices/scanner.py:327-330 | unregistering removes exactly the callback, and an unknown callback changes nothing |
| Scanner.RegisterUnregister | custom_components/ct_ble_devices/scanner.py:322-330 | registering a new callback and unregistering it restores the list |
| Scanner.UpdateDeviceNotifiesNew | custom_components/ct_ble_devices/scanner.py:309-320 | the record is filed under its address and the other records are kept. Every update callback is called exactly once when the address is new, and none otherwise |
| Scanner.BroadcastCountsOne | custom_components/ct_ble_devices/scanner.py:82-142 | the address's count rises by one (to 1 for a new address), every other count is unchanged, and the record is stored |
| Scanner.NonGaitIgnored | custom_components/ct_ble_devices/scanner.py:147-157 | a report is dropped, leaving the scanner unchanged, exactly when it is not an advertisement or the name does not start with `Gait` |
| Scanner.GaitAdvertisementNotifies | custom_components/ct_ble_devices/scanner.py:183-245 | a Gait advertisement overwrites the device's record and calls each entity callback once, in order, with it. It calls no update callback and queues the same record for the buffer |
| Scanner.GaitAddAppends | custom_components/ct_ble_devices/scanner.py:215-242 | buffering appends exactly the record and changes nothing else. It starts a collection period at `now` when none is running |
| Scanner.FlushEmpties | custom_components/ct_ble_devices/scanner.py:347-373 | a flush empties the buffer and ends the period. With no period running it changes nothing |
| Scanner.FlushAfterAdds | custom_components/ct_ble_devices/scanner.py:213-245 | from an empty buffer, the buffer holds exactly the records added, in order, in one period started at the first |
| Scanner.StartWhenScanning | custom_components/ct_ble_devices/scanner.py:65-79 | starting is a no-op while scanning and idempotent. Afterwards scanning and the restart timer are on, and a fresh start subscribes |
| Scanner.SetUpScans | custom_components/ct_ble_devices/scanner.py:57-63 | set-up starts scanning unless the option is `False`. The default (`DEFAULT_ENABLE_SCANNING`) is on |
| Scanner.StopSilences | custom_components/ct_ble_devices/scanner.py:409-433 | after stopping, nothing is live, the timer tick does nothing, and devices and buffer are kept |
| Scanner.RestartResubscribes | custom_components/ct_ble_devices/scanner.py:376-407 | while scanning, a tick drops the subscription and starts the flush task; its restart task subscribes again |
| Scanner.DevicesKeepInv | custom_components/ct_ble_devices/scanner.py:82-142 | storing and counting a device keep the scanner invariant |
| Scanner.AdvertisedKeepsInv | custom_components/ct_ble_devices/scanner.py:147-245 | handling a report keeps the invariant, and what it queues has a Gait name |
| Scanner.BufferKeepsInv | custom_components/ct_ble_devices/scanner.py:215-373 | buffering a Gait record and flushing keep the invariant |
| Scanner.ScanningKeepsInv | custom_components/ct_ble_devices/scanner.py:57-79 | starting, set-up, ticks, restarts and stopping keep the invariant; the restart timer runs exactly while scanning |
| Scanner.BLEScanner.constructor | custom_components/ct_ble_devices/scanner.py:31-50 | everything starts empty and off |
| Scanner.BLEScanner.RegisterUpdateCallback | custom_components/ct_ble_devices/scanner.py:322-325 | the update registry becomes `Registered` and nothing else changes |
| Scanner.BLEScanner.UnregisterUpdateCallback | custom_components/ct_ble_devices/scanner.py:327-330 | the update registry becomes `Unregistered` and nothing else changes |
| Scanner.BLEScanner.RegisterEntityCallback | custom_components/ct_ble_devices/scanner.py:332-335 | the entity registry becomes `Registered` and nothing else changes |
| Scanner.BLEScanner.UnregisterEntityCallback | custom_components/ct_ble_devices/scanner.py:337-340 | the entity registry becomes `Unregistered` and nothing else changes |
| Scanner.BLEScanner.UpdateDevice | custom_components/ct_ble_devices/scanner.py:309-320 | the new state is `DeviceUpdated` of the old one, and the invariant holds |
| Scanner.BLEScanner.ProcessDeviceBroadcast | custom_components/ct_ble_devices/scanner.py:82-142 | the new state is `BroadcastProcessed` of the old one, and the invariant holds |
| Scanner.BLEScanner.BtCallback | custom_components/ct_ble_devices/scanner.py:147-245 | the new state and the queued record are `Advertised` of the old state, and the invariant holds |
| Scanner.BLEScanner.AddGaitData | custom_components/ct_ble_devices/scanner.py:215-242 | the new state is `GaitAdded` of the old one, and the invariant holds |
| Scanner.BLEScanner.PrintGaitDataAfterDelay | custom_components/ct_ble_devices/scanner.py:347-373 | the new state is `Flushed` of the old one, and the invariant holds |
| Scanner.BLEScanner.StartHaBluetoothScanning | custom_components/ct_ble_devices/scanner.py:144-305 | the advertisement subscription is live and nothing else changes |
| Scanner.BLEScanner.RestartScan | custom_components/ct_ble_devices/scanner.py:401-407 | the new state is `Rescanned` of the old one |
| Scanner.BLEScanner.StartScanning | custom_components/ct_ble_devices/scanner.py:65-79 | the new state is `Started` of the old one |
| Scanner.BLEScanner.Setup | custom_components/ct_ble_devices/scanner.py:57-63 | the new state is `SetUp` of the old one, for the entry's option |
| Scanner.BLEScanner.RestartScanPeriodically | custom_components/ct_ble_devices/scanner.py:376-399 | the new state is `RestartTicked` of the old one |
| Scanner.BLEScanner.AsyncStop | custom_components/ct_ble_devices/scanner.py:409-433 | the new state is `Stopped` of the old one |
| Scanner.DeviceUpdated | custom_components/ct_ble_devices/scanner.py:309-320 | `_update_device` as a value; `UpdateDeviceNotifiesNew` states it |
| Scanner.BroadcastProcessed | custom_components/ct_ble_devices/scanner.py:82-142 | `_process_device_broadcast` as a value; `BroadcastCountsOne` states it |
| Scanner.Advertised | custom_components/ct_ble_devices/scanner.py:147-245 | `_bt_callback` as a value; `NonGaitIgnored` and `GaitAdvertisementNotifies` state it |
| Scanner.GaitAdded | custom_components/ct_ble_devices/scanner.py:215-242 | `_add_gait_data` as a value; `GaitAddAppends` and `FlushAfterAdds` state it |
| Scanner.Flushed | custom_components/ct_ble_devices/scanner.py:347-373 | the flush as a value; `FlushEmpties` states it |
| Scanner.Started | custom_components/ct_ble_devices/scanner.py:65-79 | `start_scanning` as a value; `StartWhenScanning` states it |
| Scanner.Stopped | custom_components/ct_ble_devices/scanner.py:409-433 | `async_stop` as a value; `StopSilences` states it |
| Scanner.CallUpdateCallbacks | custom_components/ct_ble_devices/scanner.py:316-320 | every update callback is called once, in registration order |
| Scanner.CallEntityCallbacks | custom_components/ct_ble_devices/scanner.py:203-207 | every entity callback is called once, in registration order, with the record |
| Markdown.ClassifiedAt | custom_components/ct_ble_devices/generate_docx.py:30-57 | line `i` is blank, a table row or text exactly as the loop's tests on the stripped line decide |
| Markdown.TableEnd | custom_components/ct_ble_devices/generate_docx.py:57-62 | the table run ends at or after its start and within the text |
| Markdown.TableEndMaximal | custom_components/ct_ble_devices/generate_docx.py:57-62 | a table run is a maximal run of lines starting with a vertical bar |
| Markdown.CreateDocxFromMarkdown | custom_components/ct_ble_devices/generate_docx.py:26-92 | the generator's loop adds exactly the blocks `Parse` gives, or fails where `Parse` reports the table error |
| Markdown.ParseLine | custom_components/ct_ble_devices/generate_docx.py:30-92 | one turn moves past at least one line and extends the document by what `ParseFrom` gives for the lines it consumed |
| Markdown.ClassifyLine | custom_components/ct_ble_devices/generate_docx.py:37-90 | a line opens a table exactly when it starts with a vertical bar. Otherwise its block is `LineBlock` |
| Markdown.AddTable | custom_components/ct_ble_devices/generate_docx.py:53-77 | the table branch consumes the whole run and adds the table of kept rows, or nothing when no row is kept. It fails when a row does not fit |
| Markdown.ReadTable | custom_components/ct_ble_devices/generate_docx.py:55-62 | the inner loop collects exactly the kept rows of the run. After stepping back one line it stops on the run's last line |
| Markdown.ReadRow | custom_components/ct_ble_devices/generate_docx.py:57-60 | the row test and the row's cells and keep decision agree with the line's classification |
| Markdown.FillTable | custom_components/ct_ble_devices/generate_docx.py:64-72 | filling succeeds exactly when no row has more cells than the first |
| Markdown.ClassifyRule | custom_components/ct_ble_devices/generate_docx.py:30-53 | a line is blank exactly when it is all whitespace, and a table row exactly when it starts with a vertical bar once stripped. Any other line becomes the block of its stripped text |
| Markdown.HeadingLevels | custom_components/ct_ble_devices/generate_docx.py:37-52 | `#`, `##` or `###` followed by a space and a text gives a heading of that level holding the text |
| Markdown.HeadingShape | custom_components/ct_ble_devices/generate_docx.py:37-52 | every heading has level 1 to 3 and comes from exactly such a line |
| Markdown.EmphasisRule | custom_components/ct_ble_devices/generate_docx.py:81-90 | a line is emphasised exactly when it starts with the check mark or `**`. It keeps the whole line and is bold green exactly when the check mark occurs in it; any other such line is a plain paragraph |
| Markdown.BulletRule | custom_components/ct_ble_devices/generate_docx.py:78-80 | a `- ` line is a bullet holding the rest of the line |
| Markdown.BlankLinesGiveNothing | custom_components/ct_ble_devices/generate_docx.py:29-34 | a text whose lines are all whitespace gives an empty document |
| Markdown.LinesConsumedOnce | custom_components/ct_ble_devices/generate_docx.py:29-92 | every non-blank line is consumed exactly once: lines giving a block or a kept row, plus the dropped rows, are all the non-blank lines |
| Markdown.TablesFit | custom_components/ct_ble_devices/generate_docx.py:64-77 | every table in a built document has a header row, and no row is longer than it |
| Markdown.BlocksAtMostLines | custom_components/ct_ble_devices/generate_docx.py:26-92 | a document has no more blocks than the text has non-blank lines, and so no more than it has lines |
| Markdown.KeptRowsKept | custom_components/ct_ble_devices/generate_docx.py:58-60 | every kept row is non-empty and holds a character other than `-`, `:` and space |
| Markdown.LineBlock | custom_components/ct_ble_devices/generate_docx.py:37-90 | the block of a non-table line. `HeadingLevels`, `HeadingShape`, `BulletRule` and `EmphasisRule` state its cases |
| Markdown.Cells | custom_components/ct_ble_devices/generate_docx.py:58 | the cells of a row: the stripped pieces between the first and the last vertical bar |
| Markdown.Keep | custom_components/ct_ble_devices/generate_docx.py:59 | a row is kept when it is non-empty and not made only of `-`, `:` and spaces. `KeptRowsKept` states it |
| Markdown.ParseFrom | custom_components/ct_ble_devices/generate_docx.py:29-92 | the document the loop builds from line `i` on, or the table error. `CreateDocxFromMarkdown` is proved to compute it, and the lemmas above state its properties |

## Left out

- Logging, the `timestamp` and `time_unix` fields of device records and buffer entries, and every `asyncio.sleep`. They do not affect any state the model tracks.
- The asyncio lock around the Gait buffer, and task scheduling. A task that `_bt_callback` or `_restart_scan_periodically` creates is a separate method call (`AddGaitData`, `PrintGaitDataAfterDelay`, `RestartScan`) that the event loop makes later, in any order.
- Exceptions raised by callbacks are caught and logged, so they are not modelled. Callbacks that re-enter the registries are not modelled either.
- The `devices` property, a plain getter.
- The commented-out device clean-up and the commented-out flush task in `_add_gait_data`.
- Scanner.BLEScanner.StartHaBluetoothScanning: the subscription is a flag. A second subscription made while one is live replaces the cancel handle, and the model does not count the leaked subscription.
- HTTP, JSON decoding, zip extraction and the temporary directory with its `finally` clean-up. The download and extraction are the `Fetch` input. A failure of any of them is `FetchFault`, which the outer `except` handles.
- Release.GetLatestVersion: a body that is not a JSON object, or an asset that is not one, raises inside the method and is caught. The model covers that case only as `RequestFailed`.
- The order of `iterdir()` is the `listing` input. The order of `rglob` is a free choice in the overlay loop; its result does not depend on it.
- Versions.ParseVersion: only release segments are modelled: digits and dots, optionally after one `v`, with surrounding whitespace ignored. `packaging` also accepts epochs and pre-, post-, dev- and local parts. The model treats such a version as unparsable, so the gate does not install it, whereas `packaging` would compare it.
- Install.Excluded: the path string is built with `/`, and `*.pyc` and `*.pyo` are tested as plain substrings, as the source tests them.
- Persistent notifications are left out. Only whether posting one raises matters (`notifyFails`), and then every notification of that install raises.
- The manifest's version mismatch before the rewrite is only logged, so it is not modelled. A version field that is not a string is not modelled either, and a JSON array is modelled by its string elements only.
- FileTree.Disk.CopyTree, FileTree.Disk.RemoveTree, FileTree.Disk.WriteFile: local file operations are assumed never to raise. In the source an `OSError` from `copytree`, `mkdir` or `copy2` during staging goes to the outer `except`, which restores the backup but leaves a partly written `.staging` behind.
- Updater.NoStagingLeft: holds only under that assumption; a copy that raises part-way through the overlay leaves `.staging`, which the next install removes before copying.
- The 60-second start-up delay and its cancellation, and `AUTO_UPDATE_ENABLED` (a constant `True`).
- A periodic pass that raises outside `check_and_update`, which never raises.
- python-docx formatting: fonts, sizes, colours other than the green flag, alignment, the table style and header bold. Also the `save` and the closing `print`.
- `current_version` is never updated after an install. The model keeps it as it is, so a pass after a successful install compares against the old version until the integration restarts.
- `_bt_callback` stores Gait devices without counting them, and calls no update callback. `_process_device_broadcast` and `_update_device` are modelled as operations of their own, although nothing in the scanner calls them.
- A pending `RestartScan` that runs after `AsyncStop` subscribes again, as the source does.
