# Tobatools core, modelled in Dafny

Tobatools is a Windows desktop toolbox for Android phones. It drives `adb` and `fastboot`
through a Qt user interface. This project models the decision logic behind its tabs and
flashing procedures, and proves properties of that model. Each piece of input/output is
replaced by a parameter:

- a device shell is a function from a command text to its outcome;
- a web or file read is its outcome;
- a folder is a predicate telling which paths exist;
- a child process is the list of lines it prints and its exit code;
- another thread's `stop()` is the index of the output line or poll it arrives before.

The modules follow the program's structure.

**App services and widgets (backup tab)**

- `PartitionScan`: the partition scan of the backup tab. It checks for root, then probes the three `by-name` directories in priority order (the last one is a wildcard), filters the listing and sorts it.
- `BackupExecutor`: the backup job. It:
  - searches for the partition directory;
  - runs `dd`, pull and best-effort removal for each selected partition;
  - polls the stop flag;
  - writes the restore scripts;
  - packages the result as a zip (7-Zip first, then the zip library) or leaves a folder.
- `RestoreScripts`: the `flash_all.bat` / `flash_all.sh` texts, and what they flash.
- `SelectionDialog`: the partition selection dialog. It splits names into risky and normal, and manages the check boxes (select all, invert, default, selected).
- `BackupTab`: the guards in front of a scan and a backup, and the tab state they update.
- `Sorting`: Python's string order, and `sorted` on lists of strings.

**Other services and widgets**

- `UpdateChecker`: the update check. It rewrites blob addresses to raw ones, then applies the JSON / `key=value` / first-line fallback.
- `Registration`: the bottom-up registry lookup, with the info taken from the line above or below.
- `DownloadWorker`: the firmware download worker. It covers:
  - the plain-or-segmented decision;
  - the byte-range split;
  - the progress cap;
  - the zip verification gate;
  - cancellation.
- `FirmwareTab`: the default file name and path of a download, the single download slot, and the firmware list loader.
- `DeviceInfo`: the device-information tab:
  - percent extraction;
  - the ring widget;
  - `df` formatting;
  - the connection banner debounce;
  - the label mapping.
- `FileManager`: the device file manager:
  - path joining and going up;
  - the copy/cut clipboard;
  - the transfer guard and worker dispatch;
  - the progress bar;
  - the stream worker's line reading.
- `Settings`: the settings tab:
  - update-address migration;
  - the theme index/mode round trip;
  - the download-folder card;
  - tool detection;
  - the update notice with its version gate.

**Flashing (app logic)**

- `FlashProcess`, `MiFlash`, `Sideload`: the two flashing procedures. `MiFlash` picks and runs a `flash_all*.bat` script; `Sideload` runs `adb sideload` after a mode check. They share the stop flag, the child process field and the output loop.

**Libraries**

- `Wrappers`, `Text`, `Seqs` and `HostPath` are small libraries. They cover:
  - Python's `strip`, `split`, `splitlines`, `lower` and `in` on strings;
  - filters and maps on sequences;
  - Windows path joining, as `os.path` does on the `nt` platform the tool ships for.

The update gate compares versions as strings, as the settings tab does. `Settings.TwoDigitComponentNotNewer` shows what that means for a two-digit component: `1.10` is not offered over `1.9`. The format of the program's own version string is not part of this model, so this is stated as a property and not as a defect.

The stop flag of the flashing procedures is never cleared once set. `FlashProcess.StopIsSticky` states the consequence: after one stop, every later run that prints anything is cancelled.

The backup job resolves the wildcard partition directory from the whole `ls -d` answer, whereas the scan takes only its first line. `BackupExecutor.WildcardAgreesOnOneLine` and `BackupExecutor.WildcardKeepsEveryLine` state where the two agree and where they differ.

The scan keeps duplicate names and drops only tokens that start with `/` or `ls:` (`PartitionScan.ListingEntries`).

## Model

| member | source | states |
|---|---|---|
| PartitionScan.Run | app/widgets/backup_tab.py:37-60 | a shell command's output comes back stripped; a raised command keeps its message |
| PartitionScan.KeepNames | app/widgets/backup_tab.py:121-125 | the kept tokens are exactly the listing tokens that name a partition, each as often as in the listing |
| PartitionScan.ListingEntries | app/widgets/backup_tab.py:118-125 | a listing yields names only if it is non-empty and has neither error text; its names are its whitespace tokens not starting with `/` or `ls:`, with their multiplicities |
| PartitionScan.ProbeEach | app/widgets/backup_tab.py:105-129 | one probe per candidate directory, in order |
| PartitionScan.ProbeOne | app/widgets/backup_tab.py:106-125 | one pass of the probing loop is the probe of that candidate: wildcard resolution, then listing |
| PartitionScan.ProbeAll | app/widgets/backup_tab.py:105-129 | the probing loop issues the commands, and finds the names, that the in-order first-listing search describes |
| PartitionScan.Scan | app/widgets/backup_tab.py:67-140 | the scan method computes exactly the modelled scan outcome over the three search paths |
| PartitionScan.StopsAtFirst | app/widgets/backup_tab.py:105-129 | probing stops at the first probe that yields a name; every probe before it was issued and found nothing |
| PartitionScan.FindsNothing | app/widgets/backup_tab.py:105-129 | when no probe yields a name, every probe is issued and nothing is found |
| PartitionScan.StopsAtFirstFromStart | app/widgets/backup_tab.py:105-129 | the same from the first candidate |
| PartitionScan.FindsNothingFromStart | app/widgets/backup_tab.py:105-129 | the same from the first candidate, for a search that finds nothing |
| PartitionScan.ScanNeedsRoot | app/widgets/backup_tab.py:73-93 | without adb or root the scan gives an empty list and an error, and issues only the root-check commands |
| PartitionScan.ScanFindsFirstListing | app/widgets/backup_tab.py:105-136 | with root, the result is the first listing directory's names, sorted and with the same multiset, and no error |
| PartitionScan.ScanFindsNothing | app/widgets/backup_tab.py:130-136 | with root but no listing, every directory is probed and the scan fails |
| PartitionScan.ScanAllOrNothing | app/widgets/backup_tab.py:67-140 | a scan never reports a partial list: no error exactly when names were found |
| PartitionScan.PlainCandidateListed | app/widgets/backup_tab.py:106-118 | a candidate without `*` is listed directly with one `ls -1` |
| PartitionScan.WildcardCandidateResolved | app/widgets/backup_tab.py:107-118 | a wildcard candidate first asks `ls -d <base>*`; a usable answer is listed as its first line plus `/by-name`, otherwise the unresolved path is listed |
| PartitionScan.WildcardCommandOf | app/widgets/backup_tab.py:108-109 | the command that resolves a wildcard is `ls -d <base>* 2>/dev/null` |
| PartitionScan.PlatformPathIsWildcard | app/widgets/backup_tab.py:97-101 | only the third search path holds a wildcard, and its base is the platform directory |
| BackupExecutor.Run | app/widgets/backup_tab.py:162-181 | a command's output comes back stripped; a raised command keeps its message |
| BackupExecutor.BackupName | app/widgets/backup_tab.py:195-198 | the folder name starts `Backup_`, ends `_<timestamp>`, and has no space |
| BackupExecutor.ProbeTargetOne | app/widgets/backup_tab.py:205-221 | one pass of the target search is the probe of that candidate |
| BackupExecutor.FindTarget | app/widgets/backup_tab.py:202-223 | the target search loop finds the first accepted directory, with the commands the in-order search describes |
| BackupExecutor.BackupPart | app/widgets/backup_tab.py:235-259 | a partition is kept exactly when `dd` and pull both succeed; a failed `dd` skips pull and removal; a failed pull still removes |
| BackupExecutor.Package | app/widgets/backup_tab.py:294-329 | packaging keeps the partitions and scripts; a successful zip reports `<out>/<name>.zip` and removes the folder |
| BackupExecutor.Stored | app/widgets/backup_tab.py:266-290 | a failing write leaves each script's lines before it, a prefix of the full text; the shell script exists only when the Windows script is complete; the lines on disk number the failing index, or all when none fails |
| BackupExecutor.Finish | app/widgets/backup_tab.py:261-336 | the script writer runs exactly when the loop ran to its end, scripts were asked for and something was backed up, and leaves the stored lines up to a failing write; success needs no stop up to the last poll |
| BackupExecutor.FinishJob | app/widgets/backup_tab.py:261-336 | the step after the loop, including a failing script write that is only logged, computes exactly the modelled finish |
| BackupExecutor.CopyParts | app/widgets/backup_tab.py:228-259 | the partition loop stops at the first poll that sees the stop flag; up to there it builds exactly the modelled loop state |
| BackupExecutor.Execute | app/widgets/backup_tab.py:186-340 | the job method computes exactly the modelled job report, including a failure reading the device's details or creating the folder |
| BackupExecutor.LoopSucceededSnoc | app/widgets/backup_tab.py:228-259 | one more partition is kept exactly when it was backed up |
| BackupExecutor.LoopKeepsBackedUp | app/widgets/backup_tab.py:228-259 | the successes are, in order, exactly the partitions that were copied out and pulled |
| BackupExecutor.ExecutedPastLoop | app/widgets/backup_tab.py:186-336 | once the loop is reached, the job is its packaging step |
| BackupExecutor.ExecutedShortOfLoop | app/widgets/backup_tab.py:188-236 | short of the loop, the job fails with nothing backed up and no script |
| BackupExecutor.ExecutedSucceeded | app/widgets/backup_tab.py:228-259 | the reported successes are the attempted partitions that were backed up, an ordered subsequence of the selection |
| BackupExecutor.CancelledInLoop | app/widgets/backup_tab.py:228-230 | a stop seen in the loop ends the job as cancelled after the partitions before it, with no script and no zip |
| BackupExecutor.ScriptsWritten | app/widgets/backup_tab.py:264-290 | the script writer runs exactly when the loop ran out, scripts were asked for and something succeeded; it leaves the lines before the first failing write; with no failing write both scripts are complete and each flashes exactly the successes in order |
| BackupExecutor.ScriptFailureOnlyLogged | app/widgets/backup_tab.py:264-290 | a failing script write changes nothing but the scripts: outcome, message, successes, commands and folder removal stay the same |
| BackupExecutor.FinishScriptFailure | app/widgets/backup_tab.py:264-336 | the same for the step after the loop |
| BackupExecutor.PackageSameEnd | app/widgets/backup_tab.py:294-329 | packaging does not depend on what the scripts hold |
| BackupExecutor.FinishOk | app/widgets/backup_tab.py:261-336 | the packaging step succeeds exactly when no stop comes and a due archive is made; success names the zip or the folder |
| BackupExecutor.FinishedOk | app/widgets/backup_tab.py:186-336 | the job succeeds exactly when the device's details and the folder are obtained, it gets through the loop, no stop comes and a due archive is made |
| BackupExecutor.SucceededAllAttempted | app/widgets/backup_tab.py:228-336 | a successful job attempted every selected partition and reports exactly those copied out and pulled, in selection order |
| BackupExecutor.EarlyExits | app/widgets/backup_tab.py:188-223 | nothing selected fails before any command; a failure reading the device's details or creating the folder fails with its message before any command; no partition directory fails with its message |
| BackupExecutor.NotRemoval | app/widgets/backup_tab.py:256-259 | a command not starting with `r` is no removal |
| BackupExecutor.RunIgnoresRemoval | app/widgets/backup_tab.py:256-259 | two devices that differ only on removals answer every other command alike |
| BackupExecutor.ListTargetIgnoresRemoval | app/widgets/backup_tab.py:202-223 | listing a directory does not depend on how removals answer |
| BackupExecutor.ProbeTargetIgnoresRemoval | app/widgets/backup_tab.py:202-223 | probing a directory does not depend on how removals answer |
| BackupExecutor.FindTargetIgnoresRemoval | app/widgets/backup_tab.py:202-223 | the target search does not depend on how removals answer |
| BackupExecutor.LoopIgnoresRemoval | app/widgets/backup_tab.py:228-259 | the partition loop does not depend on how removals answer |
| BackupExecutor.FinishIgnoresRemoval | app/widgets/backup_tab.py:261-336 | the finish does not depend on how removals answer |
| BackupExecutor.RemovalOutcomeIgnored | app/widgets/backup_tab.py:256-259 | whatever a removal answers, the job ends the same way |
| BackupExecutor.WildcardAgreesOnOneLine | app/widgets/backup_tab.py:209-216 | for a one-line `ls -d` answer, the job resolves the wildcard as the scan does |
| BackupExecutor.WildcardKeepsEveryLine | app/widgets/backup_tab.py:209-216 | for a several-line answer, the job keeps all lines while the scan takes the first, so they differ |
| BackupExecutor.WholeAnswerSpans | app/widgets/backup_tab.py:212-214 | the job's directory from an answer with a line break keeps that line break |
| BackupExecutor.FirstLineKept | app/widgets/backup_tab.py:110-114 | the scan's directory, built from the first stripped line, never contains a line break |
| RestoreScripts.WriteScripts | app/widgets/backup_tab.py:266-289 | the two script-writing loops give exactly the modelled `.bat` and `.sh` texts |
| RestoreScripts.FlashedPartitionsConcat | app/widgets/backup_tab.py:266-289 | the partitions flashed by two pieces of a script, in order |
| RestoreScripts.FlashLineRead | app/widgets/backup_tab.py:275 | a `fastboot flash <p> <p>.img` line reads back as partition `p` |
| RestoreScripts.NotFlashAt | app/widgets/backup_tab.py:266-289 | a line differing from the flash prefix is no flash line |
| RestoreScripts.NoFlashLines | app/widgets/backup_tab.py:266-289 | lines without a flash line flash nothing |
| RestoreScripts.EchoThenFlash | app/widgets/backup_tab.py:274-275 | an echo line then a flash line flash exactly that partition |
| RestoreScripts.BatLinesRead | app/widgets/backup_tab.py:274-275 | the `.bat` lines for `p` flash exactly `p` |
| RestoreScripts.ShLinesRead | app/widgets/backup_tab.py:285-286 | the `.sh` lines for `p` flash exactly `p` |
| RestoreScripts.BatBodyRead | app/widgets/backup_tab.py:273-276 | the `.bat` body flashes exactly the partitions, in order |
| RestoreScripts.ShBodyRead | app/widgets/backup_tab.py:284-287 | the `.sh` body flashes exactly the partitions, in order |
| RestoreScripts.FixedLinesNotFlash | app/widgets/backup_tab.py:269-289 | the fixed header and footer lines flash nothing |
| RestoreScripts.ScriptsFlashExactly | app/widgets/backup_tab.py:266-289 | each script holds `fastboot devices` and flashes exactly the backed-up partitions, once each, in backup order |
| SelectionDialog.Dedup | app/widgets/backup_tab.py:423-434 | dictionary keys have no repeats and are exactly the names added |
| SelectionDialog.Selected | app/widgets/backup_tab.py:452-453 | a name is selected exactly when some ticked box carries it |
| SelectionDialog.Classify | app/widgets/backup_tab.py:408-415 | the classification loop splits the names into the normal and the risky ones, each in scan order |
| SelectionDialog.AddBoxes | app/widgets/backup_tab.py:419-434 | adding boxes keeps the dictionary's first-insertion order |
| SelectionDialog.PartitionSelection.constructor | app/widgets/backup_tab.py:344-434 | the boxes are the normal names then the risky ones, ticked exactly for the normal names |
| SelectionDialog.PartitionSelection.SelectAll | app/widgets/backup_tab.py:436-438 | every box is ticked |
| SelectionDialog.PartitionSelection.InvertSelection | app/widgets/backup_tab.py:440-442 | every box is flipped |
| SelectionDialog.PartitionSelection.SelectDefault | app/widgets/backup_tab.py:444-450 | the boxes are ticked exactly for the normal names |
| SelectionDialog.PartitionSelection.GetSelected | app/widgets/backup_tab.py:452-453 | the ticked names, in box order |
| SelectionDialog.DedupAppendDisjoint | app/widgets/backup_tab.py:419-434 | the keys of two runs of names with none in common are the keys of each, one after the other |
| SelectionDialog.KeysLayout | app/widgets/backup_tab.py:407-434 | one box per scanned name, none twice, every normal box before every risky one |
| SelectionDialog.SelectedAppend | app/widgets/backup_tab.py:452-453 | selecting over two runs of boxes is selecting over each |
| SelectionDialog.SelectedAll | app/widgets/backup_tab.py:436-453 | with every box ticked, every name is selected |
| SelectionDialog.SelectedNone | app/widgets/backup_tab.py:452-453 | with no box ticked, nothing is selected |
| SelectionDialog.SelectAllSelectsEvery | app/widgets/backup_tab.py:436-453 | select-all selects every box, in box order |
| SelectionDialog.DefaultChecksSplit | app/widgets/backup_tab.py:444-450 | the default boxes of normal names then risky names are all ticked then all clear |
| SelectionDialog.OpeningSelection | app/widgets/backup_tab.py:405-453 | after opening, or after "default", the selection is the normal partitions in scan order |
| SelectionDialog.DefaultSelectsNormal | app/widgets/backup_tab.py:444-453 | the default selection is exactly the normal names |
| SelectionDialog.InvertTwice | app/widgets/backup_tab.py:440-442 | inverting twice restores the boxes |
| SelectionDialog.InvertComplements | app/widgets/backup_tab.py:440-453 | inverting selects exactly the names that were not selected |
| BackupTab.ScanDecision | app/widgets/backup_tab.py:625-636 | a scan starts exactly when none runs and the device is in system mode; a running scan makes the press do nothing |
| BackupTab.Step | app/widgets/backup_tab.py:436-450 | a dialog action keeps one box per name |
| BackupTab.ChecksAfter | app/widgets/backup_tab.py:436-450 | a run of dialog actions keeps one box per name |
| BackupTab.ApplyAction | app/widgets/backup_tab.py:436-450 | one action on the dialog changes the boxes as the action describes |
| BackupTab.ApplyActions | app/widgets/backup_tab.py:436-450 | the user's actions, in order, change the boxes as the actions describe |
| BackupTab.Tab.constructor | app/widgets/backup_tab.py:459-624 | a new tab has no thread, nothing scanned or selected, the desktop as output folder and both options on |
| BackupTab.Tab.ScanPartitions | app/widgets/backup_tab.py:625-650 | the press follows the scan guard; only a started scan marks the scan thread running |
| BackupTab.Tab.OnScanFinished | app/widgets/backup_tab.py:656-674 | an error changes nothing; otherwise the partitions are kept, and an accepted dialog's selection becomes the selection |
| BackupTab.Tab.ScanThreadFinished | app/widgets/backup_tab.py:652-654 | the scan thread is released and nothing else changes |
| BackupTab.Tab.StartBackup | app/widgets/backup_tab.py:677-725 | the press follows the start guard; only a started job marks the backup thread running |
| BackupTab.Tab.BackupThreadFinished | app/widgets/backup_tab.py:746-748 | the backup thread is released and nothing else changes |
| BackupTab.StartedExactly | app/widgets/backup_tab.py:677-725 | a job starts exactly when no backup runs, something is selected, the folder exists, the device is in system mode and a selected `userdata` is confirmed; it gets the selection and options |
| BackupTab.SingleFlight | app/widgets/backup_tab.py:678-683 | while a backup runs every press is refused with the busy warning |
| BackupTab.SelectionFromScan | app/widgets/backup_tab.py:656-674 | whatever the user does in the dialog, the selection holds only scanned names, each once |
| BackupTab.SelectedDistinct | app/widgets/backup_tab.py:452-453 | picking from distinct names gives distinct names |
| Sorting.StrLeTotal | app/widgets/backup_tab.py:135 | Python's string order is total |
| Sorting.StrLeAntisymmetric | app/widgets/backup_tab.py:135 | Python's string order is antisymmetric |
| Sorting.StrLeTransitive | app/widgets/backup_tab.py:135 | Python's string order is transitive |
| Sorting.StrLeReflexive | app/widgets/backup_tab.py:135 | Python's string order is reflexive |
| Sorting.Insert | app/widgets/backup_tab.py:135 | inserting into a sorted list keeps it sorted and adds the one element |
| Sorting.Sort | app/widgets/backup_tab.py:135 | `sorted` gives an ascending list with the same elements |
| Sorting.SortedPermutationUnique | app/widgets/backup_tab.py:135 | a list has one ascending arrangement, so any sort gives the same result |
| UpdateChecker.GithubBlobToRaw | app/services/update_checker.py:24-28 | a GitHub blob address becomes `https://raw.githubusercontent.com/<user/repo>/<rest>` |
| UpdateChecker.GiteeBlobToRaw | app/services/update_checker.py:29-33 | a Gitee blob address becomes `https://gitee.com/<user/repo>/raw/<rest>` |
| UpdateChecker.NoBlobUnchanged | app/services/update_checker.py:22-35 | an address without `/blob/` is fetched as given |
| UpdateChecker.IniLine | app/services/update_checker.py:54-59 | a line sets a pair only if it is not blank, not a comment and holds `=` |
| UpdateChecker.IniManifest | app/services/update_checker.py:60-65 | the `key=value` tier yields exactly `version`, `url` and `notes` |
| UpdateChecker.FirstNonEmpty | app/services/update_checker.py:70-75 | no line is found exactly when every line is blank; a found line is non-empty |
| UpdateChecker.FirstNonEmptyIsFirst | app/services/update_checker.py:70-75 | the line found is a stripped line of the text, and every line before it is blank |
| UpdateChecker.Decide | app/services/update_checker.py:78-81 | the result records the address fetched |
| UpdateChecker.ReadLine | app/services/update_checker.py:54-59 | one turn of the `key=value` loop sets the pair the line describes |
| UpdateChecker.IniTier | app/services/update_checker.py:51-59 | the `key=value` loop builds the modelled dictionary |
| UpdateChecker.FirstLine | app/services/update_checker.py:70-75 | the first-line loop finds the first non-blank line |
| UpdateChecker.FindManifest | app/services/update_checker.py:42-77 | the three tiers are tried in the modelled order |
| UpdateChecker.Check | app/services/update_checker.py:16-83 | the check method computes exactly the modelled check outcome |
| UpdateChecker.NoUrlNoFetch | app/services/update_checker.py:18-20 | without an address the check fails with its message and fetches nothing |
| UpdateChecker.VersionOrEmpty | app/services/update_checker.py:78-83 | a result holds a version and no error, or is empty; with an address, the raw address is fetched |
| UpdateChecker.JsonObjectTaken | app/services/update_checker.py:42-81 | a JSON object is used as it is; without `version` it is the missing-version error |
| UpdateChecker.AnswerOfOutput | app/services/update_checker.py:39-81 | a fetched text is stripped, then the tiers decide |
| UpdateChecker.PickOfObject | app/services/update_checker.py:45-46 | a JSON object wins over the other tiers |
| UpdateChecker.IniTierTaken | app/services/update_checker.py:50-65 | without a JSON object, a `version` key gives exactly the three keys, and the version from the lines |
| UpdateChecker.PlainTierTaken | app/services/update_checker.py:69-77 | failing both, the first non-blank line is the version; with none, nothing is found |
| UpdateChecker.BlankAnswerFails | app/services/update_checker.py:69-80 | a blank answer that is not JSON fails with the missing-version error |
| UpdateChecker.FillSnoc | app/services/update_checker.py:53-59 | a skipped line leaves the dictionary as it is; any other line sets its key |
| UpdateChecker.FillLastWins | app/services/update_checker.py:53-59 | the value of a key comes from the last line that sets it |
| UpdateChecker.IniSkips | app/services/update_checker.py:55-56 | blank and `#` lines are skipped |
| UpdateChecker.IniLastWins | app/services/update_checker.py:53-59 | in the `key=value` tier, later keys overwrite earlier ones |
| UpdateChecker.IniLineRead | app/services/update_checker.py:57-59 | a plain `key=value` line reads back as that key and value |
| UpdateChecker.IniLineOfStripped | app/services/update_checker.py:57-59 | a line is split at its first `=` and both sides are stripped |
| Registration.CleanLines | app/services/registration_service.py:21 | one cleaned line per registry line |
| Registration.InfoOf | app/services/registration_service.py:31-37 | an info line gives a non-empty qq number without spaces |
| Registration.LastMatch | app/services/registration_service.py:23-24 | the search finds the last line equal to the serial, or proves there is none |
| Registration.PrevFrom | app/services/registration_service.py:26-28 | the nearest non-empty line at or above, or none |
| Registration.NextFrom | app/services/registration_service.py:40-42 | the nearest non-empty line at or below, or none |
| Registration.Found | app/services/registration_service.py:37-54 | a matched serial is registered, under its own id |
| Registration.Lookup | app/services/registration_service.py:7-56 | the id is always the serial |
| Registration.Matched | app/services/registration_service.py:25-55 | once a line matches, the index loops find the info above, else below, as modelled |
| Registration.ScanAbove | app/services/registration_service.py:26-38 | the backward loop yields the info of the nearest non-empty line above the match, if any |
| Registration.ScanBelow | app/services/registration_service.py:40-52 | the forward loop yields the info of the nearest non-empty line below the match, if any |
| Registration.InfoAbove | app/services/registration_service.py:26-38 | the info above comes from the nearest non-empty line above |
| Registration.InfoBelow | app/services/registration_service.py:40-52 | the info below comes from the nearest non-empty line below |
| Registration.CheckRegistration | app/services/registration_service.py:7-56 | the lookup method computes exactly the modelled lookup |
| Registration.LookupOfText | app/services/registration_service.py:21-56 | with a serial, the lookup runs over the cleaned lines |
| Registration.LookupOfLast | app/services/registration_service.py:23-55 | the last matching line gives the answer |
| Registration.LookupOfNone | app/services/registration_service.py:56 | without a match the serial is unregistered |
| Registration.NoLookup | app/services/registration_service.py:13-19 | no serial, or no registry, gives unregistered with no qq and no name |
| Registration.RegisteredIff | app/services/registration_service.py:21-56 | a serial is registered exactly when a cleaned line equals it; qq and name are both given or both missing |
| Registration.LinesRegisteredIff | app/services/registration_service.py:23-56 | over the cleaned lines, registered exactly when a line is the serial |
| Registration.LastOccurrenceDecides | app/services/registration_service.py:23-24 | the last line equal to the serial decides the answer |
| Registration.AboveFirst | app/services/registration_service.py:26-38 | the nearest non-empty line above gives the info when it has any |
| Registration.BelowOtherwise | app/services/registration_service.py:40-52 | otherwise the nearest non-empty line below does |
| Registration.InfoLineRead | app/services/registration_service.py:31-37 | `#<qq> <words>` reads back as the qq number and the words joined by single spaces |
| Registration.InfoOfHashLine | app/services/registration_service.py:31-37 | leading `#` are dropped, the first token is the qq number and the rest is the name |
| Registration.EntryFound | app/services/registration_service.py:23-38 | an info line followed by the serial registers the serial with that info |
| Registration.BomDropped | app/services/registration_service.py:21 | a leading byte order mark is dropped before comparing |
| DownloadWorker.Ranges | app/widgets/firmware_tab.py:104-118 | there is one range per thread |
| DownloadWorker.SplitRanges | app/widgets/firmware_tab.py:112-118 | the range-building loop gives the modelled ranges |
| DownloadWorker.RangesContiguous | app/widgets/firmware_tab.py:112-118 | the ranges start at 0, end at the last byte, follow one another with no gap, and all but the last have length `total // threads` |
| DownloadWorker.RangesCover | app/widgets/firmware_tab.py:112-118 | every byte of the file lies in exactly one range |
| DownloadWorker.InRange | app/widgets/firmware_tab.py:112-118 | the range a byte lies in |
| DownloadWorker.RangesOrdered | app/widgets/firmware_tab.py:112-118 | a range ends before any later one starts |
| DownloadWorker.Percent | app/widgets/firmware_tab.py:78 | the progress shown during the transfer is in 0..99 |
| DownloadWorker.Transfer | app/widgets/firmware_tab.py:62-92 | the chunk loop emits exactly the modelled signals, including the error after a stream that breaks |
| DownloadWorker.ForcedIgnoresHead | app/widgets/firmware_tab.py:34-46 | a forced-plain source does not depend on the HEAD reply or the segments |
| DownloadWorker.EarlyFailures | app/widgets/firmware_tab.py:40-92 | a failed HEAD request, and then a folder that cannot be created, end the run with exactly their error |
| DownloadWorker.SevenZipForced | app/widgets/firmware_tab.py:34-37 | a `.7z` address, in any case, is always downloaded plainly |
| DownloadWorker.SegmentedDone | app/widgets/firmware_tab.py:38-60 | a completed segmented download that needs no zip test, or passes it, finishes at the destination |
| DownloadWorker.BrokenZipRetried | app/widgets/firmware_tab.py:49-60 | a broken small zip falls through to the plain download |
| DownloadWorker.ZipGate | app/widgets/firmware_tab.py:183-191 | only a `.zip` name of at most 600 MiB with a readable size is tested |
| DownloadWorker.StoppedStaysCanceled | app/widgets/firmware_tab.py:38-181 | a stopped segmented download is cancelled, and the plain download after it sees the flag |
| DownloadWorker.ProgressCapped | app/widgets/firmware_tab.py:75-80 | each progress value shown during the transfer is in 0..99 |
| DownloadWorker.ProgressBelowCurrent | app/widgets/firmware_tab.py:75-80 | every value shown is at most the one for all bytes so far |
| DownloadWorker.ProgressSorted | app/widgets/firmware_tab.py:75-80 | progress never goes backwards |
| DownloadWorker.AscendingSnoc | app/widgets/firmware_tab.py:75-80 | a value at least every earlier one keeps the values ascending |
| DownloadWorker.SumPrefixGrows | app/widgets/firmware_tab.py:74-76 | each chunk adds its bytes to the count |
| DownloadWorker.PercentMono | app/widgets/firmware_tab.py:78 | more bytes never show less progress |
| DownloadWorker.TransferEnds | app/widgets/firmware_tab.py:62-92 | a completed transfer ends with 100 and the destination; a cancelled one ends with the cancel text and no 100; a broken one shows the progress of the chunks written, then its error, and no 100 |
| FirmwareTab.CutAt | app/widgets/firmware_tab.py:473 | the position where a URL part ends |
| FirmwareTab.AfterScheme | app/widgets/firmware_tab.py:473 | the URL without its scheme is a suffix of it |
| FirmwareTab.UrlPath | app/widgets/firmware_tab.py:473 | the path of a URL has no query or fragment |
| FirmwareTab.SafeName | app/widgets/firmware_tab.py:477 | spaces and both slashes become `_`, and every other character is kept |
| FirmwareTab.FileExtension | app/widgets/firmware_tab.py:474-476 | the extension of the file the URL names, `.zip` when there is none |
| FirmwareTab.DefaultFileName | app/widgets/firmware_tab.py:477-478 | the offered file name has no separator and ends in the extension |
| FirmwareTab.DefaultPath | app/widgets/firmware_tab.py:481-489 | the offered path ends in the file name (past a leading drive, as `os.path.join` treats one), and is the bare name without a folder |
| FirmwareTab.FinishNotice | app/widgets/firmware_tab.py:582-618 | nothing is shown without a tracked download; a result other than cancellation names the download |
| FirmwareTab.Tab.constructor | app/widgets/firmware_tab.py:250-258 | a new tab tracks no download |
| FirmwareTab.Tab.CancelCurrent | app/widgets/firmware_tab.py:521-576 | the slot is cleared, with a notice only when a download was tracked |
| FirmwareTab.Tab.OnDownload | app/widgets/firmware_tab.py:458-519 | the request follows the modelled outcome, and the slot holds the new download exactly when one starts |
| FirmwareTab.Tab.OnFinished | app/widgets/firmware_tab.py:582-618 | the slot is cleared, with the modelled notice |
| FirmwareTab.Tab.OnError | app/widgets/firmware_tab.py:623-654 | the slot is cleared, with an error notice only when a download was tracked |
| FirmwareTab.SourceOf | app/widgets/firmware_tab.py:687-697 | an `http(s)://` source is fetched as given; anything else is a file path, a suffix of the source |
| FirmwareTab.Collect | app/widgets/firmware_tab.py:704-713 | the normalising loop gives the modelled rows |
| FirmwareTab.Load | app/widgets/firmware_tab.py:685-716 | the loader computes exactly the modelled outcome |
| FirmwareTab.UrlPathOf | app/widgets/firmware_tab.py:473 | the path of `https://<host><path><query>` is `<path>` |
| FirmwareTab.SafeNameIdempotent | app/widgets/firmware_tab.py:477 | sanitising twice changes nothing more |
| FirmwareTab.DefaultPathNamesFile | app/widgets/firmware_tab.py:477-489 | the file name offered is the last component of the offered path |
| FirmwareTab.RequestExactly | app/widgets/firmware_tab.py:458-493 | a download starts exactly when the link is usable, no download is tracked or the user replaces it, and a path is chosen |
| FirmwareTab.PlaceholderRefused | app/widgets/firmware_tab.py:460-462 | an empty link and any link on the example host are refused |
| FirmwareTab.FileSchemeStripped | app/widgets/firmware_tab.py:696-697 | a `file://` source is read from the path after the prefix |
| FirmwareTab.RemoteNeverRead | app/widgets/firmware_tab.py:689-692 | a web source is fetched and never read from disk |
| FirmwareTab.NotArrayRejected | app/widgets/firmware_tab.py:700-702 | text that is not an array is an error |
| FirmwareTab.NormalizeSnoc | app/widgets/firmware_tab.py:705-713 | a non-object adds no row; an object adds its row with the four defaulted fields |
| FirmwareTab.RowsFromObjects | app/widgets/firmware_tab.py:704-713 | one row per object, and every row comes from an object |
| DeviceInfo.Clamp | app/widgets/device_info_tab.py:48 | the value is in 0..100, and kept when it is already |
| DeviceInfo.FirstDigitAt | app/widgets/device_info_tab.py:486 | the position of the first digit, or the end |
| DeviceInfo.LeadingDigits | app/widgets/device_info_tab.py:486 | the longest run of at most `limit` digits at the start |
| DeviceInfo.ExtractPercent | app/widgets/device_info_tab.py:483-493 | nothing exactly when the text has no digit; otherwise a value in 0..100 |
| DeviceInfo.PercentFrom | app/widgets/device_info_tab.py:513 | the first position where `(\d{1,3})%` matches, or none |
| DeviceInfo.StoragePercent | app/widgets/device_info_tab.py:512-518 | the number before the first `%` match is below 1000; none exactly when nothing matches |
| DeviceInfo.StorageRing | app/widgets/device_info_tab.py:519-523 | the storage ring's value is in 0..100, and it always shows some text |
| DeviceInfo.Shown | app/widgets/device_info_tab.py:50-54 | an empty centre text shows as `--` |
| DeviceInfo.Ring.constructor | app/widgets/device_info_tab.py:29-37 | a new ring shows 0 and `--` |
| DeviceInfo.Ring.SetValue | app/widgets/device_info_tab.py:43-51 | the value is clamped, a non-integer is 0, and an empty text shows as `--` |
| DeviceInfo.Ring.SetDisplayText | app/widgets/device_info_tab.py:53-55 | the text changes and the value does not |
| DeviceInfo.UpdateStorageRing | app/widgets/device_info_tab.py:507-525 | the ring shows the modelled storage view, and the detail is the given text or `-` |
| DeviceInfo.FormatStorage | app/widgets/device_info_tab.py:734-735 | an empty line gives `-` |
| DeviceInfo.BannerStep | app/widgets/device_info_tab.py:559-571 | a message is shown exactly on a change to connected or disconnected, and only then is the state remembered |
| DeviceInfo.CollectDisplay | app/widgets/device_info_tab.py:663-688 | the loop fills the display map as modelled |
| DeviceInfo.Tab.constructor | app/widgets/device_info_tab.py:117-265 | no banner yet, and every card shows `-` |
| DeviceInfo.Tab.ApplyBanner | app/widgets/device_info_tab.py:559-571 | the banner follows the debounce step and the cards do not change |
| DeviceInfo.Tab.OnCollectFinished | app/widgets/device_info_tab.py:622-691 | the status line, the banner and the cards follow the modelled collection |
| DeviceInfo.LeadingBelow1000 | app/widgets/device_info_tab.py:513 | at most three digits are below 1000 |
| DeviceInfo.PercentOfText | app/widgets/device_info_tab.py:483-493 | a number of at most three digits after text without digits is read and clamped |
| DeviceInfo.StorageOfLine | app/widgets/device_info_tab.py:512-523 | the storage ring reads the number before `%` and shows it unclamped |
| DeviceInfo.StoragePercentOf | app/widgets/device_info_tab.py:512-518 | `(\d{1,3})%` reads back the number written before `%` when nothing earlier matches |
| DeviceInfo.FirstPercent | app/widgets/device_info_tab.py:513-516 | the first match gives the storage number |
| DeviceInfo.PercentFromFinds | app/widgets/device_info_tab.py:513 | the search finds the first match from its start |
| DeviceInfo.RingClamps | app/widgets/device_info_tab.py:43-55 | a ring's value stays in 0..100, and an empty text shows `--` |
| DeviceInfo.DfColumns | app/widgets/device_info_tab.py:736-742 | a line of six or more columns shows its second, third and fourth as size, used and free |
| DeviceInfo.DfFallback | app/widgets/device_info_tab.py:743-748 | with fewer columns, the first three size-like tokens are used, and without three the line is shown unchanged |
| DeviceInfo.FormatOfWords | app/widgets/device_info_tab.py:736-748 | formatting works on the whitespace tokens |
| DeviceInfo.LabelsTranslate | app/widgets/device_info_tab.py:713-730 | unknown keys come back unchanged; known ones get distinct labels differing from the key |
| DeviceInfo.BannerRepeatSilent | app/widgets/device_info_tab.py:559-571 | repeating a banner state shows nothing and changes nothing |
| DeviceInfo.BannerRemembersState | app/widgets/device_info_tab.py:559-571 | the remembered banner is one of the two states, or none yet |
| DeviceInfo.CardsShown | app/widgets/device_info_tab.py:631-691 | without a device or a value a card shows `-`; the slot shows upper-cased; no card is empty |
| DeviceInfo.DisplayUpToAt | app/widgets/device_info_tab.py:664-688 | a key is displayed exactly when it is a primary card key present in the info, with its transformed value |
| DeviceInfo.DisplayIsLabels | app/widgets/device_info_tab.py:663-691 | the cards the loop fills are the modelled labels |
| FileManager.ChildPath | app/widgets/file_manager_tab.py:441 | the path of an entry ends in `/<name>` |
| FileManager.FieldPath | app/widgets/file_manager_tab.py:358 | a blank field means the default folder, so the path is never empty |
| FileManager.GoUp | app/widgets/file_manager_tab.py:425-433 | nothing above the root; otherwise a non-empty parent |
| FileManager.Guarded | app/widgets/file_manager_tab.py:609-616 | nothing starts while a transfer runs; otherwise the request |
| FileManager.Tab.constructor | app/widgets/file_manager_tab.py:204-211 | a new tab is at the default folder, idle, with an empty clipboard |
| FileManager.Tab.Refresh | app/widgets/file_manager_tab.py:356-378 | a listing starts unless one runs, and then the field's folder is current |
| FileManager.Tab.ListFinished | app/widgets/file_manager_tab.py:379-381 | the listing thread is released and nothing else changes |
| FileManager.Tab.GoUpPressed | app/widgets/file_manager_tab.py:425-433 | the field becomes the parent and a listing starts, or nothing happens at the root |
| FileManager.Tab.EnterItem | app/widgets/file_manager_tab.py:435-443 | a row without a name or that is no folder changes nothing; a folder becomes the field's path and a listing starts unless one runs |
| FileManager.Tab.StartTransfer | app/widgets/file_manager_tab.py:609-626 | the request passes the guard, and only a started one marks the transfer running |
| FileManager.Tab.TransferThreadDone | app/widgets/file_manager_tab.py:628-630 | the transfer thread is released and nothing else changes |
| FileManager.Tab.ClipboardSet | app/widgets/file_manager_tab.py:644-647 | the clipboard holds exactly the one entry, with its mode |
| FileManager.Tab.Paste | app/widgets/file_manager_tab.py:649-660 | the paste request passes the guard; the clipboard is kept |
| FileManager.Tab.Rename | app/widgets/file_manager_tab.py:662-667 | the rename request passes the guard |
| FileManager.Tab.OnTransferFinished | app/widgets/file_manager_tab.py:632-641 | a success refreshes: the field's folder becomes current and a listing starts unless one runs; then a cut clipboard is emptied; a failure changes nothing |
| FileManager.FirstFailure | app/widgets/file_manager_tab.py:58-62 | every file before it was pushed, and it failed |
| FileManager.PushFiles | app/widgets/file_manager_tab.py:58-62 | the push loop stops at the first failure with its result |
| FileManager.Transfer | app/widgets/file_manager_tab.py:51-77 | the worker computes exactly the modelled dispatch |
| FileManager.ProgressView | app/widgets/file_manager_tab.py:781-797 | a negative percent is the busy indicator; otherwise a value in 0..100, kept when in range |
| FileManager.StreamFinish | app/widgets/file_manager_tab.py:172-181 | success exactly when not stopped and the exit code is 0 |
| FileManager.ReadLines | app/widgets/file_manager_tab.py:123-170 | the character loop reads exactly the modelled lines and pending text |
| FileManager.UpFromChild | app/widgets/file_manager_tab.py:425-443 | going up from an entry of a folder returns to the folder |
| FileManager.NothingAboveRoot | app/widgets/file_manager_tab.py:426-428 | at the root, even padded with spaces, there is nothing above |
| FileManager.PasteModes | app/widgets/file_manager_tab.py:649-660 | a copied entry is pasted by copying, a cut one by moving, and an empty clipboard starts nothing |
| FileManager.ClipboardAfterPaste | app/widgets/file_manager_tab.py:632-641 | after a successful move the clipboard is empty; a copy clipboard is kept; a failure keeps the clipboard |
| FileManager.RenameExactly | app/widgets/file_manager_tab.py:662-667 | a rename starts exactly for a new, non-empty name, and renames the entry's path |
| FileManager.PushAllOutcome | app/widgets/file_manager_tab.py:58-62 | a list push succeeds exactly when every file is pushed; a failure reports the first failing file's message |
| FileManager.UnknownModeFails | app/widgets/file_manager_tab.py:73-74 | an unknown mode fails with its message and calls no adb operation |
| FileManager.ByteProgressBounds | app/widgets/file_manager_tab.py:156-167 | byte progress is in 0..100, is 100 once all bytes are done, never decreases, and is busy without a total |
| FileManager.ScanPending | app/widgets/file_manager_tab.py:169-170 | text without a line break only extends the pending line |
| FileManager.ScanTerminated | app/widgets/file_manager_tab.py:142-146 | lines each ended by a break are read back exactly, with nothing pending |
| FileManager.ScanClean | app/widgets/file_manager_tab.py:142-170 | every line read is non-empty and holds no line break, nor does the pending text |
| FlashProcess.LinesSeen | app/logic/flash_logic_miflash.py:113-121 | every line is echoed unless the run is cancelled, and then fewer are |
| FlashProcess.ShownSnoc | app/logic/flash_logic_miflash.py:118-121 | one more output line adds its stripped form when it is not blank |
| FlashProcess.ShownLines | app/logic/flash_logic_miflash.py:118-121 | each log entry is a stripped, non-blank output line, and the entries keep the output's order |
| FlashProcess.StopIsSticky | app/logic/flash_logic_miflash.py:23-117 | once the flag is set, a run that prints anything is cancelled and echoes nothing |
| FlashProcess.UnstoppedRun | app/logic/flash_logic_miflash.py:113-138 | without a stop, the exit code alone decides and every line is echoed |
| MiFlash.FirstPresent | app/logic/flash_logic_miflash.py:41-52 | no script before it is present, and it is |
| MiFlash.FirstPresentFrom | app/logic/flash_logic_miflash.py:47-52 | the search from a position stops at the first name present, with none present before it |
| MiFlash.Logic.constructor | app/logic/flash_logic_miflash.py:14-21 | no stop and no process |
| MiFlash.Logic.Stop | app/logic/flash_logic_miflash.py:23-30 | the flag is set; only a running child is terminated |
| MiFlash.Logic.FindFlashScript | app/logic/flash_logic_miflash.py:41-52 | the priority loop finds the modelled script |
| MiFlash.Logic.ListAvailableScripts | app/logic/flash_logic_miflash.py:152-159 | exactly the `.bat` names containing `flash`, in order |
| MiFlash.Logic.Echo | app/logic/flash_logic_miflash.py:113-121 | the output loop echoes the modelled lines, and terminates the child when it sees the flag |
| MiFlash.Logic.ExecuteFlashScript | app/logic/flash_logic_miflash.py:54-144 | the script started, the result, the lines echoed and the final state follow the modelled plan; no process remains |
| MiFlash.FoundFirstPresent | app/logic/flash_logic_miflash.py:41-52 | nothing is found exactly when no script is present; otherwise the first present in priority order |
| MiFlash.ScriptNames | app/logic/flash_logic_miflash.py:43-47 | the three names are plain lower-case file names |
| MiFlash.FullFlashPreferred | app/logic/flash_logic_miflash.py:41-52 | `flash_all.bat` wins whenever present, and the script found is one of the three in the folder |
| MiFlash.NoScriptNoRun | app/logic/flash_logic_miflash.py:65-76 | a missing named script, or no script found, starts nothing and fails |
| MiFlash.NoLock | app/logic/flash_logic_miflash.py:84 | a name without `k` does not contain `lock` |
| MiFlash.KindsOfScripts | app/logic/flash_logic_miflash.py:84-89 | `flash_all.bat` wipes, `flash_all_lock.bat` relocks, `flash_all_except_storage.bat` keeps data |
| MiFlash.LockCheckedFirst | app/logic/flash_logic_miflash.py:84-89 | a name with `lock`, in any case, is a relock whatever else it contains |
| MiFlash.ListedExactly | app/logic/flash_logic_miflash.py:152-159 | the listing keeps exactly the names containing `flash`, in order, and the three known scripts qualify |
| Sideload.CheckDevice | app/logic/flash_logic_sideload.py:45-71 | ready exactly when the device is in sideload mode |
| Sideload.Logic.constructor | app/logic/flash_logic_sideload.py:14-43 | the given adb path, else the bundled one, else `adb`; no stop and no process |
| Sideload.Logic.Stop | app/logic/flash_logic_sideload.py:25-32 | the flag is set; only a running child is terminated |
| Sideload.Logic.Echo | app/logic/flash_logic_sideload.py:127-139 | the output loop echoes the modelled lines, and terminates adb when it sees the flag |
| Sideload.Logic.FlashOta | app/logic/flash_logic_sideload.py:73-153 | a missing file fails before the device query; adb is started only for a sideload device; the result follows the modelled run; no process remains |
| Sideload.MessageSignature | app/logic/flash_logic_sideload.py:58-71 | the characters that tell the failure messages apart |
| Sideload.MessageNamesState | app/logic/flash_logic_sideload.py:58-71 | two failures with the same message report the same mode, or the same error |
| Sideload.ChecksComeFirst | app/logic/flash_logic_sideload.py:81-147 | a missing file or a device outside sideload mode fails; success needs exit code 0 and no stop |
| Settings.IndexToMode | app/widgets/settings_tab.py:233-234 | every index maps to one of the three modes |
| Settings.ModeToIndex | app/widgets/settings_tab.py:218-224 | every mode maps to an index of the box |
| Settings.DirText | app/widgets/settings_tab.py:227-230 | the download card is never empty |
| Settings.FindTool | app/widgets/settings_tab.py:272-281 | the inner loops find a tool exactly when some folder holds one of its files |
| Settings.MissingSnoc | app/widgets/settings_tab.py:282-285 | one more tool is added to the missing list exactly when it is not found |
| Settings.MissingMembers | app/widgets/settings_tab.py:268-285 | a name is in the missing list exactly when some tool of that name is found in no folder; the list is no longer than the tools |
| Settings.CheckTools | app/widgets/settings_tab.py:268-285 | each tool is marked found as the presence rule says, and the missing list is the modelled one |
| Settings.ToolNamesDistinct | app/widgets/settings_tab.py:268-271 | the tool table has no name twice |
| Settings.CheckBin | app/widgets/settings_tab.py:267-291 | the found map, the missing list and the notice follow the presence rule |
| Settings.Tab.constructor | app/widgets/settings_tab.py:200-230 | loading migrates the stored address, selects the stored theme's index and shows the folder |
| Settings.Tab.OnThemeChanged | app/widgets/settings_tab.py:232-249 | the chosen mode is stored and its theme applied |
| Settings.Tab.PickDownloadDir | app/widgets/settings_tab.py:256-265 | the picker opens where the card says; only a non-empty pick is stored and shown |
| Settings.CanonicalIsLegacy | app/widgets/settings_tab.py:204-213 | the canonical address itself names the legacy manifest |
| Settings.MigrationSettles | app/widgets/settings_tab.py:204-213 | migrating twice is migrating once; the result is never empty; other addresses are kept |
| Settings.StoredAfterLoad | app/widgets/settings_tab.py:204-213 | after loading, the stored address is the canonical one when it was empty or legacy, and unchanged otherwise |
| Settings.ThemeRoundTrip | app/widgets/settings_tab.py:218-234 | index to mode to index is the identity on the box, and mode to index to mode on the three modes |
| Settings.PickerStartsAtStored | app/widgets/settings_tab.py:227-258 | the picker opens at the stored folder |
| Settings.MissingExactly | app/widgets/settings_tab.py:268-291 | a tool is missing exactly when no folder holds any of its files; an empty list means all were found |
| Settings.OfferExactly | app/widgets/settings_tab.py:317-342 | an update is offered exactly for a newer version; the offer names both versions and links its address; any error is shown as it is |
| Settings.GateIsStrictOrder | app/widgets/settings_tab.py:321-325 | the gate is a strict total order on non-empty versions |
| Settings.TwoDigitComponentNotNewer | app/widgets/settings_tab.py:321-325 | compared as strings, `1.10` is not newer than `1.9` |
| Settings.OpensOnlyAcceptedDownload | app/widgets/settings_tab.py:326-342 | only an accepted offer with an address opens a link, and it opens that address |
| HostPath.Drive | app/widgets/backup_tab.py:198 | the drive is the first two characters exactly when the second is `:`, and empty otherwise |
| HostPath.PathJoin | app/widgets/backup_tab.py:198 | `os.path.join`: the result ends with the second part past its drive, and with all of it when it names no drive |
| HostPath.JoinSameDriveRelative | app/widgets/firmware_tab.py:487 | a relative part on the folder's own drive is joined below the folder: `C:\x` and `C:foo` give `C:\x\foo` |
| HostPath.JoinOtherDrive | app/widgets/firmware_tab.py:487 | a relative part on another drive replaces the folder |
| HostPath.BaseStart | app/widgets/firmware_tab.py:474 | the base name starts after the last separator, or after the drive, and holds no separator |
| HostPath.Basename | app/widgets/firmware_tab.py:474 | `os.path.basename`: no separator, and a tail of the path |
| HostPath.TrimSeps | app/widgets/file_manager_tab.py:429 | a prefix without a trailing separator, dropping only separators |
| HostPath.Dirname | app/widgets/file_manager_tab.py:429 | `os.path.dirname`: the folder keeps the path's drive |
| HostPath.LastDot | app/widgets/firmware_tab.py:475 | the position of the last dot, none exactly when there is no dot |
| HostPath.AfterLastSep | app/widgets/firmware_tab.py:184 | the start of what follows the last separator, which holds none; a drive does not count |
| HostPath.Extension | app/widgets/firmware_tab.py:475 | `os.path.splitext(p)[1]`: empty, or a tail of the path that starts with its only dot and has no separator |
| HostPath.ExtensionIgnoresDrive | app/widgets/firmware_tab.py:184 | the extension of `C:.txt` is `.txt`: a drive does not start the file name |
| HostPath.BasenameOfJoin | app/widgets/backup_tab.py:247 | a folder joined with a plain file name has that name as its base name |
| HostPath.BaseStartAtSeparator | app/widgets/firmware_tab.py:474 | after a separator followed by a separator-free tail, the base name starts there |
| HostPath.DirnameOfChild | app/widgets/file_manager_tab.py:429 | the folder of `<dir>/<name>` is `dir` |
| HostPath.DirnameOfRootChild | app/widgets/file_manager_tab.py:429 | the folder of `/<name>` is `/` |

## Left out

- Qt user interface construction, styling, message boxes and thread/signal wiring: only the guards and state changes behind them are modelled.
- Subprocesses, HTTP and the file system (adb, fastboot, 7-Zip, `makedirs`, `rmtree`, zip and script writing): in the backup job and the download worker each is a parameter giving its outcome; the files these leave behind are not modelled, except the restore scripts' lines.
- BackupExecutor.Stored: a failure opening a script file counts as a failure of its first line, so an absent file and an empty one are not told apart.
- DownloadWorker.TransferEvents: the removal of the partial file after a cancel or an error is not modelled; the signals are.
- Timeouts, `time.sleep` and the time-based throttling of progress signals: the model has no clock.
- The segment download threads (`dl_part`, their lock and the join loop): their effect is the parameter saying whether all segments completed.
- The scan worker's stop flag: nothing in the tab sets it except shutdown, so it is subsumed by the shell outcome.
- Exceptions raised by `Popen` are the `spawned` parameter; other exceptions of the flashing procedures and of the transfer worker are not modelled.
- Python's `strip`, `split` and `lower`: only ASCII whitespace and ASCII case are modelled; there is no Unicode case folding and no text decoding (UTF-8 or GBK).
- DeviceInfo.ExtractPercent, DeviceInfo.PercentFrom: the regular expressions' `\d` is modelled as the ASCII digits `0`-`9`; Python's `\d` on text also matches other Unicode decimal digits.
- `json.loads` is a parameter giving the shape of the decoded value, and JSON values are kept as text.
- PartitionScan.Run, BackupExecutor.Run: the commands' timeouts are not modelled.
- FirmwareTab.UrlPath: `urlparse` is modelled for scheme, network location, query and fragment only; `;` parameters, whitespace removal and IPv6 brackets are not.
- DownloadWorker: a `Content-Length` header that does not parse is not modelled; total sizes are integers.
- DownloadWorker.Percent: Python's float division is modelled as integer floor division, which agrees for the non-negative operands used.
- FileManager.ByteProgressBounds: `int(done * 100 / total)` is modelled as floor division; a float rounding difference is not.
- FileManager.ReadLines: the regular expressions that read percent and byte counts out of a line are not modelled; only the line splitting and the byte rule are.
- FileManager: the stream worker's kill path and its `ADB_BIN` choice are not modelled; a stop is the `stopped` flag given to the finish.
- FileManager: the listing (`_on_list_finished`, `_fmt_size`), `_show_props`, `_delete_item`, `_probe_total`, `_pull_selected`, `_export_item` and `_import_files` are out of scope; they only feed paths and sizes to the modelled transfer guard.
- DeviceInfo: the battery, memory and battery-health rings are not modelled, nor the board-id lookup at the end of `_on_collect_finished`, which calls into the adb service.
- DeviceInfo.Tab.OnCollectFinished: the storage ring update that `_on_collect_finished` makes is modelled on its own by `DeviceInfo.UpdateStorageRing`, and is not called from the handler; the handler's model covers the status line, the banner and the cards.
- Settings.Tab.constructor: a `currentIndexChanged` signal fired while `_load_settings` selects the stored theme index is not modelled, so the constructor applies no theme; a stored light or dark mode may be applied then in the program.
- HostPath.PathJoin: UNC paths and `Path` normalisation are not modelled; drive letters are compared with ASCII case folding.
- MiFlash.Logic.FindFlashScript, MiFlash.Logic.ListAvailableScripts: `glob` is case-insensitive on Windows, as assumed here; a directory named like a `.bat` file is not told apart.
- Sideload.Logic.constructor: the exception path of `_resolve_adb` is not modelled.
- Settings: the theme's automatic fallback, `apply_runtime_overlay`, the about dialog, `webbrowser` and `cleanup` are not modelled; the update notice's link is returned, not opened.
- FlashProcess.Cancelled: a `stop()` from another thread is modelled as arriving just before one output line is checked; any finer interleaving is not modelled.
