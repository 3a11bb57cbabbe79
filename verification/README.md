# SmartClassifier in Dafny

SmartClassifier watches file trees, turns documents into index entries and runs rules on the
documents that match. This project models the parts of it that decide what happens to a document
and proves what they promise, for every input, every run and every interleaving.

`dafny verify dfyconfig.toml` checks the whole project.

## What is modelled

* **Rule execution** (`RuleModel`, `Paging`, `RuleExecutionTask`, `RuleProperties`,
  `RuleCourses`). One execution of a rule over a sorted index read in pages: backup, actions,
  rollback in reverse, restore, deletion of the backup, fire-once memory, outcome. The outside
  world is a map from paths to contents; an action is any function on it that succeeds, fails,
  returns null or throws. Every copy and deletion may fail, a failed copy leaving anything behind.
* **The watcher's recovery dump** (`RecoveryModel`, `RecoveryRoundTrip`, `WatcherRecovery`): the
  printer of monitored files as rows, the row-by-row reader, and the round trip between them.
* **The crawl** (`FileTrees`, `VfsNames`, `Crawling`, `StartupCrawl`, `LoadBalance`): which nodes of
  a file tree are registered and counted, and how trees are spread over monitors.
* **The polling file monitor** (`MonitorModel`, `FileMonitors`, `MonitorCompletion`,
  `MonitorUpkeep`, `MonitorOrigins`, `MonitorAgreement`, `MonitorRemoval`, `MonitorOutage`,
  `MonitorReturn`, `MonitorRace`, `MonitorEvents`): the map of monitored files, its stacks, the
  check of one file, one pass over the map, the events it records and when it comes to its end,
  and runs of passes over a file system that changes meanwhile and whose roots may become
  unreachable.
* **Configuration reload** (`WatcherProfiles`, `Reconciliation`, `WatcherReload`, `ReloadRetention`):
  loading a profile, keeping folders whose SharePoint repository failed to load, announcing removals.
* **Date conditions** (`Gregorian`, `QueryDates`): from a millisecond to the civil day and back to
  the day's first and last millisecond, in 64-bit arithmetic, and the ranges queried for.
* **Execution windows** (`ExecutionWindows`), the **bounded re-queue** of the extractor
  (`ReQueueProtocol`, `Extractor`), **sorting and thinning of SharePoint maps** (`SharePointMaps`),
  **backup names and free names** (`FileNames`, `Decimal`).

`StringOrder` gives the order in which the program's sorted sets and maps are listed, `SetSizes`
compares sets, `Wrappers` stands for null and exceptions. The program's objects are classes here too, each method proved
against a function of the old state. Its one Watcher is spread over four of them, by the fields
concerned: `WatcherRecovery.Watcher`, `FileMonitors.Watcher` (roots, counters, processing of a
file), `StartupCrawl.Crawler` (placement of folders on monitors) and `WatcherReload.Watcher`.

## Findings

* `createBackupFile` swallows the exception of a failed copy, and the check that follows only asks
  whether the backup exists. A file left by the failed copy, or an older backup, lets the document
  through; after a failed action the restore then replaces the sound original by it
  (`RuleProperties.OriginalLost` is such a document). `RuleProperties.UnfaithfulBackupLosesOriginal`:
  the original survives exactly when the backup has its content.
* The last millisecond of the day overflows on the last day that 64 bits can hold.
  `QueryDates.DateRangesPartitionTime`: the three ranges partition time, for a positive value,
  exactly when it lies before that day.
* A folder that is dropped from the exclusions, lies inside both the old and the new included
  folders and is refused by the file system manager ends the reload: included folders and parents
  are then not reloaded (`WatcherReload.RefusedFolderEndsReload` is such a reload,
  `WatcherReload.Watcher.ReloadRepoFolderConfig` says exactly when). Repeated, the reload gets over it
  (`WatcherReload.ReloadUntilDone`).
* One name can come to be both included and excluded: copying a second SharePoint repository looks
  at the folders of all repositories so far but only at its own exclusions
  (`WatcherProfiles.SecondRepositoryIncludes`). `WatcherProfiles.IncludedAndExcluded` says for which
  configurations. A crawl passes over such a folder and all that is in it
  (`Crawling.ExcludedPassedOver`); but as a root entry, once monitored, it is never removed
  (`MonitorCompletion.RootEntryStays`).
* A configured path in which separators follow each other, such as `\\server\share\docs/`, which is
  stored with a backslash more, becomes a name with an empty step, which no file's name begins with:
  as an exclusion it never matches, although the check made before it is stored lets it through
  (`VfsNames.ServerShareDocs`, `VfsNames.TrailingSlashNeverExcluded`). `VfsNames.ConvertedStartsSome`
  says which texts can match anything, `VfsNames.AcceptedFailsByRepetition` that of the accepted ones
  only these cannot. A drive letter would fail as well, but is not accepted
  (`VfsNames.LocalDriveNeverExcluded`, `VfsNames.DriveLetterRefused`).
* Removing a file whose folder's entry has no children set fails after the file has left the map,
  and ends the monitor's pass early (`MonitorCompletion.BareFolderEndsPass`; `MonitorRace.RaceEndsPass`
  is a run that comes to it from a map in agreement with the files).
  `MonitorCompletion.PassCompletes` says from which states no pass ends so, and
  `MonitorCompletion.SomePassCompletes` that passes do not end so for ever.
* A vanished folder is deleted as if it had been a file: the counter of registered folders stays as
  it was, and where the folder's name ends like an eligible file's, the counter of files is one too
  low (`Crawling.VanishedFolderStaysCounted`, `Crawling.DeletionCounts`).

## Model

| member | source | states |
|---|---|---|
| RuleProperties.BackupHeldThroughout | RuleEngine/src/com/nextlabs/smartclassifier/task/RuleExecutionTask.java:238-340 | With a backup that holds the original and actions that leave the backup path alone, every world of the attempt still has the original in the backup, however actions, rollbacks and restore end; a failed attempt whose backup may be deleted has the original back at its path |
| RuleProperties.NoLostOriginal | RuleEngine/src/com/nextlabs/smartclassifier/task/RuleExecutionTask.java:238-364 | If an executed action of the document failed, then in every world from the backup on and at every exit the original content is at its path or in the backup |
| RuleProperties.UnfaithfulBackupLosesOriginal | RuleEngine/src/com/nextlabs/smartclassifier/task/RuleExecutionTask.java:637-649 | Under a rule whose one action only fails, the original survives if and only if the backup that passed the existence test has the original's content |
| RuleProperties.OriginalLost | RuleEngine/src/com/nextlabs/smartclassifier/task/RuleExecutionTask.java:637-649 | A document whose backup copy breaks off and leaves other content in the backup file: after the failed action the original is neither at its path nor in the backup |
| RuleProperties.CopiedIsFaithful | RuleEngine/src/com/nextlabs/smartclassifier/task/RuleExecutionTask.java:637-649 | A backup copy that returns normally has the original's content, whatever was there before |
| RuleProperties.RestoreMeaning | RuleEngine/src/com/nextlabs/smartclassifier/task/RuleExecutionTask.java:693-714 | Without a backup a restore does nothing; with one it is successful exactly if the copy is, and what is then at the original's path follows from the disk: the backup's content, what the failed copy left, or nothing where the original was deleted before |
| RuleProperties.PerformOrderly | RuleEngine/src/com/nextlabs/smartclassifier/task/RuleExecutionTask.java:245-300 | The performed actions are those that returned, in order; every execution before a failed last one succeeded |
| RuleProperties.RollBackOrder | RuleEngine/src/com/nextlabs/smartclassifier/task/RuleExecutionTask.java:312-330 | Rolling back calls each performed action once, last first, all of them unless one throws something other than a rollback exception |
| RuleProperties.UndoInReverse | RuleEngine/src/com/nextlabs/smartclassifier/task/RuleExecutionTask.java:245-340 | Unless the rule is email-only, nothing runs on a document after a failed action, and the rollbacks are the returned executions in reverse, all of them unless the document is abandoned |
| RuleProperties.FailureLeavesNoTrace | RuleEngine/src/com/nextlabs/smartclassifier/task/RuleExecutionTask.java:238-358 | If each rollback inverts its execution and the disk works, a document with a failed action leaves the whole world as it was before |
| RuleProperties.PublishedAfterRollback | RuleEngine/src/com/nextlabs/smartclassifier/task/RuleExecutionTask.java:897-914 | After a rollback no published event says success; failures are published, successes of other than email actions as rolled back |
| RuleProperties.NoSuccessReported | RuleEngine/src/com/nextlabs/smartclassifier/task/RuleExecutionTask.java:300-340 | No event logged for a document with a failed action has status SUCCESS, and earlier log entries stay |
| RuleModel.EmailNeverFails | RuleEngine/src/com/nextlabs/smartclassifier/task/RuleExecutionTask.java:245-300 | An email-only rule never marks the document failed, so nothing is rolled back for it |
| RuleProperties.TraceMeaning | RuleEngine/src/com/nextlabs/smartclassifier/task/RuleExecutionTask.java:247-300 | In an honest trace the success and fail flags say exactly whether some execution succeeded or failed, and no fire-once action runs after an execution of it has returned an outcome |
| RuleProperties.WholeRunHonest | RuleEngine/src/com/nextlabs/smartclassifier/task/RuleExecutionTask.java:226-365 | Over any sequence of documents the flags and the fire-once memory stay those of the whole trace, and each document is taken once, in order |
| RuleProperties.OutcomeTellsTheTruth | RuleEngine/src/com/nextlabs/smartclassifier/task/RuleExecutionTask.java:565-574 | When no query throws, every match is visited once in id order and the outcome is the classification of the whole trace, an empty index counting as success |
| RuleCourses.DocumentCourse | RuleEngine/src/com/nextlabs/smartclassifier/task/RuleExecutionTask.java:226-365 | For a current document with a backup, by the indices of the actions and the memory before: exactly the actions that have not fired already are executed, in their order, each in the world the one before left and with the document or the query as its kind asks; all of them unless one asks for a rollback, then up to that one; what is reported of which action with which status; and without a failure the last world, less the backup if the disk deletes it |
| RuleCourses.EveryActionSucceeds | RuleEngine/src/com/nextlabs/smartclassifier/task/RuleExecutionTask.java:238-364 | Under a rule without fire-once actions a document on which no call fails has had every action called in order, every success logged as one, and its backup deleted if the disk deletes |
| RuleCourses.StaleLeftAlone | RuleEngine/src/com/nextlabs/smartclassifier/task/RuleExecutionTask.java:230-233 | A document that is gone, or has another time than the index says, gets no call and changes nothing |
| RuleCourses.UnbackedLeftAlone | RuleEngine/src/com/nextlabs/smartclassifier/task/RuleExecutionTask.java:238-242 | Where the rule needs a backup and the copy leaves none, no action is called, nothing is logged and nothing but the backup path has changed |
| RuleCourses.EmailOnlyMeaning | RuleEngine/src/com/nextlabs/smartclassifier/task/RuleExecutionTask.java:216-222 | The flag is set exactly for a single action named "email notification" in whatever case |
| RuleCourses.MentionsEmailMeaning | RuleEngine/src/com/nextlabs/smartclassifier/task/RuleExecutionTask.java:897-914 | An action counts as an email one exactly if its name contains "email" in whatever case |
| Paging.PageResumes | RuleEngine/src/com/nextlabs/smartclassifier/task/RuleExecutionTask.java:194-214 | Each page is the stretch of the sorted index after the previous one, and the cursor repeats exactly when nothing is left |
| Paging.PageProgress | RuleEngine/src/com/nextlabs/smartclassifier/task/RuleExecutionTask.java:553-555 | Processing page after page comes to the same as processing the documents delivered so far |
| RuleExecutionTasks.RuleExecutionTask.constructor | RuleEngine/src/com/nextlabs/smartclassifier/task/RuleExecutionTask.java:84-89 | A new execution has no outcome, no fire-once memory and no calls behind it |
| RuleExecutionTasks.RuleExecutionTask.CreateBackupFile | RuleEngine/src/com/nextlabs/smartclassifier/task/RuleExecutionTask.java:637-649 | The backup copy, its exception swallowed, as the step of the model |
| RuleExecutionTasks.RuleExecutionTask.RestoreOriginalFile | RuleEngine/src/com/nextlabs/smartclassifier/task/RuleExecutionTask.java:693-714 | Deletion of the original and copy of the backup, with each way of failing, as the step of the model |
| RuleExecutionTasks.RuleExecutionTask.RollBackActions | RuleEngine/src/com/nextlabs/smartclassifier/task/RuleExecutionTask.java:312-330 | The loop over the stack of performed actions, as the recursive rollback of the model |
| RuleExecutionTasks.RuleExecutionTask.PerformActions | RuleEngine/src/com/nextlabs/smartclassifier/task/RuleExecutionTask.java:247-300 | The loop over the actions with fire-once memory and flags, as the recursive run whose course RuleCourses.DocumentCourse tells |
| RuleExecutionTasks.RuleExecutionTask.LogActionExecutionEvents | RuleEngine/src/com/nextlabs/smartclassifier/task/RuleExecutionTask.java:897-914 | The events of a document are published in order, successes turned into rollbacks or dropped after a rollback |
| RuleExecutionTasks.RuleExecutionTask.AttemptDocument | RuleEngine/src/com/nextlabs/smartclassifier/task/RuleExecutionTask.java:245-340 | Actions, rollback, restore and logging of one document, as the attempt of the model |
| RuleExecutionTasks.RuleExecutionTask.ProcessDocument | RuleEngine/src/com/nextlabs/smartclassifier/task/RuleExecutionTask.java:226-365 | One document from the up-to-date test to the deletion of the backup, as the model's step |
| RuleExecutionTasks.RuleExecutionTask.ProcessPage | RuleEngine/src/com/nextlabs/smartclassifier/task/RuleExecutionTask.java:226-365 | The documents of a page in turn |
| RuleExecutionTasks.RuleExecutionTask.ReadPages | RuleEngine/src/com/nextlabs/smartclassifier/task/RuleExecutionTask.java:194-225 | The paging loop ends, and its state is the model's progress up to the first query that throws |
| RuleExecutionTasks.RuleExecutionTask.Execute | RuleEngine/src/com/nextlabs/smartclassifier/task/RuleExecutionTask.java:173-575 | The state after all pages or after the first failing query, the outcome, and the exception that escapes when a failing query has no cause |
| RuleExecutionTasks.RuleExecutionTask.RunRule | RuleEngine/src/com/nextlabs/smartclassifier/task/RuleExecutionTask.java:92-119 | The outcome recorded for the execution, an escaping exception counting as failed |
| FileNames.BackupInjective | CommonLibrary/src/com/nextlabs/smartclassifier/util/FileUtil.java:149-167 | No file is its own backup, two files never share one, and the backup lies in the same folder under the backup prefix |
| FileNames.BackupMeaning | CommonLibrary/src/com/nextlabs/smartclassifier/util/FileUtil.java:149-167 | The backup of a path is the path with "~$" before and ".bak" after what follows its last forward slash, or where it has none its last backslash; it has none exactly if nothing precedes or follows that separator |
| FileNames.NumberedInjective | CommonLibrary/src/com/nextlabs/smartclassifier/util/FileUtil.java:84-91 | Different sequence numbers give different names |
| FileNames.NumberedText | CommonLibrary/src/com/nextlabs/smartclassifier/util/FileUtil.java:84-91 | The name base.extension with number n is base(n).extension, the extension being what follows the last dot |
| FileNames.TakenNamesBound | CommonLibrary/src/com/nextlabs/smartclassifier/util/FileUtil.java:84-91 | If the first n numbered names are all taken, the directory has at least n entries |
| FileNames.GetNonDuplicateFilename | CommonLibrary/src/com/nextlabs/smartclassifier/util/FileUtil.java:73-98 | The search ends within one try more than the directory has entries, with the name itself if free and else the free numbered name of least number; a name without a dot raises the substring exception |
| Decimal.ParseRender | Watcher/src/com/nextlabs/smartclassifier/Watcher.java:1845-1847 | A 64-bit number written in decimal reads back as itself |
| RecoveryRoundTrip.DumpRecoverRoundTrip | Watcher/src/com/nextlabs/smartclassifier/Watcher.java:169-315 | For every watcher without tags among its names, a fresh watcher with as many monitors that reads its dump ends with the same included, excluded and parent folders, the non-empty monitors moved up in order, and the remaining included folders pending |
| RecoveryRoundTrip.MonitorLandsWhole | Watcher/src/com/nextlabs/smartclassifier/Watcher.java:1703-1717 | The i-th non-empty monitor's entries are found whole on the i-th monitor after recovery |
| RecoveryRoundTrip.EntryLandsWhole | Watcher/src/com/nextlabs/smartclassifier/Watcher.java:1874-1960 | A recovered entry keeps type, path and time, and its children are exactly the entries of its segment whose parent it is |
| RecoveryRoundTrip.RebuildOne | Watcher/src/com/nextlabs/smartclassifier/Watcher.java:1940-1946 | Because parents are listed before what they contain, adding one more entry gives each parent read so far exactly its children read so far |
| RecoveryRoundTrip.ReadMonitor | Watcher/src/com/nextlabs/smartclassifier/Watcher.java:221-276 | A monitor segment fills the least loaded monitor with its entries and assigns its folders to that monitor |
| RecoveryRoundTrip.PendingAfterRecovery | Watcher/src/com/nextlabs/smartclassifier/Watcher.java:1917-1933 | An included folder is pending after recovery exactly when no recovered entry of type FOLDER or IMAGINARY stands for it |
| RecoveryRoundTrip.ForeignDumpRefused | Watcher/src/com/nextlabs/smartclassifier/Watcher.java:1867-1872 | The dump of another host is refused |
| RecoveryRoundTrip.HeaderMeaning | Watcher/src/com/nextlabs/smartclassifier/Watcher.java:169-196 | Which header rows let a dump be read, and which error the others raise |
| RecoveryRoundTrip.DumpText | Watcher/src/com/nextlabs/smartclassifier/Watcher.java:1737-1865 | The rows of a watcher with an included folder, an exclusion in it, one monitor with one entry and a pending folder, tag by tag and cell by cell |
| RecoveryRoundTrip.StepFails | Watcher/src/com/nextlabs/smartclassifier/Watcher.java:197-303 | A row ends the reading exactly if it is empty, opens a segment within another, opens the entries outside a monitor, lacks the second cell of a link, or belongs to a monitor when none is chosen; and the error raised in each case |
| RecoveryRoundTrip.SecondCycleKeepsMonitors | Watcher/src/com/nextlabs/smartclassifier/Watcher.java:1821-1865 | Dumping and recovering once more leaves the recovered monitors as they are |
| WatcherRecovery.Watcher.DumpRepositoryInfo | Watcher/src/com/nextlabs/smartclassifier/Watcher.java:1781-1819 | The three folder segments, row by row, are those of the model |
| WatcherRecovery.Watcher.DumpWatchedFolders | Watcher/src/com/nextlabs/smartclassifier/Watcher.java:1834-1840 | The folders of a monitor are written in order and no longer pending |
| WatcherRecovery.Watcher.DumpFileMonitorInfo | Watcher/src/com/nextlabs/smartclassifier/Watcher.java:1821-1865 | The segments of all non-empty monitors and of the folders still pending after them, with the side effect on the pending folders |
| WatcherRecovery.Watcher.DumpToFile | Watcher/src/com/nextlabs/smartclassifier/Watcher.java:1737-1779 | The file written at shutdown is the model's dump of the watcher |
| WatcherRecovery.Watcher.SelectFileMonitor | Watcher/src/com/nextlabs/smartclassifier/Watcher.java:1703-1717 | The loop finds the first monitor with the fewest entries |
| WatcherRecovery.Watcher.RecoverFileObject | Watcher/src/com/nextlabs/smartclassifier/Watcher.java:1892-1956 | One entry row: recorded with its parent, accounted for among the pending folders, or skipped |
| WatcherRecovery.Watcher.RecoverObject | Watcher/src/com/nextlabs/smartclassifier/Watcher.java:1874-1960 | One row inside a segment changes the collections as the model says, or fails and changes nothing |
| WatcherRecovery.Watcher.InsideSegment | Watcher/src/com/nextlabs/smartclassifier/Watcher.java:229-294 | Closing tags, nested openings and rows inside a segment |
| WatcherRecovery.Watcher.AddFiles | Watcher/src/com/nextlabs/smartclassifier/NextlabsFileMonitor.java:233-244 | Adding the recovered entries to a monitor keeps those it has already and adds exactly the others |
| WatcherRecovery.Watcher.RecoverRows | Watcher/src/com/nextlabs/smartclassifier/Watcher.java:197-303 | The row loop: the watcher ends as the rows before a failing one say, with the model's error |
| WatcherRecovery.Watcher.Recover | Watcher/src/com/nextlabs/smartclassifier/Watcher.java:169-315 | Header and rows together; without the host's own header nothing changes |
| WatcherRecovery.Restart | Watcher/src/com/nextlabs/smartclassifier/Watcher.java:169-315 | Shutdown and the next start: the dump loops followed by the recovery loop end as the round trip says |
| FileTrees.FolderPrefixIsAncestor | Watcher/src/com/nextlabs/smartclassifier/Watcher.java:1595-1603 | One slash-terminated folder name is a prefix of another exactly when the one folder is the other or contains it |
| FileTrees.FilePrefixIsInside | Watcher/src/com/nextlabs/smartclassifier/Watcher.java:1595-1603 | A slash-terminated folder name is a prefix of a file's name exactly when the file lies inside the folder |
| FileTrees.RootInherited | Watcher/src/com/nextlabs/smartclassifier/Watcher.java:682-699 | Whatever is inside a watched folder is watched through the same root |
| FileTrees.ExtensionMeaning | Watcher/src/com/nextlabs/smartclassifier/Watcher.java:476-477 | The extension is what follows the last dot of a name, and none where that dot comes first or is missing |
| FileTrees.EligibleMeaning | Watcher/src/com/nextlabs/smartclassifier/Watcher.java:476-477 | A file is eligible exactly if its name does not begin with "~$" and its extension is among the configured ones |
| VfsNames.ConvertedIsFolderText | CommonLibrary/src/com/nextlabs/smartclassifier/util/VFSUtil.java:15-25 | A path written with a backslash before each name, with or without a closing one, becomes the slash-terminated name of its folder |
| VfsNames.ConvertedStartsSome | CommonLibrary/src/com/nextlabs/smartclassifier/util/VFSUtil.java:15-25 | Whatever the configured text: converted it begins the name of some file, none of whose steps is empty but the first of a share, if and only if it is empty or begins with a separator, has no two separators in a row after the first character, and does not end with a slash unless it is one; with the prefix already there the same is asked of slashes after it |
| VfsNames.ConvertedNamesFolder | CommonLibrary/src/com/nextlabs/smartclassifier/util/VFSUtil.java:15-25 | It becomes the whole name of some such folder if and only if it meets that condition, ends with a slash where it had the prefix, and is more than the mark of a share |
| VfsNames.OthersMatchNothing | CommonLibrary/src/com/nextlabs/smartclassifier/util/VFSUtil.java:15-25 | Any text that fails the condition becomes a name that begins no file's name |
| VfsNames.AcceptedFailsByRepetition | WebUI/src/main/java/com/nextlabs/smartclassifier/validator/v1/watcher/WatcherUpdateValidator.java:205-223 | An exclusion that begins with its share, stored with its backslash, can match something if and only if it has no two separators in a row after the first character |
| VfsNames.DriveLetterRefused | WebUI/src/main/java/com/nextlabs/smartclassifier/validator/v1/watcher/WatcherUpdateValidator.java:205-223 | No exclusion that begins with a drive letter is accepted |
| VfsNames.TrailingSlashNeverExcluded | CommonLibrary/src/com/nextlabs/smartclassifier/util/VFSUtil.java:15-25 | A folder of a share written with a slash at its end is accepted as an exclusion and excludes nothing |
| VfsNames.ServerShareDocs | CommonLibrary/src/com/nextlabs/smartclassifier/util/VFSUtil.java:15-25 | \\server\share\docs/ is such an exclusion |
| VfsNames.LocalDriveNeverExcluded | CommonLibrary/src/com/nextlabs/smartclassifier/util/VFSUtil.java:15-25 | Past the check, C:\docs would exclude nothing either |
| Crawling.ExclusionIsAncestry | Watcher/src/com/nextlabs/smartclassifier/Watcher.java:1595-1603 | The text test finds exactly the files with an excluded folder above them and the folders that are or lie in one |
| Crawling.VisitedFolder | Watcher/src/com/nextlabs/smartclassifier/Watcher.java:453-462 | What is to be visited of a listed folder is the folder and what is to be visited of each child |
| Crawling.SeenApart | Watcher/src/com/nextlabs/smartclassifier/Watcher.java:453-462 | The subtrees of different children do not meet, so that no node is counted twice |
| Crawling.CrawlExactness | Watcher/src/com/nextlabs/smartclassifier/Watcher.java:417-524 | Where all folders can be listed, a crawl registers exactly the folders and eligible files with no excluded folder at or above them, and the three counters grow by the numbers of such folders, files and eligible files |
| Crawling.DeletionCounts | Watcher/src/com/nextlabs/smartclassifier/Watcher.java:463-510 | Deleting takes one from the folders for a folder that exists, and else one from the files for an eligible name, counting one more encountered file |
| Crawling.MissingCounts | Watcher/src/com/nextlabs/smartclassifier/Watcher.java:417-524 | A path that is not there when it is to be added counts as a file encountered, and registered if its name is eligible, and makes no entry |
| Crawling.UpdateCounts | Watcher/src/com/nextlabs/smartclassifier/Watcher.java:417-524 | An update of a file counts it as encountered and changes nothing else |
| Crawling.VanishedFolderStaysCounted | Watcher/src/com/nextlabs/smartclassifier/Watcher.java:463-510 | What is added, vanishes and is deleted: an eligible file leaves both counters as they were, a folder stays counted |
| FileMonitors.Watcher.ProcessFile | Watcher/src/com/nextlabs/smartclassifier/Watcher.java:417-524 | The recursive method ends; for ADD it registers and counts exactly the nodes to be visited, for DELETE and UPDATE it removes and counts as the code does |
| FileTrees.IsWithinFolders | Watcher/src/com/nextlabs/smartclassifier/Watcher.java:1595-1603 | The loop answers whether some folder's name starts the text |
| FileMonitors.Watcher.GetRootEntry | Watcher/src/com/nextlabs/smartclassifier/Watcher.java:682-699 | The first match in sorted order is the shortest included folder above the file |
| FileMonitors.Watcher.IsRootEntryAccessible | Watcher/src/com/nextlabs/smartclassifier/Watcher.java:707-723 | Whether the root exists, with the given answer when there is none |
| LoadBalance.PlacedOnLeast | Watcher/src/com/nextlabs/smartclassifier/Watcher.java:1703-1717 | At most d more entries on the least loaded monitor keep all monitors within d of each other |
| Crawling.ExcludedPassedOver | Watcher/src/com/nextlabs/smartclassifier/Watcher.java:386-403 | An included folder that is excluded too is passed over: nothing in it is visited or placed |
| Crawling.RegisteredSize | Watcher/src/com/nextlabs/smartclassifier/Watcher.java:386-403 | Registering a tree adds no more entries than it has nodes to be monitored |
| Crawling.LoadBound | Watcher/src/com/nextlabs/smartclassifier/Watcher.java:386-403 | From empty monitors, after any sequence of trees each placed whole on the least loaded monitor, two monitors differ by at most the size of the largest tree |
| StartupCrawl.Crawler.ProcessRoot | Watcher/src/com/nextlabs/smartclassifier/Watcher.java:386-403 | An included folder that is not excluded goes whole to the least loaded monitor, and the monitor remembered for it holds its whole tree |
| StartupCrawl.Crawler.CrawlFolder | Watcher/src/com/nextlabs/smartclassifier/Watcher.java:351-372 | A folder that is there is placed and no longer pending; another changes nothing |
| StartupCrawl.Crawler.Crawl | Watcher/src/com/nextlabs/smartclassifier/Watcher.java:320-344 | The included folders are placed one after the other in order; those that are not there stay pending |
| StartupCrawl.CrawlCovers | Watcher/src/com/nextlabs/smartclassifier/Watcher.java:320-344 | After a crawl over folders that can be listed the monitors together hold what they held before and exactly the folders and eligible files, with no excluded folder at or above them, of every included folder that is there |
| StartupCrawl.CrawlBalances | Watcher/src/com/nextlabs/smartclassifier/Watcher.java:320-344 | A crawl into idle monitors leaves them balanced up to the largest tree |
| FileMonitors.FileMonitor.AddFile | Watcher/src/com/nextlabs/smartclassifier/NextlabsFileMonitor.java:251-282 | A file not yet monitored is added with its time and eligible children, if it exists |
| FileMonitors.FileMonitor.ChildrenOf | Watcher/src/com/nextlabs/smartclassifier/NextlabsFileMonitor.java:777-805 | The loop collects the folders and eligible files of a listing; a folder that cannot be listed has no children set |
| FileMonitors.FileMonitor.RemoveFile | Watcher/src/com/nextlabs/smartclassifier/NextlabsFileMonitor.java:289-320 | Roots and files of unreachable roots stay; others leave the map and their parent's children, failing where the parent has no children set |
| FileMonitors.FileMonitor.FireDeleted | Watcher/src/com/nextlabs/smartclassifier/Watcher.java:2015-2023 | The event is recorded and, unless temporary or with its root unreachable, the file is processed for deletion, as in the model whose events MonitorEvents.PassReports tells |
| FileMonitors.FileMonitor.FireCreated | Watcher/src/com/nextlabs/smartclassifier/Watcher.java:2005-2013 | The event is recorded and, unless temporary, the tree below the file is registered |
| FileMonitors.FileMonitor.IsInRemovePaths | Watcher/src/com/nextlabs/smartclassifier/NextlabsFileMonitor.java:755-770 | Whether a queued path starts the file's name |
| FileMonitors.FileMonitor.CheckForNewChildren | Watcher/src/com/nextlabs/smartclassifier/NextlabsFileMonitor.java:628-709 | The new child set is recorded and a create event fired for every missing child, in stack or listing order |
| FileMonitors.FileMonitor.Check | Watcher/src/com/nextlabs/smartclassifier/NextlabsFileMonitor.java:505-622 | Deleted, changed, excluded and reappeared files are told apart as in the model; MonitorEvents.CheckReports says which event each gets, and a failing probe changes nothing |
| FileMonitors.FileMonitor.DrainDeleteStack | Watcher/src/com/nextlabs/smartclassifier/NextlabsFileMonitor.java:446-449 | Queued removals are made last first, until one fails |
| FileMonitors.FileMonitor.RunOnce | Watcher/src/com/nextlabs/smartclassifier/NextlabsFileMonitor.java:426-499 | One turn of the main loop: removals, removed paths, the loop over the names, queued additions |
| MonitorOutage.CheckKeeps | Watcher/src/com/nextlabs/smartclassifier/NextlabsFileMonitor.java:505-622 | No check of any file touches the entry of a file whose root is unreachable, or fires or queues anything for it |
| MonitorOutage.RemoveKeeps | Watcher/src/com/nextlabs/smartclassifier/NextlabsFileMonitor.java:289-320 | No removal touches the entry of a file whose root is unreachable, not even one of that file |
| MonitorOutage.PassIsRound | Watcher/src/com/nextlabs/smartclassifier/NextlabsFileMonitor.java:426-499 | A pass over a file system at rest is a pass with the same world at every name |
| MonitorOutage.OutageSafety | Watcher/src/com/nextlabs/smartclassifier/NextlabsFileMonitor.java:426-499 | Over any number of passes during which a file's root is unreachable, in a world that may be another at every name, with any removals queued at any time, its entry keeps flag, time and children and no event is fired or removal queued for it |
| MonitorCompletion.RemovalFails | Watcher/src/com/nextlabs/smartclassifier/NextlabsFileMonitor.java:289-320 | A removal fails exactly when it gets as far as the children set of the folder and there is none; at most the file leaves the map and that set |
| MonitorCompletion.RemovalMeaning | Watcher/src/com/nextlabs/smartclassifier/NextlabsFileMonitor.java:289-320 | A file leaves the map unless it is a root entry or its root cannot be reached; its folder no longer records it, and all other entries stay as they are |
| MonitorCompletion.RootEntryStays | Watcher/src/com/nextlabs/smartclassifier/NextlabsFileMonitor.java:289-320 | No removal takes a root entry out of the map, excluded or not |
| MonitorCompletion.DrainCompletes | Watcher/src/com/nextlabs/smartclassifier/NextlabsFileMonitor.java:446-449 | All queued removals are made exactly when each file in a folder without children set is preceded by the removal of that folder |
| MonitorCompletion.PassCompletes | Watcher/src/com/nextlabs/smartclassifier/NextlabsFileMonitor.java:426-499 | With no path queued, every pass, by whatever names it goes, comes to its end if and only if the queued removals are made and no vanished file that the listener leaves in the map has, or comes to have, a folder without children set |
| MonitorCompletion.BareFolderEndsPass | Watcher/src/com/nextlabs/smartclassifier/NextlabsFileMonitor.java:305-310 | A state from which a pass ends early: a vanished folder in one that could not be listed when it was registered |
| MonitorRace.RaceEndsPass | Watcher/src/com/nextlabs/smartclassifier/NextlabsFileMonitor.java:426-499 | A run that comes to such a state from a map in agreement: a folder goes and comes back unlistable while what was in it is still in the map; two passes by all names come to their end, the third ends before it has begun |
| MonitorRace.StartRegistered | Watcher/src/com/nextlabs/smartclassifier/Watcher.java:453-462 | The map that the run starts from is the one a crawl of the folders makes |
| MonitorCompletion.PassHeals | Watcher/src/com/nextlabs/smartclassifier/NextlabsFileMonitor.java:426-499 | A pass that ends early takes a vanished file out of the map and queues nothing else |
| MonitorCompletion.SomePassCompletes | Watcher/src/com/nextlabs/smartclassifier/NextlabsFileMonitor.java:426-499 | Over a file system at rest, of more passes than there are vanished files in the map one comes to its end |
| MonitorUpkeep.PassFit | Watcher/src/com/nextlabs/smartclassifier/NextlabsFileMonitor.java:426-499 | Where every folder can be listed, from a map in which every folder of a monitored file has its children set and every other folder without one is empty of files to monitor, a pass comes to its end, whatever removals are queued, and leaves such a map |
| MonitorUpkeep.FitIsPassable | Watcher/src/com/nextlabs/smartclassifier/NextlabsFileMonitor.java:426-499 | Such a state satisfies the exact condition for passes to come to their end |
| MonitorOrigins.CrawlFits | Watcher/src/com/nextlabs/smartclassifier/Watcher.java:386-403 | The crawl into idle monitors leaves such maps on all of them |
| MonitorOrigins.RecoveredInItsFolder | Watcher/src/com/nextlabs/smartclassifier/Watcher.java:1940-1946 | In a recovered map every folder of a monitored file has a children set that holds it |
| MonitorOrigins.RecoveryFits | Watcher/src/com/nextlabs/smartclassifier/Watcher.java:169-315 | A recovered monitor without gaps satisfies the condition, apart from children that its folders have gained meanwhile |
| MonitorOrigins.RecoveredMonitorPolls | Watcher/src/com/nextlabs/smartclassifier/NextlabsFileMonitor.java:426-499 | The first pass after a recovery comes to its end, agrees with the files and leaves a map for which no removal will fail |
| MonitorAgreement.CheckSettled | Watcher/src/com/nextlabs/smartclassifier/NextlabsFileMonitor.java:505-622 | A check brings its own file into agreement and disturbs no other that agrees |
| MonitorAgreement.PollAgreement | Watcher/src/com/nextlabs/smartclassifier/NextlabsFileMonitor.java:426-499 | From every state that satisfies the exact condition, a pass over a file system at rest with no exclusion queued comes to its end, and then every entry left exists exactly when the file does, has its time unless it is younger than the split, and records exactly its eligible children, except for failing probes and for files gone with their root |
| MonitorAgreement.EventualAgreement | Watcher/src/com/nextlabs/smartclassifier/NextlabsFileMonitor.java:426-499 | From any other state that has nothing queued but removals of vanished files the same holds after at most as many more passes as there are vanished files in the map |
| MonitorAgreement.CreatesAreNewChildren | Watcher/src/com/nextlabs/smartclassifier/NextlabsFileMonitor.java:628-709 | The create events of the children test are the current minus the recorded children, once each, in the order of the listing where nothing is recorded and else in reverse, and there are no others |
| MonitorEvents.CheckReports | Watcher/src/com/nextlabs/smartclassifier/NextlabsFileMonitor.java:505-622 | What one check records: at most one event for the file itself, Deleted, Changed or Created exactly under the stated condition for each, then a create event for each new child in the order of the listing or the reverse of it |
| MonitorEvents.PassReports | Watcher/src/com/nextlabs/smartclassifier/NextlabsFileMonitor.java:426-499 | A pass over distinct names that comes to its end, for every file monitored at its start and not queued for removal: one Deleted exactly if it was present and has vanished under a root that is there or lies in a removed path, one Changed exactly if it is a file whose time has differed for as long as the split, one Created exactly if it is a file that is back, one more exactly if its folder's check found it new, no others |
| MonitorEvents.PollReports | Watcher/src/com/nextlabs/smartclassifier/NextlabsFileMonitor.java:426-499 | From every state that satisfies the exact condition, with no path queued, every pass comes to its end and reports so |
| MonitorEvents.AccessibleMeaning | Watcher/src/com/nextlabs/smartclassifier/Watcher.java:707-723 | A file counts as accessible exactly if the shortest included folder that starts its name exists, or there is none |
| MonitorEvents.ListenerIgnores | Watcher/src/com/nextlabs/smartclassifier/Watcher.java:1995-2023 | Names that begin with "~$" get their event and nothing else, and so does a deletion while the root is not there |
| MonitorEvents.VanishedTakenOut | Watcher/src/com/nextlabs/smartclassifier/Watcher.java:2015-2023 | Any other vanished file is counted and, where its name is eligible, taken out of the map |
| MonitorEvents.NewRegistered | Watcher/src/com/nextlabs/smartclassifier/Watcher.java:2005-2013 | A new file of eligible name is registered where no excluded name begins its own |
| MonitorRemoval.RemovalTakesEffect | Watcher/src/com/nextlabs/smartclassifier/NextlabsFileMonitor.java:426-499 | After a pass by all names and the removals it leaves no entry is left in a folder whose removal was queued because it is excluded, or because it is no longer included and nothing above it is monitored; apart from root entries, unreachable roots, failing probes and folders named like documents; no crawl brings one back |
| MonitorRemoval.RemoveFolder | Watcher/src/com/nextlabs/smartclassifier/NextlabsFileMonitor.java:426-499 | The same for the methods: queueing the path, one turn, the removals |
| MonitorReturn.CheckCalm | Watcher/src/com/nextlabs/smartclassifier/NextlabsFileMonitor.java:505-622 | Where the map agrees about a file, no check fires a create or delete event for it, and the agreement stays |
| MonitorReturn.PassCalm | Watcher/src/com/nextlabs/smartclassifier/NextlabsFileMonitor.java:426-499 | The same for a whole pass, whatever removals are queued but of that file |
| MonitorReturn.RoundsTopmost | Watcher/src/com/nextlabs/smartclassifier/NextlabsFileMonitor.java:426-499 | If nothing above a path is monitored, no number of passes comes to monitor anything above it |
| MonitorReturn.OutageAndReturn | Watcher/src/com/nextlabs/smartclassifier/NextlabsFileMonitor.java:426-499 | From a map in agreement, over any number of passes with the root unreachable, any removals queued meanwhile but of the file: when the root is back the entry is the same, and to the end of the pass that then finds the same files no create or delete event is fired for it and the entry of an existing file stays with its flag |
| MonitorReturn.PollOutageReturn | Watcher/src/com/nextlabs/smartclassifier/NextlabsFileMonitor.java:426-499 | The same from any state that satisfies the exact condition for a pass to come to its end, after that pass |
| WatcherProfiles.EverySiteHasRepo | Watcher/src/com/nextlabs/smartclassifier/dto/WatcherProfile.java:206-217 | After any history of listings and of merges of such histories, every site that a folder maps to has a repository path |
| WatcherProfiles.WatcherProfile.NoteListing | Watcher/src/com/nextlabs/smartclassifier/dto/WatcherProfile.java:354-365 | A listing adds its folders, and all its sites under the repository's path |
| WatcherProfiles.LinkParents | Watcher/src/com/nextlabs/smartclassifier/dto/WatcherProfile.java:270-280 | Every excluded folder inside an included one is linked to such a one, and other links stay |
| WatcherProfiles.LinkDetermined | Watcher/src/com/nextlabs/smartclassifier/dto/WatcherProfile.java:270-280 | Among topmost folders there is one at most around an excluded folder, so the order of the loops does not decide the link |
| WatcherProfiles.WatcherProfile.CopySharePointRepo | Watcher/src/com/nextlabs/smartclassifier/dto/WatcherProfile.java:194-290 | Topmost folders of all listings minus this repository's exclusions are included, its exclusions excluded; a failed listing only leaves its status |
| WatcherProfiles.WatcherProfile.CopySharedRepo | Watcher/src/com/nextlabs/smartclassifier/dto/WatcherProfile.java:291-305 | The folder is included, its exclusions excluded with it as their parent |
| WatcherProfiles.WatcherProfile.Copy | Watcher/src/com/nextlabs/smartclassifier/dto/WatcherProfile.java:162-312 | After all repositories: both folder sets grown by what each of them includes and excludes, the site maps as listed, and each repository's loading status |
| WatcherProfiles.IncludedAndExcluded | Watcher/src/com/nextlabs/smartclassifier/dto/WatcherProfile.java:194-302 | A configuration includes and excludes the same name exactly when some repository excludes it and some repository includes it |
| WatcherProfiles.ClashMeaning | Watcher/src/com/nextlabs/smartclassifier/dto/WatcherProfile.java:194-302 | A repository includes a name as a shared path, or when it was loaded, as a folder topmost among all listed so far and not among its own exclusions |
| WatcherProfiles.CopyNew | Watcher/src/com/nextlabs/smartclassifier/dto/WatcherProfile.java:194-302 | The same for the sets of a profile newly copied |
| WatcherProfiles.OwnExclusionsLeftOut | Watcher/src/com/nextlabs/smartclassifier/dto/WatcherProfile.java:248-262 | No SharePoint repository by itself includes what it excludes |
| WatcherProfiles.WatcherProfile.ReloadSharePointFolders | Watcher/src/com/nextlabs/smartclassifier/dto/WatcherProfile.java:319-387 | The listings that succeed are added in the order of the repositories' paths, nothing is lost, and sites keep repositories |
| WatcherProfiles.WatcherProfile.RepoPathOf | Watcher/src/com/nextlabs/smartclassifier/Watcher.java:1630-1651 | The look-up succeeds exactly when the folder had a site or a registered SharePoint repository whose listing succeeds has the folder, with that site's path; the missing-repository error is never raised |
| WatcherProfiles.SecondRepositoryIncludes | Watcher/src/com/nextlabs/smartclassifier/dto/WatcherProfile.java:223-256 | Two repositories with a library each, of which the second includes what the first excludes |
| Reconciliation.ReconciledMeaning | Watcher/src/com/nextlabs/smartclassifier/Watcher.java:1344-1396 | Apart from path-conversion errors, a folder is in the reloaded set exactly when it is in the new one, or was in the old one and its repository's status says that it failed to load; ReloadRetention.LoadAndReload says which repositories those are |
| Reconciliation.ReconciledTwice | Watcher/src/com/nextlabs/smartclassifier/Watcher.java:1310-1422 | Reconciling again with the same profile changes nothing and drops nothing |
| Reconciliation.ParentsStayExcluded | Watcher/src/com/nextlabs/smartclassifier/Watcher.java:977-1081 | Keys of the excluded-to-parent map stay excluded folders if they were in both profiles |
| WatcherReload.Watcher.ReloadSites | Watcher/src/com/nextlabs/smartclassifier/Watcher.java:910-975 | Site and repository maps are overwritten and extended, never shortened, and sites keep repositories |
| WatcherReload.Watcher.IsRetained | Watcher/src/com/nextlabs/smartclassifier/Watcher.java:1361-1396 | The chain from folder to site to repository to loading status decides as the definition says, which ReloadRetention.LoadAndReload ties to the listings that failed |
| WatcherReload.Watcher.Announce | Watcher/src/com/nextlabs/smartclassifier/Watcher.java:1398-1411 | A path is queued on the monitor, all monitors or none, and nothing else is |
| WatcherReload.Watcher.ReloadExcludedFolders | Watcher/src/com/nextlabs/smartclassifier/Watcher.java:1430-1570 | The excluded set is reconciled and new exclusions announced, unless a folder to be crawled again is refused, and then up to that folder |
| WatcherReload.Watcher.ReloadIncludedFolders | Watcher/src/com/nextlabs/smartclassifier/Watcher.java:1310-1422 | The included set is reconciled; dropped folders leave the pending folders and the folder-to-monitor map and are announced |
| WatcherReload.Watcher.ReloadParentByExcludedFolder | Watcher/src/com/nextlabs/smartclassifier/Watcher.java:977-1081 | The excluded-to-parent map is merged and shortened by the keys not retained |
| WatcherReload.Watcher.ReloadRepoFolderConfig | Watcher/src/com/nextlabs/smartclassifier/Watcher.java:867-888 | The whole reload: when exactly it runs through; all sets, maps and announcements if it does; if not, what is left untouched, the exclusions gone up to the refused folder, and the announcements made |
| WatcherReload.RefusedFolderEndsReload | Watcher/src/com/nextlabs/smartclassifier/Watcher.java:1558-1564 | A reload that a refused folder ends, so that a newly included folder is not included |
| WatcherReload.ReloadUntilDone | Watcher/src/com/nextlabs/smartclassifier/Watcher.java:572-646 | Repeating a reload that was refused: at most as many attempts fail as there are refused folders, and in the end all sets and the parents are what one reload without refusals would have made of them |
| WatcherReload.DropIsAnnounced | Watcher/src/com/nextlabs/smartclassifier/Watcher.java:1398-1411 | A monitor is told of an included folder exactly when the folder is dropped and is recorded on it or on none |
| WatcherReload.ExclusionIsAnnounced | Watcher/src/com/nextlabs/smartclassifier/Watcher.java:1449-1477 | A monitor is told of a new exclusion exactly when the included folder around it is recorded on it, or there is none |
| WatcherReload.ReloadSettled | Watcher/src/com/nextlabs/smartclassifier/Watcher.java:867-888 | A reload that finds all in place leaves sets, parents, sites and announcements as they are |
| WatcherReload.ReloadTwice | Watcher/src/com/nextlabs/smartclassifier/Watcher.java:867-888 | Two reloads from the same profile come to one, and the parents' keys stay excluded |
| ReloadRetention.StatusMeaning | Watcher/src/com/nextlabs/smartclassifier/dto/WatcherProfile.java:246-304 | After loading a new profile the status of a path is false exactly if the last repository with that path is a SharePoint one of which its own folders or those of an exclusion could not be listed |
| ReloadRetention.CopiedFollows | Watcher/src/com/nextlabs/smartclassifier/dto/WatcherProfile.java:205-217 | After loading, a folder's site is the one of the last repository listing the folder, and a site's repository the last in whose listing the site occurs |
| ReloadRetention.LoadAndReload | Watcher/src/com/nextlabs/smartclassifier/Watcher.java:867-888 | Loading a new profile from a list of repositories and reloading from it: an old folder that the new sets lack stays, in the included and in the excluded set and among the links, exactly if its name has no path or its site belongs to a repository of which some listing failed; the reload ends early exactly at an old exclusion not so spared, refused, and inside included folders old and new; each monitor is told exactly the new exclusions and the dropped folders that it watches or that none does |
| Gregorian.YearStartStep | CommonLibrary/src/com/nextlabs/smartclassifier/solr/QueryBuilder.java:567-617 | The closed form of a year's first day grows by the year's length, leap years included |
| Gregorian.EpochIs1970 | CommonLibrary/src/com/nextlabs/smartclassifier/solr/QueryBuilder.java:567-617 | Day 0 is the first of January 1970, where the milliseconds start |
| Gregorian.CivilRoundTrip | CommonLibrary/src/com/nextlabs/smartclassifier/solr/QueryBuilder.java:567-617 | Every day number is the number of a valid civil date, its own |
| Gregorian.DateRoundTrip | CommonLibrary/src/com/nextlabs/smartclassifier/solr/QueryBuilder.java:567-617 | Every valid civil date is the date of its day number |
| QueryDates.FieldsRoundTrip | CommonLibrary/src/com/nextlabs/smartclassifier/solr/QueryBuilder.java:567-617 | The fields of a time, put together again, give the time |
| QueryDates.DayEdges | CommonLibrary/src/com/nextlabs/smartclassifier/solr/QueryBuilder.java:567-617 | Year, month and day of v at the first and last time of day give v - v mod 86400000 and that plus 86399999, wrapped to 64 bits |
| QueryDates.RecomposeDay | CommonLibrary/src/com/nextlabs/smartclassifier/solr/QueryBuilder.java:595-617 | The calendar methods, none of whose pending settings lets the current time in, give the day's edge |
| QueryDates.ToDateMillisecond | CommonLibrary/src/com/nextlabs/smartclassifier/solr/QueryBuilder.java:567-617 | A positive number becomes its day's edge, another value stays |
| QueryDates.GetWholeDayMillisecond | CommonLibrary/src/com/nextlabs/smartclassifier/solr/QueryBuilder.java:463-507 | Both edges of the value's day, or none |
| QueryDates.DateRange | CommonLibrary/src/com/nextlabs/smartclassifier/solr/QueryBuilder.java:266-306 | The range built for each date condition is the one whose meaning QueryDates.ConditionsCompareDays and ConditionsCompareTimes give; a text that is no number stays the bound |
| QueryDates.EqualsIsTheDay | CommonLibrary/src/com/nextlabs/smartclassifier/solr/QueryBuilder.java:266-306 | Below the last day, equality to a value matches exactly the times of its day |
| QueryDates.ConditionsCompareDays | CommonLibrary/src/com/nextlabs/smartclassifier/solr/QueryBuilder.java:266-306 | For a positive value before, before-or-equal, equal, after-or-equal and after compare UTC days as their names say; on the last 64-bit day before and after-or-equal still do, equal matches nothing, and the other two compare with a negative time |
| QueryDates.ConditionsCompareTimes | CommonLibrary/src/com/nextlabs/smartclassifier/solr/QueryBuilder.java:266-306 | A value that is not positive is compared as it is |
| QueryDates.DateRangesPartitionTime | CommonLibrary/src/com/nextlabs/smartclassifier/solr/QueryBuilder.java:266-306 | For a positive value, before, equals and after are disjoint and cover all times, and the two or-equal ranges are the unions, exactly when the value lies before the last day that 64 bits hold |
| ExecutionWindows.SplitMeaning | CommonLibrary/src/com/nextlabs/smartclassifier/base/SCComponent.java:659-685 | Splitting at the delimiter and joining again gives the text, and no part holds the delimiter |
| ExecutionWindows.GetDays | CommonLibrary/src/com/nextlabs/smartclassifier/base/SCComponent.java:659-685 | The days listed are those whose code is among the parts |
| ExecutionWindows.AddSetsFinds | CommonLibrary/src/com/nextlabs/smartclassifier/base/SCComponent.java:587-657 | The index has a fitting slot for a day exactly when some unexpired set has a window that lists the day with a fitting slot |
| ExecutionWindows.SCComponent.BuildExecutionWindow | CommonLibrary/src/com/nextlabs/smartclassifier/base/SCComponent.java:587-657 | The nested loops build the index of the unexpired sets and set the control flag exactly when there is one |
| ExecutionWindows.SCComponent.IsWithinExecutionWindow | CommonLibrary/src/com/nextlabs/smartclassifier/base/SCComponent.java:202-239 | The search through the day's slots finds whether one fits |
| ExecutionWindows.IndexRefinesDefinition | CommonLibrary/src/com/nextlabs/smartclassifier/base/SCComponent.java:587-657 | At any time not before the build, dropping sets that had expired does not change whether some set, window, day and slot admits it |
| ExecutionWindows.BuildThenAsk | CommonLibrary/src/com/nextlabs/smartclassifier/base/SCComponent.java:202-239 | Building and then asking answers true exactly when no unexpired set existed or some set, window, listed day and slot admits date and time |
| ExecutionWindows.TimeOrderIsNumeric | CommonLibrary/src/com/nextlabs/smartclassifier/base/SCComponent.java:711-733 | On four-digit times the order of text is the order of numbers |
| ExecutionWindows.ListsNames | CommonLibrary/src/com/nextlabs/smartclassifier/base/SCComponent.java:659-685 | A window lists a day exactly when the day's digit, 0 for Sunday to 6 for Saturday, stands alone between bars or the ends of the text |
| ExecutionWindows.SlotMeaning | CommonLibrary/src/com/nextlabs/smartclassifier/base/SCComponent.java:711-733 | With four-digit times a slot admits a moment exactly when the date lies between the dates of its set and the time, as a number, between its times |
| ExecutionWindows.BuildThenAskMeans | CommonLibrary/src/com/nextlabs/smartclassifier/base/SCComponent.java:202-239 | The same answer in terms of the configuration: true exactly when every set had ended before the build, or some set in force on the date has a window naming the day with a slot around the time |
| SharePointMaps.SortHashMapByValues | CommonLibrary/src/com/nextlabs/smartclassifier/util/SharePointUtil.java:2237-2263 | The nested loops list exactly the map's pairs, by value and then by key; the inner search never fails |
| SharePointMaps.ListingDetermined | CommonLibrary/src/com/nextlabs/smartclassifier/util/SharePointUtil.java:2237-2263 | There is only one such listing |
| SharePointMaps.RemoveSubPathsFromMap | CommonLibrary/src/com/nextlabs/smartclassifier/util/SharePointUtil.java:2169-2184 | The double loop keeps exactly the keys with no other key above them, with their values |
| SharePointMaps.TopmostCover | CommonLibrary/src/com/nextlabs/smartclassifier/util/SharePointUtil.java:2169-2184 | Kept paths are never inside one another, and every path has exactly one kept path at or above it |
| ReQueueProtocol.StepKeepsPlaces | Extractor/src/com/nextlabs/smartclassifier/Extractor.java:114-165 | No step of a worker or the main loop loses, duplicates or invents a message |
| ReQueueProtocol.StepKeepsBounds | Extractor/src/com/nextlabs/smartclassifier/task/ExtractDocumentTask.java:121-192 | Attempt counts, runs and index accesses keep their bounds in every step |
| ReQueueProtocol.ProtocolHolds | Extractor/src/com/nextlabs/smartclassifier/task/ExtractDocumentTask.java:121-192 | In every state of every interleaving each accepted message is in one place, its attempts are at most 3, its runs at most 4, and its index entry is touched at most once |
| ReQueueProtocol.BackupSeenIndexUntouched | Extractor/src/com/nextlabs/smartclassifier/task/ExtractDocumentTask.java:121-150 | A run that sees a backup file never touches the index |
| ReQueueProtocol.StepUsesRank | Extractor/src/com/nextlabs/smartclassifier/Extractor.java:283-321 | Every step but the arrival of a message lowers a rank |
| ReQueueProtocol.ReQueueingEnds | Extractor/src/com/nextlabs/smartclassifier/Extractor.java:283-321 | Once messages stop arriving only boundedly many steps are left |
| ReQueueProtocol.QuietMeansFinished | Extractor/src/com/nextlabs/smartclassifier/task/ExtractDocumentTask.java:121-192 | When no step is possible any more, exactly the accepted messages are finished |
| ExtractorTasks.Extractor.CheckMessage | Extractor/src/com/nextlabs/smartclassifier/Extractor.java:114-165 | A message is accepted exactly within the window, with room in the pool and with path and action |
| ExtractorTasks.Extractor.CheckBackup | Extractor/src/com/nextlabs/smartclassifier/task/ExtractDocumentTask.java:121-150 | A found backup re-queues the message up to three times and then skips it |
| ExtractorTasks.Extractor.Run | Extractor/src/com/nextlabs/smartclassifier/task/ExtractDocumentTask.java:121-192 | One run: with a backup the message is queued again with one attempt more, or skipped after three; without one it is finished as quit, unsupported or extracted, and only then the index touched |
| ExtractorTasks.Extractor.ProcessReQueue | Extractor/src/com/nextlabs/smartclassifier/Extractor.java:283-321 | Draining the queue submits every message again, in order |
| StringOrder.ListingUnique | Watcher/src/com/nextlabs/smartclassifier/dto/WatcherProfile.java:58-61 | The order and the contents of a sorted set determine its listing |
| StringOrder.Enumerate | Watcher/src/com/nextlabs/smartclassifier/dto/WatcherProfile.java:58-61 | Going through a sorted set gives that listing |

## Left out

- Names are taken as lower-cased, so that the case-insensitive sets and maps are plain ones; URL decoding of names, and other kinds of name resolution by VFS, are the identity.
- The SharePoint copy of the rule loop, the JMS messages, the Solr index and the database: foreign services behind the same logic.
- RuleExecutionTasks.RuleExecutionTask.Execute: an Error thrown by an action, which ends the whole execution, is not modelled; the records of failed rollbacks and the second update of the execution status are not modelled, and a page's documents are those of an index that does not change meanwhile.
- RuleExecutionTasks.RuleExecutionTask.RunRule: the status updates and the waiting for the execution window are left out.
- WatcherRecovery.Watcher.DumpToFile: failures to write and the renaming of the temporary file are left out.
- WatcherReload.Watcher.ReloadIncludedFolders: what the crawl of a new folder puts into the monitors' maps is a parameter.
- ExtractorTasks.Extractor.CheckMessage: the clean-up of completed tasks and the exceptions that are swallowed are left out.
- ExtractorTasks.Extractor.ProcessReQueue: describes the draining while no worker adds to the queue; the interleavings are those of ReQueueProtocol.
- FileNames.GetNonDuplicateFilename: does not model the wrap-around of the sequence number, which needs a directory with more than 2^31 entries.
- QueryDates.DateRange: covers the LONG storage of dates; the other storage depends on the time zone of the machine. A value is a number or another text, how Long reads a text is not spelled out.
- ExecutionWindows.SCComponent.IsWithinExecutionWindow: waiting for a rebuild and the calendar that gives day and time are not modelled; day, date and time are parameters.
- WatcherRecovery.Watcher.Recover: heartbeats, a shutdown during recovery, the registered counters and the repository address of SharePoint entries are not modelled; the sets collected by a malformed dump with the same segment twice are not shared between profile and reader.
- Monitored entries are values in the map rather than objects of their own; nothing in the code keeps one beyond a check.
- FileMonitors.FileMonitor.RunOnce: the sleeps, the end of the thread and other threads adding files in the middle of a pass are not modelled; the loop over the names takes any sequence that is given, as a weakly consistent iteration may.
- MonitorCompletion.PassCompletes: while a path is queued for removal no exact condition is given, only the one of MonitorUpkeep.PassFit, under which every pass comes to its end.
- VfsNames.AcceptedFailsByRepetition: of the check before an exclusion is stored the comparisons with other exclusions and the characters of a share's name are left out.
- MonitorUpkeep.PassFit: that a map is fit for one world says nothing of the next one, where a folder may have taken a file's place; the condition is then to be asked again.
- MonitorOutage.OutageSafety: the world is one during the removals and the check at one name.
- MonitorReturn.OutageAndReturn: for the root folder itself it asks that nothing above the root is monitored.
- FileMonitors.Watcher.ProcessFile: the combinations of action and exclusion test that no caller uses are left open; the counters on deletion follow the code, as Crawling.DeletionCounts states.
- A world has no gaps between an existing folder and what lies below it, and listings are complete, without repetition and in some order that does not change during a pass.
- WatcherReload.Watcher.ReloadRepoFolderConfig: what a crawl during the reload puts into the monitors' maps is not modelled, only on which monitor it puts a new folder; path objects that Java refuses to build count as names without a path.
- WatcherProfiles.WatcherProfile.Copy: the configuration fields without bearing on folders are left out; a listing of a SharePoint address is a parameter.
- The retry of included folders that a reload adds but cannot find, the task map of the extractor, license checks, mail, encryption and the extractors of single document formats.
