# Toride: app lifecycle and audit files

A Dafny model of two crates of toride, with proofs about it.

`toride-apps` installs, updates, removes and adopts applications through the
package managers of a host and keeps a ledger of what it did. The model covers

- the planner that turns an app's install method into one backend operation
  (`Plan.dfy`) and the records and replayed plans (`Records.dfy`);
- presence checks and the listing cache of the batch verb (`Listing.dfy`,
  `Host.dfy`), the blocking facade and its verbs (`Facade.dfy`), the batch verb
  against the single one (`Batch.dfy`), what each verb answers and runs
  (`VerbAnswers.dfy`), what every run of the verbs keeps (`LedgerLaws.dfy`), and
  the facade over the manifest store (`Durability.dfy`);
- detection over `$PATH`, shims and backend listings, for one name and for many
  (`Merge.dfy`, `PathSearch.dfy`, `ArchProbe.dfy`, `Detect.dfy`), and what an
  answer holds (`DetectedRows.dfy`);
- the manifest store: names, the save protocol under any interleaving and any
  crash, quarantine (`StoreNames.dfy`, `AtomicSave.dfy`, `JsonStore.dfy`).

`toride-audit` manages the files of the Linux audit daemon. The model covers both
key/value parsers and printers (`KeyValue.dfy`, `AuditdConf.dfy`), merging and
reloading rule files (`RuleFiles.dfy`, `Reload.dfy`) and backups (`Backup.dfy`).
`Text.dfy`, `Decimal.dfy` and `StringOrder.dfy` hold the text, number and order
laws these rest on.

How the outside world enters:

- A backend is the answers of its probes and commands in a state of the host
  (`Host.Env`). The host state is a type parameter, so a theorem about a run holds
  for every host. What a theorem needs of a host is a named predicate in its
  `requires`: an install changes no listed row but its own, saving changes no
  probe, a reported version is the probed one.
- The file system of a search, the `file` command and the listings of a detector
  are functions, because detection assumes a host that holds still. The contracts
  are `ArchProbe.Concatenates`, `Detect.Restricts` and
  `PathSearch.LooksUpByName`.
- Time, process ids, failures of single steps and crashes are inputs: events of a
  run, or fault arguments.
- Both crates are modelled with their default build features, where direct
  downloads and mise are refused by the planner.

Methods with loops, and the classes whose fields the source updates in place, are
proved equal to a function of the old state; the theorems are about those
functions.

## What the code does where its documentation says otherwise

- `reload_rules` promises that a failing load leaves the live rules intact. A rule
  in none of the files outlives a reload exactly when one of the commands up to and
  including the flush fails (`Reload.OldRuleSurvivesExactly`); a load that fails
  after the flush finds the old rules gone (`Reload.SecondPassFailure`,
  `Reload.RulesCanBeLost`).
- `create_backup` documents a date format; names carry epoch seconds. Name order
  then finds the newest backup exactly under a condition on the number of digits
  (`Backup.RestoresNewest`, `Backup.WidthChangeRestoresOlder`).
- The batch check promises the same answers as the single one. It gives them
  exactly when no item that looks at a listing finds its row other than it was when
  its backend was first listed (`Batch.BatchExact`): so in every batch of distinct
  rows (`Batch.BatchIsEach`), and for two ids that name one row only when the first
  install leaves that row's status as it was (`Batch.SharedRowExact`,
  `Batch.SharedRowDiverges`).
- Everything uninterpretable is documented to load as corrupt and to be set aside.
  A manifest that is not text is an I/O error instead, on every load until something
  replaces it, and is never set aside (`JsonStore.NotTextUntilReplaced`).
- A corrupt document is documented to be moved aside and never saved over, and a
  move that fails to be an error. Building a facade passes that error on, so no
  facade comes of it. But a direct user of `JsonRecordStore`, or another
  facade built earlier over the same path, can still save: the unmoved
  document survives exactly when a load that works comes before any completed save
  or other write (`JsonStore.UnmovedSurvivesExactly`,
  `JsonStore.UnmovedIsLostToSave`).

## Model

| member | source | states |
|---|---|---|
| `Decimal.PrintThenParse` | crates/toride-audit/src/auditd_config.rs:64-82 | a printed number reads back as itself exactly when it fits the width it is read at; a wider one reads as nothing |
| `Decimal.ParseThenPrint` | crates/toride-audit/src/auditd_config.rs:99-116 | a text that reads as a number prints back as itself exactly when it is digits only without a leading zero |
| `Decimal.ParseReads` | crates/toride-audit/src/auditd_config.rs:64-82 | what reads as a number is digits up to the width, a plus sign before them or not, and nothing else |
| `KeyValue.ReadEntryIsClean` | crates/toride-audit/src/config.rs:102-109 | every entry read from a line is trimmed, its key holds no separator and starts no comment |
| `KeyValue.LineReads` | crates/toride-audit/src/config.rs:102-114 | a line reads as nothing exactly when it is blank or its first character that is not blank starts a comment; otherwise by its first separator, each half trimmed, or as having none |
| `KeyValue.WriteThenReadEntry` | crates/toride-audit/src/config.rs:121-127 | a clean entry's line survives joining and reads back as exactly that entry |
| `KeyValue.ParseKvConfig` | crates/toride-audit/src/config.rs:99-118 | the loop answers all entries in order, repeats included, or the first bad line |
| `KeyValue.ParseFailsAtFirstBadLine` | crates/toride-audit/src/config.rs:108-114 | parsing fails exactly when some line has no separator, and reports the first one |
| `KeyValue.RenderThenParse` | crates/toride-audit/src/config.rs:99-127 | rendering and parsing gives an entry list back exactly when every entry is one a line can carry |
| `KeyValue.ParseThenRenderThenParse` | crates/toride-audit/src/config.rs:99-127 | for every accepted text, the rendered entries parse to the same ordered list |
| `AuditdConf.Parse` | crates/toride-audit/src/auditd_config.rs:43-91 | the loop over lines computes the configuration the text denotes |
| `AuditdConf.TypedLines` | crates/toride-audit/src/auditd_config.rs:96-116 | the typed settings that are set, one line each, in their fixed order |
| `AuditdConf.Render` | crates/toride-audit/src/auditd_config.rs:95-123 | the pushed lines are the typed settings in their order and then the further keys in map order |
| `AuditdConf.LastLineDecides` | crates/toride-audit/src/auditd_config.rs:60-86 | for every key the last line naming it decides, a number that does not parse clears its setting, and a key on no line is unset |
| `AuditdConf.KeysSetFields` | crates/toride-audit/src/auditd_config.rs:64-86 | each of the six keys sets its own setting at its own width from the last line naming it, and every other key is kept, and only those |
| `AuditdConf.AssignLinesWellFormed` | crates/toride-audit/src/auditd_config.rs:54-88 | every text denotes a configuration with numbers of their widths and keys and values a line can carry |
| `AuditdConf.RenderThenParse` | crates/toride-audit/src/auditd_config.rs:43-123 | rendering and parsing gives a configuration back exactly when it is well formed |
| `AuditdConf.ParseThenRenderThenParse` | crates/toride-audit/src/auditd_config.rs:43-123 | for every text, parse, render, parse gives what the first parse gave |
| `RuleFiles.MergeRules` | crates/toride-audit/src/auditd_rules.rs:139-157 | the merged list is strictly sorted and holds exactly the lines of all files that are neither blank nor comments |
| `RuleFiles.MergeDetermined` | crates/toride-audit/src/auditd_rules.rs:135-157 | that list is the same for every order and repetition of the files |
| `RuleFiles.RuleLine` | crates/toride-audit/src/auditd_rules.rs:139-157 | a line is a rule exactly when it is not blank and its first character that is not blank starts no comment |
| `Reload.AuditdManager.ReloadRulesInner` | crates/toride-audit/src/auditd.rs:79-129 | listing failures run no command; otherwise the two loops and the flush are the two-pass reload over the sorted names |
| `Reload.LoadEachOutcome` | crates/toride-audit/src/auditd.rs:108-126 | a pass loads every file once in order and adds exactly their rules, or stops at one file with the rules of those before it |
| `Reload.FlushAfterFullPass` | crates/toride-audit/src/auditd.rs:73-120 | when the flush is issued, the commands before it in this reload are one successful load of each file, in order |
| `Reload.FirstPassFailure` | crates/toride-audit/src/auditd.rs:103-116 | a failure in the first pass issues no flush and keeps every live rule |
| `Reload.FullSuccess` | crates/toride-audit/src/auditd.rs:118-128 | success leaves exactly the files' rules in file order |
| `Reload.SecondPassFailure` | crates/toride-audit/src/auditd.rs:122-126 | a failure after the flush leaves the rules of a proper prefix of the files and what the failing load added |
| `Reload.DirectoryOrderIrrelevant` | crates/toride-audit/src/auditd.rs:80-92 | two listings of the same names, in any order, give the same files to work through |
| `Reload.FilesInNameOrder` | crates/toride-audit/src/auditd.rs:80-92 | the files worked through are in ascending name order: the names that end in the extension and are more than it, each as often as listed; one entry that cannot be read fails the listing |
| `Reload.FullSuccessInNameOrder` | crates/toride-audit/src/auditd.rs:80-128 | success over a directory leaves exactly its rule files' rules in ascending order of their names, whatever order it lists them in |
| `Reload.FailedFlush` | crates/toride-audit/src/auditd.rs:118-120 | when the flush itself fails the reload fails, loads nothing again, and everything live or just loaded is live |
| `Reload.OldRuleSurvivesExactly` | crates/toride-audit/src/auditd.rs:56-128 | a rule that is live and in none of the files is live after the reload exactly when the first pass or the flush fails, that is, when one of the first commands, one for each file and the flush, does |
| `Reload.RulesCanBeLost` | crates/toride-audit/src/auditd.rs:56-68 | the instance where the load after the flush fails and the rule that was live is gone |
| `StringOrder.SameWidthOrder` | crates/toride-audit/src/backup.rs:107-113 | printed numbers of equal width sort as text the way they sort as numbers |
| `StringOrder.ShorterOrder` | crates/toride-audit/src/backup.rs:107-113 | a narrower printed number sorts first exactly when it is at most the leading digits of the wider one |
| `Backup.Directory.CreateBackup` | crates/toride-audit/src/backup.rs:26-35 | the copy stands at the stamped name, and a missing file leaves none |
| `Backup.Directory.ListBackups` | crates/toride-audit/src/backup.rs:78-99 | from any listing order, the matching names in name order |
| `Backup.Directory.RestoreBackup` | crates/toride-audit/src/backup.rs:45-69 | the file becomes the last matching backup in name order, or stays when there is none |
| `Backup.StampOrder` | crates/toride-audit/src/backup.rs:62-64 | an older stamp sorts before a newer one exactly when it is as wide or at most the newer one's leading digits |
| `Backup.RestoresNewest` | crates/toride-audit/src/backup.rs:55-66 | the backup restored is the newest exactly when every narrower stamp is at most its leading digits |
| `Backup.ListedOldestFirst` | crates/toride-audit/src/backup.rs:71-99 | with stamps of one width the listing runs from oldest to newest |
| `Backup.WidthChangeRestoresOlder` | crates/toride-audit/src/backup.rs:37-69 | across every change of the clock's width the older of two neighbouring backups is restored |
| `Backup.RestoreAfterRun` | crates/toride-audit/src/backup.rs:26-69 | after any run of backups, edits and restores at one clock width, a restore puts back what the file held at the latest backup |
| `Merge.MergeByCanonicalPath` | crates/toride-apps/src/detect.rs:217-230 | the loop over two parallel vectors is the keyed fold |
| `Merge.AbsorbKeepsKey` | crates/toride-apps/src/detect.rs:178-210 | absorbing a hit for the same key leaves the entry's key |
| `Merge.AbsorbAssociative` | crates/toride-apps/src/detect.rs:194-210 | absorbing is associative on hits for one key |
| `Merge.MergeInParts` | crates/toride-apps/src/detect.rs:212-230 | merging two lists at once is merging their merges |
| `Merge.MergeIdempotent` | crates/toride-apps/src/detect.rs:212-230 | merging a merged list changes nothing |
| `Merge.MergedEntries` | crates/toride-apps/src/detect.rs:185-230 | keys are distinct and in first-seen order; each entry has its group's first version, least rank, greatest confidence, first managed source and the disjunction of its flags |
| `PathSearch.ParsePathext` | crates/toride-apps/src/detect.rs:653-668 | the loop keeps each proper extension not seen before |
| `PathSearch.ExtensionsDistinct` | crates/toride-apps/src/detect.rs:653-668 | no two kept extensions differ only in case, and every proper one is represented |
| `PathSearch.ExtensionsInOrder` | crates/toride-apps/src/detect.rs:653-668 | each kept extension is the first spelling listed, and they stand in the order in which they are first listed |
| `PathSearch.CandidatesAre` | crates/toride-apps/src/detect.rs:670-685 | the name itself when it carries a dot after its last separator or there are no extensions, otherwise the name with each extension in turn |
| `PathSearch.PathCandidates` | crates/toride-apps/src/detect.rs:289-308 | the nested loops find the executables among the places, each artifact where it is seen first |
| `PathSearch.FoundOnce` | crates/toride-apps/src/detect.rs:289-308 | hits name distinct artifacts, are executable places, never fall in rank, and cover every executable place at no later a rank |
| `PathSearch.PlacesAre` | crates/toride-apps/src/detect.rs:293-296 | the places looked at are each candidate in each directory at its rank, and nothing else |
| `PathSearch.PlacesInOrder` | crates/toride-apps/src/detect.rs:293-296 | directory by directory, and within one in the order of the candidates |
| `PathSearch.FoundInOrder` | crates/toride-apps/src/detect.rs:293-306 | each hit is the first executable place of its artifact, and hits stand in the order of those places |
| `PathSearch.CasingIs` | crates/toride-apps/src/detect.rs:687-707 | a path is respelled exactly when its directory lists its name in another case only, as the first such name |
| `PathSearch.CasingKeepsArtifact` | crates/toride-apps/src/detect.rs:687-707 | respelling an executable the way its directory lists it names the same artifact, on disks that tell case apart and on disks that do not |
| `PathSearch.DetectionsFromCandidates` | crates/toride-apps/src/detect.rs:320-335 | one medium path hit per candidate, shadowed unless first, with its probed arch flag |
| `PathSearch.PathDetectionsOrdered` | crates/toride-apps/src/detect.rs:310-335 | for every path and extension list the hits are distinct, rank-ordered, and exactly the first is unshadowed |
| `PathSearch.MergeKeepsPathOrder` | crates/toride-apps/src/detect.rs:194-230 | merging rows without a rank after them keeps all of that |
| `ArchProbe.BatchedArchMismatches` | crates/toride-apps/src/detect.rs:342-379 | one answer per distinct path, from the batched lines when their count fits and from single probes otherwise |
| `ArchProbe.OneLineClassifies` | crates/toride-apps/src/detect.rs:612-632 | a text with one inked line names the architectures that line names |
| `ArchProbe.OneLineEach` | crates/toride-apps/src/detect.rs:359-364 | over outputs that each hold an inked line, equal line and operand counts force one line per operand, in order |
| `ArchProbe.BatchAgrees` | crates/toride-apps/src/detect.rs:337-391 | for every list of paths the batched probe is the single probe on each |
| `ArchProbe.ProbeExact` | crates/toride-apps/src/detect.rs:381-391 | a probe tells a mismatch exactly when the run succeeds and its output names, in any case, some architecture and not the one of the host, 32-bit names counting only where no 64-bit one stands |
| `Listing.RestrictTwice` | crates/toride-apps/src/backend.rs:193-201 | a listing restricted to some ids and then to one of them is the listing restricted to that one |
| `Listing.StatusOfRestricted` | crates/toride-apps/src/backend.rs:533-542 | the default presence check over a restricted listing is the lookup in the whole listing |
| `Listing.StatusIsFirstRow` | crates/toride-apps/src/backend.rs:533-542 | the first row of an id is its status, and without a row it is absent |
| `Listing.RestrictKeepsRows` | crates/toride-apps/src/backend.rs:193-201 | a restriction keeps each row of the ids in its place and drops the others |
| `Detect.DetectOne` | crates/toride-apps/src/detect.rs:557-592 | path hits, shim hits and each backend's hits in order, merged |
| `Detect.DetectMany` | crates/toride-apps/src/detect.rs:441-474 | the shared pass: one arch probe over all candidates, one listing per backend, one merge per name |
| `Detect.ListingsAgree` | crates/toride-apps/src/detect.rs:476-532 | the shared listings filtered by a name give the hits of that name's own probes |
| `Detect.DetectManyIsEach` | crates/toride-apps/src/detect.rs:430-591 | for every list of names the shared pass is the concatenation of the single detections |
| `Detect.DetectedShape` | crates/toride-apps/src/detect.rs:557-592 | an answer starts with the path hits, distinct, rank-ordered, exactly the first unshadowed; all other entries have no rank |
| `DetectedRows.PathEntryIs` | crates/toride-apps/src/detect.rs:310-335 | every field of the entry of the i-th executable found, the architecture flag being the probe of that very path |
| `DetectedRows.RowsAreDetected` | crates/toride-apps/src/detect.rs:522-555 | for every source and id there is exactly one entry without a path exactly when a listing of that source reports the id, at the first version reported, with high confidence exactly when some row has a version |
| `DetectedRows.ShimIsDetected` | crates/toride-apps/src/detect.rs:393-407 | where a shim is found first, an entry stands at its artifact, with the shim as its source |
| `DetectedRows.UnrankedAreRowsOrShim` | crates/toride-apps/src/detect.rs:557-592 | every entry without a rank comes from a row of a listing or is that shim, field by field |
| `StoreNames.TempInjective` | crates/toride-apps/src/manifest.rs:535-547 | a temporary name determines the process and the count |
| `StoreNames.QuarantineInjective` | crates/toride-apps/src/store.rs:98-110 | a quarantine name determines the process and the count |
| `StoreNames.NamesApart` | crates/toride-apps/src/store.rs:98-110 | temporary, quarantine and document names never coincide, whatever the document is called |
| `AtomicSave.EventTouchesOwn` | crates/toride-apps/src/manifest.rs:645-655 | a step changes no name but its saver's temporary file, and the document only when it renames |
| `AtomicSave.CleanupSparesOthers` | crates/toride-apps/src/manifest.rs:650-654 | a cleanup touches neither the document nor another saver's temporary file |
| `AtomicSave.StepKeepsInv` | crates/toride-apps/src/manifest.rs:625-656 | every step of every saver, failing or not, and every process exit keeps names unique, temporary files as written so far, and the document whole |
| `AtomicSave.DocumentAlwaysWhole` | crates/toride-apps/src/manifest.rs:37-47 | in every interleaving with failures and crashes anywhere the document is the initial one or the complete one of the last successful rename |
| `AtomicSave.SaveCompletes` | crates/toride-apps/src/manifest.rs:625-656 | a save that nothing stops goes through: the document is its own, its temporary file is gone, and no other name is touched |
| `AtomicSave.FailedSaveCleans` | crates/toride-apps/src/manifest.rs:645-655 | one that fails after writing some of its document and cleans up leaves every name but its temporary one as it was, and that one gone |
| `JsonStore.JsonRecordStore.TempPath` | crates/toride-apps/src/manifest.rs:535-547 | the next temporary name, and the counter moved on |
| `JsonStore.JsonRecordStore.QuarantinePath` | crates/toride-apps/src/store.rs:98-110 | the next quarantine name, and the counter moved on |
| `JsonStore.JsonRecordStore.Save` | crates/toride-apps/src/manifest.rs:625-656 | each failing step leaves what it leaves; success replaces the document |
| `JsonStore.JsonRecordStore.Load` | crates/toride-apps/src/store.rs:113-136 | missing is empty, unreadable is an error, uninterpretable is moved aside, a failing move is an error |
| `JsonStore.SaveThenLoad` | crates/toride-apps/src/store.rs:138-140 | a successful save loads back from whatever stood there; a failed one changes no other name and no later answer |
| `JsonStore.MissingIsEmpty` | crates/toride-apps/src/manifest.rs:425-432 | a store without a document loads as an empty one |
| `JsonStore.QuarantineKeepsBytes` | crates/toride-apps/src/store.rs:113-136 | a document is set aside exactly when it is text but no well-formed document of the supported version, and the read and the rename work; its bytes then stand at the quarantine name |
| `JsonStore.NotTextUntilReplaced` | crates/toride-apps/src/manifest.rs:417-427 | in every run a load that can read the file is an I/O error exactly while the last bytes written or saved are no text; such bytes stand until replaced and are never moved |
| `JsonStore.JudgedIsKept` | crates/toride-apps/src/store.rs:11-19 | in every run of writes, loads and saves every document judged corrupt still exists byte for byte at the end: at its quarantine name when it was moved, and when the move failed at its own name or a quarantine name as long as a load that works comes before any completed save or other write; no move lands on a file that is there |
| `JsonStore.UnmovedSurvivesExactly` | crates/toride-apps/src/store.rs:127-140 | after a failed move, with no other copy and none written later, the bytes are found under some name at the end exactly when that is so |
| `JsonStore.UnmovedIsLostToSave` | crates/toride-apps/src/store.rs:138-140 | the instance of a failed move followed by a save |
| `Plan.InstallGates` | crates/toride-apps/src/plan.rs:1022-1043 | an install is planned only for an app that is not disabled and claims the target, each gate with its own error |
| `Plan.PinIsPlanned` | crates/toride-apps/src/plan.rs:1408-1576 | an npm, cargo or uv install names the method's pin when there is one and the request otherwise, none included; it is planned exactly when the gates pass, no pin differs from a request, and its version is not blank and not one too many |
| `Plan.InstallPlannedExactly` | crates/toride-apps/src/plan.rs:1189-1496 | for every other method, exactly when it is planned and by which command |
| `Plan.UninstallPlannedExactly` | crates/toride-apps/src/plan.rs:1060-1073 | exactly when a removal is planned and by which command, disabled apps and platform claims standing in no way |
| `Plan.BrewAddressSplits` | crates/toride-apps/src/plan.rs:1187-1250 | a versioned brew install addresses a token that splits into exactly the token and the version |
| `Plan.NpmAddressSplits` | crates/toride-apps/src/plan.rs:1408-1437 | a versioned npm spec splits back into package and version exactly when the package has a name |
| `Plan.UvAddressSplits` | crates/toride-apps/src/plan.rs:1498-1521 | a versioned uv install the planner accepts splits back into package and version exactly when the package name holds no equals sign |
| `Plan.OverlapIsNotJoined` | crates/toride-apps/src/plan.rs:1578-1580 | an occurrence of the separator that overlaps one before it does not count as a versioned operand |
| `Plan.FlatpakRefParts` | crates/toride-apps/src/plan.rs:1325-1330 | a flatpak ref splits into its four parts when the id holds no separator |
| `Records.PlannedIsWellRouted` | crates/toride-apps/src/plan.rs:1022-1043 | every install plan runs an operation of its own backend, for its app, and needs root exactly on a distro manager |
| `Records.PlannedUninstallIsWellRouted` | crates/toride-apps/src/plan.rs:1060-1073 | so does every uninstall plan, on the backend the app's own identifiers name |
| `Records.ReplayedIsWellRouted` | crates/toride-apps/src/apps.rs:2925-3053 | replayed uninstalls and updates go to the backend the record's identifiers name, with root exactly for distro, and fail only for an unrouted family |
| `Records.ReplayedActsOnRecorded` | crates/toride-apps/src/apps.rs:2925-3053 | every replayed removal or upgrade acts on just what the record names, of its kind and where it is installed, and takes leftovers of a cask along exactly when asked |
| `Records.ExecutedBackend` | crates/toride-apps/src/apps.rs:2841-2916 | identifiers read from an executed plan belong to the plan's backend |
| `Records.FlatpakIdReadsBack` | crates/toride-apps/src/apps.rs:3079-3085 | the id read from a planned ref is the registry's exactly when it is not empty and holds no separator |
| `Records.FlatpakBranchReadsBack` | crates/toride-apps/src/apps.rs:3130-3135 | the branch read from a planned ref is the one planned |
| `Records.ReplayMatchesRegistry` | crates/toride-apps/src/apps.rs:2919-2987 | whatever installs, planned and replayed uninstall agree on backend and root, and are the same operation exactly when no version went into a brew token and a flatpak id is plain |
| `Records.ExecutedIdsAreOwn` | crates/toride-apps/src/apps.rs:2785-2916 | an executed install's identifiers are the registry app's with the flatpak ref added, exactly when no version went into a brew token and a flatpak id is plain |
| `Records.FlatpakVersionRoundTrip` | crates/toride-apps/src/apps.rs:3096-3126 | a flatpak record of a versioned install satisfies a request exactly when it names that version |
| `Records.RequestedVersionIsNamed` | crates/toride-apps/src/plan.rs:773-785 | a requested version is never dropped or replaced: the planned operation names exactly it |
| `Host.RecordedStatusProbes` | crates/toride-apps/src/status.rs:744-831 | the match behind a recorded status, arm by arm, answers what the host says of exactly those identifiers |
| `Host.VerifyPresenceProbes` | crates/toride-apps/src/apps.rs:1851-1916 | the match behind the presence check of the verbs, arm by arm, puts the same question |
| `Host.StatusMatchesPresence` | crates/toride-apps/src/status.rs:744-831 | the two matches, written apart, agree on every answer and every error for all identifiers, and differ only in what an absent backend means |
| `VerbAnswers.ForeignIs` | crates/toride-apps/src/status.rs:849-918 | where an unrecorded app stands, backend by backend: formula then cask, the own family only, the row in the whole listing, or the own row |
| `Host.ForeignListings.constructor` | crates/toride-apps/src/status.rs:572-575 | a new share holds no listing and has run no command |
| `Host.ForeignListings.StatusSync` | crates/toride-apps/src/status.rs:600-608 | answers from the kept listing or takes it, keeping only a successful one |
| `Host.ForeignListings.ForeignStatusShared` | crates/toride-apps/src/status.rs:678-719 | listing-backed identifiers go through the share, all others through their own check |
| `Host.CachedStatusSound` | crates/toride-apps/src/status.rs:562-571 | a backend is listed successfully at most once, never again after that, and a failing listing is not kept |
| `Host.SharedIsSingle` | crates/toride-apps/src/status.rs:622-629 | with a cache that still has the row as it is now, the shared check is the single check |
| `Facade.AppsBlocking.constructor` | crates/toride-apps/src/apps.rs:2245-2275 | both ledgers start as what the store loaded |
| `Facade.AppsBlocking.SaveRecords` | crates/toride-apps/src/apps.rs:1672-1674 | one save; its answer decides which ledger counts as durable, which `Durability.StoreHoldsLastSave` ties to what the store then loads |
| `Facade.AppsBlocking.RunCommand` | crates/toride-apps/src/backend.rs:685-702 | a dry run or a missing grant of root runs nothing; otherwise one command is run |
| `Facade.AppsBlocking.EnsureInstalledListed` | crates/toride-apps/src/apps.rs:2387-2417 | detect first: a confirmed and satisfying record, or a foreign copy without a version request, answers present; everything else goes on to install |
| `Facade.AppsBlocking.Install` | crates/toride-apps/src/apps.rs:2418-2462 | plan, route, execute, verify, record, save; a failing verify or save is a warning |
| `Facade.AppsBlocking.EnsureInstalled` | crates/toride-apps/src/apps.rs:2376-2383 | the single verb uses a share of its own |
| `Facade.AppsBlocking.EnsureInstalledMany` | crates/toride-apps/src/apps.rs:2472-2488 | one outcome per item in order over one share |
| `Facade.AppsBlocking.UninstallRecorded` | crates/toride-apps/src/apps.rs:2502-2533 | replay the record, verify, drop it, save; a failing save is a warning |
| `Facade.AppsBlocking.UninstallUnrecorded` | crates/toride-apps/src/apps.rs:2546-2587 | absent answers absent, present needs force, and nothing is recorded |
| `Facade.AppsBlocking.UpdateRecorded` | crates/toride-apps/src/apps.rs:2623-2670 | probe, preview or decide currency, upgrade, rewrite the version, save; a failing save is an error |
| `Facade.AppsBlocking.AdoptInstall` | crates/toride-apps/src/apps.rs:2679-2709 | claim a present unrecorded install; a failing save takes the claim back |
| `Batch.ExecutedRow` | crates/toride-apps/src/apps.rs:2785-2916 | an executed install's row is the one the app's identifiers name, for a flatpak id its part before a separator, on listing-backed backends |
| `Batch.ListedIsSingle` | crates/toride-apps/src/apps.rs:2385-2417 | one item over a fresh enough share is the single verb |
| `Batch.BatchIsEach` | crates/toride-apps/src/apps.rs:2464-2488 | for every batch in which no item is checked at a row an earlier one installs, outcomes, ledgers, commands and host are those of the single verb item after item, while installs change the host |
| `Batch.BatchListsOnce` | crates/toride-apps/src/status.rs:562-571 | a whole batch lists each backend successfully at most once, never again after that, and keeps exactly the listings that succeeded |
| `Batch.KeptAnswerExact` | crates/toride-apps/src/status.rs:600-608 | one item of a batch answers what the single verb answers exactly when its row is as it was when the kept listing was taken, and then does what the single verb does |
| `Batch.BatchExact` | crates/toride-apps/src/apps.rs:2464-2488 | for every batch, rows shared or not, the answers are those of the single verb item after item exactly when no asking item finds its row other than it was when its backend was first listed |
| `Batch.SharedRowExact` | crates/toride-apps/src/status.rs:622-629 | two unrecorded ids that name one row: batch and single verbs agree exactly when the first install left the status of the row as it was |
| `Batch.SharedRowDiverges` | crates/toride-apps/src/status.rs:622-629 | an instance: two ids naming one package are installed twice by the batch and once by the single verb |
| `LedgerLaws.BatchIsRun` | crates/toride-apps/src/apps.rs:2472-2488 | the batch verb, whatever its items share, is a run of ensures that start from the kept listings, with the same outcomes, so that the laws of runs hold of it |
| `LedgerLaws.StepLedgers` | crates/toride-apps/src/apps.rs:2363-2709 | each outcome, an item of a batch included, tells the ledgers: saved makes them equal, anything else leaves the durable one, and what is neither saved nor left unsaved leaves the working one |
| `LedgerLaws.FailedAdoptRestores` | crates/toride-apps/src/apps.rs:2703-2707 | a failed adopt leaves both ledgers exactly as they were |
| `LedgerLaws.DurableAsOfLastSave` | crates/toride-apps/src/apps.rs:2444-2454 | in every run the durable ledger is the working one as of the last save, and they differ only if an outcome since says so |
| `Durability.PersistAnswers` | crates/toride-apps/src/manifest.rs:625-656 | a save that fails in any way leaves what the store answers; one that works makes it answer the working ledger |
| `Durability.BuiltAnswers` | crates/toride-apps/src/apps.rs:2235-2262 | a store that built a facade answers the ledger the facade starts with, also after a corrupt document was set aside |
| `Durability.StoreHoldsLastSave` | crates/toride-apps/src/apps.rs:1672-1674 | from a build over any store and through any calls, with any save failing in any way, loading the store answers the durable ledger, which is the working one as of the last save that worked |
| `LedgerLaws.UninstallKeeps` | crates/toride-apps/src/apps.rs:2502-2533 | an uninstall runs at most one command, on the backend its record names |
| `LedgerLaws.UpdateKeeps` | crates/toride-apps/src/apps.rs:2623-2670 | an update changes no record but the version of its own, runs at most one command on that record's backend, and nothing in a dry run |
| `LedgerLaws.StepKeeps` | crates/toride-apps/src/apps.rs:2363-2709 | every verb, an item of a batch included, keeps the ledger well formed and every command routed, with root granted exactly where asked |
| `LedgerLaws.RunKeeps` | crates/toride-apps/src/manifest.rs:264-283 | in every run each record's backend is its identifiers' and its plan executed to exactly them; no distro command ran without a grant of root |
| `LedgerLaws.CallsKeep` | crates/toride-apps/src/apps.rs:2363-2709 | so do any calls, batches whose items share rows among them |
| `LedgerLaws.EnsureTwice` | crates/toride-apps/src/apps.rs:2394-2403 | after an ensure answers installed and verified, ensuring again answers present at that version and changes nothing at all |
| `LedgerLaws.InstallTellsStatus` | crates/toride-apps/src/apps.rs:2418-2462 | a successful install is verified exactly when the new record stands as installed at that version, and its verify warnings are exactly the other two answers a status can give |
| `LedgerLaws.UninstallTellsPresence` | crates/toride-apps/src/apps.rs:2502-2533 | a successful uninstall warns exactly when a probe of what it removed still finds it, or cannot answer |
| `LedgerLaws.EnsureThenUninstall` | crates/toride-apps/src/apps.rs:2502-2528 | for an app unrecorded before, ensure and then uninstall restore the ledger exactly |
| `LedgerLaws.UpdateAnswers` | crates/toride-apps/src/apps.rs:2651-2669 | an update that answers updated leaves what a probe reports as the record's version; up to date means installed and unchanged |
| `LedgerLaws.ForeignNeedsForce` | crates/toride-apps/src/apps.rs:2563-2580 | an unrecorded app is touched only when a probe finds it and the caller forces it |
| `VerbAnswers.EnsureDecides` | crates/toride-apps/src/apps.rs:2387-2417 | which way an ensure goes: present under recorded identifiers that meet the request, present as foreign when no version is asked for, an error the host answers, and an install in every other case |
| `VerbAnswers.InstallByRequest` | crates/toride-apps/src/apps.rs:1799-1808 | an install runs the plan that asks for the requested version, unless its backend offers exactly that anyway; then, and without a request, the one that asks for none; and what it records is that plan, its identifiers and the time |
| `VerbAnswers.EnsureNamesVersion` | crates/toride-apps/src/apps.rs:2418-2441 | every command run for a request not on offer anyway names exactly that version, over any kept listings |
| `VerbAnswers.UpdateDecides` | crates/toride-apps/src/apps.rs:1695-1728 | an update is up to date exactly when something is installed and, for brew and snap, the id is not stale, or, for the rest, the offer is what is installed; a dry run previews; everything else runs the upgrade |
| `VerbAnswers.UpdateRefusals` | crates/toride-apps/src/apps.rs:2623-2642 | a pinned target, a missing record, no plan or no backend is refused with its own error and no change |
| `VerbAnswers.UninstallDecides` | crates/toride-apps/src/apps.rs:2502-2533 | which way the removal of a recorded app goes, the record going with it exactly when the command works, and what its warnings say of the host after it |
| `VerbAnswers.UninstallAppDecides` | crates/toride-apps/src/apps.rs:2546-2587 | which way the removal of an unrecorded app goes, what it answers, and what it warns of |
| `VerbAnswers.AdoptDecides` | crates/toride-apps/src/apps.rs:2679-2709 | which way a claim goes: it records the given identifiers at the version the host reports and the time given or else now, and takes the claim back when it cannot be saved |

## Left out

- Batch.BatchExact: says nothing of a batch in which a backend that has been listed fails to list when a later item asks; the single verb then answers with that error, and the batch from what it kept.
- AtomicSave.DocumentAlwaysWhole: a process is taken to start fewer than 2^64 saves, so that its save counter does not wrap; a crash is the end of a process, because the source asks for no synchronisation to the disk and a power failure can then leave anything.
- Durability.StoreHoldsLastSave: nothing but the facade writes the document while the calls run.
- The async facade, its registry lookups and the offloading of saves: the blocking twin has the same logic.
- `uninstall_many`: the single verb item after item, with nothing shared.
- `status`, `available_versions`, pinning, searching and the builder: one probe or one constructor each.
- Direct downloads and mise: build features that are off by default; they add cases to the same matches.
- The backend modules, the command runner and the installer pipeline: replaced by the contracts above.
- JSON as text: a document is a version with a ledger or a malformed body, text that is no document, or bytes that are no text.
- Human wording of warnings, errors, details and summaries; warnings keep which conditions they join.
- I/O errors of the backup functions and file modes: their directory is a map from names to contents.
- Canonical argument vectors of operations other than the addresses `token@version`, `package@version`, `package==version` and the flatpak ref.
- Names that are not Unicode, which the audit crate converts lossily or to an empty string.
- Refining a mise shim by mise's own listing, which needs the mise feature.
