# Verification of v-container's workspace sync and guest-configuration printers

This project models, in Dafny, four parts of v-container and proves what their code and documentation promise.

**The sync engine** (`internal/share`). A workspace has three stores: the host's files, the guest's files and a saved
manifest. A run scans both sides, plans from sizes and mtimes alone, carries out the plan one action at a time, can stop
at any action, and rewrites the manifest only at the end. `Sync.Workspace` is the engine as it runs: a class whose fields
the methods update. Each method is proved equal to a function of the old state (`SyncModel.Run`, `Planner.PlanOf`), and
the theorems are about those functions:

- `Planner`: the decision matrix, the two planning loops and the sort; the plan is unique, and symmetric in the two sides.
- `RunFacts`, `Backups`: what a run, however it ends, does to each synced path and to each backup name.
- `CrashResume`: failed runs followed by a completed one reach the contents of one uninterrupted run.
- `Loss`, `RepeatedLoss`: which versions are lost, exactly, by one run and by failed runs repeated until one completes;
  last-writer-wins; when a backup is overwritten.
- `Merge`: the three-way merge of key sets, agreement of the sides, a lost manifest.
- `Histories`: arbitrary sequences of runs, edits and manifest losses: backups are durable, deletions propagate.
- `Quiescence`: what runs do when nobody edits, also when some of them fail; the contents converge after two completed runs.
- `Commute`, `Counters`: order independence and conservation of the counters.

The mtime a transfer leaves on its target is an arbitrary function of the path (`Clock`), the time stamp of a run is a
parameter, and every place where a run can fail is a case of `Fault`; all theorems hold for all of them.

**The proxy renderings** (`internal/cloudinit`), **the no_proxy merge** (`internal/proxy`) and **the -netdev value**
(`internal/netx`): printers, each proved against readers written independently (`GuestReaders`, `ShellReader`,
`SpecifierReader`, `Text.Split`, `Netdev.ReadNetdev`).

Lemmas named `...Exactly` tie the functions that the other theorems rest on (the ignore test, backup names, path order,
decimal numbers, trimming, case folding, the rendered names and texts, accepted protocols and ids, the tolerance) to
literal text and numbers.

## Where the code and its documentation disagree

The comment at `internal/share/sync.go:33-37` says that nothing is ever silently lost. The model follows the code, and the
claim is false of it in three ways, each with a concrete state in `Witnesses`:

- A file edited on one side and deleted on the other is removed without a backup (`EditedFileIsDeleted`).
- Two different files that both stay within the tolerance of the baseline are kept, the manifest takes the host's mtime,
  and the next run may download over the host's file without a backup (`KeptFileIsOverwritten`).
- Two runs in the same second use the same backup name, and the second can overwrite the first one's backup
  (`RepeatedStampDestroysBackup`).

`Loss.LossExactly`, `Loss.LossOfCompletedRun` and `RepeatedLoss.LossOverRuns` say exactly which versions are lost, and
`Loss.BackupKeptByCompletedRun` says from the state before a run exactly when a backup changes.

The same comment speaks of conflicts when both sides changed, and the one at `internal/share/sync.go:110-111` of an
accurate baseline for the next run. A run that downloads a file and then fails leaves a host file that the manifest does
not describe, so the next run can report a conflict, make a backup and write the guest although nobody edited anything
(`Witnesses.FailedRunMakesAConflict`). `Quiescence.GuestTouchedAfterFailures` says exactly when, after any number of
failed runs, and `Quiescence.GuestContentsKept` that the contents of the guest are kept nevertheless.

The comment at `internal/cloudinit/cloudinit.go:196-199` says that validated values cannot break the profile script. They
stay on one line, but they are not quoted: `ShellReader.ProfileScriptSetsExactly` says for exactly which values a shell
sets what was configured, and `ShellReader.BlankIsAcceptedButSplit` gives a list with a blank for which it does not.

The comment at `internal/cloudinit/cloudinit.go:393-398` says that systemd takes everything but backslash and double quote
verbatim. In DefaultEnvironment it also expands specifiers (systemd-system.conf(5)): `SpecifierReader.ConfigurationLoadsExactly` says that exactly
the lists without `%` are loaded as configured on every machine, and `SpecifierReader.DoubledPercentIsHalved` names values
that are so on none.

The int64 comparison of mtimes can wrap around; `Int64s.FarExactlyWhen` says exactly when it still means what it says.
`Merge.KeptIsCloseExactly` says exactly when the pairs a run keeps are therefore further apart than the tolerances allow.

## Model

| member | source | states |
|---|---|---|
| Int64s.FarExactlyWhen | internal/share/plan.go:52-60 | the int64 test "further apart than tol" agrees with the integers if and only if the distance fits in an int64, or it wraps to a distance still above tol |
| Int64s.DistanceSymmetric | internal/share/plan.go:141-150 | the wrapped distance is the same in both directions, also at the smallest int64 |
| Planner.PlanLocalPaths | internal/share/plan.go:91-122 | after the first loop, in whatever order paths come, the actions are exactly those the matrix asks for on host paths, once each |
| Planner.PlanRemotePaths | internal/share/plan.go:124-135 | the second loop extends this to the union of both sides' paths |
| Planner.SortByPath | internal/share/plan.go:137 | the result is strictly increasing in path and has the same actions |
| PathOrder.LessExactly | internal/share/plan.go:137 | the order is Go's on strings: a path comes before another if it is a proper prefix of it or has the smaller character where they first differ |
| Planner.Plan | internal/share/plan.go:80-139 | the loops and the sort compute the one plan of the scene, with a negative tolerance counted as 0 |
| Planner.PlanOfIsPlan | internal/share/plan.go:62-79 | the plan has exactly the actions the matrix asks for, one per path that needs one, in increasing path order |
| Planner.PlanUnique | internal/share/plan.go:79-139 | any strictly increasing list of exactly the asked-for actions is the plan, so map iteration order has no influence |
| Planner.ComparisonsAreExact | internal/share/plan.go:51-60 | for mtimes within half the int64 range, changed and entriesEqual are the mathematical comparisons, and a file without a baseline is changed |
| Planner.WrapHidesAChange | internal/share/plan.go:59 | a concrete pair outside that range whose change goes unnoticed |
| Planner.VerdictSymmetric | internal/share/plan.go:91-135 | swapping the sides mirrors the decision at every path, except that a conflict of equal mtimes still uploads |
| Planner.PlanSymmetric | internal/share/plan.go:80-139 | the same for whole plans, action by action and in the same order |
| Names.TestIgnored | internal/share/sync.go:201-204 | the scans' test: the base of the path contains the conflict marker |
| Names.IgnoredByLastComponent | internal/share/sync.go:201-204 | a path is skipped exactly when the text .vc-conflict- occurs in its last component; a directory name hides nothing |
| Names.ContainsExactly | internal/share/sync.go:203 | the containment test holds exactly if the text is some prefix, the searched text and some suffix |
| Names.BaseExactly | internal/share/sync.go:202 | the base of a path is its last component without trailing slashes, a slash for slashes alone and a dot for the empty path |
| Names.BackupNameExactly | internal/share/sync.go:127-131 | the guest's version is kept under the path with .vc-conflict-guest- and the stamp, the host's under .vc-conflict-host- and the stamp |
| Names.BackupIgnored | internal/share/sync.go:124-135 | every backup name is skipped by the scans |
| Names.BackupNameInjective | internal/share/sync.go:127-131 | backup names are injective in the path, the losing side and the stamp |
| Decimal.ParseOfFormat | internal/share/sync.go:127 | decimal rendering of any integer reads back to it |
| Decimal.FormatExactly | internal/share/sync.go:127 | a rendered integer has no leading zero, a minus sign if negative, and at each place the decimal digit of the magnitude |
| RunFacts.PlanIsReady | internal/share/sync.go:68-108 | planned paths are distinct, never skipped ones, and the file each action copies or removes is there |
| RunFacts.ReadyWhenDue | internal/share/sync.go:71-108 | when an action's turn comes its path is still as the scan saw it |
| RunFacts.RunAt | internal/share/sync.go:71-118 | a run, however it ends, settles each synced path it reaches by its verdict and leaves every other one alone |
| RunFacts.CompletedRunAt | internal/share/sync.go:71-118 | a completed run settles every synced path and records the host side as the new baseline |
| RunFacts.FailedRunAt | internal/share/sync.go:71-118 | a run that returns an error leaves the manifest as it was |
| RunFacts.LoneFilePlanned | internal/share/plan.go:115-135 | a file on one side alone is removed if the manifest knows it and copied if it does not |
| RunFacts.SharedFilePlanned | internal/share/plan.go:91-114 | for a file on both sides with mtimes in range, which of the four actions a run plans, in terms of sizes and mtime differences over the integers and the caller's tolerance, or 2 seconds when it gives none |
| RunFacts.FinishesExactly | internal/share/sync.go:71-118 | which faults stop a run: a backup can only fail at a conflict, and nothing fails past the end of the plan |
| Sync.Scan | internal/share/sync.go:148-199 | the walk gives size and mtime of exactly the paths that are not skipped |
| Sync.Workspace.LoadManifest | internal/share/sync.go:215-233 | a missing or corrupt manifest counts as empty |
| Sync.Workspace.BackupConflictLoser | internal/share/sync.go:122-146 | the losing side's content is on the host under the path with .vc-conflict-guest- or .vc-conflict-host- and the stamp, nothing else changes; a missing guest file is an error, a missing host file is not |
| Sync.Workspace.Carry | internal/share/sync.go:86-107 | the copy or removal of one action, for every state; it fails exactly when the source of a copy is missing |
| Sync.Workspace.Perform | internal/share/sync.go:71-108 | one pass of the action loop with each of its stop points: what is done, counted and returned |
| Sync.Workspace.ApplyPlan | internal/share/sync.go:71-108 | the loop has executed a prefix of the plan, ending where the fault strikes |
| Sync.Workspace.Sync | internal/share/sync.go:38-120 | stores, summary and error flag are those of the specification for every fault; every transfer finds its source |
| Sync.Workspace.Watch | internal/cli/cp.go:104-141 | the first run's error ends the watch loop, later errors are tolerated, and the stores are those of the runs in a row |
| CrashResume.ActingPreservesOutcome | internal/share/plan.go:91-135 | acting on a path without recording it leaves a path whose new verdict leads to the same contents |
| CrashResume.CrashThenResume | internal/share/sync.go:71-118 | any number of failed runs and then a completed one leave the contents of one uninterrupted run at every synced path on both sides, for all clocks and stamps |
| Backups.WroteBackup | internal/share/sync.go:78-85 | each backup a run wrote holds the losing side's version from before the run, also when the transfer after it failed |
| Backups.SkippedNamesKept | internal/share/sync.go:71-118 | no run touches a skipped name on the guest, nor one on the host that is not a backup it wrote |
| Backups.BackupKeptExactly | internal/share/sync.go:124-135 | through any run, however it ends, a backup keeps its content if and only if the run does not write that name with other content |
| Backups.OtherStampKeepsBackup | internal/share/sync.go:69 | a run with another stamp leaves a backup as it is |
| Histories.BackupsAreDurable | internal/share/sync.go:33-37 | over every continuation with distinct stamps and edits that leave it alone, a backup keeps its content and mtime on the host and is not copied to the guest |
| Histories.BackupsAreNeverPlanned | internal/share/sync.go:148-150 | no plan of any state has an action on a backup name |
| Histories.DeletesPropagate | internal/share/plan.go:115-135 | a path left by one completed run and missing on one side at some time before the next completed one is after that run gone from host, guest and manifest, whatever runs fail in between, and stays gone until a user creates it |
| Histories.DoomedStays | internal/share/plan.go:115-135 | failed runs and edits that create nothing never bring back a path that the manifest knows and one side lacks |
| Histories.AbsentStays | internal/share/plan.go:71-77 | a path on neither side and not in the manifest does not come back through any runs or a lost manifest |
| Loss.LossExactly | internal/share/sync.go:71-135 | after every prefix of a run a version is lost if and only if its path was reached and it was alone and known, or unchanged while the other side had changed to other content |
| Loss.LossOfCompletedRun | internal/share/sync.go:71-135 | for a completed run this is decided by the state before the run |
| Loss.LastWriterWins | internal/share/plan.go:100-109 | a conflict leaves the content with the later mtime on both sides, the host's on a tie, and the other one on the host under the path with .vc-conflict-host- or .vc-conflict-guest- and the stamp |
| Loss.WroteExactlyConflicts | internal/share/sync.go:78-84 | a completed run writes a backup of a path's side if and only if before it the path is in conflict and that side loses |
| Loss.BackupKeptByCompletedRun | internal/share/sync.go:124-135 | from the state before a completed run: a backup keeps its content if and only if it does not bear the run's stamp, or its path is not in conflict with its side losing, or the losing version is the content it already has |
| RepeatedLoss.LossOverRuns | internal/share/sync.go:33-37 | with distinct stamps, after any number of failed runs and a completed one, a version of the first state survives, in place or in a backup one of the runs wrote, if and only if it was not sacrificed in the first state |
| RepeatedLoss.FailedRunHandsOn | internal/share/sync.go:71-108 | a failed run hands a content on to the next, in place or in its own backup, if and only if the content lasts |
| Merge.KeysMerge | internal/share/plan.go:66-77 | a completed run leaves host, guest and manifest with key set (L ∩ R) ∪ ((L ∪ R) \ M) |
| Merge.SidesAgree | internal/share/plan.go:96-114 | after a completed run each surviving path has one content on both sides, or was not acted on, has equal sizes, and has mtimes within twice the tolerance: always so in range, and elsewhere if and only if no distance wrapped around |
| Merge.KeptIsClose | internal/share/plan.go:52-60 | the bound through the manifest baseline |
| Merge.KeptIsCloseExactly | internal/share/plan.go:52-60 | at any mtimes, a kept pair is within twice the tolerance if and only if its distance fits in an int64 and, where the baseline vouches for both files, not one of them alone is half the span from it |
| Merge.DistantPairIsKept | internal/share/plan.go:141-143 | the bound fails for a new host file dated at the smallest int64 and a guest file at 0: they are kept as equal |
| Merge.LostManifestIsSafe | internal/share/sync.go:215-233 | with a missing or corrupt manifest no run, completed or failed, plans a deletion or loses a version of either side, and a completed one leaves all paths on both sides |
| Quiescence.CompletedRunRests | internal/share/sync.go:110-118 | after a completed run the manifest describes the host and the sides have the same paths and sizes |
| Quiescence.RestingPlan | internal/share/plan.go:91-122 | from there a run plans only downloads, for exactly the paths whose mtimes are further apart than the tolerance |
| Quiescence.FarApartInRange | internal/share/plan.go:59 | that distance is the mathematical one for mtimes in range |
| Quiescence.RestingRun | internal/share/sync.go:71-118 | such a run never writes the guest, makes no backup and changes no host content where the sides agreed, however it ends |
| Quiescence.RestsForever | internal/share/sync.go:110-118 | through any number of completed runs the workspace rests and every guest file stays exactly as it is |
| Quiescence.VerdictAfterFailedDownload | internal/share/plan.go:96-114 | the exact next verdict for a path at rest after a failed run downloaded it, by the mtime written: download, keep, conflict won by the host, or conflict won by the guest |
| Quiescence.GuestTouchedAfterFailures | internal/share/plan.go:91-122 | after any number of failed runs from rest, of any tolerances, the next verdict writes or removes the guest's file if and only if the host's mtime is far from the resting one and the guest's is near that one, or else is far from the host's and not later |
| Quiescence.GuestWrittenAfterFailures | internal/share/plan.go:100-109 | where failed runs of one tolerance left the guest's file as it was, if and only if the pair was far apart at rest and the host's mtime is now far from both resting ones and not before the guest's; the verdict is then a conflict won by the host |
| Quiescence.GuestWrittenAfterFailure | internal/share/plan.go:100-109 | for a single failed run: if and only if it reached the path and the mtime it wrote is far from both earlier ones and not before the guest's; otherwise the next verdict keeps the path or downloads |
| Quiescence.GuestContentsKept | internal/cli/cp.go:129-138 | after one completed run no later run, completed or failed and with whatever tolerance, changes a guest content, and a host content changes at most to the guest's |
| Quiescence.ContentsConverge | internal/cli/cp.go:129-138 | after two completed runs, with any runs between them, no later run with the second one's tolerance, completed or failed, changes any content on either side |
| Commute.ActionsCommute | internal/share/sync.go:71-108 | any permutation of a plan reaches the same stores |
| Counters.CountersConserved | internal/share/sync.go:71-108 | however the run ends, each counter counts its operation among the actions carried out, they add up to them, conflicts are as many as conflict paths, and these are the conflicts among the actions carried out and the one whose backup or transfer failed, strictly sorted; a completed run carries out the whole plan |
| Counters.HostFilesConserved | internal/share/sync.go:86-107 | the host's synced file count moves by the downloads of new paths minus the local deletions, backups not counted |
| Witnesses.EditedFileIsDeleted | internal/share/plan.go:115-117 | a concrete edit lost against a deletion, without backup |
| Witnesses.KeptFileIsOverwritten | internal/share/plan.go:103-114 | a concrete pair kept by one run and overwritten by the next, without backup |
| Witnesses.RepeatedStampDestroysBackup | internal/share/sync.go:69 | two runs with one stamp after which the guest's version is nowhere |
| Witnesses.FailedRunMakesAConflict | internal/share/sync.go:110-118 | three runs without an edit of which the third reports a conflict, makes a backup and writes the guest |
| Text.SplitOfJoin | internal/netx/netx.go:174 | splitting undoes joining when no piece holds the separator |
| Text.TrimSpaceFacts | internal/proxy/proxy.go:185 | trimming gives trimmed text and leaves trimmed text alone |
| Text.TrimSpaceExactly | internal/proxy/proxy.go:185 | the trimmed text is the one text that neither starts nor ends with a space and differs from the whole by spaces at its two ends only |
| Text.SpacesAre | internal/proxy/proxy.go:185 | the spaces are Unicode's 25 white space characters |
| Text.LowerExactly | internal/proxy/proxy.go:189 | lower-casing maps the 26 capitals to their small letters and leaves other ASCII alone |
| Text.JoinAppend | internal/proxy/proxy.go:203 | joining two lists puts the separator between their joined texts |
| NoProxy.Merger.Add | internal/proxy/proxy.go:184-195 | adds the trimmed entry unless it is blank or its key was seen |
| NoProxy.DefaultNoProxy | internal/proxy/proxy.go:180-204 | the loops compute the merged list |
| NoProxy.MergeKeepsFirstOccurrences | internal/proxy/proxy.go:177-204 | the list is exactly the trimmed first occurrences, up to case, of the defaults followed by the extra entries, in order |
| NoProxy.PaddedEntryIsAdded | internal/proxy/proxy.go:184-195 | a clean entry whose name is new is appended without the spaces around it |
| NoProxy.RecasedEntryIsDropped | internal/proxy/proxy.go:189-192 | an entry already there but for ASCII case and surrounding spaces is dropped |
| NoProxy.CapitalLocalhostIsDropped | internal/proxy/proxy.go:189-192 | ` LOCALHOST` adds nothing to the defaults |
| NoProxy.DefaultListExactly | internal/proxy/proxy.go:168-204 | without extra entries the list is the six literal defaults joined with commas |
| NoProxy.DefaultsAreClean | internal/proxy/proxy.go:168-175 | the six defaults are trimmed, free of commas and pairwise different up to case |
| NoProxy.MergedEntriesAreClean | internal/proxy/proxy.go:168-204 | the list starts with the defaults, and its entries are trimmed, not blank, free of commas and pairwise different up to case |
| NoProxy.SplitOfMergedList | internal/proxy/proxy.go:200-203 | splitting the joined list at commas gives its entries |
| NoProxy.MergeIdempotent | internal/vm/create.go:202 | merging a merged list changes nothing, for every list of clean defaults |
| NoProxy.DefaultNoProxyIdempotent | internal/vm/create.go:202 | the same for the six defaults of the source |
| CloudInit.HasControlChars | internal/cloudinit/cloudinit.go:107-116 | true exactly when some character is below 0x20 or is 0x7f |
| CloudInit.ValidateProxy | internal/cloudinit/cloudinit.go:196-216 | accepts exactly a missing configuration and one whose three lists are printable, and names the first bad one |
| CloudInit.PrintableExactly | internal/cloudinit/cloudinit.go:109-116 | printable means no character below 0x20 and none equal to 0x7f |
| CloudInit.AssignmentsExactly | internal/cloudinit/cloudinit.go:374-391 | a configuration stands for http_proxy and HTTP_PROXY set to its HTTP list, https_proxy and HTTPS_PROXY to its HTTPS list, no_proxy and NO_PROXY to its no_proxy list, in this order and without the lists that are empty |
| CloudInit.WriteProxyVars | internal/cloudinit/cloudinit.go:374-391 | appends the lines of the configuration's assignments to the builder |
| CloudInit.ProxyEnvironment | internal/cloudinit/cloudinit.go:356-361 | the text for /etc/environment |
| CloudInit.ProxyProfileScript | internal/cloudinit/cloudinit.go:363-372 | the profile script, empty when there is nothing to export |
| CloudInit.LinesExactly | internal/cloudinit/cloudinit.go:376-391 | the lines written for a configuration, under any prefix, as literal text |
| CloudInit.LineFilesExactly | internal/cloudinit/cloudinit.go:356-372 | the environment file is those lines, the script #!/bin/sh and those lines after export, or nothing |
| CloudInit.SystemdQuote | internal/cloudinit/cloudinit.go:393-411 | the loop computes the quoted word |
| CloudInit.EscapedAppend | internal/cloudinit/cloudinit.go:399-411 | a backslash is put before a backslash and a double quote and before nothing else |
| CloudInit.ProxySystemdDropIn | internal/cloudinit/cloudinit.go:413-433 | the drop-in, empty when there is nothing to set |
| CloudInit.PairsExactly | internal/cloudinit/cloudinit.go:416-424 | the quoted pairs of a configuration, as literal names and its lists |
| CloudInit.DropInExactly | internal/cloudinit/cloudinit.go:425-433 | the drop-in is [Manager] and one DefaultEnvironment line with those pairs, or nothing |
| GuestReaders.ReadEscaped | internal/cloudinit/cloudinit.go:399-411 | an escape-aware double-quote reader takes a quoted text back to the text, whatever its characters |
| GuestReaders.ReadWordsOfQuoted | internal/cloudinit/cloudinit.go:413-433 | reading a blank-joined list of quoted words gives the words |
| GuestReaders.DropInWords | internal/cloudinit/cloudinit.go:413-433 | the words of the DefaultEnvironment value are http_proxy=, HTTP_PROXY= and the HTTP list, and so on for the lists that are set, for every configuration |
| GuestReaders.ReadingsAgree | internal/cloudinit/cloudinit.go:357-433 | one-line assignments read back unchanged from each of the three files; the drop-in is exactly its two lines |
| GuestReaders.RenderingsAgree | internal/cloudinit/cloudinit.go:196-216 | all three files of an accepted configuration read back to the same assignments: its HTTP, HTTPS and no_proxy lists, as far as set, under the literal small and capital names |
| ShellReader.SpecialShortens | internal/cloudinit/cloudinit.go:385-386 | reading a word as a shell does keeps its length only if no character is special |
| ShellReader.ScriptSetsExactly | internal/cloudinit/cloudinit.go:363-372 | a shell reading the profile script sets exactly its assignments if and only if every value is plain |
| ShellReader.ProfileScriptSetsExactly | internal/cloudinit/cloudinit.go:196-216 | for an accepted configuration this holds if and only if its three lists are plain |
| ShellReader.BlankIsAcceptedButSplit | internal/cloudinit/cloudinit.go:196-216 | a concrete accepted configuration that the script does not set |
| SpecifierReader.DropInLoadsOn | internal/cloudinit/cloudinit.go:413-433 | with whatever specifiers a machine has, the drop-in is loaded as its assignments if and only if each expands to itself |
| SpecifierReader.DropInLoadsExactly | internal/cloudinit/cloudinit.go:393-398 | every machine loads exactly the assignments if and only if none holds a percent sign |
| SpecifierReader.ConfigurationLoadsExactly | internal/cloudinit/cloudinit.go:196-216 | for an accepted configuration: if and only if its three lists hold no percent sign |
| SpecifierReader.DoubledPercentIsHalved | internal/cloudinit/cloudinit.go:393-398 | an accepted configuration with `%%` as its HTTP proxy is loaded as configured on no machine |
| GuestReaders.EmptyTogether | internal/cloudinit/cloudinit.go:357-433 | one rendering is empty exactly when the others are |
| GuestReaders.AppendKeepsLines | internal/cloudinit/cloudinit.go:281-293 | appended after a newline the assignments are read back and every existing line is kept |
| Netdev.BuildNetdev | internal/netx/netx.go:157-175 | succeeds exactly for a matching id and valid forwards; otherwise the error is the id's or the first bad forward's with its index and cause |
| Netdev.Clauses | internal/netx/netx.go:167-173 | the loop over the forwards |
| Netdev.ForwardExactly | internal/netx/netx.go:103-140 | a forward is accepted exactly if its trimmed, lower-cased protocol is empty, tcp or udp and both ports are in 1..65535, and counts as udp only for udp |
| Netdev.RejectionExactly | internal/netx/netx.go:126-138 | the protocol is checked first, then the host port, then the guest port |
| Netdev.ProtoAccepted | internal/netx/netx.go:105-115 | the protocol is known in any case, with spaces around it, or blank, and otherwise rejected |
| Netdev.CapitalsAccepted | internal/netx/netx.go:105-115 | `TCP` and ` Udp ` are accepted |
| Netdev.IdMatchesExactly | internal/netx/netx.go:26 | an id is one or more ASCII letters, digits, underscores and hyphens |
| Netdev.ClauseExactly | internal/netx/netx.go:143-149 | the literal text of a clause |
| Netdev.ReadClauseBack | internal/netx/netx.go:140-149 | a clause reads back to protocol, loopback address and both ports |
| Netdev.NetdevRoundTrip | internal/netx/netx.go:151-175 | splitting a built value gives exactly 2 + the number of forwards parts, which read back to the id and, in order, each forward's ports on 127.0.0.1 with udp if its trimmed, lower-cased protocol is udp and else tcp |
| Netdev.NetdevInjective | internal/netx/netx.go:151-175 | equal values come from equal ids and equal forwards up to protocol normalization |

## Left out

- Directories, symlinks, file modes, file/directory clashes and case-insensitive host paths: each side is a flat map from path to file.
- Partially written files: a transfer or backup that fails has no effect on its target; the code promises nothing for a copy that breaks off.
- Edits during a run: users edit between runs only, so a source cannot vanish between the scan and its action.
- The JSON text of the manifest: saving and loading is the identity on its entries, and a file that does not parse is Corrupt.
- Planner.SortByPath: stands for the library's sort.Slice; it works on a sequence, not in place, which no caller can observe.
- Planner.Plan: its two loops are two methods here, with the `seen` set passed from one to the other.
- SFTP sessions and the wording of most error messages: a failed run is told apart by where it stops.
- NoProxy.DefaultNoProxy: its two loops are two calls of AddEach; text is a sequence of characters, so invalid UTF-8 is not modelled; strings.ToLower beyond ASCII is an arbitrary parameter.
- CloudInit.SystemdQuote: works on characters where the code works on bytes; no byte of a multi-byte character is a quote or a backslash.
- GuestReaders.ReadEscaped: the reader knows the one-letter escapes of systemd.syntax(7), not numeric ones.
- SpecifierReader.DropInLoadsExactly: of the specifiers only `%%` is fixed; the others, and a `%` at the end of a word, stand for arbitrary text.
- GuestReaders.RenderingsAgree: reads all three files as text; ShellReader.ProfileScriptSetsExactly is the statement about a shell, SpecifierReader.ConfigurationLoadsExactly the one about systemd. Comments and quotes that pam_env may recognise in /etc/environment are not modelled: its manual does not say how they are parsed inside a value.
- Merge.KeptIsCloseExactly: for tolerances up to a third of the int64 range, some 10^11 years; above that, twice the tolerance no longer tells the cases apart.
- ShellReader.ScriptSetsExactly: expansions are not computed, a value with `$`, a backquote or a leading tilde counts as not literal; pathname patterns, which assignments do not expand, are literal.
- Sync.Workspace.LoadManifest: a manifest that exists and cannot be read is the SetupFailed case of Fault, where the run ends with an error.
- YAML rendering, apt and CA certificate settings, proxy detection and endpoint rewriting, ISO writing, image download: they rest on libraries or the operating system.
- Free-port search, QEMU arguments, hostname and write-file validation, configuration merging: single functions settled by reading them.
- VM lifecycle, locking and state files.
