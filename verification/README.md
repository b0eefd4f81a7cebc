# Guarded containers, proved

dsh-podman gives a coding harness its containers: a plugin reads and writes files
inside them, runs commands, keeps a settings card, caches the way to each container,
loads container templates, and publishes ports through a gateway. This project models
the parts of it whose correctness is about every input, every run or every
interleaving, and proves what they promise.

`dafny verify dfyconfig.toml` checks everything.

## What is modelled

**Guarded files** (`TargetLock.dfy`, `GuardedFiles.dfy`, `TextEdit.dfy`,
`LineEndings.dfy`, `Text.dfy`, `StreamLines.dfy`, `GuestRead.dfy`, `RemovedFiles.dfy`,
`RemoveHits.dfy`, `RemoveRuns.dfy`). The lock is a step system of calls, gates and a
map, one step per stretch of code between two awaits. On top of it the critical
sections of a write and an edit are taken one await at a time, with any guest failure
at any request, and every interleaving is shown to equal running the calls alone, in
arrival order; lost updates are excluded from there. Removes, which take no lock, come
on top: a run with removes is given an order of turns, and is serial if and only if no
remove hits a call half way. A file is its text and the number of writes it has taken,
which stands for the opaque version. Strings are sequences of UTF-16 code units.

**Output window** (`OutputReader.dfy`). The reader is a class over a list of chunks
with a dead prefix; its ghost stream ties every append, trim and splice to the end of
the stream, and counts what splicing costs.

**Container editor** (`ContainerConfig.dfy`, `ApplyConfig.dfy`). A container is
followed one item at a time (a mount, a secret variable, a port, the paths, the image,
the environment) through the ordered commands. A refused command changes nothing. What
an accepted one does is an assumption about the host and the orchestrator: it does
what it names, and a recreate without image or environment keeps the old one, as the
card route leaves both out (src/card-route.ts:598-603).

**Settings card** (`CommandKeys.dfy`, `CardController.dfy`). A run is any sequence of
begins and ends of commands and reloads, with the toasts, the locale, the picker and
the settings changing in between.

**Binding cache** (`BindingCache.dfy`). Promises are numbered and carry the time they
were issued at. A run is any sequence of resolves, settlements, refreshes, readiness
failures, control calls and forgets.

**Templates and images** (`TemplateFormat.dfy`, `MountOrder.dfy`, `Templates.dfy`,
`TemplateMeaning.dfy`, `TemplateErrors.dfy`, `ForcedMount.dfy`, `ImageRecipes.dfy`). A
document is a tree of mappings, lists and scalars. Validation is modelled branch by
branch, with the place of the first broken rule. It is proved to accept exactly the
documents the format describes (docs/usage.md:728-747), stated apart from it, and to
blame only places that break a rule. The renderer is modelled on the tree it writes.
The image store is an assumption about the orchestrator: it does what it is asked
unless its engine is down, its mode forbids it or an image is in use.

**Smaller machines.** The gateway's leases and listeners (`Gateway.dfy`), path
confinement, round trips and the file key (`ProjectPath.dfy`, `FsKey.dfy`), one
attempt of a command and its escalation (`ExecAttempt.dfy`), the uid pool
(`UidPool.dfy`) and the per-session directory name (`SessionSegment.dfy`).
`Library.dfy` holds splitting, joining, replacing, filtering, sorting, path segments
and document trees.

Code that changes state in place is a class whose methods are tied to the
specification functions, and loops are methods with invariants; the laws are lemmas
about those functions.

## Where the code and its comments or its callers' expectations part

The model follows the code. Each point has a concrete input or run, and beside it the
exact condition where one is proved.

- `normalizeLineEndings` is not idempotent: CR CR LF keeps a CR LF
  (`LineEndings.CrCrLfIsNotKept`; exactly then, `LineEndings.NormalizeTwice`).
- A single edit is called ambiguous by matches that fit side by side, so an
  overlapping second occurrence is not noticed (`TextEdit.OverlapIsNotAmbiguous`;
  `TextEdit.AcceptedIff`).
- `remove` takes no lock, and a remove that hits a write half way gives a run no
  serial order gives (`RemoveRuns.RemoveIsNotSerialised`; exactly then,
  `RemoveHits.SerialIffNoHit`).
- An edit that removes the last variable keeps it, although the apply counts on the
  recreate (`ApplyConfig.EmptiedEnvStays`), and a secret variable named like a member
  of every object is never detached, because the difference asks with the `in`
  operator (`ApplyConfig.DetachedToStringStays`; the exact edits that take are in
  `ApplyConfig.AppliesExactly`, whose third case, an emptied image, the image row does
  not offer).
- A template with no plain variable and a secret one named like a member of every
  object is accepted as an object but its rendering is refused
  (`Templates.InheritedNameIsRefused`; exactly then, `Templates.RenderingReadsBack`).
- A refresh of a named container stores its promise without the cleanup a creation
  has, so a failed one stays cached (`BindingCache.RefreshPoisons`; exactly what a
  settlement evicts is in `BindingCache.SettleEvictsOnlyItself`).
- A comment on the control methods says a successful call invalidates the cached
  binding of the container; the cache of default containers is not touched
  (`BindingCache.DefaultOutlivesRemoval`; exactly which entries go stale,
  `BindingCache.DefaultsAreNotInvalidated`).
- A snapshot fetched by a superseded command is dropped for good even when the newest
  operation failed (`CardController.LateAnswerIsDropped`; exactly which are applied,
  `CardController.AppliedIffNothingBegan`).
- A command that was accepted answers false when the fetch after it fails
  (`ApplyConfig.AppliedAnswersFalse`; exactly then, `CardController.AnswersFalseIff`).
- `projectNameFromHostPath` maps a path that climbs back out of the root instead of
  refusing it (`ProjectPath.ClimbingPathIsMapped`; which paths are found again,
  `ProjectPath.HostPathRoundTripsIff`).
- The session directory name is not collision-free on ill-formed strings
  (`SessionSegment.LoneSurrogatesCollide`; exactly which ids share one,
  `SessionSegment.SegmentIdentifies`).

## Model

| member | source | states |
|---|---|---|
| TargetLock.LockIsCorrect | src/fs-provider.ts:101-123 | In every run of any number of calls: at most one call per key is past its await and unfinished, calls on a key get there in arrival order whatever their outcome, and the map has a key exactly while a call on it is unfinished |
| TargetLock.MutualExclusion | src/fs-provider.ts:113-122 | Two calls on one key are never both between acquire and release |
| TargetLock.ArrivalOrder | src/fs-provider.ts:107-118 | A call past its await has every earlier call on its key finished |
| TargetLock.MapIsExact | src/fs-provider.ts:115-121 | A key is in the map if and only if some call on it is unfinished |
| TargetLock.KeyMoves | src/fs-provider.ts:112-122 | No deadlock: a key with an unfinished call always has an event of its own that can happen, so no call waits on another key |
| TargetLock.RunsDrain | src/fs-provider.ts:112-122 | Once no call arrives any more a run is bounded, and where it can go no further every call has finished and the map is empty |
| TargetLock.TargetLocks.Enter | src/fs-provider.ts:107-115 | The map update at entry leaves the state the step system prescribes |
| TargetLock.TargetLocks.Release | src/fs-provider.ts:119-122 | The finally block drops the entry only if it is still the call's own |
| GuardedFiles.RunsAreSerial | src/fs-provider.ts:263-331 | Every interleaving of writes and edits on any number of files equals running them one at a time in arrival order: same answers, same contents |
| GuardedFiles.RunsFinish | src/fs-provider.ts:101-123 | However many calls have arrived and however far they are: without more of them a run is bounded, and where it can go no further every call has its answer and the map is empty |
| GuardedFiles.WriteAlone | src/fs-provider.ts:263-331 | Which writes are refused and with which code, that a refusal changes nothing, and what an accepted write stores and returns |
| GuardedFiles.EditAlone | src/fs-provider.ts:388-468 | The same of an edit: guard, missing file, no match, ambiguous match, and the stored text of an accepted edit |
| GuardedFiles.FaultsAre | src/fs-provider.ts:263-468 | Whichever request the guest fails: the call is an I/O error, and only a failed write leaves what it left and a failed final stat the whole write; a call refused before that is refused as ever |
| GuardedFiles.OneMutation | src/fs-provider.ts:274-330 | However the guest answers: at most one write per call, over the version observed or over nothing |
| GuardedFiles.NoLostUpdate | src/fs-guard.ts:14-21 | Two calls that observed the same version, of a file still there or gone since, never both write over it, and at most one createIfAbsent of a file ever writes |
| GuardedFiles.NoLostUpdateInRuns | src/fs-provider.ts:274-330 | Over every interleaving: of the calls that observed one version, at most one reports success |
| GuardedFiles.OneCreatorInRuns | src/fs-provider.ts:297-302 | Over every interleaving: of the createIfAbsent calls of a file, at most one reports success |
| RemovedFiles.RunsWithRemovesAreSerial | src/fs-provider.ts:263-468 | With removes in the run and none hitting a call half way: the run equals its calls and removes one at a time in the order they took their turns, in answers, in what each remove finds and in files, at every point of the run |
| RemoveHits.SerialIffNoHit | src/fs-provider.ts:381-387 | Some order of the calls and removes, one at a time, gives the answers and files of a finished run if and only if no remove hit a present file whose lock was held by a call past its stat and not yet at its final stat; for every run in which the guest answers each request and each remove tells what it found |
| RemoveRuns.RemoveIsNotSerialised | src/fs-provider.ts:381-387 | A run from the start, of one write and one remove: the write reports an update and its file is there, the write first would leave nothing, the remove first would make it a creation, and no order gives the run |
| RemoveRuns.RecursiveRemoveHidesHit | src/fs-provider.ts:381-387 | A run with a hit that is serial all the same, because a later recursive remove does not tell what it found |
| RemoveRuns.FailedWriteHidesHit | src/fs-provider.ts:316-322 | A run with a hit that is serial all the same, because the guest failed the write |
| GuardedFiles.FilesystemProvider.OnWrite | src/fs-provider.ts:316-322 | The write of a call changes its own file as its section says, and nothing else |
| LineEndings.NormalizeTwice | src/guest-rpc.ts:99-101 | Normalising twice equals normalising once if and only if the text has no CR CR LF |
| LineEndings.NormalizeUndoesExpand | src/guest-rpc.ts:99-117 | Writing a text with CRLF and normalising gives the text back |
| LineEndings.ExpandUndoesNormalize | src/guest-rpc.ts:99-117 | Normalising and writing with CRLF gives the text back if and only if every LF follows a CR |
| LineEndings.DetectsMajority | src/guest-rpc.ts:103-108 | The style is CRLF if and only if, among the first 4096 units, more LFs directly follow a CR than do not, counted by position |
| LineEndings.RewriteIsIdentityIff | src/guest-rpc.ts:99-117 | Normalising and restoring in the detected style keeps a file byte for byte exactly when: with mostly CRLF lines in its head, every LF follows a CR and none CR CR; otherwise there is no CR LF |
| LineEndings.PureFilesAreKept | src/guest-rpc.ts:103-117 | A file without CR LF is rewritten unchanged, and so is one whose every LF follows a CR, with a line break among its first 4096 units and no CR CR LF |
| LineEndings.CrCrLfIsNotKept | src/guest-rpc.ts:99-117 | A concrete CR CR LF file loses a CR on rewriting |
| TextEdit.AcceptedEdit | src/fs-provider.ts:425-468 | What an accepted edit leaves: the replacement in the LF form, its length that of the original plus occurrences times the difference; written with a CR before every LF if most line breaks of the first 4096 units are CR LF, and otherwise as the replacement left it |
| TextEdit.AcceptedIff | src/fs-provider.ts:431-452 | An edit is refused as not found exactly without a match, and as ambiguous exactly without replace-all and with two matches that do not overlap |
| TextEdit.SplitFindsMost | src/fs-provider.ts:440-452 | The occurrences counted are the largest number of matches that fit side by side |
| TextEdit.SelfEditIsIdentityIff | src/fs-provider.ts:425-460 | Replacing a text by itself keeps the file byte for byte exactly when the style of most line breaks in its head is that of every line |
| TextEdit.OverlapIsNotAmbiguous | src/fs-provider.ts:447-452 | In aaa the pattern aa occurs twice and is still accepted as a single match |
| StreamLines.StreamLines | src/guest-rpc.ts:627-663 | For every text and every cutting into chunks the result is what sliceLines gives, and a chunk is pulled only while those before it hold fewer than n - 1 + k line breaks, for a read of k lines from line n |
| StreamLines.TakeLines | src/guest-rpc.ts:646-657 | The inner loop ends exactly the lines the carried text holds, up to the window's end |
| StreamLines.ReadIsLines | src/guest-rpc.ts:608-621 | A read of k lines from line n, counted from 1, is exactly lines n to n + k - 1 of the text as far as it has them, and nothing beyond its last; an offset that is no positive integer counts as 1 and a limit that is none as 2000 |
| StreamLines.WindowOfWholeText | src/guest-rpc.ts:608-621 | A window of more lines than the text has line breaks is the text |
| StreamLines.WindowsTile | src/guest-rpc.ts:608-621 | Reading j lines from line n, then k from line n + j, is reading j + k lines at once |
| GuestRead.GuestChunks | src/guest-rpc.ts:179-236 | What is handed on is the beginning of one call's chunks, all of them if it finished: a retry neither repeats nor skips; at most two calls, every unfinished one cancelled |
| OutputReader.Reader.Append | src/output-reader.ts:52-75 | The window is the last min(total, cap) bytes of the stream; elements moved by compaction never exceed chunks appended, dead slots stay at most 32 or below the live count |
| OutputReader.Reader.ReadFrom | src/output-reader.ts:76-97 | A read gives what is left of the stream after the offset, or its last maxBytes bytes if more is left, and is lossy exactly then; an offset that is negative or not finite counts as 0; the next offset is the end; the spill file is advertised only while it can be whole |
| OutputReader.ChainedReadsRebuild | src/output-reader.ts:76-90 | However appends and reads interleave, reads that each start where the last ended and lose nothing rebuild the stream, all of it after a last read; nothing is lost while at most maxBytes bytes come after the start |
| OutputReader.Reader.SpillNeeded | src/output-reader.ts:104-106 | True if and only if the window no longer holds the whole stream |
| ContainerConfig.RecordsEqualIff | src/client/container-card-config.ts:55-62 | Two records compare equal if and only if they hold the same variables |
| ContainerConfig.InIs | src/client/container-card-config.ts:229-244 | The in operator finds the entries and the twelve members of every object, written out by name |
| ContainerConfig.KeyIdentifies | src/client/container-card-config.ts:64-75 | The mount key identifies kind, source and destination of every mount the card can hold: a project mount has no destination of its own, and volume and secret names no separator |
| ApplyConfig.ReceivedAreEdits | src/client/container-card-config.ts:64-75 | Any two configurations of such mounts, none twice, meet the hypothesis of the results below: a key names one mount in both |
| ContainerConfig.DiffMounts | src/client/container-card-config.ts:198-221 | The loop with its used marks computes the pairing of each staged mount with the first live one left under its key |
| ContainerConfig.DiffCountsExcess | src/client/container-card-config.ts:198-221 | For all lists, duplicates included, the difference removes and adds under each key exactly the excess of one list over the other |
| ContainerConfig.DiffIsByKey | src/client/container-card-config.ts:196-221 | With distinct keys: added are the keys new in next, removed those gone, updated those whose mode changed, and nothing else |
| ApplyConfig.DiffEnv | src/client/container-card-config.ts:229-244 | The two passes give the added, changed and removed variables, as the in operator sees them |
| ApplyConfig.AppliesExactly | src/client/container-card-controller.ts:723-809 | If every command is accepted, the container ends as next if and only if the edit empties neither image nor environment and detaches no variable named like a member of every object |
| ApplyConfig.SentIff | src/client/container-card-controller.ts:735-807 | Each command is sent if and only if the edit asks for it, item by item: which mounts are removed, updated and added, variables detached and attached, ports closed and published with the host port suggested for them, paths set, and the recreate |
| ApplyConfig.CommandsAreStaged | src/client/container-card-controller.ts:735-807 | Mounts are removed, updated, added, variables detached, then attached, then paths, ports closed, then published, and the recreate is last |
| ApplyConfig.EmptiedEnvStays | src/card-route.ts:598-603 | Removing the last variable sends a recreate, and the container keeps the variable |
| ApplyConfig.DetachedToStringStays | src/client/container-card-config.ts:229-244 | Detaching a variable named toString shows as a change, sends nothing and stays attached |
| ApplyConfig.ItemEnds | src/client/container-card-controller.ts:735-807 | What each mount, secret variable, path list, port, image and environment ends as, for every edit |
| ApplyConfig.RefusalsStayLocal | src/client/container-card-controller.ts:717-734 | An item whose own commands were accepted ends as if all commands had been |
| ApplyConfig.NeverAThirdValue | src/client/container-card-controller.ts:752-773 | At every point of every run, whatever was refused, an item holds its value in base, its value in next, or nothing |
| ApplyConfig.SilentExactly | src/client/container-card-controller.ts:723-809 | No command is sent if and only if both configurations stand for the same container, but for variables a detach would not see: reordering sends nothing |
| ApplyConfig.EqualSendsNothing | src/client/container-card-config.ts:108-116 | Equal configurations send no command |
| ApplyConfig.NothingChangedIff | src/client/container-card-config.ts:142-155 | The change list is empty if and only if the configurations compare equal |
| ApplyConfig.GroupIsListedIff | src/client/container-card-config.ts:142-154 | A group is in the change list if and only if its part differs |
| ApplyConfig.UnannouncedRunsInPlace | src/client/container-card-config.ts:156-177 | When no rebuild is announced, only path and port commands are sent |
| ApplyConfig.ApplyChanges | src/client/container-card-controller.ts:723-809 | The loops send exactly the command list, in order and whatever the answers, and report whether all were accepted |
| ApplyConfig.AppliedMeansDone | src/client/container-card-controller.ts:636-667 | If the apply reports success, every command took effect and the container is the edited one |
| ApplyConfig.AppliedAnswersFalse | src/client/container-card-controller.ts:643-662 | The other way round it need not: a command that took effect and whose snapshot was lost makes the apply report failure |
| CommandKeys.KeyIdentifies | src/client/container-card-controller.ts:354-407 | Two commands share a key if and only if they do the same operation on the same target, as long as no workspace holds a colon |
| CommandKeys.HalvesAgree | src/client/card-protocol.ts:87-101 | The operations a container row looks up are exactly those the controller keys by their container |
| CommandKeys.KeyIs | src/client/container-card-controller.ts:354-407 | The key of every operation, written out by name |
| CommandKeys.ColonCollides | src/client/card-protocol.ts:62-77 | Why workspaces must hold no colon, as slugs do not: with one, two targets would share a key |
| CardController.PendingIsInFlight | src/client/container-card-controller.ts:510-539 | In every interleaving: pending is the number of operations in flight, the key counts are exact with no zero entry, pendingActions is the sorted list of keys, and the published state is the projection of the fields |
| CardController.ContainerLookupIsExact | src/client/card-protocol.ts:87-111 | A container row finds a command in flight if and only if one on that container is |
| CardController.AppliedInOrder | src/client/container-card-controller.ts:636-654 | Applied snapshots were asked for in strictly increasing order, and the last applied is the one shown |
| CardController.NewestWins | src/client/container-card-controller.ts:649-653 | Once the newest operation has fetched its snapshot, that one is shown, whatever older ones answered and when |
| CardController.SupersededOnlySettles | src/client/container-card-controller.ts:649-667 | An answer to a superseded operation changes neither snapshot nor toast nor notice |
| CardController.ShownAfterAnswer | src/client/container-card-controller.ts:643-699 | What the card shows after any answer, whole: the newest operation sets snapshot and toast, a newest reload also notice and readiness, an older one only that the orchestrator is ready |
| CardController.ShownAtStart | src/client/container-card-controller.ts:424-455 | The card starts empty and busy, with the orchestrator unknown |
| CardController.ShownAfterBegin | src/client/container-card-controller.ts:636-642 | A begin shows only the busy state and, of a command, its key |
| CardController.ShownAfterOther | src/client/container-card-controller.ts:489-516 | A dismissal, a locale, a picker, a settings change and a published template show just what they set |
| CardController.AppliedIsNewest | src/client/container-card-controller.ts:649-653 | A snapshot that is applied belongs to the newest operation begun, newer than everything applied before |
| CardController.AppliedIffNothingBegan | src/client/container-card-controller.ts:636-653 | Over any run: a fetched snapshot is applied if and only if no operation began between the begin and the end of its own |
| CardController.LastFetchedIsShownIff | src/client/container-card-controller.ts:649-684 | Over any run: the last snapshot fetched is the last applied, and shown, if and only if no operation began while its own was under way |
| CardController.BeganBefore | src/client/container-card-controller.ts:638-640 | Every operation in flight began at some step of the run, or with the constructor |
| CardController.AnswersFalseIff | src/client/container-card-controller.ts:643-662 | A dispatch answers false though its command was accepted if and only if the fetch after it failed, and then as a refusal would |
| CardController.SettledIsIdle | src/client/container-card-controller.ts:663-667 | When everything has ended there is no busy state, no key and no count left |
| CardController.LateAnswerIsDropped | src/client/container-card-controller.ts:649-662 | A reachable state in which everything has ended and the only snapshot fetched was dropped, because another operation began meanwhile and failed |
| CardController.CardController.StartDispatch | src/client/container-card-controller.ts:636-642 | The synchronous start of a dispatch keeps the invariant and publishes |
| CardController.CardController.FinishDispatch | src/client/container-card-controller.ts:643-668 | Its end, by outcome and generation; accepted exactly when command and fetch were answered |
| CardController.CardController.FinishReload | src/client/container-card-controller.ts:674-699 | The end of a reload, by outcome and generation |
| BindingCache.ServedIsFresh | src/workspace-binding.ts:250-284 | In every interleaving of resolves, refreshes, failures and control calls, the promise a resolve hands out was issued after every successful call that changed that container: one of the eight container methods naming it, the removal of its workspace, or of the shared one |
| BindingCache.DropsWhatItMutates | src/workspace-binding.ts:474-502 | A successful call drops the key of a container if and only if it is one of the eight container methods, written out by name, naming it, or the removal of its workspace; slugs are UUIDs, so no call on a workspace drops the shared binding |
| BindingCache.DropsStale | src/workspace-binding.ts:45-55 | For any fields: each of the eight container methods drops the key of the slug and container it names, removeWorkspace every key of its slug, a removal of ptc without a slug the shared key, and no other call anything |
| BindingCache.CachedIsNewest | src/workspace-binding.ts:250-284 | What is cached under a key is the newest promise made for it |
| BindingCache.SettleEvictsOnlyItself | src/workspace-binding.ts:258-265 | A promise that settles evicts at most itself, and only as a failed creation |
| BindingCache.ResolvesShareOne | src/workspace-binding.ts:250-268 | Until a key is dropped or refreshed every resolve gets the promise already there and asks for nothing |
| BindingCache.ResolveMakes | src/workspace-binding.ts:250-268 | A resolve asks the orchestrator only when nothing is cached, and then caches the promise it hands out, as a creation |
| BindingCache.RenewedIsNew | src/workspace-binding.ts:250-330 | A refresh caches the promise it issues; every other event that renews a key drops it, and the next resolve asks again |
| BindingCache.DefaultChangesOnly | src/workspace-binding.ts:369-440 | The promise of a default container goes only when it is disposed of, unready or fails, and is replaced only by its refresh |
| BindingCache.OnlyRefreshesPoison | src/workspace-binding.ts:276-284 | A rejected promise in the container cache is always a refresh; the default cache never holds one |
| BindingCache.RefreshPoisons | src/workspace-binding.ts:278-282 | A concrete run after which every resolve hands out a rejected refresh |
| BindingCache.ForgetIsExact | src/workspace-binding.ts:99-106 | Forgetting a workspace drops exactly its keys and keeps every other promise |
| BindingCache.SharedBindingStays | src/workspace-binding.ts:63-66 | Forgetting a workspace, whose slug is a UUID, keeps the shared binding |
| BindingCache.DefaultsAreNotInvalidated | src/workspace-binding.ts:369-385 | The cache of default containers is untouched by control calls: exactly which of its entries a call leaves stale |
| BindingCache.DefaultOutlivesRemoval | src/workspace-binding.ts:369-385 | A run in which a workspace is removed and its default container's binding from before is still handed out |
| BindingCache.WorkspaceResolver.InvalidateAfter | src/workspace-binding.ts:474-502 | The branches drop exactly the keys the call made stale, by the written-out names, and keep every other promise |
| BindingCache.WorkspaceResolver.DropPrefix | src/workspace-binding.ts:101-106 | The loop over the keys drops those with the prefix and no other |
| TemplateFormat.CollectPackages | src/container-template.ts:227-243 | The loop over the set computes the canonical list, or refuses at the first invalid name |
| TemplateFormat.BuiltInIff | src/container-template.ts:42-104 | The packages each base brings, package by package |
| TemplateFormat.ExtraIs | src/container-template.ts:227-243 | The canonical list is strictly sorted and holds exactly the named packages the base does not have |
| TemplateFormat.PackagesCompare | src/container-template.ts:224-243 | Two lists come out the same if and only if they name the same packages beyond the base's own |
| TemplateFormat.CleanAbsoluteIff | src/container-template.ts:252-264 | A path is accepted, unchanged, if and only if it is plain segments, at least one, each after one slash, without a line break |
| TemplateFormat.ProjectPathStays | src/container-template.ts:269-283 | The normal form of a project path is its own normal form |
| TemplateFormat.CleanAbsolute | src/container-template.ts:252-264 | The loop agrees with the specification |
| TemplateFormat.NormalizeProjectPath | src/container-template.ts:269-283 | The loop agrees with the specification |
| Templates.ReadStringMap | src/container-template.ts:352-368 | The loop reads a map as the specification does, with the place of the first broken rule |
| TemplateMeaning.ReadsAsDescribed | src/container-template.ts:285-748 | Validation accepts exactly the documents the format describes, stated without the parser: keys, version, kind, one image form, names, modes, paths, ports and clashes; it reads each as described, with the defaults read_only and empty groups, identity variables and built-in packages dropped |
| TemplateErrors.RefusalIsBroken | src/container-template.ts:285-748 | The place a refusal names breaks a rule: a key not allowed there, or a missing or wrong value, of the document, the spec, the image, a variable, a mount, a path or a port |
| TemplateMeaning.MountIff | src/container-template.ts:370-469 | A mount is read exactly if it has the keys of its kind and no other, a project, volume or secret that is named well, a clean destination and a known mode, which is read_only when left out |
| TemplateMeaning.ImageIff | src/container-template.ts:626-670 | An image is read exactly if one of the two forms is given: a base, or a base with packages, of which those the base lacks are kept, sorted and once, and none of them means the base |
| Templates.ValidatedIsCanonical | src/container-template.ts:585-718 | Whatever document is accepted comes out canonical |
| Templates.ValidationIsFixpoint | src/container-template.ts:585-718 | Validating the template validation returned returns it unchanged |
| Templates.DocumentReadsBack | src/container-template.ts:585-718 | Every canonical template, written as a document with or without its empty groups, is read back, but for one case that is refused |
| Templates.RenderingReadsBack | src/container-template.ts:1220-1263 | A rendered template is read back with its variables sorted and its mounts in list order, if and only if it has a plain variable or no secret one named like a member of every object |
| Templates.InheritedNameIsRefused | src/container-template.ts:690-699 | A canonical template whose rendering is refused |
| Templates.RenderingIsIdempotent | src/container-template.ts:1220-1263 | Rendering what was read back gives the same document |
| Templates.RenderingIsCanonical | src/container-template.ts:1238-1254 | Two templates render alike if and only if they are the same up to the order of variables and of mounts of different rank |
| Templates.RenderedIs | src/container-template.ts:1220-1263 | The document written: version, kind, and the image, env, secretEnv, mounts, paths and ports of the arranged template in this order, each group without an entry left out |
| Templates.MountTreeIs | src/container-template.ts:1335-1355 | Each mount is written with the fields of its kind, in order, and its mode |
| Templates.PortTreeIs | src/container-template.ts:1357-1363 | A port is written with its container port, its host port if it has one, and tcp |
| ForcedMount.ForcedMountIsFirst | src/container-template.ts:1455-1475 | The workspace's project is mounted first and once, in the mode of its first declaration or else read-write, the rest follows unchanged, and forcing again changes nothing |
| ForcedMount.ModeIsNormal | src/mount-enums.ts:145-192 | A normalized mode is read_only or read_write and its own normal form, in whatever spelling it came |
| ForcedMount.ReadOnlyIff | src/mount-enums.ts:145-192 | A mode is read_only if and only if it is spelled so, in any case and with or without the prefix of the enum, or is no spelling of read_write and counts as 1 |
| MountOrder.OrderedIsStable | src/container-template.ts:1270-1284 | The ordered mounts are the same mounts, by rank, with each rank in its old order |
| MountOrder.OneStableOrder | src/container-template.ts:1270-1284 | Only one list has those properties |
| MountOrder.OrderedByKind | src/container-template.ts:1270-1284 | First the workspace's own project, then the other projects, volumes, secrets and temporary file systems, each kind in the order given |
| MountOrder.OrderedIsIdempotent | src/container-template.ts:1270-1284 | Ordering twice is ordering once |
| ImageRecipes.ExportsIff | src/container-template.ts:769-817 | An image exports if and only if its parents lead through listed rows to a base and every package on the way is valid, on every list, cyclic ones included |
| ImageRecipes.ExportIs | src/container-template.ts:769-817 | The export is that base with the sorted, duplicate-free union of the chain's packages minus its built-ins |
| ImageRecipes.ExportFailsIff | src/container-template.ts:785-817 | An export fails as cyclic, not listed, without parent or with a bad package if and only if that is where the parents lead from the image |
| ImageRecipes.ChainIsAcyclic | src/container-template.ts:785-793 | A chain that reaches a base repeats no image, so no such chain is refused as cyclic |
| ImageRecipes.ExportIgnoresOrder | src/container-template.ts:780-812 | With unique ids the order of the list does not matter |
| ImageRecipes.TemplateExportImage | src/container-template.ts:769-817 | The loop terminates and agrees with the specification |
| ImageRecipes.PlanIsReadyIff | src/container-template.ts:825-920 | A plan builds nothing if and only if a row of the image is built or pulled and, for a recipe, has its parent and the same packages, each as often; which of missing, other parent and other packages it reports, and its flags |
| ImageRecipes.ReadyExportsAsPlanned | src/container-template.ts:769-920 | An image that is there as the template needs it exports as exactly the template's image |
| ImageRecipes.EnsureSends | src/template-image.ts:77-118 | The calls, whole: the list unless given, the removal of a superseded image, and the pull, rebuild or build its mode asks for if and only if forced or the image is not available; and every field of the result |
| ImageRecipes.EnsureLeavesReady | src/template-image.ts:47-118 | After a successful call, with the list asked for or the one of the moment given, the store has a row of the image the result names that is built or pulled and, for a recipe, has its parent and package multiset |
| ImageRecipes.ReadyAfterIff | src/template-image.ts:47-118 | With any list the caller gives, even one out of date: after a success the store has the image as the template needs it if and only if this call built it or it had it before |
| ImageRecipes.EnsureSettles | src/template-image.ts:47-118 | A second unforced call sends no build, pull or rebuild, and exporting the image gives the template's own |
| ImageRecipes.EnsureSucceedsIff | src/template-image.ts:85-118 | The call succeeds if and only if the engine is up, or it is not forced and the store has the image as the template needs it |
| ImageRecipes.SupersededIsRemovedIff | src/template-image.ts:80-84 | The superseded image goes if and only if nothing uses it and it can be removed, and no other row changes |
| ImageRecipes.Resolver.EnsureTemplateImage | src/template-image.ts:47-118 | The sequence of control calls, the store after it and the result are those of the specification |
| Gateway.NothingLeaks | internal/gateway/gateway.go:123-217 | Over any run: no binding without a lease, open listeners are exactly those in the map, every listener opened is open or was closed, once |
| Gateway.DistinctPorts | internal/gateway/gateway.go:123-152 | Distinct keys hold distinct ports, given that the system never hands out a port in use |
| Gateway.BindIsIdempotent | internal/gateway/gateway.go:120-135 | Until it is unbound or the last lease ends, every bind of a key answers with the first address and port and changes nothing |
| Gateway.SuggestionIsHonoured | internal/gateway/gateway.go:136-152 | A suggested port is the one bound, and in range |
| Gateway.ValidatesIff | internal/gateway/gateway.go:231-250 | Accepted exactly: a container name of the plugin, a socket of a letter and one to five digits, TCP, no suggested port or one from 1024 to 65535, and a socket path of at most 107 bytes; anything else is an invalid argument |
| Gateway.BoundIff | internal/gateway/gateway.go:123-152 | A bind answers with an address if and only if the request is acceptable, a lease is held and the socket is published or a listener got a port, and that is then published; otherwise nothing published changes and the code tells why |
| Gateway.OnlyLoopback | internal/gateway/gateway.go:136-152 | Over any run every socket is published on the loopback address |
| Gateway.UnbindIs | internal/gateway/gateway.go:154-160 | An unbind takes just its key away and closes its listener |
| Gateway.LeasesAreCounted | internal/gateway/gateway.go:176-207 | Over any run the leases held are those begun and not ended |
| Gateway.TargetStaysInside | internal/gateway/gateway.go:231-250 | Accepted names are single plain segments below the socket root |
| Gateway.Server.BindPort | internal/gateway/gateway.go:123-152 | The branches of Bind leave the state and give the response of the specification |
| Gateway.Server.EndLease | internal/gateway/gateway.go:196-207 | The loop over the map ends the last lease with every key unbound once |
| Gateway.Server.List | internal/gateway/gateway.go:162-170 | Lists every published socket and nothing else |
| FsKey.NormalizeFsKey | src/fs-key.ts:11-25 | The loop agrees with the specification |
| FsKey.KeyIdentifies | src/fs-key.ts:5-25 | Two spellings share a key if and only if they agree in absoluteness and in resolved segments |
| FsKey.SegmentsStep | src/fs-key.ts:11-25 | Segment by segment: an empty one or a dot leads nowhere, two dots a level up and at the start nowhere, any other down |
| FsKey.KeyIs | src/fs-key.ts:11-25 | The key is the resolved segments after one slash or none, and a dot for a relative path that leads nowhere |
| FsKey.KeyIsIdempotent | src/fs-key.ts:11-25 | A key is its own key |
| FsKey.PrefixFirst | src/fs-key.ts:11-25 | Normalising a prefix first does not change the result, if and only if the prefix is not empty |
| ProjectPath.TypedIsAcceptedIff | src/project-path.ts:50-64 | A typed path is accepted if and only if it is relative, stays strictly inside the root and exists, and is stored in normal form |
| PathSegments.ResolveStep | src/project-path.ts:87-99 | Segment by segment: an empty one or a dot leads nowhere, two dots a level up and at the start out of the root, any other down |
| ProjectPath.BlankIff | src/project-path.ts:57 | What trim removes: the white space and line terminators of ECMAScript |
| ProjectPath.DecisionIs | src/project-path.ts:50-64 | Which reason each refused path has, in their order, and that a browsed one is taken as it is |
| ProjectPath.ProjectNameIff | src/project-path.ts:10-19 | A directory has a project name if and only if it lies below the root, and the name is what follows the root |
| ProjectPath.HostPathIs | src/project-path.ts:70-78 | A project is at the root or at its normal form below it |
| ProjectPath.TypedRoundTrips | src/project-path.ts:10-78 | projectNameFromHostPath undoes hostPathForProjectName for every accepted typed path if and only if there is a root |
| ProjectPath.HostPathRoundTripsIff | src/project-path.ts:10-78 | The other way round: a directory is found again if and only if its rest is in normal form |
| ProjectPath.ClimbingPathIsMapped | src/project-path.ts:10-19 | A path that climbs back out of the root is mapped, to a name that leads back to the root only |
| ProjectPath.ConfinedStaysInside | src/project-path.ts:101-118 | A confined path is the root or plain segments below it |
| ProjectPath.ConfinedIs | src/project-path.ts:104-118 | A path written below the root is confined to where its segments lead, or to the root if they climb above it; any other path to the root |
| ProjectPath.ConfineIsIdempotent | src/project-path.ts:104-118 | Confining twice is confining once |
| ProjectPath.CrumbsAreAChain | src/project-path.ts:132-144 | The crumbs of a confined path grow one segment at a time and end at it |
| ProjectPath.ParentDropsLast | src/project-path.ts:122-128 | The parent of a path below the root drops its last segment, so of a crumb it is the one before |
| ProjectPath.ParentStaysInside | src/project-path.ts:122-128 | Going up never leaves the root |
| ProjectPath.NormalizeProjectPath | src/project-path.ts:87-99 | The loop agrees with the specification |
| ProjectPath.RootCrumbs | src/project-path.ts:132-144 | The loop agrees with the specification |
| ExecAttempt.StopsInOrder | src/guest-rpc.ts:464-582 | In every order of events: settles at most once, at most one escalation, at most one SIGKILL, only after SIGTERM and with no exit message before it |
| ExecAttempt.FirstEventDecides | src/guest-rpc.ts:465-478 | The outcome is that of the first exit, error, end, timeout or abort, and there is none before it |
| ExecAttempt.ExitEndsEscalation | src/guest-rpc.ts:548-551 | After an exit message nothing is signalled any more |
| ExecAttempt.SendsExactly | src/guest-rpc.ts:485-582 | In every order of events: SIGTERM is sent if and only if the attempt gave up knowing its process, SIGKILL if and only if the grace timer fired, which runs from then until it fires or an exit is seen, and the stream is cancelled if and only if no process was known or the grace timer fired |
| ExecAttempt.HappensExactly | src/guest-rpc.ts:524-582 | At any point of any run: a timeout can come if one was set and an abort if one can be heard, until it is settled, and the stream's events unless it was aborted from the start, when it gives up at once |
| ExecAttempt.Exec.Handle | src/guest-rpc.ts:464-582 | Each handler leaves the state of the step system |
| UidPool.PtcUidPool.Allocate | src/subprocess.ts:38-49 | The loop takes the least free id, or none |
| UidPool.LiveIdsAreDistinct | src/subprocess.ts:156-159 | Live children hold distinct ids in 1001..10000, and exactly theirs are taken |
| UidPool.RefusedIffFull | src/subprocess.ts:28-52 | A spawn gets the least free id and is refused if and only if 9000 children are live |
| UidPool.SettledIsFree | src/subprocess.ts:441-445 | Once every child has settled every id is free |
| SessionSegment.SegmentIdentifies | src/spill-store.ts:50-61 | Two ids share a name if and only if they are the same characters, a lone surrogate counting as U+FFFD |
| SessionSegment.WellFormedAreApart | src/spill-store.ts:45-61 | Distinct well-formed ids never share a name, across all three forms |
| SessionSegment.WellFormedIff | src/spill-store.ts:52 | Well-formed means that no surrogate stands alone, position by position |
| SessionSegment.LoneSurrogatesCollide | src/spill-store.ts:50-61 | Two ill-formed ids that do |
| SessionSegment.SegmentIsPlain | src/spill-store.ts:50-61 | A name is never empty and holds only letters, digits, underscore and dash |
| SessionSegment.SafeIff | src/spill-store.ts:54 | The safe alphabet: letters, digits, underscore and dash, in characters |
| SessionSegment.ReadableIs | src/spill-store.ts:53-58 | An unsafe unit reads as an underscore, a run of them as one, a leading dash or underscore as nothing; what is tidy is kept up to 24 units, without dashes and underscores at the end |
| SessionSegment.Utf8Is | src/spill-store.ts:52 | The bytes are UTF-8: their number, the first byte and the continuations, and the character read back |
| SessionSegment.HexIs | src/spill-store.ts:52 | Two lower-case hex digits a byte, the high one first |
| SessionSegment.NoId | src/spill-store.ts:60 | An id without a character names the directory session |

## Left out

- YAML text: parsing is a library's, and the renderer is modelled on the tree it writes, so its line loop and the quoting of scalars are not.
- The order JavaScript gives integer-like keys of an object: entries stay in document order, which only decides the first error reported and is sorted away in a rendering.
- TemplateErrors.RefusalIsBroken: the place a refusal names breaks a rule; which of several such places comes first is modelled, branch by branch, but not stated.
- Error messages: a broken template rule is reported by its place alone, and the TypeError of a mount kind named like a member of every object counts as an ordinary refusal.
- gRPC, sockets, Podman, the guest agent and the orchestrator: each call is an answer the model takes as given. Versions are counters that change with every write.
- UTF-8 decoding and the binary-file check of guest reads, SHA-256 and random ids.
- The contextual before text a write reports, and offsets and caps that are not integers.
- Collation: strings are compared by char, which stands for the code unit, in sorted keys and package lists.
- GuardedFiles.NoLostUpdate: says nothing of writers outside the provider, nor of removes, after which a second call may create the file anew as the code means it to.
- RemoveHits.SerialIffNoHit: takes runs whose guest answers every request and whose removes tell what they found; otherwise a hit can be hidden, as two runs show, and only RemovedFiles.RunsWithRemovesAreSerial is claimed. A remove the guest refuses is no event, and the class of the provider has no remove.
- ApplyConfig.AppliesExactly: asks for no mount twice in a configuration, and takes on trust what an accepted command does.
- CommandKeys.KeyIdentifies: counts the sync of every container and of a workspace called all as one target, as the code does.
- CardController: the drafts, the optional fields of a create and the ports published after it, and the gateway's version state, which is computed from the snapshot.
- BindingCache: the default cwd added to a binding, the recovery of an unreachable container beyond its control call, and the resolution of a path to its workspace.
- ForcedMount.ForcedMountIsFirst: takes JavaScript's Number of a mode's spelling as a function it knows nothing of.
- ImageRecipes: the hashed image id, the build instants, and listed rows whose status is not reported.
- The export of a container as a template beyond its image (src/container-template.ts:977-1200), and the warnings of a load.
- Gateway: forwarding of accepted connections, the version call and its instance id; the socket root is taken as a clean path.
- ExecAttempt: the argv and identity sent, the spill clean-up, and the text of the outcome; the retry after a rejected credential starts a new attempt.
- UidPool: the rest of a spawn, its control channel, its termination and its backpressure counter, which means something only until the process ends.
- SessionSegment: file names longer than the file system allows.
- src/card-route.ts, src/tool-handlers.ts and src/template-route.ts beyond the empty fields of a recreate, and src/container-env.ts, src/env-rows.ts, src/version-compat.ts: easy map and string facts.
- src/terminal-sessions.ts: a claim about its two indexes would need calls of one key never to overlap, which nothing enforces.
- React components, locale rendering, tool schemas and prompts.
