# oku: verified models

oku builds a machine from a list. It promises that every change is all or
nothing, that what it put outside its own directories can be taken out again,
and that a value it replaced comes back. This project models the parts of oku
that carry those promises, with the same branches, edge cases and error paths,
and proves them for all inputs, runs, crashes and interleavings.

`dafny verify dfyconfig.toml` checks the whole project.

## How the source is modelled

**Faults.** A durable step (one write, rename, activation, handler call) meets
a `Fate` (`Basics.dfy`): it works, it fails with nothing done, it fails although
it is done, or the process dies before it. A run takes a sequence of fates, so a
lemma over all fates is a lemma over every crash point and every error. A crash
drops what is in memory and keeps the disk.

**The change protocol** (`internal/cli/change.go`). `Change.dfy` gives `apply`,
`plan`, `revert`, `restoreLists` and `recoverPending` as functions of the disk
and the fates; `Machine.dfy` has them as a class that updates its fields step by
step, each method proved equal to its function. `ChangeSafety.dfy`,
`ChangeLists.dfy` and `ChangeLive.dfy` prove the protocol for one change and any
recoveries; `Commands.dfy` runs any sequence of installs, switches, recoveries,
collections and changes by the user, and `History.dfy` proves all or nothing for
such runs: the machine goes with every command as one on which each step is whole.

**The ledger** (`internal/expose/expose.go`, `internal/cli/settings.go`,
`internal/cli/expose.go`). `Exposures.dfy` has items, the machine (paths and
settings) and the handlers for a system that links files; `Sync.dfy` is
`Ledger.Sync` as a function and `Machine.Ledger` is it as a class.
`SyncSafety.dfy`, `SyncSettled.dfy`, `SyncRuns.dfy` and `SyncLive.dfy` prove it, and
`SyncMisses.dfy` has the inputs for which it falls short.

**gc** (`gc.go`, `du.go`, `roots.go` in `internal/cli`, `Prune` of
`internal/profile/profile.go`) is `Gc.dfy`, imperative over `Machine.Computer`;
`GcRuns.dfy` has what two runs make of a closure.

**The dependency cache** (`depCache` in `internal/cli/install.go`) is the class
in `DepCache.dfy`; `DepRuns.dfy` is the state machine of roots that run at once
with the slots of `internal/cli/reconcile.go` and the build mutex, and `DepEnds.dfy`
proves that every run of it ends. `Deps.dfy` is the depth-first install of one
package's deps.

**The shell hook** (`hook.go`, `envset.go` in `internal/cli`): `Hook.dfy` is one
run as a function with its theorems, `Terminal.dfy` the loops.

**The line diff** (`listreview.go`, `contentdiff.go` in `internal/cli`):
`Diff.dfy` and `TextDiff.dfy`.

**URL templates** (`internal/infer/infer.go`): `Swaps.dfy` is `swap`, `Pluses.dfy`
and `Parts.dfy` say what it keeps, `Template.dfy` has the round trip.

**Downloads** (`internal/forge`): `Pages.dfy` is `readPages`, `Revalidate.dfy` the
client that keeps answers with their ETag, `Answers.dfy` the answers that one
command shares.

**Desktop entries** (`internal/expose/expose.go`): `Desktop.dfy`.

## What the proofs found

Each of these is stated with the exact condition and with an input that fails.

- **A deleted link that is no longer wanted stays in the ledger file.** `Sync`
  drops it from the list in memory only; when nothing else is to do, no write
  follows (`SyncSettled.RunFileExact`, `SyncMisses.StaleFile`). The entry does no
  harm: `SyncSettled.FileMatches`, which every successful sync gives, allows just
  such entries, and uninstalling copes with them.
- **What the ledger holds is not placed again.** After a crash between the ledger
  write and the placing, the next sync places files and secrets, but no app, font
  or service (`SyncSettled.RunTarget`, `SyncMisses.LostCopy`) and no setting
  (`SyncSettled.RunSetting`, `SyncMisses.LostSetting`).
- **A list variable does not always come back.** A prepended entry that holds the
  list separator is never taken out again, and a prepended variable that the user
  unset, or a `PATH` that is set and empty, does not keep its value
  (`Hook.BaseKept`, `Hook.SeparatorStays`, `Hook.UnsetForgotten`,
  `Hook.EmptyPathStays`).
- **The tags `t`, `ta` and `tag` break a URL template.** `template` runs `swap`
  twice with the same word when the tag has no `+`, and the second run finds
  these words inside the `{{tag}}` that the first one wrote (`Template.RoundTrip`,
  `Template.TagOfT`). `swap` does not end for an empty word
  (`Swaps.EmptyNeverEnds`).
- **The cache of deps can report a cycle that is not there**, since a root that
  woke keeps its edge until it takes the mutex again. The report is right exactly
  when no root on the walk has a result to wake to (`DepRuns.RealCycle`,
  `DepRuns.FalseCycle`). A cycle of waits never arises (`DepRuns.NoDeadlock`), and
  one that would arise could never be left (`DepRuns.StuckStays`).
- **The build-only set is by store path, not by package.** A path that a package
  needs at run time counts as build-only when every package with that path on the
  way needs the path itself (`Deps.ExactWhen`). It takes two refs of one manifest
  that is downloaded without a wrapper, whose store path leaves its deps out
  (`Deps.SharedPath`). Where refs with one store path need the same store paths, as
  for a path whose hash covers the deps, this cannot be (`Deps.ExactWhenDone`).
- **An exposed item can lose its closure.** The ledger keeps an item of system scope
  while the user does not agree to take it out. gc keeps its store path, but what
  that path needs only while a generation records it: the run that drops the last
  such generation is the last one that keeps it (`GcRuns.ClosureKept`,
  `GcRuns.ClosureLost`).
- **A list whose first page does not name the last page, and a later one does, is
  cut short** (`Pages.WholeList`, `Pages.ListCut`).
- **A dry run of `remove` or `rollback` puts the machine back** when a change is
  pending, since only `sync` and `update` refuse one then (`Commands.DryRunSwitch`,
  `Commands.DryRunReverts`).
- **A revert exposes the whole of generation From only when the change was
  elevated**, and else leaves system scope as it is; `ChangeSafety.AllBefore`
  states the ledger in those terms.

## Model

| member | source | states |
|---|---|---|
| ChangeSafety.AllOrNothing | internal/cli/change.go:103-155 | After an apply cut at any step, with any steps failing, and any number of recoveries cut the same way: once no record is left, lists, active generation and generations are all as before, or all as after, or the change was given up and touched nothing but its staged generation. As before, the ledger of the global list has every item of the generation before outside system scope, and as after of the new one, entry by entry, with nothing else but deleted links; system scope is as it was, or that of the generation when the user agreed to change it |
| ChangeSafety.ApplySafe | internal/cli/change.go:103-155 | One apply ends with all before, all after, or its record on disk in a state from which a revert works; success means all after; a change that is refused, a dry run, or one whose way something of the user's is in changes nothing but the staged generation |
| ChangeSafety.RevertSafe | internal/cli/change.go:455-532 | A revert cut anywhere leaves the change in flight or undone, and one that succeeds leaves the active generation and the generations of before, the items of generation From in the ledger, the lists as before or as the user edited them, and no record |
| ChangeSafety.RecoveriesSafe | internal/cli/change.go:557-590 | Every number of recoveries, each cut anywhere, keeps the machine in one of the states that an apply may leave |
| ChangeSafety.RestoreListsGoal | internal/cli/change.go:418-451 | Wherever it stops, also when a list cannot be read, each list file ends as it is now or as its revert makes it, independently of the other, and as the latter when the restore succeeds; nothing else changes |
| ChangeSafety.CommitEdits | internal/cli/reconcile.go:587-606 | A commit that succeeds leaves the lists with all its edits in order, and touches nothing but the lists |
| ChangeSafety.EditedText | internal/cli/reconcile.go:587-606 | Each list file ends with the text of its last edit, or as it was when there is none |
| ChangeLists.RecoveriesLists | internal/cli/change.go:418-451 | Over any recoveries cut anywhere each list file on its own is as it is or as its revert makes it, and the latter once the record is gone |
| ChangeLists.EditSurvives | internal/cli/change.go:418-451 | A list that the user edited before the commit began is kept byte for byte over any recoveries |
| ChangeLists.CommitUndone | internal/cli/change.go:128-133 | Once the record on disk says committing, both lists end exactly as before the change when the record is gone |
| ChangeLive.RecoveryWorks | internal/cli/change.go:557-590 | A recovery that meets no fault succeeds and deletes the record when nothing but oku's own is at the targets it places |
| ChangeLive.ApplyWorks | internal/cli/change.go:103-155 | An apply that meets no fault succeeds, deletes its record and leaves all as after, when it is not refused, no two items go to one path and only oku's own is at their paths |
| ChangeLive.ApplyRefuses | internal/cli/change.go:106-118 | A change that is refused, in whose way something of the user's is, or a dry run, that meets no fault, leaves the disk exactly as it was without the staged generation, and succeeds only as a dry run that nothing stands against |
| ChangeLive.DoneStays | internal/cli/change.go:136-145 | A change that was made, but whose record could not be deleted, says so in the record, and the next recovery deletes that and undoes nothing |
| Commands.RunsValid | internal/cli/change.go:193-223 | Over every sequence of commands, crashes, collections and changes by the user: the generation that a pending revert needs exists with its packages, their closures and its links in the store, the active generations exist, and the ledger leads every setting back to the user's value and names all that oku made |
| Commands.DoValid | internal/cli/change.go:592-612 | Each single command, cut anywhere, keeps all of that; before its change it recovers, or refuses a dry run when it is sync or update |
| Commands.DryRunSwitch | internal/cli/change.go:592-612 | A dry run that stages nothing leaves the disk as it is when the command refuses a pending change, and else as the recovery leaves it |
| Commands.DryRunReverts | internal/cli/generations.go:262-270 | A dry run of rollback, with a change pending, that puts the machine back |
| History.WholeSteps | internal/cli/change.go:103-155 | From a machine without a record, over every sequence of commands, crashes, collections and changes by the user, the machine goes with each command in its turn as one on which every step is whole: a change is begun and then made, undone or given up in full, by the command that makes it or by the recovery of a later one; a collection keeps all lists and active generations, but for projects that are gone; and whenever no record is left the disk is that machine |
| History.RecoverGoes | internal/cli/change.go:557-590 | A recovery cut anywhere, also after the user edited lists or changed the machine, leaves the open change open or undoes it in full, and the latter when it succeeds |
| History.ApplyGoes | internal/cli/change.go:103-155 | An apply cut anywhere leaves its change open, or made, undone or given up in full; one whose plan fails, or a dry run, is given up |
| History.EditsGo | internal/cli/change.go:418-451 | What the user writes into the lists while a change is open is what undoing it leaves of them, file by file, before the commit began, and from then on the lists of before |
| Machine.Computer.Apply | internal/cli/change.go:103-155 | The method that writes the record, switches, exposes, commits and deletes the record ends, wherever it is cut, with all before, all after or its change in flight, and all after when it succeeds; it succeeds when it meets no fault and nothing is in its way, and leaves no record when something is |
| Machine.Computer.PlanExposed | internal/cli/expose.go:142-209 | The items to sync to are those of the generation, with system scope as it is unless the user agreed; administrator rights are needed exactly when something there changes; and the plan fails exactly when the change is refused or something of the user's is at a path it wants |
| Machine.Computer.RestoreLists | internal/cli/change.go:418-451 | The loop over the two files does what Change.RestoreLists says and names exactly the files it kept |
| Machine.Computer.RecoverPending | internal/cli/change.go:557-590 | The method leaves every change that its record may stand for in flight or undone, and undone when it succeeds |
| Machine.Ledger.Sync | internal/expose/expose.go:388-445 | The sync in place leaves exactly what Sync.Run gives, leaves what is at a path of the user's, and changes nothing when it wants such a path |
| Machine.Ledger.Check | internal/expose/expose.go:224-256 | Fails exactly when some wanted item that is not a setting has a path that exists and that no item of the ledger has |
| Machine.Ledger.DropGone | internal/expose/expose.go:391-400 | Exactly the files and secrets whose target is gone leave the list in memory, in order |
| SyncSafety.RunRestores | internal/cli/settings.go:125-153 | Wherever a sync stops, each recorded prior value is the setting's value before oku, and every setting without an item is untouched |
| SyncSafety.PlaceOneRestores | internal/cli/settings.go:134-152 | Recording the current value of a setting that has no item yet keeps the ledger file and memory leading back to the original values |
| SyncSafety.RemoveOneRestores | internal/expose/expose.go:452-465 | Undoing an item, cut anywhere, keeps the records of the other items right |
| SyncSafety.RunNamed | internal/expose/expose.go:388-445 | Wherever a sync stops, the ledger file names every path that oku made |
| SyncRuns.EventsSafe | internal/expose/expose.go:388-445 | Any number of syncs, each to its own items and cut anywhere, and changes of settings and paths by the user in between keep both, where a setting that no item covers takes the user's new value as its original |
| SyncRuns.UninstallRestores | internal/expose/expose.go:448-450 | From an untouched machine, over any syncs cut anywhere and any changes by the user, removing everything gives every setting back as it was or as the user has since made it, and leaves no path that oku made |
| SyncSettled.RunSettles | internal/expose/expose.go:388-445 | A sync that succeeds ends with exactly the wanted items in memory, up to prior value and directory mode |
| SyncSettled.RunMatches | internal/expose/expose.go:388-445 | It leaves a ledger file with the entry of every wanted item, and any other entry is a link that is gone |
| SyncSettled.RunFileExact | internal/expose/expose.go:391-415 | The file holds exactly the wanted items if and only if not (nothing else was to do and a deleted link is no longer wanted) |
| SyncSettled.RunTarget | internal/expose/expose.go:391-441 | After success the path of a wanted item is as the item makes it when the ledger did not hold it or it is a link that was gone, and else as it was; so it is there if and only if it was there before, is a link, or was not in the ledger |
| SyncSettled.RunSetting | internal/expose/expose.go:416-441 | After success a wanted setting has its value if and only if it had it before or the ledger did not hold it; one that the ledger holds keeps the value that is there |
| SyncMisses.StaleFile | internal/expose/expose.go:391-415 | A ledger for which a sync that succeeds leaves an item in the file that is not wanted |
| SyncMisses.LostCopy | internal/expose/expose.go:416-441 | A sync cut between the ledger write and the placing of an app, after which a clean sync succeeds without it |
| SyncMisses.LostSetting | internal/expose/expose.go:416-441 | The same for a setting |
| SyncSettled.RunTargets | internal/expose/expose.go:388-445 | However a sync ends, no two different ledger items share a target, or a setting, when neither the ledger nor the wanted items had that |
| SyncSettled.RunSparesUserFile | internal/expose/expose.go:480-524 | A regular file of the user's at the target of links is neither overwritten nor deleted by any sync, successful or not |
| SyncSettled.RunSparesTheirs | internal/expose/expose.go:224-256 | What is at a path that no ledger item has stays as it is, whatever a sync wants, of every kind, and however it ends |
| SyncSettled.RunRefuses | internal/expose/expose.go:402-404 | A sync that wants such a path fails and changes nothing |
| SyncSettled.RunSparesSystem | internal/cli/expose.go:395-408 | A sync to items that keep system scope changes no path that only system items have, however it ends |
| SyncSettled.RunKeepsSystem | internal/cli/expose.go:395-408 | Such a sync leaves the system items of the ledger file, however it ends |
| SyncSettled.SystemLeftAsIs | internal/cli/expose.go:370-408 | keepSystem always gives such items, and the wanted items are such when pendingSystem is empty |
| SyncSettled.RunEntries | internal/expose/expose.go:388-445 | However a sync ends, each ledger entry was in the ledger or is wanted |
| SyncLive.RunWorks | internal/expose/expose.go:388-445 | A sync that meets no fault succeeds when nothing but oku's own is at the wanted targets |
| Gc.RunGc | internal/cli/gc.go:130-233 | While a change is pending nothing is deleted; a dry run changes nothing; wherever a run stops, each generation that the retention keeps is there with its packages, their closures and its links, and so are what the ledger items lead into and what the sessions use; a run without faults succeeds, and then what none of them has a use for is gone, with just the generations that the retention drops and the profiles of projects that are gone; dry and real run report the same |
| Gc.Prune | internal/profile/profile.go:1126-1166 | Removes exactly the generations that are not active, not among the newest Keep, not made since, and not the newest one before Since |
| Gc.LiveRoots | internal/cli/roots.go:75-122 | The roots are the sessions' paths and, for each ledger item that leads into the store, its path and the closure that a listed generation records |
| Gc.LedgerRooted | internal/cli/roots.go:90-122 | A ledger item whose path had a generation when the run began keeps that path and a recorded closure |
| Gc.Holders | internal/cli/du.go:121-182 | The held paths are exactly the roots and what the generations that stay name, which is every package path, closure path and link of each |
| Gc.Marked | internal/cli/gc.go:195-203 | What is not held after the deletions is exactly what nothing that stays needed before them |
| Gc.KeepsStays | internal/cli/gc.go:165-195 | The generations that the mark phase goes by are those that the retention keeps, of projects that are there |
| Gc.Mark | internal/cli/gc.go:148-203 | Deleting generations and marking give the retention's drops and the unused paths, and every generation left is complete without the unused paths |
| Gc.DropGone | internal/cli/gc_projects.go:81-141 | Of the profiles, only those of projects that are gone are deleted, all of them when the step succeeds, and none in a dry run |
| GcRuns.ClosureFirst | internal/cli/roots.go:86-122 | A run keeps the closure of a ledger item that a generation records when the run begins, also when it drops that generation |
| GcRuns.ClosureKept | internal/cli/roots.go:86-122 | The run after it keeps a path of that closure which nothing else needs if and only if the first run left a generation that records the item's store path |
| GcRuns.ClosureLost | internal/cli/roots.go:86-122 | Two runs after which an app is exposed and in the store, and a path of its closure is gone |
| Gc.StoppedCollects | internal/cli/gc.go:130-233 | Every stop of a run is one that the command sequences allow a collection to leave |
| DepCache.DepCache.Closes | internal/cli/install.go:259-278 | The walk ends, and says exactly whether the waits lead from the installing root back to the asking one |
| DepCache.DepCache.Ask | internal/cli/install.go:237-280 | Under the mutex: the root installs a dep that is not there and takes a result that is; it is told of a cycle exactly when the one it would wait for leads back to it, and waits else; the wait-for graph stays acyclic |
| DepCache.DepCache.Close | internal/cli/install.go:247-256 | Giving a dep's result to all that wait for it changes nothing else, and the wait-for graph stays acyclic |
| DepCache.DepCache.Woke | internal/cli/install.go:280-285 | A root that woke waits for nothing, and the wait-for graph stays acyclic |
| DepCache.WaitAcyclic | internal/cli/install.go:263-280 | A new wait keeps the graph, stale edges included, without cycles |
| DepCache.NoCycle | internal/cli/install.go:263-275 | In such a graph no root waits for itself over any number of others |
| DepRuns.DoInv | internal/cli/install.go:232-288 | Any step of any root keeps the invariant: acyclic waits, each open install on the stack of its root, slots counted, each key installed once, every answer the result of its install |
| DepRuns.RunsInv | internal/cli/install.go:232-288 | Every interleaving of roots keeps it |
| DepRuns.ResultsStay | internal/cli/install.go:232-288 | A result, once there, and the root that installs a key never change over any run |
| DepRuns.SomeRootSteps | internal/cli/reconcile.go:398-448 | Whatever each unfinished root is about to do, one of them can do it without waiting, with slots and build mutex included |
| DepRuns.NoDeadlock | internal/cli/reconcile.go:398-448 | From the start, for any roots, limit above zero and interleaving, no state that can be reached is stuck |
| DepRuns.RealCycle | internal/cli/install.go:263-285 | A reported cycle is one, in that the wait would leave roots waiting for each other's open installs, if and only if no root on the walk has a result to wake to |
| DepRuns.StuckStays | internal/cli/install.go:263-285 | Roots that wait for each other's open installs can do nothing, and stay so whatever any root does |
| DepRuns.FalseCycle | internal/cli/install.go:281-285 | A reachable state in which a root is told of a cycle although the other root could wake at once |
| DepEnds.RunsEnd | internal/cli/reconcile.go:398-448 | When each package asks for finitely many deps, every interleaving ends, within three steps for each question or build, one for each dep and two for each root |
| Deps.Install | internal/cli/install.go:622-800 | Ends for every finite set of refs; done if and only if no walk on from here repeats a ref or names none, else with such a walk; when done, the closure is exactly the store paths reachable through deps, and BuildOnly exactly those that no run-time walk hands on from a package which does not need the path itself |
| Deps.InstallDeps | internal/cli/install.go:2524-2613 | The loop over the deps gives the union of their closures and exactly the paths that each hands on, or the walk that repeats or is missing |
| Deps.BuildOnly | internal/cli/install.go:2617-2632 | Exactly the closure paths that no dep from the index on needs at run time |
| Deps.RunBelow | internal/cli/install.go:651-658 | What the deps from the index buildDeps on hand on is exactly what the runtime deps hand on |
| Deps.ExactWhen | internal/cli/install.go:2586-2632 | BuildOnly is exactly what run time does not reach if and only if each path needed at run time is one that a runtime dep hands on |
| Deps.ExactWhenDone | internal/cli/install.go:2586-2632 | It is so for every install that is done where refs with one store path need the same store paths |
| Deps.ExactWithoutSelf | internal/cli/install.go:2586-2632 | It is so where no package needs its own store path |
| Deps.SharedPath | internal/cli/install.go:2586-2632 | Packages for which a path needed at run time counts as build-only: two refs of one manifest share the path, and each runs with the package beside it |
| Hook.BaseKept | internal/cli/envset.go:92-116 | A run keeps a variable's value without the hook if and only if NameOk: no prepended entry holds the separator, the user did not unset it, and PATH is not set and empty |
| Hook.StripFronted | internal/cli/envset.go:92-116 | Taking the entries out of the joined list gives the old value back if and only if no entry holds the separator |
| Hook.SeparatorStays | internal/cli/envset.go:280-311 | An entry with a separator for which the value is not found again |
| Hook.UnsetForgotten | internal/cli/envset.go:92-116 | A prepended variable that the user unset comes back as set |
| Hook.EmptyPathStays | internal/cli/hook.go:159-170 | A PATH that was set and empty keeps the entries of a project that is left |
| Hook.FairRun | internal/cli/hook.go:151-208 | One run keeps the user's own environment and gives that of the directory over it: a set variable has its value, an unset one is not there, a prepended one has its entries in order before what is set or the user's value, with a separator only when that is not empty, and every other one is the user's |
| Hook.HistoryIndependent | internal/cli/hook.go:151-208 | After any prompts and user changes, but for unsetting a variable that only has entries in front, the environment is what the directory of the last prompt gives over the user's own, variable by variable, and outside every project it is the user's own |
| Hook.AppendIsOwn | internal/cli/envset.go:92-116 | What the user appends to a list variable inside a project is theirs, behind what they had |
| Terminal.Terminal.HookChange | internal/cli/hook.go:151-208 | The loops over the variables, in any order, give the change of Hook.ChangeOf |
| Terminal.Terminal.Base | internal/cli/envset.go:92-116 | The loop that takes entries out gives Hook.Base |
| Terminal.Terminal.FinalValues | internal/cli/envset.go:280-311 | The maps hold exactly the wanted names: set values, unset ones, and entries in order before what is set or was there; and the entries of names that have nothing else |
| Terminal.Terminal.Prompt | internal/cli/hook.go:151-208 | One prompt in place: every variable keeps its value without the hook if and only if NameOk, and the environment is what the directory gives over the user's own, variable by variable |
| Diff.DiffLines | internal/cli/listreview.go:114-149 | An edit script from a to b that keeps as many lines as the longest common subsequence, has the fewest changes of all scripts, and never has an addition directly before a removal |
| Diff.KeepsAtMost | internal/cli/listreview.go:114-149 | No script, whoever makes it, keeps more lines than the longest common subsequence |
| Diff.Fewest | internal/cli/listreview.go:114-149 | A script that keeps that many has the fewest changes |
| Diff.Table | internal/cli/listreview.go:115-131 | The table, filled from the end, holds the length for every pair of suffixes |
| Diff.Walk | internal/cli/listreview.go:133-146 | The walk through the table gives an ordered script of that length |
| TextDiff.TextDiff | internal/cli/contentdiff.go:85-128 | Over the cell limit one line that says so; else the removed lines after a minus and the added ones after a plus of a shortest script, each once and in order, with the unchanged lines within two of a change; nothing if and only if the lines are the same |
| TextDiff.ShownMarks | internal/cli/contentdiff.go:109-127 | The printed lines are the script's removed lines after a minus and added ones after a plus, and the unchanged lines within two of a change after a space, each once and in order |
| TextDiff.LinesRead | internal/cli/contentdiff.go:86-92 | The lines hold no line break and joined are the text, but for a line break at its end |
| Swaps.Swap | internal/infer/infer.go:1225-1247 | The loop ends for every word that is not empty, and gives the text with the word replaced at exactly the cuts |
| Swaps.EmptyNeverEnds | internal/infer/infer.go:1225-1247 | With the empty word no number of turns ends the loop |
| Swaps.AllCut | internal/infer/infer.go:1225-1247 | Every occurrence that may be replaced is, when no two can overlap |
| Swaps.CutsWhere | internal/infer/infer.go:1225-1256 | Only an occurrence with no digit next to it, and unless the word has a dot no letters before it but a v of its own, is replaced; and each such one is where no two can overlap |
| Parts.PutText | internal/infer/infer.go:1225-1247 | A pass over a template replaces only whole text between variables |
| Parts.PutReads | internal/infer/infer.go:1225-1247 | What the template stands for stays over a pass, up to %2B read as + |
| Template.RoundTrip | internal/infer/infer.go:1207-1219 | For every URL and tag without braces, expanding the template gives the URL back, up to %2B read as + when the tag has one, if and only if not (the tag is t, ta or tag and occurs in the URL) |
| Template.RoundTripSame | internal/infer/infer.go:1207-1219 | Without + in the tag it gives the URL back unchanged under the same condition |
| Template.Fill | internal/infer/infer.go:1207-1219 | The passes of swap make the template, which gives the URL back under that condition |
| Template.Writes | internal/infer/infer.go:1207-1219 | The tag is written as its variable when a pass finds it, and the version as its own in what is left, for every tag but the three |
| Template.VersionIs | internal/infer/infer.go:261-266 | The version is the tag from its first digit on, or the whole tag where it has none or begins with one |
| Template.TagOfT | internal/infer/infer.go:1207-1219 | A URL and tag for which it does not |
| Template.ExpandRender | internal/manifest/manifest.go:1200-1234 | Expanding a text of whole variables and brace-free characters gives each variable's value and the rest unchanged |
| Pages.ReadPages | internal/forge/forge.go:178-235 | In whatever order the readers are done, the list or the error is that of reading page after page up to the last page asked for; without all, the first page and whether there is more |
| Pages.OneAfterAnother | internal/forge/forge.go:226-234 | The loop without a named last page reads on to the last page asked for |
| Pages.FailsAt | internal/forge/forge.go:213-215 | The error is that of the first page that fails |
| Pages.Bounded | internal/forge/forge.go:192-234 | At most `most` items when no page holds more than it was asked for |
| Pages.WholeList | internal/forge/forge.go:135-149 | All pages up to the limit are read if and only if the host does not name the last page late |
| Pages.ListCut | internal/forge/forge.go:226-234 | A host with four pages of which two are read, without an error |
| Revalidate.Revalidator.Get | internal/forge/revalidate.go:109-174 | With files that are the host's, one GET shows a reader what a plain GET does, or fails to read the body, or gives the kept bytes of a full commit; and the files stay the host's |
| Revalidate.NeverStale | internal/forge/revalidate.go:97-174 | From no files, over any requests, host changes and lost or unreadable files, a GET shows a reader what a plain GET at that moment does, or fails to read the body; a kept file at a full commit has the host's bytes |
| Revalidate.DirOkAfter | internal/forge/revalidate.go:204-223 | Over any events every readable file is an answer that the host gave for its key and ETag |
| Revalidate.KeptAnswers | internal/forge/revalidate.go:109-174 | A full answer with an ETag or at a full commit, that can be read and is not too long, is kept; from then on the host only confirms it, and at a full commit is not asked |
| Revalidate.KeptAgain | internal/forge/revalidate.go:109-174 | A kept answer whose ETag the host gave up is replaced by what the host has |
| Revalidate.KeysDiffer | internal/forge/revalidate.go:110-112 | Two requests share a file only when URL and Accept are the same |
| Answers.AskedOnce | internal/forge/revalidate.go:288-329 | Under any interleaving the host is asked at most once for a key, and all readers of it get the same answer, which is what a request for that key got |
| Answers.SomeoneGoesOn | internal/forge/revalidate.go:288-329 | Until every reader has its answer, one of them can go on |
| Desktop.ArgRead | internal/expose/expose.go:591-604 | Read by the rules of the Desktop Entry Specification, the Exec argument of a path that is not empty is that path with its line breaks as spaces |
| Desktop.ArgBare | internal/expose/expose.go:591-604 | A path without reserved characters, percent signs and line breaks is written as it is |
| Desktop.ArgOnOneLine | internal/expose/expose.go:585-604 | The argument holds no line break |
| Desktop.OnOneLine | internal/expose/expose.go:585-589 | Exactly the line breaks become spaces, and nothing else changes |

## Left out

- SyncSettled.RunTarget: does not say that every wanted copy is there, because that is false of the code (`SyncMisses.LostCopy`).
- SyncSettled.RunMatches: allows entries of deleted links that are not wanted; `SyncSettled.RunFileExact` says exactly when there are some.
- DepRuns.NoDeadlock: cancelling a run when a package fails is not modelled; a root that is told of a cycle may go on.
- Deps.Install: pins for other platforms, and deps that are only pinned, are passed over.
- Hook.HistoryIndependent: without `OKU_SHELL_PATH`, with entries that hold no separator and a `PATH` that is not set and empty; `Hook.BaseKept` covers the rest. What the lists of a directory want is an input, a function of the user's own environment.
- Template.RoundTrip: the variables `{{tag}}` and `{{version}}` as `template` writes them; spaces inside the braces, and other variables, are not part of the text that `template` makes.
- Gc.RunGc: per run; `GcRuns.ClosureKept` has two. Leftovers of unfinished generations, merged trees, sharing of identical files, downloads, kept answers and temporary files are not modelled, and the listings, sessions and projects that are gone are inputs.
- Gc.DropGone: the entry of the project among those that the shell hook may apply is not modelled.
- Swaps.Swap: only for a word that is not empty; `Swaps.EmptyNeverEnds` says what the loop does with the empty one.
- Pages.ReadPages: the page size is above zero and at most the item limit, as for every caller. The limit on readers at once is not modelled; each reader writes only its own page.
- Revalidate.NeverStale: under the assumption that an ETag names one answer of a key and that a full commit never changes; header fields but Link and Content-Type, and the hash that names the file of a key, are left out.
- Reading `pending.toml`, the ledger and the list files: a read that fails is a failing step of a change and of a recovery, and for gc not modelled; their TOML and JSON are not modelled.
- The decrypted copy of a secret: only its link is modelled. Its check for an edited copy is left out.
- Windows: copies in place of links, content hashes, extensions that wait for the user.
- Placing an app, a font or a service is one step; what happens inside, administrator rights and the service managers are left out.
- The list write of an adoption before its apply, the printing of changes (`describe`), hints, prompts, trust and release-age checks.
- The merge of lists that include one another, and which packages a list asks for.
- The asset choice of `infer`, HTTP, archives, hashes, signatures.
