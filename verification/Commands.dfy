// Any sequence of commands on one machine: changes, recoveries and garbage
// collections, each cut anywhere, and edits by the user.
module Commands {
  import opened Basics
  import opened Exposures
  import opened SyncSafety
  import opened SyncSettled
  import opened SyncRuns
  import opened Change
  import ChangeLists

  // --- what every reachable state keeps

  /** Every package, all that it runs with, and the target of every link. */
  ghost predicate Complete(g: Generation, store: set<string>) {
    && (forall k :: k in g.packages ==> k.path in store && forall c :: c in k.closure ==> c in store)
    && (forall l :: l in g.links ==> l in store)
  }

  /** A list names a setting once, and only apps, fonts and services are in system scope. */
  ghost predicate GenOk(g: Generation, store: set<string>) {
    OneValueEach(g.items) && SystemCopies(g.items) && Complete(g, store)
  }

  /** Every generation is in the store, and the active one exists. */
  ghost predicate ProfileOk(p: Profile, store: set<string>) {
    && (p.active == 0 || p.active in p.gens)
    && (forall n :: n in p.gens ==> GenOk(p.gens[n], store))
  }

  /** The generation that a revert of p goes back to exists, and the revert does not delete it. */
  ghost predicate CanRevert(d: Disk, p: Pending) {
    && (p.from == 0 || p.from in ProfileOf(d, p.project).gens)
    && (p.staged ==> p.to != p.from)
  }

  ghost predicate Valid(d: Disk, orig: Settings) {
    && (forall s :: ProfileOk(ProfileOf(d, s), d.store))
    && (d.pending.Some? && !d.pending.value.done ==> CanRevert(d, d.pending.value))
    && SystemCopies(d.exposed.ledger) && Safe(d.exposed, orig)
  }

  // --- a sync inside a command

  lemma ItemsOk(p: Profile, n: nat, store: set<string>)
    requires ProfileOk(p, store)
    ensures OneValueEach(ItemsOf(p, n)) && SystemCopies(ItemsOf(p, n))
  {
  }

  lemma KeptOk(ledger: seq<Item>, items: seq<Item>)
    requires OneValueEach(items) && SystemCopies(items) && SystemCopies(ledger)
    ensures OneValueEach(KeepSystem(ledger, items)) && SystemCopies(KeepSystem(ledger, items))
  {
  }

  lemma ExposeValid(d: Disk, scope: string, wanted: seq<Item>, fates: seq<Fate>, orig: Settings)
    requires Valid(d, orig) && OneValueEach(wanted) && SystemCopies(wanted)
    ensures var r := Expose(d, scope, wanted, fates);
      Valid(r.disk, orig) && r.disk == d.(exposed := r.disk.exposed)
  {
    var r := Expose(d, scope, wanted, fates);
    assert forall s :: ProfileOf(r.disk, s) == ProfileOf(d, s);
    RunRestores(d.exposed, wanted, Rest(fates), orig);
    RunNamed(d.exposed, wanted, Rest(fates));
    RunSystemCopies(d.exposed, wanted, Rest(fates));
  }

  // --- recovery

  /** A process undoes the change whose record is on disk; it may know more of the commit. */
  ghost predicate Undoes(d: Disk, p: Pending) {
    d.pending.Some? && !d.pending.value.done && p == d.pending.value.(committing := p.committing)
  }

  lemma WriteTextValid(d: Disk, scope: string, f: File, t: Option<string>, fates: seq<Fate>, orig: Settings)
    requires Valid(d, orig)
    ensures var r := WriteText(d, scope, f, t, fates);
      && Valid(r.disk, orig) && r.disk == d.(profiles := r.disk.profiles)
  {
    var r := WriteText(d, scope, f, t, fates);
    forall s ensures ProfileOf(r.disk, s) == ProfileOf(d, s).(lists := ProfileOf(r.disk, s).lists) {}
  }

  lemma ActivateValid(d: Disk, scope: string, n: nat, fates: seq<Fate>, orig: Settings)
    requires Valid(d, orig) && (n == 0 || n in ProfileOf(d, scope).gens)
    ensures var r := Activate(d, scope, n, fates);
      && Valid(r.disk, orig) && r.disk == d.(profiles := r.disk.profiles)
      && (forall s :: ProfileOf(r.disk, s).gens == ProfileOf(d, s).gens)
      && (r.status.Good? ==> ProfileOf(r.disk, scope).active == n)
  {
    var r := Activate(d, scope, n, fates);
    forall s ensures ProfileOf(r.disk, s) == ProfileOf(d, s).(active := ProfileOf(r.disk, s).active) {}
    forall s ensures ProfileOk(ProfileOf(r.disk, s), d.store) { assert ProfileOk(ProfileOf(d, s), d.store); }
  }

  /** Deleting a generation is safe when it is neither active nor the one a revert goes back to. */
  lemma DiscardValid(d: Disk, scope: string, n: nat, fates: seq<Fate>, orig: Settings)
    requires Valid(d, orig) && ProfileOf(d, scope).active != n
    requires d.pending.Some? && !d.pending.value.done && d.pending.value.project == scope ==> d.pending.value.from != n
    ensures var r := Discard(d, scope, n, fates);
      Valid(r.disk, orig) && r.disk == d.(profiles := r.disk.profiles)
  {
    var r := Discard(d, scope, n, fates);
    forall s ensures ProfileOk(ProfileOf(r.disk, s), d.store) { assert ProfileOk(ProfileOf(d, s), d.store); }
  }

  lemma RevertStagedValid(d: Disk, p: Pending, fates: seq<Fate>, orig: Settings)
    requires Valid(d, orig) && Undoes(d, p) && ProfileOf(d, p.project).active == p.from
    ensures Valid(RevertStaged(d, p, fates).disk, orig)
  {
    if p.staged { DiscardValid(d, p.project, p.to, fates, orig); }
    var r := if p.staged then Discard(d, p.project, p.to, fates) else Run(d, fates, Good);
    if r.status.Good? {
      var w := WritePending(r.disk, None, r.fates);
      assert forall s :: ProfileOf(w.disk, s) == ProfileOf(r.disk, s);
    }
  }

  lemma RevertExposedValid(d: Disk, p: Pending, fates: seq<Fate>, orig: Settings)
    requires Valid(d, orig) && Undoes(d, p) && ProfileOf(d, p.project).active == p.from
    ensures Valid(RevertExposed(d, p, fates).disk, orig)
  {
    var items := ItemsOf(ProfileOf(d, p.project), p.from);
    ItemsOk(ProfileOf(d, p.project), p.from, d.store);
    KeptOk(d.exposed.ledger, items);
    ExposeValid(d, p.project, RevertWanted(d, p), fates, orig);
    var r := Expose(d, p.project, RevertWanted(d, p), fates);
    if r.status.Good? { RevertStagedValid(r.disk, p, r.fates, orig); }
  }

  lemma RestoreListsValid(d: Disk, p: Pending, fates: seq<Fate>, orig: Settings)
    requires Valid(d, orig)
    ensures var r := RestoreLists(d, p, fates);
      Valid(r.disk, orig) && r.disk == d.(profiles := r.disk.profiles)
  {
    WriteTextValid(d, p.project, ListFile, Text(p.before, ListFile), Rest(fates), orig);
    var r := RestoreFile(d, p, ListFile, fates);
    WriteTextValid(r.disk, p.project, LockFile, Text(p.before, LockFile), Rest(r.fates), orig);
  }

  lemma RevertValid(d: Disk, p: Pending, fates: seq<Fate>, orig: Settings)
    requires Valid(d, orig) && Undoes(d, p)
    ensures Valid(Revert(d, p, fates).disk, orig)
  {
    RestoreListsValid(d, p, fates, orig);
    var r := RestoreLists(d, p, fates);
    if r.status.Good? {
      ActivateValid(r.disk, p.project, p.from, r.fates, orig);
      var a := Activate(r.disk, p.project, p.from, r.fates);
      if a.status.Good? { RevertExposedValid(a.disk, p, a.fates, orig); }
    }
  }

  lemma RecoverValid(d: Disk, fates: seq<Fate>, orig: Settings)
    requires Valid(d, orig)
    ensures Valid(Recover(d, fates).disk, orig)
    ensures Recover(d, fates).status.Good? ==> Recover(d, fates).disk.pending.None?
  {
    if d.pending.Some? {
      if d.pending.value.done {
        assert forall s :: ProfileOf(Recover(d, fates).disk, s) == ProfileOf(d, s);
      } else {
        RevertValid(d, d.pending.value, Rest(fates), orig);
        ChangeLists.RevertLists(d, d.pending.value, Rest(fates));
      }
    }
  }

  // --- a change

  lemma PendingValid(d: Disk, p: Option<Pending>, fates: seq<Fate>, orig: Settings)
    requires Valid(d, orig) && (p.Some? && !p.value.done ==> CanRevert(d, p.value))
    ensures Valid(WritePending(d, p, fates).disk, orig)
  {
    assert forall s :: ProfileOf(WritePending(d, p, fates).disk, s) == ProfileOf(d, s);
  }

  lemma {:induction false} CommitValid(d: Disk, scope: string, edits: seq<Edit>, fates: seq<Fate>, orig: Settings)
    requires Valid(d, orig)
    ensures var r := Commit(d, scope, edits, fates); Valid(r.disk, orig) && r.disk == d.(profiles := r.disk.profiles)
    decreases |edits|
  {
    if edits != [] {
      WriteTextValid(d, scope, edits[0].file, Some(edits[0].text), fates, orig);
      var r := WriteText(d, scope, edits[0].file, Some(edits[0].text), fates);
      if r.status.Good? { CommitValid(r.disk, scope, edits[1..], r.fates, orig); }
    }
  }

  /** The target of the change is active, generation 0, or a generation; a staged one is not active. */
  ghost predicate CanApply(d: Disk, scope: string, c: Change) {
    var p := ProfileOf(d, scope);
    (c.to == 0 || c.to in p.gens) && (c.staged ==> c.to != p.active)
  }

  lemma GiveUpValid(d: Disk, scope: string, c: Change, fates: seq<Fate>, status: Status, orig: Settings)
    requires Valid(d, orig) && CanApply(d, scope, c)
    requires d.pending.Some? ==> d.pending.value == PlanPending(d, scope, c)
    ensures Valid(GiveUp(d, scope, c, fates, status).disk, orig)
  {
    if c.staged { DiscardValid(d, scope, c.to, fates, orig); }
  }

  lemma PerformValid(d: Disk, scope: string, c: Change, p: Pending, wanted: seq<Item>, fates: seq<Fate>, orig: Settings)
    requires Valid(d, orig) && CanApply(d, scope, c) && OneValueEach(wanted) && SystemCopies(wanted)
    requires d.pending == Some(p) && p.project == scope && !p.done
    ensures var s := Perform(d, scope, c, p, wanted, fates);
      Valid(s.run.disk, orig) && Undoes(s.run.disk, s.p)
  {
    ActivateValid(d, scope, c.to, fates, orig);
    var r := Activate(d, scope, c.to, fates);
    if r.status.Good? {
      ExposeValid(r.disk, scope, wanted, r.fates, orig);
      var x := Expose(r.disk, scope, wanted, r.fates);
      if x.status.Good? { CommittingValid(x.disk, scope, c.commit, p, x.fates, orig); }
    }
  }

  lemma CommittingValid(d: Disk, scope: string, edits: seq<Edit>, p: Pending, fates: seq<Fate>, orig: Settings)
    requires Valid(d, orig) && d.pending == Some(p) && !p.done
    ensures var q := p.(committing := true);
      var w := WritePending(d, Some(q), fates);
      var r := if w.status.Good? then Commit(w.disk, scope, edits, w.fates) else w;
      Valid(r.disk, orig) && Undoes(r.disk, q)
  {
    var q := p.(committing := true);
    PendingValid(d, Some(q), fates, orig);
    var w := WritePending(d, Some(q), fates);
    if w.status.Good? { CommitValid(w.disk, scope, edits, w.fates, orig); }
  }

  lemma FinishValid(d: Disk, p: Pending, fates: seq<Fate>, orig: Settings)
    requires Valid(d, orig) && Undoes(d, p)
    ensures Valid(Finish(d, p, fates).disk, orig)
  {
    PendingValid(d, None, fates, orig);
    var r := WritePending(d, None, fates);
    if r.status.Failed? { PendingValid(r.disk, Some(p.(done := true)), r.fates, orig); }
  }

  lemma CarryValid(d: Disk, scope: string, c: Change, p: Pending, wanted: seq<Item>, fates: seq<Fate>, orig: Settings)
    requires Valid(d, orig) && CanApply(d, scope, c) && OneValueEach(wanted) && SystemCopies(wanted)
    requires d.pending == Some(p) && p.project == scope && !p.done
    ensures Valid(Carry(d, scope, c, p, wanted, fates).disk, orig)
  {
    PerformValid(d, scope, c, p, wanted, fates, orig);
    var s := Perform(d, scope, c, p, wanted, fates);
    if s.run.status.Failed? { RevertValid(s.run.disk, s.p, s.run.fates, orig); }
    if s.run.status.Good? { FinishValid(s.run.disk, s.p, s.run.fates, orig); }
  }

  lemma ApplyValid(d: Disk, scope: string, c: Change, fates: seq<Fate>, orig: Settings)
    requires Valid(d, orig) && d.pending.None? && CanApply(d, scope, c)
    ensures Valid(Apply(d, scope, c, fates).disk, orig)
  {
    var p := PlanPending(d, scope, c);
    assert ProfileOk(ProfileOf(d, scope), d.store);
    GiveUpValid(d, scope, c, fates, Failed, orig);
    GiveUpValid(d, scope, c, fates, Good, orig);
    if !PlanFails(d, scope, c) && !c.dryRun {
      PendingValid(d, Some(p), fates, orig);
      var r := WritePending(d, Some(p), fates);
      if r.status.Failed? { GiveUpValid(r.disk, scope, c, r.fates, Failed, orig); }
      if r.status.Good? {
        ItemsOk(ProfileOf(d, scope), c.to, d.store);
        KeptOk(d.exposed.ledger, ItemsOf(ProfileOf(d, scope), c.to));
        CarryValid(r.disk, scope, c, p, PlanWanted(d, scope, c), r.fates, orig);
      }
    }
  }

  // --- commands

  datatype Command =
    // add, sync, update and remove: install store paths, stage a generation and apply it
    | Install(scope: string, strict: bool, paths: set<string>, gen: Generation, c: Change, recovery: seq<Fate>, fates: seq<Fate>)
    // rollback, and a change of lists or exposures alone: apply a generation that exists
    | Switch(scope: string, strict: bool, c: Change, recovery: seq<Fate>, fates: seq<Fate>)
    | Recovery(fates: seq<Fate>)
    // gc, stopped anywhere, leaves a disk that Collects allows
    | Collect(after: Disk)
    | UserEdits(scope: string, lists: Lists)
    // a setting or a path outside oku's directories
    | UserChanges(event: Event)

  /** What gc may do: nothing while a record is there, and else keep the active generations and what the kept ones use. */
  ghost predicate Collects(d: Disk, e: Disk) {
    if d.pending.Some? then e == d
    else
      && e.pending.None? && e.exposed == d.exposed && e.store <= d.store
      && forall s :: KeepsProfile(s, ProfileOf(d, s), ProfileOf(e, s), e.store)
  }

  /** The lists stay, and so does the active generation unless the profile is that of a project that is gone. */
  ghost predicate KeepsProfile(scope: string, p: Profile, q: Profile, store: set<string>) {
    && q.lists == p.lists
    && ((q.active == p.active && (q.active in p.gens ==> q.active in q.gens))
        || (scope != GLOBAL && p.lists.list.None? && q.active == 0 && q.gens == map[]))
    && (forall n :: n in q.gens ==> n in p.gens && q.gens[n] == p.gens[n] && Complete(p.gens[n], store))
  }

  /**
   * What a command does about a record before anything else. A strict one, which is
   * sync or update, refuses a dry run; every other one recovers even then.
   */
  function Prepare(d: Disk, strict: bool, c: Change, recovery: seq<Fate>): Run {
    if !(strict && c.dryRun) then Recover(d, recovery)
    else
      var r := Read(d, recovery);
      if r.status == Good && d.pending.Some? then r.(status := Failed) else r
  }

  /** The command as the user's machine can give it: a number that is new, a generation whose paths are installed. */
  ghost predicate CanDo(d: Disk, cmd: Command) {
    match cmd
    case Install(scope, strict, paths, gen, c, recovery, _) =>
      var e := Prepare(d, strict, c, recovery).disk;
      CanInstall(e, scope, paths, gen, c)
    case Switch(scope, strict, c, recovery, _) =>
      var e := Prepare(d, strict, c, recovery).disk;
      CanSwitch(e, scope, c)
    case Collect(after) => Collects(d, after)
    case UserChanges(event) => !event.Attempt?
    case _ => true
  }

  /** The number is above every generation, and what the generation names is installed with it. */
  ghost predicate CanInstall(d: Disk, scope: string, paths: set<string>, gen: Generation, c: Change) {
    && c.staged && c.to > 0 && GenOk(gen, d.store + paths)
    && (forall n :: n in ProfileOf(d, scope).gens || n == ProfileOf(d, scope).active ==> n < c.to)
  }

  predicate CanSwitch(d: Disk, scope: string, c: Change) {
    !c.staged && (c.to == ProfileOf(d, scope).active || c.to in ProfileOf(d, scope).gens)
  }

  function Stock(d: Disk, paths: set<string>): Disk {
    d.(store := d.store + paths)
  }

  function Edits(d: Disk, scope: string, lists: Lists): Disk {
    WithProfile(d, scope, ProfileOf(d, scope).(lists := lists))
  }

  function Touches(d: Disk, event: Event): Disk {
    d.(exposed := After(d.exposed, event))
  }

  ghost function Do(d: Disk, cmd: Command): Disk {
    match cmd
    case Install(scope, strict, paths, gen, c, recovery, fates) =>
      var r := Prepare(d, strict, c, recovery);
      if r.status != Good then r.disk
      else
        var s := Stage(Stock(r.disk, paths), scope, c.to, gen, fates);
        if s.status != Good then s.disk else Apply(s.disk, scope, c, s.fates).disk
    case Switch(scope, strict, c, recovery, fates) =>
      var r := Prepare(d, strict, c, recovery);
      if r.status != Good then r.disk else Apply(r.disk, scope, c, fates).disk
    case Recovery(fates) => Recover(d, fates).disk
    case Collect(after) => after
    case UserEdits(scope, lists) => Edits(d, scope, lists)
    case UserChanges(event) => Touches(d, event)
  }

  function Staged(d: Disk, scope: string, n: nat, gen: Generation): Disk {
    var p := ProfileOf(d, scope);
    WithProfile(d, scope, p.(gens := p.gens[n := gen]))
  }

  function Stage(d: Disk, scope: string, n: nat, gen: Generation, fates: seq<Fate>): Run {
    Step(d, Staged(d, scope, n, gen), fates)
  }

  lemma StageValid(d: Disk, scope: string, n: nat, gen: Generation, fates: seq<Fate>, orig: Settings)
    requires Valid(d, orig) && d.pending.None? && GenOk(gen, d.store)
    ensures Valid(Stage(d, scope, n, gen, fates).disk, orig)
  {
    var r := Stage(d, scope, n, gen, fates);
    forall s ensures ProfileOk(ProfileOf(r.disk, s), d.store) { assert ProfileOk(ProfileOf(d, s), d.store); }
  }

  lemma StockValid(d: Disk, paths: set<string>, orig: Settings)
    requires Valid(d, orig)
    ensures Valid(Stock(d, paths), orig)
  {
    var e := Stock(d, paths);
    forall s ensures ProfileOk(ProfileOf(e, s), e.store) { assert ProfileOk(ProfileOf(d, s), d.store); }
  }

  lemma PrepareValid(d: Disk, strict: bool, c: Change, recovery: seq<Fate>, orig: Settings)
    requires Valid(d, orig)
    ensures Valid(Prepare(d, strict, c, recovery).disk, orig)
    ensures Prepare(d, strict, c, recovery).status.Good? ==> Prepare(d, strict, c, recovery).disk.pending.None?
  {
    RecoverValid(d, recovery, orig);
  }

  /** A staged generation whose number is new can be applied. */
  lemma StageApplies(d: Disk, scope: string, c: Change, gen: Generation, fates: seq<Fate>)
    requires Stage(d, scope, c.to, gen, fates).status.Good? && ProfileOf(d, scope).active < c.to
    ensures CanApply(Stage(d, scope, c.to, gen, fates).disk, scope, c)
    ensures Stage(d, scope, c.to, gen, fates).disk == Staged(d, scope, c.to, gen)
  {
  }

  lemma InstallValid(d: Disk, cmd: Command, orig: Settings)
    requires Valid(d, orig) && CanDo(d, cmd) && cmd.Install?
    ensures Valid(Do(d, cmd), orig)
  {
    PrepareValid(d, cmd.strict, cmd.c, cmd.recovery, orig);
    var r := Prepare(d, cmd.strict, cmd.c, cmd.recovery);
    if r.status.Good? {
      var e := Stock(r.disk, cmd.paths);
      StockValid(r.disk, cmd.paths, orig);
      StageValid(e, cmd.scope, cmd.c.to, cmd.gen, cmd.fates, orig);
      var s := Stage(e, cmd.scope, cmd.c.to, cmd.gen, cmd.fates);
      if s.status.Good? {
        assert ProfileOf(e, cmd.scope) == ProfileOf(r.disk, cmd.scope);
        StageApplies(e, cmd.scope, cmd.c, cmd.gen, cmd.fates);
        ApplyValid(s.disk, cmd.scope, cmd.c, s.fates, orig);
      }
    }
  }

  lemma SwitchValid(d: Disk, cmd: Command, orig: Settings)
    requires Valid(d, orig) && CanDo(d, cmd) && cmd.Switch?
    ensures Valid(Do(d, cmd), orig)
  {
    PrepareValid(d, cmd.strict, cmd.c, cmd.recovery, orig);
    var r := Prepare(d, cmd.strict, cmd.c, cmd.recovery);
    assert ProfileOk(ProfileOf(r.disk, cmd.scope), r.disk.store);
    if r.status.Good? { ApplyValid(r.disk, cmd.scope, cmd.c, cmd.fates, orig); }
  }

  lemma CollectValid(d: Disk, after: Disk, orig: Settings)
    requires Valid(d, orig) && Collects(d, after)
    ensures Valid(after, orig)
  {
    if d.pending.None? {
      forall s ensures ProfileOk(ProfileOf(after, s), after.store) {
        assert ProfileOk(ProfileOf(d, s), d.store) && KeepsProfile(s, ProfileOf(d, s), ProfileOf(after, s), after.store);
      }
    }
  }

  lemma EditsValid(d: Disk, scope: string, lists: Lists, orig: Settings)
    requires Valid(d, orig)
    ensures Valid(Edits(d, scope, lists), orig)
  {
    var e := Edits(d, scope, lists);
    forall s ensures ProfileOf(e, s) == ProfileOf(d, s).(lists := ProfileOf(e, s).lists) {}
    forall s ensures ProfileOk(ProfileOf(e, s), d.store) { assert ProfileOk(ProfileOf(d, s), d.store); }
  }

  /** The values that oku is to give back follow what the user changes. */
  ghost function OrigFor(d: Disk, cmd: Command, orig: Settings): Settings {
    if cmd.UserChanges? then OrigAfter(d.exposed, cmd.event, orig) else orig
  }

  lemma TouchesValid(d: Disk, event: Event, orig: Settings)
    requires Valid(d, orig) && !event.Attempt?
    ensures Valid(Touches(d, event), OrigAfter(d.exposed, event, orig))
  {
    EventSafe(d.exposed, event, orig);
    assert forall s :: ProfileOf(Touches(d, event), s) == ProfileOf(d, s);
  }

  lemma DoValid(d: Disk, cmd: Command, orig: Settings)
    requires Valid(d, orig) && CanDo(d, cmd)
    ensures Valid(Do(d, cmd), OrigFor(d, cmd, orig))
  {
    match cmd
    case Install(_, _, _, _, _, _, _) => InstallValid(d, cmd, orig);
    case Switch(_, _, _, _, _) => SwitchValid(d, cmd, orig);
    case Recovery(fates) => RecoverValid(d, fates, orig);
    case Collect(after) => CollectValid(d, after, orig);
    case UserEdits(scope, lists) => EditsValid(d, scope, lists, orig);
    case UserChanges(event) => TouchesValid(d, event, orig);
  }

  ghost function Runs(d: Disk, cmds: seq<Command>): Disk
    decreases |cmds|
  {
    if cmds == [] then d else Runs(Do(d, cmds[0]), cmds[1..])
  }

  ghost function OrigAfterAll(d: Disk, cmds: seq<Command>, orig: Settings): Settings
    decreases |cmds|
  {
    if cmds == [] then orig else OrigAfterAll(Do(d, cmds[0]), cmds[1..], OrigFor(d, cmds[0], orig))
  }

  ghost predicate CanRun(d: Disk, cmds: seq<Command>)
    decreases |cmds|
  {
    cmds == [] || (CanDo(d, cmds[0]) && CanRun(Do(d, cmds[0]), cmds[1..]))
  }

  /**
   * Over every sequence of commands, crashes, collections and changes by the user:
   * whenever a record is there, the generation that its revert goes back to exists
   * with all its store paths; the active generation of every profile exists; and the
   * ledger leads every setting back and names all that oku made.
   */
  lemma {:induction false} RunsValid(d: Disk, cmds: seq<Command>, orig: Settings)
    requires Valid(d, orig) && CanRun(d, cmds)
    ensures Valid(Runs(d, cmds), OrigAfterAll(d, cmds, orig))
    ensures var last := Runs(d, cmds);
      last.pending.Some? && !last.pending.value.done && last.pending.value.from != 0 ==>
        var gens := ProfileOf(last, last.pending.value.project).gens;
        last.pending.value.from in gens && Complete(gens[last.pending.value.from], last.store)
    decreases |cmds|
  {
    if cmds == [] {
      if d.pending.Some? { assert ProfileOk(ProfileOf(d, d.pending.value.project), d.store); }
    } else {
      DoValid(d, cmds[0], orig);
      RunsValid(Do(d, cmds[0]), cmds[1..], OrigFor(d, cmds[0], orig));
    }
  }

  // --- dry runs

  /** A dry run that stages nothing leaves the machine as it finds it, or as the recovery leaves it when it is not strict. */
  lemma DryRunSwitch(d: Disk, cmd: Command)
    requires cmd.Switch? && CanDo(d, cmd) && cmd.c.dryRun
    ensures Do(d, cmd) == if cmd.strict then d else Recover(d, cmd.recovery).disk
  {
  }

  /** A dry run of rollback, with a change pending, puts the machine back. */
  lemma DryRunReverts()
    ensures var p := Pending("x", 1, 2, false, false, Lists(None, None), Lists(None, None), false, false);
      var gen := Generation([], [], [], 0);
      var d := Disk(map["x" := Profile(Lists(None, None), 2, map[1 := gen, 2 := gen])], Some(p), S.Exposed([], World(map[], map[])), {});
      var cmd := Switch("x", false, Change(2, false, false, None, [], true, false), [], []);
      CanDo(d, cmd) && Do(d, cmd) != d && Do(d, cmd).pending.None? && ProfileOf(Do(d, cmd), "x").active == 1
  {
  }
}
