// All or nothing over whole runs. A machine on which a change is made at once,
// undone at once or given up, and only the user and gc do anything else, goes
// through every sequence of commands and crashes as the real one does.
module History {
  import opened Basics
  import opened Exposures
  import opened SyncSafety
  import opened SyncSettled
  import opened SyncRuns
  import opened Change
  import opened ChangeSafety
  import opened Commands

  /** A change that has begun, and the lists that undoing it leaves. */
  datatype Open = Open(p: Pending, goal: Lists)

  /** The machine without the change that has begun, and that change. */
  datatype Mark = Mark(disk: Disk, open: Option<Open>)

  /** d is what a mark stands for: that machine itself, or one on which the change in flight can be undone. */
  ghost predicate Shows(m: Mark, d: Disk) {
    && m.disk.pending.None?
    && match m.open
       case None => m.disk == d.(pending := None) && (d.pending.Some? ==> d.pending.value.done)
       case Some(o) => Undoable(m.disk, o, d)
  }

  ghost predicate Undoable(d0: Disk, o: Open, d: Disk) {
    && InFlight(d0, o.p, d, o.goal) && Sane(d0, o.p)
    && !o.p.committing && !o.p.done && o.p.from == ProfileOf(d0, o.p.project).active
  }

  // --- the steps, each of them whole

  /** Nothing happens, or the open change is undone in full. */
  ghost predicate Clears(m: Mark, n: Mark) {
    m == n || (m.open.Some? && n.open.None? && Restored(m.disk, m.open.value.p, n.disk, m.open.value.goal))
  }

  /** What a command does about the open change: a strict dry run leaves it, every other command may undo it. */
  ghost predicate Prepares(m: Mark, n: Mark, strict: bool, c: Change) {
    if strict && c.dryRun then m == n else Clears(m, n)
  }

  /** The change is begun, made in full, undone in full or given up. */
  ghost predicate Applies(d: Disk, scope: string, c: Change, n: Mark) {
    var p := PlanPending(d, scope, c);
    if n.open.Some? then !c.refused && !Obstructed(d, scope, c) && !c.dryRun && n == Mark(d, Some(Open(p, p.before)))
    else
      || Abandoned(d, p, n.disk)
      || (!c.refused && !Obstructed(d, scope, c) && !c.dryRun && n.disk.pending.None?
          && (AllAfter(d, c, p, n.disk) || AllBefore(d, p, n.disk, p.before)))
  }

  /** Store paths are installed, then the generation is staged, then the change applies; each only after the one before. */
  ghost predicate Installs(d: Disk, scope: string, paths: set<string>, gen: Generation, c: Change, n: Mark) {
    var p, stocked := ProfileOf(d, scope), d.(store := d.store + paths);
    var ready := WithProfile(stocked, scope, p.(gens := p.gens[c.to := gen]));
    && CanInstall(d, scope, paths, gen, c)
    && (n == Mark(stocked, None) || n == Mark(ready, None) || Applies(ready, scope, c, n))
  }

  ghost predicate Switches(d: Disk, scope: string, c: Change, n: Mark) {
    CanSwitch(d, scope, c) && Applies(d, scope, c, n)
  }

  /** The user's lists are on the machine, or are what the revert of the open change is to leave of them. */
  ghost predicate EditsMark(m: Mark, scope: string, lists: Lists, n: Mark) {
    if m.open.Some? && scope == m.open.value.p.project
    then n.disk == m.disk && n.open.Some? && n.open.value.p == m.open.value.p && KeptBy(n.open.value, lists)
    else n == m.(disk := WithProfile(m.disk, scope, ProfileOf(m.disk, scope).(lists := lists)))
  }

  /** Before the commit begins, each file that the user changed is kept; from then on none is. */
  ghost predicate KeptBy(o: Open, lists: Lists) {
    o.goal == o.p.before || forall f: File :: Text(o.goal, f) == Goal(o.p, f, Text(lists, f))
  }

  /** One command on the marked machine. */
  ghost predicate Goes(m: Mark, n: Mark, cmd: Command) {
    match cmd
    case Install(scope, strict, paths, gen, c, _, _) =>
      exists a :: Prepares(m, a, strict, c) && (n == a || (a.open.None? && Installs(a.disk, scope, paths, gen, c, n)))
    case Switch(scope, strict, c, _, _) =>
      exists a :: Prepares(m, a, strict, c) && (n == a || (a.open.None? && Switches(a.disk, scope, c, n)))
    case Recovery(_) => Clears(m, n)
    case Collect(after) => m == n || (m.open.None? && n == Mark(after, None) && Collects(m.disk, after))
    case UserEdits(scope, lists) => EditsMark(m, scope, lists, n)
    case UserChanges(event) => n == m.(disk := Touches(m.disk, event))
  }

  // --- recovery

  lemma ShowsAgrees(m: Mark, d: Disk)
    requires Shows(m, d) && m.open.Some?
    ensures d.pending.Some? && Agrees(m.open.value.p, d.pending.value, m.open.value.goal) && !d.pending.value.done
  {
    var p, goal := m.open.value.p, m.open.value.goal;
    if d.pending.value.committing {
      forall f: File ensures Text(goal, f) == Text(p.before, f) {
        assert Goal(d.pending.value, f, TextOf(d, p.project, f)) == Text(goal, f);
      }
      SameLists(goal, p.before);
    }
  }

  /** A recovery cut anywhere undoes the open change or leaves it, and undoes it when it succeeds. */
  lemma RecoverGoes(m: Mark, d: Disk, fates: seq<Fate>) returns (n: Mark)
    requires Shows(m, d)
    ensures Clears(m, n) && Shows(n, Recover(d, fates).disk)
    ensures Recover(d, fates).status.Good? ==> n == Mark(Recover(d, fates).disk, None)
  {
    n := m;
    if m.open.Some? {
      var o := m.open.value;
      ShowsAgrees(m, d);
      RevertSafe(m.disk, o.p, d.pending.value, d, o.goal, Rest(fates));
      var e := Recover(d, fates).disk;
      if Restored(m.disk, o.p, e, o.goal) { n := Mark(e, None); }
    }
  }

  lemma PrepareGoes(m: Mark, d: Disk, strict: bool, c: Change, recovery: seq<Fate>) returns (n: Mark)
    requires Shows(m, d)
    ensures Prepares(m, n, strict, c) && Shows(n, Prepare(d, strict, c, recovery).disk)
    ensures Prepare(d, strict, c, recovery).status.Good? ==> n == Mark(Prepare(d, strict, c, recovery).disk, None)
  {
    if strict && c.dryRun {
      n := m;
      if d.pending.None? { assert d.(pending := None) == d; }
    } else {
      n := RecoverGoes(m, d, recovery);
    }
  }

  // --- a change

  lemma SaneWhenValid(d: Disk, scope: string, c: Change, orig: Settings)
    requires Valid(d, orig) && CanApply(d, scope, c)
    ensures Sane(d, PlanPending(d, scope, c))
  {
    var p := ProfileOf(d, scope);
    assert ProfileOk(p, d.store);
    ItemsOk(p, p.active, d.store);
    ItemsOk(p, c.to, d.store);
  }

  /** An apply cut anywhere leaves the change begun, or made, undone or given up in full. */
  lemma ApplyGoes(d: Disk, scope: string, c: Change, fates: seq<Fate>, orig: Settings) returns (n: Mark)
    requires Valid(d, orig) && CanApply(d, scope, c) && d.pending.None?
    ensures Applies(d, scope, c, n) && Shows(n, Apply(d, scope, c, fates).disk)
  {
    SaneWhenValid(d, scope, c, orig);
    PlanRefuses(d, scope, c);
    ApplySafe(d, scope, c, fates);
    var p, e := PlanPending(d, scope, c), Apply(d, scope, c, fates).disk;
    if Abandoned(d, p, e) || Restored(d, p, e, p.before) {
      n := Mark(e, None);
    } else if InFlight(d, p, e, p.before) {
      n := Mark(d, Some(Open(p, p.before)));
    } else {
      AfterWithRecord(d, c, p, e, None);
      n := Mark(e.(pending := None), None);
    }
  }

  // --- the commands

  lemma InstallGoes(m: Mark, d: Disk, cmd: Command, orig: Settings) returns (n: Mark)
    requires Valid(d, orig) && CanDo(d, cmd) && cmd.Install? && Shows(m, d)
    ensures Goes(m, n, cmd) && Shows(n, Do(d, cmd))
  {
    var a := PrepareGoes(m, d, cmd.strict, cmd.c, cmd.recovery);
    n := a;
    PrepareValid(d, cmd.strict, cmd.c, cmd.recovery, orig);
    if Prepare(d, cmd.strict, cmd.c, cmd.recovery).status.Good? { n := StagesGo(a.disk, cmd, orig); }
  }

  lemma StagesGo(d: Disk, cmd: Command, orig: Settings) returns (n: Mark)
    requires Valid(d, orig) && d.pending.None? && cmd.Install? && CanInstall(d, cmd.scope, cmd.paths, cmd.gen, cmd.c)
    ensures Installs(d, cmd.scope, cmd.paths, cmd.gen, cmd.c, n)
    ensures var s := Stage(Stock(d, cmd.paths), cmd.scope, cmd.c.to, cmd.gen, cmd.fates);
      Shows(n, if s.status != Good then s.disk else Apply(s.disk, cmd.scope, cmd.c, s.fates).disk)
  {
    var stocked := Stock(d, cmd.paths);
    StockValid(d, cmd.paths, orig);
    var s := Stage(stocked, cmd.scope, cmd.c.to, cmd.gen, cmd.fates);
    n := Mark(s.disk, None);
    if s.status.Good? {
      StageValid(stocked, cmd.scope, cmd.c.to, cmd.gen, cmd.fates, orig);
      assert ProfileOf(stocked, cmd.scope) == ProfileOf(d, cmd.scope);
      StageApplies(stocked, cmd.scope, cmd.c, cmd.gen, cmd.fates);
      n := ApplyGoes(s.disk, cmd.scope, cmd.c, s.fates, orig);
    }
  }

  lemma SwitchGoes(m: Mark, d: Disk, cmd: Command, orig: Settings) returns (n: Mark)
    requires Valid(d, orig) && CanDo(d, cmd) && cmd.Switch? && Shows(m, d)
    ensures Goes(m, n, cmd) && Shows(n, Do(d, cmd))
  {
    var a := PrepareGoes(m, d, cmd.strict, cmd.c, cmd.recovery);
    n := a;
    PrepareValid(d, cmd.strict, cmd.c, cmd.recovery, orig);
    var r := Prepare(d, cmd.strict, cmd.c, cmd.recovery);
    if r.status.Good? {
      assert ProfileOk(ProfileOf(r.disk, cmd.scope), r.disk.store);
      n := ApplyGoes(r.disk, cmd.scope, cmd.c, cmd.fates, orig);
    }
  }

  /** What a revert is to leave of lists that the user wrote while the record q was there. */
  function GoalOf(q: Pending, lists: Lists): Lists {
    Lists(Goal(q, ListFile, lists.list), Goal(q, LockFile, lists.lock))
  }

  lemma EditsGo(m: Mark, d: Disk, scope: string, lists: Lists) returns (n: Mark)
    requires Shows(m, d)
    ensures EditsMark(m, scope, lists, n) && Shows(n, Edits(d, scope, lists))
  {
    if m.open.Some? && scope == m.open.value.p.project {
      var o, q := m.open.value, d.pending.value;
      var next := GoalOf(q, lists);
      forall f: File ensures Text(next, f) == Goal(q, f, Text(lists, f)) {}
      n := Mark(m.disk, Some(o.(goal := next)));
      assert Middle(m.disk, o.p, Edits(d, scope, lists)) && Aims(Edits(d, scope, lists), next);
      if q.committing { SameLists(next, o.p.before); }
    } else {
      n := m.(disk := Edits(m.disk, scope, lists));
      if m.open.Some? { EditsElsewhere(m, m.open.value, d, scope, lists); }
    }
  }

  lemma EditsElsewhere(m: Mark, o: Open, d: Disk, scope: string, lists: Lists)
    requires Shows(m, d) && m.open == Some(o) && scope != o.p.project
    ensures Shows(m.(disk := Edits(m.disk, scope, lists)), Edits(d, scope, lists))
  {
    var e, t := Edits(d, scope, lists), Edits(m.disk, scope, lists);
    assert ProfileOf(e, o.p.project) == ProfileOf(d, o.p.project) && ProfileOf(t, o.p.project) == ProfileOf(m.disk, o.p.project);
    forall x | x != o.p.project ensures ProfileOf(e, x) == ProfileOf(t, x) { assert ProfileOf(d, x) == ProfileOf(m.disk, x); }
    assert Middle(t, o.p, e) && Aims(e, o.goal);
  }

  lemma TouchesGo(m: Mark, d: Disk, event: Event) returns (n: Mark)
    requires Shows(m, d) && !event.Attempt?
    ensures n == m.(disk := Touches(m.disk, event)) && Shows(n, Touches(d, event))
  {
    n := m.(disk := Touches(m.disk, event));
    if m.open.Some? {
      var o, e := m.open.value, Touches(d, event);
      assert forall x :: ProfileOf(e, x) == ProfileOf(d, x) && ProfileOf(n.disk, x) == ProfileOf(m.disk, x);
      assert Middle(n.disk, o.p, e) && Aims(e, o.goal);
    }
  }

  lemma CollectGoes(m: Mark, d: Disk, after: Disk) returns (n: Mark)
    requires Shows(m, d) && Collects(d, after)
    ensures Goes(m, n, Collect(after)) && Shows(n, after)
  {
    n := m;
    if d.pending.None? {
      assert d.(pending := None) == d && after.(pending := None) == after;
      n := Mark(after, None);
    }
  }

  lemma DoGoes(m: Mark, d: Disk, cmd: Command, orig: Settings) returns (n: Mark)
    requires Valid(d, orig) && CanDo(d, cmd) && Shows(m, d)
    ensures Goes(m, n, cmd) && Shows(n, Do(d, cmd))
  {
    match cmd
    case Install(_, _, _, _, _, _, _) => n := InstallGoes(m, d, cmd, orig);
    case Switch(_, _, _, _, _) => n := SwitchGoes(m, d, cmd, orig);
    case Recovery(fates) => n := RecoverGoes(m, d, fates);
    case Collect(after) => n := CollectGoes(m, d, after);
    case UserEdits(scope, lists) => n := EditsGo(m, d, scope, lists);
    case UserChanges(event) => n := TouchesGo(m, d, event);
  }

  // --- every run

  /** One mark before each command and one after the last, each from the one before by its command. */
  ghost predicate Trail(marks: seq<Mark>, d: Disk, cmds: seq<Command>) {
    && |marks| == |cmds| + 1
    && (forall k :: 0 <= k < |cmds| ==> Goes(marks[k], marks[k + 1], cmds[k]))
    && (forall k :: 0 <= k <= |cmds| ==> Shows(marks[k], Runs(d, cmds[..k])))
  }

  lemma TrailFrom(m: Mark, d: Disk, cmds: seq<Command>, rest: seq<Mark>)
    requires cmds != [] && Shows(m, d) && Trail(rest, Do(d, cmds[0]), cmds[1..]) && Goes(m, rest[0], cmds[0])
    ensures Trail([m] + rest, d, cmds)
  {
    var marks := [m] + rest;
    forall k | 0 <= k < |cmds| ensures Goes(marks[k], marks[k + 1], cmds[k]) {
      if k > 0 { assert Goes(rest[k - 1], rest[k], cmds[1..][k - 1]); }
    }
    forall k | 0 <= k <= |cmds| ensures Shows(marks[k], Runs(d, cmds[..k])) {
      if k > 0 {
        assert cmds[..k][0] == cmds[0] && cmds[..k][1..] == cmds[1..][..k - 1];
        assert Shows(rest[k - 1], Runs(Do(d, cmds[0]), cmds[1..][..k - 1]));
      }
    }
  }

  lemma {:induction false} RunGoes(m: Mark, d: Disk, cmds: seq<Command>, orig: Settings) returns (marks: seq<Mark>)
    requires Valid(d, orig) && CanRun(d, cmds) && Shows(m, d)
    ensures Trail(marks, d, cmds) && marks[0] == m
    decreases |cmds|
  {
    if cmds == [] {
      marks := [m];
    } else {
      var n := DoGoes(m, d, cmds[0], orig);
      DoValid(d, cmds[0], orig);
      var rest := RunGoes(n, Do(d, cmds[0]), cmds[1..], OrigFor(d, cmds[0], orig));
      TrailFrom(m, d, cmds, rest);
      marks := [m] + rest;
    }
  }

  /**
   * All or nothing over every run: from a machine without a record, whatever
   * commands run and wherever they are cut, the machine goes with each command as
   * one on which every step is whole. Whenever no record is left, it is that machine.
   */
  lemma WholeSteps(d: Disk, cmds: seq<Command>, orig: Settings) returns (marks: seq<Mark>)
    requires Valid(d, orig) && d.pending.None? && CanRun(d, cmds)
    ensures Trail(marks, d, cmds) && marks[0] == Mark(d, None)
    ensures forall k :: 0 <= k <= |cmds| && Runs(d, cmds[..k]).pending.None? ==> marks[k] == Mark(Runs(d, cmds[..k]), None)
  {
    assert d.(pending := None) == d;
    marks := RunGoes(Mark(d, None), d, cmds, orig);
    forall k | 0 <= k <= |cmds| && Runs(d, cmds[..k]).pending.None? ensures marks[k] == Mark(Runs(d, cmds[..k]), None) {
      var e := Runs(d, cmds[..k]);
      assert Shows(marks[k], e) && e.(pending := None) == e;
    }
  }
}
