// Changes and recoveries that meet no fault: they finish, whatever the crash left,
// and a change that cannot be made leaves nothing behind.
module ChangeLive {
  import opened Basics
  import opened Exposures
  import opened SyncSafety
  import opened SyncSettled
  import opened SyncLive
  import opened Change
  import opened ChangeSafety

  /** Of what a sync is to have, no two items share a path, and only oku's own is at their paths. */
  ghost predicate WayClear(was: seq<Item>, items: seq<Item>, system: bool, w: World) {
    && (forall i, j ::
          Wished(was, items, system, i) && Wished(was, items, system, j) && SameTarget(i, j) ==> i.entry == j.entry)
    && (forall i :: Wished(was, items, system, i) && !i.entry.kind.Setting? && i.entry.target in w.nodes ==>
          w.nodes[i.entry.target].ours)
  }

  lemma ClearWanted(was: seq<Item>, items: seq<Item>, system: bool, w: World, wanted: seq<Item>)
    requires WayClear(was, items, system, w) && forall i :: i in wanted ==> Wished(was, items, system, i)
    ensures OneTargetEach(wanted) && Clear(wanted, w)
  {
  }

  lemma {:induction false} PlacePassFates(todo: seq<Item>, items: seq<Item>, at: S.Exposed)
    ensures S.PlacePass(todo, items, at, []).fates == []
  {
    if todo != [] {
      if Wants(items, todo[0]) { PlacePassFates(todo[1..], items, at); }
      else {
        var r := S.PlaceOne(todo[0], items, at, []);
        if r.status.Good? { PlacePassFates(todo[1..], r.items, r.at); }
      }
    }
  }

  lemma ExposeWorks(d: Disk, scope: string, wanted: seq<Item>)
    requires scope == GLOBAL ==>
      AllNamed(d.exposed.ledger, d.exposed.world) && OneTargetEach(wanted) && Clear(wanted, d.exposed.world)
    ensures var r := Expose(d, scope, wanted, []); r.status.Good? && r.fates == []
  {
    if scope == GLOBAL {
      RunWorks(d.exposed, wanted);
      var items := S.Present(d.exposed.ledger, d.exposed.world);
      RemovePassWorks(items, wanted, items, d.exposed);
      var x := S.RemovePass(items, wanted, items, d.exposed, []);
      PlacePassFates(wanted, x.items, x.at);
    }
  }

  // --- recovery

  lemma RestoreListsWorks(d: Disk, p: Pending)
    ensures var r := RestoreLists(d, p, []); r.status.Good? && r.fates == []
  {
  }

  lemma RevertProfileWorks(d: Disk, p: Pending)
    requires p.project == GLOBAL ==>
      AllNamed(d.exposed.ledger, d.exposed.world)
      && OneTargetEach(RevertWanted(d, p)) && Clear(RevertWanted(d, p), d.exposed.world)
    ensures var r := RevertProfile(d, p, []); r.status.Good? && r.disk.pending.None?
  {
    var a := Activate(d, p.project, p.from, []);
    assert a.status.Good? && a.fates == [] && a.disk.exposed == d.exposed;
    assert RevertWanted(a.disk, p) == RevertWanted(d, p);
    ExposeWorks(a.disk, p.project, RevertWanted(a.disk, p));
  }

  /**
   * When nothing but oku's own is at the targets that the revert places, a recovery
   * that meets no fault succeeds and deletes the record.
   */
  lemma RecoveryWorks(d: Disk, p: Pending)
    requires d.pending == Some(p) && !p.done
    requires AllNamed(d.exposed.ledger, d.exposed.world)
    requires p.project == GLOBAL ==>
      WayClear(d.exposed.ledger, Listed(ProfileOf(d, p.project), p.from), p.elevated, d.exposed.world)
    ensures Recover(d, []).status.Good? && Recover(d, []).disk.pending.None?
  {
    RestoreListsWorks(d, p);
    RestoreListsGoal(d, p, []);
    var r := RestoreLists(d, p, []).disk;
    assert RevertWanted(r, p) == RevertWanted(d, p);
    assert ItemsOf(ProfileOf(d, p.project), p.from) == Listed(ProfileOf(d, p.project), p.from);
    if p.project == GLOBAL {
      ClearWanted(d.exposed.ledger, Listed(ProfileOf(d, p.project), p.from), p.elevated, d.exposed.world, RevertWanted(d, p));
    }
    RevertProfileWorks(r, p);
  }

  // --- a change

  /** What a change needs of the machine, and of what it is asked for, to be made. */
  ghost predicate CanSucceed(d: Disk, scope: string, c: Change) {
    var p := ProfileOf(d, scope);
    && d.pending.None? && !c.refused && !c.dryRun && (c.staged ==> c.to != p.active)
    && SystemCopies(d.exposed.ledger) && SystemCopies(Listed(p, p.active)) && SystemCopies(Listed(p, c.to))
    && (scope == GLOBAL ==>
          && AllNamed(d.exposed.ledger, d.exposed.world)
          && WayClear(d.exposed.ledger, Listed(p, c.to), c.system, d.exposed.world))
  }

  lemma {:induction false} CommitWorks(d: Disk, scope: string, edits: seq<Edit>)
    ensures var r := Commit(d, scope, edits, []); r.status.Good? && r.fates == []
    decreases |edits|
  {
    if edits != [] { CommitWorks(WriteText(d, scope, edits[0].file, Some(edits[0].text), []).disk, scope, edits[1..]); }
  }

  lemma CarryWorks(d: Disk, scope: string, c: Change, p: Pending, wanted: seq<Item>)
    requires scope == GLOBAL ==>
      AllNamed(d.exposed.ledger, d.exposed.world) && OneTargetEach(wanted) && Clear(wanted, d.exposed.world)
    ensures Carry(d, scope, c, p, wanted, []).status.Good?
  {
    var a := Activate(d, scope, c.to, []);
    assert a.status.Good? && a.fates == [] && a.disk.exposed == d.exposed;
    ExposeWorks(a.disk, scope, wanted);
    var x := Expose(a.disk, scope, wanted, []);
    var w := WritePending(x.disk, Some(p.(committing := true)), []);
    CommitWorks(w.disk, scope, c.commit);
  }

  lemma NotObstructed(d: Disk, scope: string, c: Change)
    requires CanSucceed(d, scope, c)
    ensures !Obstructed(d, scope, c)
  {
    if scope == GLOBAL {
      var was, w, items := d.exposed.ledger, d.exposed.world, Listed(ProfileOf(d, scope), c.to);
      forall i | Wished(was, items, c.system, i) && !i.entry.kind.Setting? ensures !Theirs(was, w, i.entry.target) {
        var t := i.entry.target;
        if t in w.nodes { assert w.nodes[t].ours && Names(was, t, w.nodes[t].link); }
      }
    }
  }

  /** A change that meets no fault is made in full, and its record deleted, when only oku's own is in its way. */
  lemma ApplyWorks(d: Disk, scope: string, c: Change)
    requires CanSucceed(d, scope, c)
    ensures var r := Apply(d, scope, c, []); r.status.Good? && r.disk.pending.None? && After(d, scope, c, r.disk)
  {
    NotObstructed(d, scope, c);
    PlanRefuses(d, scope, c);
    var p, wanted := PlanPending(d, scope, c), PlanWanted(d, scope, c);
    forall i | i in wanted ensures Wished(d.exposed.ledger, Listed(ProfileOf(d, scope), c.to), c.system, i) {
      PlanWishes(d, scope, c, i);
    }
    if scope == GLOBAL {
      ClearWanted(d.exposed.ledger, Listed(ProfileOf(d, scope), c.to), c.system, d.exposed.world, wanted);
    }
    var r := WritePending(d, Some(p), []);
    CarryWorks(r.disk, scope, c, p, wanted);
    assert ItemsOf(ProfileOf(d, scope), c.to) == Listed(ProfileOf(d, scope), c.to);
    assert ItemsOf(ProfileOf(d, scope), p.from) == Listed(ProfileOf(d, scope), p.from);
    ApplySafe(d, scope, c, []);
  }

  /** A change that is refused, or a dry run, leaves the disk as it was without its staged generation. */
  lemma ApplyRefuses(d: Disk, scope: string, c: Change)
    requires d.pending.None? && (c.refused || c.dryRun || Obstructed(d, scope, c))
    ensures var r := Apply(d, scope, c, []);
      && (r.status.Good? <==> !c.refused && !Obstructed(d, scope, c))
      && r.disk == d.(profiles := r.disk.profiles)
      && (forall s :: s != scope || !c.staged ==> ProfileOf(r.disk, s) == ProfileOf(d, s))
      && (c.staged ==> ProfileOf(r.disk, scope) == ProfileOf(d, scope).(gens := ProfileOf(d, scope).gens - {c.to}))
  {
    PlanRefuses(d, scope, c);
  }

  /**
   * A change that was made but whose record could not be deleted is not undone: the
   * record says that it is done, and the next recovery only deletes it.
   */
  lemma DoneStays(d: Disk, scope: string, c: Change, p: Pending, wanted: seq<Item>, fates: seq<Fate>)
    requires var s := Perform(d, scope, c, p, wanted, fates).run;
      s.status.Good? && Next(s.fates).Fails? && Next(Rest(s.fates)).Works?
    ensures var made := Perform(d, scope, c, p, wanted, fates).run.disk;
      var r := Carry(d, scope, c, p, wanted, fates);
      && r.status.Failed? && r.disk.(pending := None) == made.(pending := None) && r.disk.pending.Some?
      && Recover(r.disk, []).status.Good? && Recover(r.disk, []).disk == made.(pending := None)
  {
  }
}
