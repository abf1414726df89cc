// All or nothing: a change cut anywhere, and recoveries cut anywhere, end with
// everything as before the change or everything as after it.
module ChangeSafety {
  import opened Basics
  import opened Exposures
  import opened SyncSettled
  import opened Change

  // --- the two list files

  /** What a revert makes of a file that now holds `now`. */
  function Goal(p: Pending, f: File, now: Option<string>): Option<string> {
    if Keeps(p, f, now) then now else Text(p.before, f)
  }

  function TextOf(d: Disk, scope: string, f: File): Option<string> {
    Text(ProfileOf(d, scope).lists, f)
  }

  /** Only the list files of scope may differ. */
  ghost predicate OnlyLists(d: Disk, e: Disk, scope: string) {
    && e.pending == d.pending && e.exposed == d.exposed && e.store == d.store
    && ProfileOf(e, scope).active == ProfileOf(d, scope).active
    && ProfileOf(e, scope).gens == ProfileOf(d, scope).gens
    && forall s :: s != scope ==> ProfileOf(e, s) == ProfileOf(d, s)
  }

  lemma RestoreFileGoal(d: Disk, p: Pending, f: File, fates: seq<Fate>)
    ensures var r, now := RestoreFile(d, p, f, fates), TextOf(d, p.project, f);
      && OnlyLists(d, r.disk, p.project)
      && (TextOf(r.disk, p.project, f) == now || TextOf(r.disk, p.project, f) == Goal(p, f, now))
      && (r.status.Good? ==> TextOf(r.disk, p.project, f) == Goal(p, f, now))
      && forall g: File :: g != f ==> TextOf(r.disk, p.project, g) == TextOf(d, p.project, g)
  {
  }

  lemma RestoreListsGoal(d: Disk, p: Pending, fates: seq<Fate>)
    ensures var r := RestoreLists(d, p, fates);
      && OnlyLists(d, r.disk, p.project)
      && forall f: File ::
        var now := TextOf(d, p.project, f);
        && (TextOf(r.disk, p.project, f) == now || TextOf(r.disk, p.project, f) == Goal(p, f, now))
        && (r.status.Good? ==> TextOf(r.disk, p.project, f) == Goal(p, f, now))
  {
    RestoreFileGoal(d, p, ListFile, fates);
    var r := RestoreFile(d, p, ListFile, fates);
    if r.status.Good? { RestoreFileGoal(r.disk, p, LockFile, r.fates); }
  }

  // --- what a change in flight can have done to the machine `d0` it found

  ghost predicate Elsewhere(d0: Disk, d: Disk, scope: string) {
    && d.store == d0.store
    && (forall s :: s != scope ==> ProfileOf(d, s) == ProfileOf(d0, s))
    && (scope != GLOBAL ==> d.exposed == d0.exposed)
  }

  function GensAfter(p: Pending, gens: map<nat, Generation>): map<nat, Generation> {
    if p.staged then gens - {p.to} else gens
  }

  ghost predicate GensOk(d0: Disk, p: Pending, d: Disk) {
    var gens := ProfileOf(d0, p.project).gens;
    ProfileOf(d, p.project).gens == gens || ProfileOf(d, p.project).gens == GensAfter(p, gens)
  }

  ghost predicate SystemOk(d0: Disk, p: Pending, d: Disk) {
    && SystemCopies(d.exposed.ledger)
    && (!p.elevated ==> SameSystem(d.exposed.ledger, d0.exposed.ledger))
  }

  /** What a revert that knows no more than the record makes of the lists. */
  ghost predicate Aims(d: Disk, goal: Lists)
    requires d.pending.Some?
  {
    forall f: File :: Goal(d.pending.value, f, TextOf(d, d.pending.value.project, f)) == Text(goal, f)
  }

  ghost predicate Middle(d0: Disk, p: Pending, d: Disk) {
    Elsewhere(d0, d, p.project) && GensOk(d0, p, d) && SystemOk(d0, p, d)
  }

  /** The record of the change is on disk, and a revert can still run, which leaves the lists as goal. */
  ghost predicate InFlight(d0: Disk, p: Pending, d: Disk, goal: Lists) {
    && Middle(d0, p, d)
    && d.pending.Some? && d.pending.value == p.(committing := d.pending.value.committing)
    && Aims(d, goal)
  }

  /** The items that generation n lists. */
  ghost function Listed(p: Profile, n: nat): seq<Item> {
    if n in p.gens then p.gens[n].items else []
  }

  /**
   * Outside system scope the ledger holds the items, and else at most links that
   * someone deleted. In system scope it holds theirs, or without `system` those of was.
   */
  ghost predicate Exposes(was: seq<Item>, items: seq<Item>, system: bool, at: S.Exposed) {
    && (forall i :: i in items && !i.entry.system ==> HasEntry(at.ledger, i.entry))
    && (forall i :: i in at.ledger && !i.entry.system ==> HasEntry(items, i.entry) || IsDeletedLink(i, at.world))
    && (forall e: Entry :: e.system ==> (HasEntry(at.ledger, e) <==> HasEntry(if system then items else was, e)))
  }

  /** Everything is as before the change, with goal for the lists. */
  ghost predicate AllBefore(d0: Disk, p: Pending, d: Disk, goal: Lists) {
    && Elsewhere(d0, d, p.project) && SystemOk(d0, p, d)
    && ProfileOf(d, p.project) == Profile(goal, p.from, GensAfter(p, ProfileOf(d0, p.project).gens))
    && (p.project == GLOBAL ==>
          Exposes(d0.exposed.ledger, Listed(ProfileOf(d0, p.project), p.from), p.elevated, d.exposed))
  }

  ghost predicate Restored(d0: Disk, p: Pending, d: Disk, goal: Lists) {
    d.pending.None? && AllBefore(d0, p, d, goal)
  }

  /** The change and its generations keep system scope to apps, fonts and services. */
  ghost predicate Sane(d0: Disk, p: Pending) {
    && SystemCopies(d0.exposed.ledger)
    && SystemCopies(ItemsOf(ProfileOf(d0, p.project), p.from))
    && SystemCopies(ItemsOf(ProfileOf(d0, p.project), p.to))
    && (p.staged ==> p.to != p.from)
  }

  // --- a sync inside the change

  lemma KeepSystemCopies(have: seq<Item>, wanted: seq<Item>)
    requires SystemCopies(have) && SystemCopies(wanted)
    ensures SystemCopies(KeepSystem(have, wanted))
  {
  }

  lemma WantsKept(have: seq<Item>, wanted: seq<Item>, i: Item)
    ensures Wants(KeepSystem(have, wanted), i) <==> if i.entry.system then Wants(have, i) else Wants(wanted, i)
  {
    var kept := KeepSystem(have, wanted);
    if i.entry.system {
      if Wants(have, i) { var j :| j in have && j.entry == i.entry; assert j in kept; }
    } else {
      if Wants(wanted, i) { var j :| j in wanted && j.entry == i.entry; assert j in kept; }
    }
  }

  /** A ledger that matches what a sync was given exposes the items that this was made of. */
  lemma MatchesExposes(was: seq<Item>, items: seq<Item>, system: bool, wanted: seq<Item>, at: S.Exposed)
    requires FileMatches(at, wanted) && SystemCopies(at.ledger)
    requires forall i: Item :: Wants(wanted, i) <==> Wants(if i.entry.system && !system then was else items, i)
    ensures Exposes(was, items, system, at)
  {
    MatchesEntries(at, wanted);
    forall i: Item ensures HasEntry(wanted, i.entry) <==> HasEntry(if i.entry.system && !system then was else items, i.entry) {
      assert Wants(wanted, i) <==> HasEntry(wanted, i.entry);
    }
    forall e: Entry | e.system ensures HasEntry(at.ledger, e) <==> HasEntry(if system then items else was, e) {
      var i := Item(e, None, 0);
      assert i.entry == e;
    }
    forall i | i in items && !i.entry.system ensures HasEntry(at.ledger, i.entry) { assert Wants(items, i); }
  }

  lemma ExposeMiddle(d0: Disk, p: Pending, d: Disk, wanted: seq<Item>, fates: seq<Fate>)
    requires Middle(d0, p, d) && SystemCopies(wanted)
    requires p.project == GLOBAL && !p.elevated ==> SystemAsIs(d.exposed.ledger, wanted)
    ensures var r := Expose(d, p.project, wanted, fates);
      && Middle(d0, p, r.disk) && r.disk == d.(exposed := r.disk.exposed)
      && (r.status.Good? && p.project == GLOBAL ==> FileMatches(r.disk.exposed, wanted))
  {
    var r := Expose(d, p.project, wanted, fates);
    if p.project == GLOBAL && Next(fates).Works? {
      RunMatches(d.exposed, wanted, Rest(fates));
      RunSystemCopies(d.exposed, wanted, Rest(fates));
      if !p.elevated {
        RunKeepsSystem(d.exposed, wanted, Rest(fates));
        assert SameSystem(r.disk.exposed.ledger, d0.exposed.ledger);
      }
      assert SystemOk(d0, p, r.disk);
    }
  }

  // --- the revert

  /** q is p as a process has it in memory: it may know of a commit that the record on disk does not. */
  ghost predicate SameChange(p: Pending, q: Pending) {
    q == p.(committing := q.committing)
  }

  ghost predicate Known(d: Disk, q: Pending) {
    d.pending.Some? && (d.pending.value.committing ==> q.committing)
  }

  ghost predicate Undone(d0: Disk, p: Pending, r: Run, goal: Lists) {
    (InFlight(d0, p, r.disk, goal) || Restored(d0, p, r.disk, goal)) && (r.status.Good? ==> Restored(d0, p, r.disk, goal))
  }

  /** A commit that only the process knows of began with the lists as the change found them. */
  ghost predicate Agrees(p: Pending, q: Pending, goal: Lists) {
    SameChange(p, q) && (q.committing ==> goal == p.before)
  }

  lemma SameLists(a: Lists, b: Lists)
    requires forall f: File :: Text(a, f) == Text(b, f)
    ensures a == b
  {
    assert a.list == Text(a, ListFile) && a.lock == Text(a, LockFile);
    assert b.list == Text(b, ListFile) && b.lock == Text(b, LockFile);
  }

  lemma RestoreListsSafe(d0: Disk, p: Pending, q: Pending, d: Disk, goal: Lists, fates: seq<Fate>)
    requires InFlight(d0, p, d, goal) && Agrees(p, q, goal) && Known(d, q)
    ensures var r := RestoreLists(d, q, fates);
      && InFlight(d0, p, r.disk, goal) && r.disk.pending == d.pending
      && (r.status.Good? ==> ProfileOf(r.disk, p.project).lists == goal)
  {
    RestoreListsGoal(d, q, fates);
    var r := RestoreLists(d, q, fates);
    forall f: File ensures Goal(d.pending.value, f, TextOf(r.disk, p.project, f)) == Text(goal, f) {
      assert Goal(d.pending.value, f, TextOf(d, p.project, f)) == Text(goal, f);
    }
    if r.status.Good? { SameLists(ProfileOf(r.disk, p.project).lists, goal); }
  }

  /** The lists and the generation are back, and so are the exposed items. */
  ghost predicate PutBack(d0: Disk, p: Pending, d: Disk, goal: Lists) {
    && InFlight(d0, p, d, goal)
    && ProfileOf(d, p.project).lists == goal && ProfileOf(d, p.project).active == p.from
    && (p.project == GLOBAL ==>
          Exposes(d0.exposed.ledger, Listed(ProfileOf(d0, p.project), p.from), p.elevated, d.exposed))
  }

  lemma DiscardSafe(d0: Disk, p: Pending, q: Pending, d: Disk, goal: Lists, fates: seq<Fate>)
    requires PutBack(d0, p, d, goal) && SameChange(p, q)
    ensures var r := if q.staged then Discard(d, q.project, q.to, fates) else Run(d, fates, Good);
      && PutBack(d0, p, r.disk, goal)
      && (r.status.Good? ==> ProfileOf(r.disk, p.project).gens == GensAfter(p, ProfileOf(d0, p.project).gens))
  {
    var gens := ProfileOf(d0, p.project).gens;
    assert gens - {p.to} - {p.to} == gens - {p.to};
  }

  lemma RevertStagedSafe(d0: Disk, p: Pending, q: Pending, d: Disk, goal: Lists, fates: seq<Fate>)
    requires PutBack(d0, p, d, goal) && SameChange(p, q)
    ensures Undone(d0, p, RevertStaged(d, q, fates), goal)
  {
    DiscardSafe(d0, p, q, d, goal, fates);
  }

  /** What a revert exposes now is what it would have exposed on the machine that the change found. */
  lemma RevertExposes(d0: Disk, p: Pending, q: Pending, d: Disk, at: S.Exposed)
    requires Middle(d0, p, d) && SameChange(p, q) && SystemCopies(at.ledger)
    requires FileMatches(at, RevertWanted(d, q)) && ItemsOf(ProfileOf(d, p.project), p.from) == ItemsOf(ProfileOf(d0, p.project), p.from)
    ensures Exposes(d0.exposed.ledger, Listed(ProfileOf(d0, p.project), p.from), p.elevated, at)
  {
    var items := ItemsOf(ProfileOf(d0, p.project), p.from);
    assert items == Listed(ProfileOf(d0, p.project), p.from);
    forall i: Item
      ensures Wants(RevertWanted(d, q), i) <==> Wants(if i.entry.system && !p.elevated then d0.exposed.ledger else items, i)
    {
      if !p.elevated { WantsKept(d.exposed.ledger, items, i); }
    }
    MatchesExposes(d0.exposed.ledger, items, p.elevated, RevertWanted(d, q), at);
  }

  /** What a change is to expose: its generation, with system scope as the user agreed. */
  lemma PlanExposes(d0: Disk, scope: string, c: Change, at: S.Exposed)
    requires FileMatches(at, PlanWanted(d0, scope, c)) && SystemCopies(at.ledger)
    ensures Exposes(d0.exposed.ledger, Listed(ProfileOf(d0, scope), c.to), c.system, at)
  {
    var items, was := ItemsOf(ProfileOf(d0, scope), c.to), d0.exposed.ledger;
    assert items == Listed(ProfileOf(d0, scope), c.to);
    forall i: Item
      ensures Wants(PlanWanted(d0, scope, c), i) <==> Wants(if i.entry.system && !c.system then was else items, i)
    {
      if !c.system {
        WantsKept(was, items, i);
        if !PendingSystem(was, items) && i.entry.system { AsPending(was, items, i); }
      }
    }
    MatchesExposes(was, items, c.system, PlanWanted(d0, scope, c), at);
  }

  lemma AsPending(was: seq<Item>, items: seq<Item>, i: Item)
    requires !PendingSystem(was, items) && i.entry.system
    ensures Wants(items, i) <==> Wants(was, i)
  {
    if Wants(items, i) { var j :| j in items && j.entry == i.entry; assert j in was; }
    if Wants(was, i) { var j :| j in was && j.entry == i.entry; assert j in items; }
  }

  lemma RevertKeepsSystem(d0: Disk, p: Pending, q: Pending, d: Disk)
    requires Middle(d0, p, d) && SameChange(p, q) && Sane(d0, p)
    ensures ItemsOf(ProfileOf(d, p.project), p.from) == ItemsOf(ProfileOf(d0, p.project), p.from)
    ensures SystemCopies(RevertWanted(d, q))
    ensures !p.elevated ==> SystemAsIs(d.exposed.ledger, RevertWanted(d, q))
  {
    var items := ItemsOf(ProfileOf(d0, p.project), p.from);
    assert ItemsOf(ProfileOf(d, p.project), p.from) == items;
    KeepSystemCopies(d.exposed.ledger, items);
    SystemLeftAsIs(d.exposed.ledger, items);
  }

  lemma ExposedBack(d0: Disk, p: Pending, q: Pending, d: Disk, goal: Lists, fates: seq<Fate>)
    requires InFlight(d0, p, d, goal) && SameChange(p, q) && Sane(d0, p)
    requires ProfileOf(d, p.project).lists == goal && ProfileOf(d, p.project).active == p.from
    ensures var r := Expose(d, q.project, RevertWanted(d, q), fates);
      InFlight(d0, p, r.disk, goal) && (r.status.Good? ==> PutBack(d0, p, r.disk, goal))
  {
    RevertKeepsSystem(d0, p, q, d);
    ExposeMiddle(d0, p, d, RevertWanted(d, q), fates);
    var r := Expose(d, q.project, RevertWanted(d, q), fates);
    if r.status.Good? && p.project == GLOBAL { RevertExposes(d0, p, q, d, r.disk.exposed); }
  }

  lemma RevertExposedSafe(d0: Disk, p: Pending, q: Pending, d: Disk, goal: Lists, fates: seq<Fate>)
    requires InFlight(d0, p, d, goal) && SameChange(p, q) && Sane(d0, p)
    requires ProfileOf(d, p.project).lists == goal && ProfileOf(d, p.project).active == p.from
    ensures Undone(d0, p, RevertExposed(d, q, fates), goal)
  {
    ExposedBack(d0, p, q, d, goal, fates);
    var r := Expose(d, q.project, RevertWanted(d, q), fates);
    if r.status.Good? { RevertStagedSafe(d0, p, q, r.disk, goal, r.fates); }
  }

  lemma RevertProfileSafe(d0: Disk, p: Pending, q: Pending, d: Disk, goal: Lists, fates: seq<Fate>)
    requires InFlight(d0, p, d, goal) && SameChange(p, q) && Sane(d0, p)
    requires ProfileOf(d, p.project).lists == goal
    ensures Undone(d0, p, RevertProfile(d, q, fates), goal)
  {
    var r := Activate(d, q.project, q.from, fates);
    assert InFlight(d0, p, r.disk, goal);
    if r.status.Good? { RevertExposedSafe(d0, p, q, r.disk, goal, r.fates); }
  }

  /** A recovery that finds d reverts the change p, which found d0. */
  ghost predicate CanUndo(d0: Disk, p: Pending, d: Disk, goal: Lists) {
    && InFlight(d0, p, d, goal) && Sane(d0, p) && !p.done
    && Agrees(p, d.pending.value, goal)
  }

  /** A revert cut anywhere leaves the change in flight or undone, and undone when it succeeds. */
  lemma RevertSafe(d0: Disk, p: Pending, q: Pending, d: Disk, goal: Lists, fates: seq<Fate>)
    requires InFlight(d0, p, d, goal) && Agrees(p, q, goal) && Known(d, q) && Sane(d0, p)
    ensures Undone(d0, p, Revert(d, q, fates), goal)
  {
    RestoreListsSafe(d0, p, q, d, goal, fates);
    var r := RestoreLists(d, q, fates);
    if r.status.Good? { RevertProfileSafe(d0, p, q, r.disk, goal, r.fates); }
  }

  // --- the change

  /** Everything is as the change wants it. */
  ghost predicate AllAfter(d0: Disk, c: Change, p: Pending, d: Disk) {
    && Elsewhere(d0, d, p.project) && SystemOk(d0, p, d)
    && ProfileOf(d, p.project) == Profile(Edited(p.started, c.commit), c.to, ProfileOf(d0, p.project).gens)
    && (p.project == GLOBAL ==>
          Exposes(d0.exposed.ledger, Listed(ProfileOf(d0, p.project), c.to), c.system, d.exposed))
  }

  ghost predicate Finished(d0: Disk, c: Change, p: Pending, d: Disk) {
    AllAfter(d0, c, p, d) && (d.pending.Some? ==> d.pending.value.done)
  }

  /** The change stopped before its record was written: at most its staged generation is gone. */
  ghost predicate Abandoned(d0: Disk, p: Pending, d: Disk) {
    && d.pending.None? && d.exposed == d0.exposed && Elsewhere(d0, d, p.project) && GensOk(d0, p, d)
    && ProfileOf(d, p.project).lists == p.started && ProfileOf(d, p.project).active == p.from
  }

  ghost predicate Anywhere(d0: Disk, c: Change, p: Pending, d: Disk) {
    InFlight(d0, p, d, p.before) || Restored(d0, p, d, p.before) || Finished(d0, c, p, d) || Abandoned(d0, p, d)
  }

  lemma {:induction false} CommitEdits(d: Disk, scope: string, edits: seq<Edit>, fates: seq<Fate>)
    ensures var r := Commit(d, scope, edits, fates);
      && OnlyLists(d, r.disk, scope)
      && (r.status.Good? ==> ProfileOf(r.disk, scope).lists == Edited(ProfileOf(d, scope).lists, edits))
    decreases |edits|
  {
    if edits != [] {
      var r := WriteText(d, scope, edits[0].file, Some(edits[0].text), fates);
      if r.status.Good? { CommitEdits(r.disk, scope, edits[1..], r.fates); }
    }
  }

  /** The lists hold what the change found, and the record does not say that it writes them. */
  ghost predicate Started(d0: Disk, p: Pending, d: Disk) {
    && Middle(d0, p, d) && d.pending == Some(p)
    && ProfileOf(d, p.project).lists == p.started && ProfileOf(d, p.project).gens == ProfileOf(d0, p.project).gens
  }

  lemma StartedInFlight(d0: Disk, p: Pending, d: Disk)
    requires Started(d0, p, d) && !p.committing
    ensures InFlight(d0, p, d, p.before)
  {
  }

  /** What Perform leaves: a change in flight with a record that knows of it, or all but the record done. */
  ghost predicate PerformedOk(d0: Disk, c: Change, p: Pending, s: Performed) {
    && InFlight(d0, p, s.run.disk, p.before) && SameChange(p, s.p) && Known(s.run.disk, s.p)
    && (s.run.status.Good? ==> AllAfter(d0, c, p, s.run.disk))
  }

  lemma ExposedStep(d0: Disk, c: Change, p: Pending, d: Disk, wanted: seq<Item>, fates: seq<Fate>)
    requires p == PlanPending(d0, p.project, c) && wanted == PlanWanted(d0, p.project, c) && Sane(d0, p)
    requires Started(d0, p, d) && d.exposed == d0.exposed
    ensures var r := Expose(d, p.project, wanted, fates);
      && Started(d0, p, r.disk) && InFlight(d0, p, r.disk, p.before)
      && ProfileOf(r.disk, p.project) == ProfileOf(d, p.project)
      && (r.status.Good? && p.project == GLOBAL ==>
            Exposes(d0.exposed.ledger, Listed(ProfileOf(d0, p.project), c.to), c.system, r.disk.exposed))
  {
    var items := ItemsOf(ProfileOf(d0, p.project), c.to);
    SystemLeftAsIs(d0.exposed.ledger, items);
    KeepSystemCopies(d0.exposed.ledger, items);
    ExposeMiddle(d0, p, d, wanted, fates);
    var r := Expose(d, p.project, wanted, fates);
    StartedInFlight(d0, p, r.disk);
    if r.status.Good? && p.project == GLOBAL { PlanExposes(d0, p.project, c, r.disk.exposed); }
  }

  lemma ActivateStarted(d0: Disk, p: Pending, d: Disk, n: nat, fates: seq<Fate>)
    requires Started(d0, p, d) && !p.committing
    ensures var r := Activate(d, p.project, n, fates);
      && Started(d0, p, r.disk) && InFlight(d0, p, r.disk, p.before) && r.disk.exposed == d.exposed
      && (r.status.Good? ==> ProfileOf(r.disk, p.project).active == n)
  {
    StartedInFlight(d0, p, Activate(d, p.project, n, fates).disk);
  }

  lemma PerformSafe(d0: Disk, c: Change, p: Pending, d: Disk, wanted: seq<Item>, fates: seq<Fate>)
    requires p == PlanPending(d0, p.project, c) && wanted == PlanWanted(d0, p.project, c) && Sane(d0, p)
    requires Started(d0, p, d) && d.exposed == d0.exposed
    ensures PerformedOk(d0, c, p, Perform(d, p.project, c, p, wanted, fates))
  {
    ActivateStarted(d0, p, d, c.to, fates);
    var r := Activate(d, p.project, c.to, fates);
    if r.status.Good? {
      ExposedStep(d0, c, p, r.disk, wanted, r.fates);
      var x := Expose(r.disk, p.project, wanted, r.fates);
      if x.status.Good? { CommitSafe(d0, c, p, x.disk, x.fates); }
    }
  }

  /** The rest of Perform, once the machine is as the change wants it. */
  lemma CommitSafe(d0: Disk, c: Change, p: Pending, d: Disk, fates: seq<Fate>)
    requires p == PlanPending(d0, p.project, c) && Started(d0, p, d)
    requires ProfileOf(d, p.project).active == c.to
    requires p.project == GLOBAL ==>
      Exposes(d0.exposed.ledger, Listed(ProfileOf(d0, p.project), c.to), c.system, d.exposed)
    ensures var q := p.(committing := true);
      var w := WritePending(d, Some(q), fates);
      var r := if w.status.Good? then Commit(w.disk, p.project, c.commit, w.fates) else w;
      PerformedOk(d0, c, p, Performed(r, q))
  {
    var q := p.(committing := true);
    var w := WritePending(d, Some(q), fates);
    if w.status.Good? { CommitEdits(w.disk, p.project, c.commit, w.fates); }
  }

  lemma GiveUpSafe(d0: Disk, c: Change, p: Pending, d: Disk, fates: seq<Fate>, status: Status)
    requires p == PlanPending(d0, p.project, c) && SystemCopies(d0.exposed.ledger)
    requires d == d0.(pending := d.pending) && (d.pending.None? || d.pending == Some(p))
    ensures var r := GiveUp(d, p.project, c, fates, status);
      && r.disk.pending == d.pending
      && (if d.pending.None? then Abandoned(d0, p, r.disk) else InFlight(d0, p, r.disk, p.before))
      && (r.status.Good? ==> status.Good?)
  {
  }

  lemma AfterWithRecord(d0: Disk, c: Change, p: Pending, d: Disk, record: Option<Pending>)
    requires AllAfter(d0, c, p, d)
    ensures AllAfter(d0, c, p, d.(pending := record))
  {
  }

  lemma FinishSafe(d0: Disk, c: Change, p: Pending, d: Disk, q: Pending, fates: seq<Fate>)
    requires InFlight(d0, p, d, p.before) && SameChange(p, q) && AllAfter(d0, c, p, d)
    ensures var r := Finish(d, q, fates);
      && Anywhere(d0, c, p, r.disk)
      && (r.status.Good? ==> r.disk.pending.None? && AllAfter(d0, c, p, r.disk))
  {
    AfterWithRecord(d0, c, p, d, None);
    AfterWithRecord(d0, c, p, d, Some(q.(done := true)));
    var r := Finish(d, q, fates);
    assert r.disk == d || r.disk == d.(pending := None) || r.disk == d.(pending := Some(q.(done := true)));
  }

  lemma CarrySafe(d0: Disk, c: Change, p: Pending, d: Disk, fates: seq<Fate>)
    requires p == PlanPending(d0, p.project, c) && Sane(d0, p)
    requires d == d0.(pending := Some(p))
    ensures var r := Carry(d, p.project, c, p, PlanWanted(d0, p.project, c), fates);
      && Anywhere(d0, c, p, r.disk)
      && (r.status.Good? ==> r.disk.pending.None? && AllAfter(d0, c, p, r.disk))
  {
    PerformSafe(d0, c, p, d, PlanWanted(d0, p.project, c), fates);
    var s := Perform(d, p.project, c, p, PlanWanted(d0, p.project, c), fates);
    if s.run.status.Failed? { RevertSafe(d0, p, s.p, s.run.disk, p.before, s.run.fates); }
    if s.run.status.Good? { FinishSafe(d0, c, p, s.run.disk, s.p, s.run.fates); }
  }

  // --- the same, in terms of what the change found and was asked for

  /** Store paths, other scopes, and for a project what is exposed, are as they were. */
  ghost predicate RestAsWas(d: Disk, scope: string, e: Disk) {
    && e.store == d.store && (forall s :: s != scope ==> ProfileOf(e, s) == ProfileOf(d, s))
    && (scope != GLOBAL ==> e.exposed == d.exposed)
  }

  /** A file holds the text of its last edit, or what it held when there is none. */
  ghost predicate EndsAs(edits: seq<Edit>, f: File, was: Option<string>, now: Option<string>) {
    if exists k :: 0 <= k < |edits| && edits[k].file == f
    then exists k :: 0 <= k < |edits| && edits[k].file == f && now == Some(edits[k].text)
           && forall m :: k < m < |edits| ==> edits[m].file != f
    else now == was
  }

  /** The change touches system scope, with the user's yes: something there is to be placed or removed. */
  ghost predicate MovesSystem(d: Disk, scope: string, c: Change) {
    && scope == GLOBAL && c.system
    && exists i: Item :: i.entry.system && (i in d.exposed.ledger) != (i in Listed(ProfileOf(d, scope), c.to))
  }

  ghost predicate Before(d: Disk, scope: string, c: Change, e: Disk) {
    var p, q := ProfileOf(d, scope), ProfileOf(e, scope);
    && RestAsWas(d, scope, e) && q.active == p.active && q.gens == (if c.staged then p.gens - {c.to} else p.gens)
    && q.lists == (if c.before.Some? then c.before.value else p.lists)
    && (scope == GLOBAL ==> Exposes(d.exposed.ledger, Listed(p, p.active), MovesSystem(d, scope, c), e.exposed))
  }

  ghost predicate After(d: Disk, scope: string, c: Change, e: Disk) {
    var p, q := ProfileOf(d, scope), ProfileOf(e, scope);
    && RestAsWas(d, scope, e) && q.active == c.to && q.gens == p.gens
    && EndsAs(c.commit, ListFile, p.lists.list, q.lists.list) && EndsAs(c.commit, LockFile, p.lists.lock, q.lists.lock)
    && (scope == GLOBAL ==> Exposes(d.exposed.ledger, Listed(p, c.to), c.system, e.exposed))
  }

  /** At most the staged generation is gone. */
  ghost predicate NeverBegun(d: Disk, scope: string, c: Change, e: Disk) {
    var p, q := ProfileOf(d, scope), ProfileOf(e, scope);
    && RestAsWas(d, scope, e) && e.exposed == d.exposed && e.pending.None?
    && q.active == p.active && q.lists == p.lists
    && (q.gens == p.gens || (c.staged && q.gens == p.gens - {c.to}))
  }

  /** What a sync is to have in the ledger: the items, with those in system scope from was unless `system`. */
  ghost predicate Wished(was: seq<Item>, items: seq<Item>, system: bool, i: Item) {
    if i.entry.system && !system then i in was else i in items
  }

  /** Something that the user has is where the change would place an item. */
  ghost predicate Obstructed(d: Disk, scope: string, c: Change) {
    scope == GLOBAL && exists i ::
      && Wished(d.exposed.ledger, Listed(ProfileOf(d, scope), c.to), c.system, i)
      && !i.entry.kind.Setting? && Theirs(d.exposed.ledger, d.exposed.world, i.entry.target)
  }

  lemma PlanWishes(d: Disk, scope: string, c: Change, i: Item)
    ensures i in PlanWanted(d, scope, c) <==> Wished(d.exposed.ledger, Listed(ProfileOf(d, scope), c.to), c.system, i)
  {
    assert ItemsOf(ProfileOf(d, scope), c.to) == Listed(ProfileOf(d, scope), c.to);
  }

  lemma PlanRefuses(d: Disk, scope: string, c: Change)
    ensures PlanFails(d, scope, c) <==> c.refused || Obstructed(d, scope, c)
  {
    CheckTheirs(d.exposed.ledger, PlanWanted(d, scope, c), d.exposed.world);
    forall i ensures i in PlanWanted(d, scope, c) <==> Wished(d.exposed.ledger, Listed(ProfileOf(d, scope), c.to), c.system, i) {
      PlanWishes(d, scope, c, i);
    }
  }

  lemma {:induction false} EditedText(l: Lists, edits: seq<Edit>, f: File)
    ensures EndsAs(edits, f, Text(l, f), Text(Edited(l, edits), f))
    decreases |edits|
  {
    if edits != [] {
      var next := WithText(l, edits[0].file, Some(edits[0].text));
      EditedText(next, edits[1..], f);
      EndsMore(edits, f, Text(l, f), Text(next, f), Text(Edited(l, edits), f));
    }
  }

  lemma EndsMore(edits: seq<Edit>, f: File, was: Option<string>, next: Option<string>, now: Option<string>)
    requires edits != [] && EndsAs(edits[1..], f, next, now)
    requires next == if edits[0].file == f then Some(edits[0].text) else was
    ensures EndsAs(edits, f, was, now)
  {
    var rest := edits[1..];
    if exists k :: 0 <= k < |rest| && rest[k].file == f {
      var k :| 0 <= k < |rest| && rest[k].file == f && now == Some(rest[k].text) && forall m :: k < m < |rest| ==> rest[m].file != f;
      assert edits[k + 1] == rest[k];
      forall m | k + 1 < m < |edits| ensures edits[m].file != f { assert edits[m] == rest[m - 1]; }
    } else {
      forall m | 0 < m < |edits| ensures edits[m].file != f { assert edits[m] == rest[m - 1]; }
    }
  }

  lemma MeansBefore(d: Disk, scope: string, c: Change, e: Disk)
    requires AllBefore(d, PlanPending(d, scope, c), e, PlanPending(d, scope, c).before)
    ensures Before(d, scope, c, e)
  {
    assert Elevates(d, scope, c) <==> MovesSystem(d, scope, c);
  }

  lemma MeansAfter(d: Disk, scope: string, c: Change, e: Disk)
    requires AllAfter(d, c, PlanPending(d, scope, c), e)
    ensures After(d, scope, c, e)
  {
    EditedText(ProfileOf(d, scope).lists, c.commit, ListFile);
    EditedText(ProfileOf(d, scope).lists, c.commit, LockFile);
  }

  /**
   * A change cut anywhere, with any step failing, leaves everything as before, or
   * everything as after, or its record on disk for a later command.
   */
  lemma ApplySafe(d: Disk, scope: string, c: Change, fates: seq<Fate>)
    requires d.pending.None? && Sane(d, PlanPending(d, scope, c))
    ensures var p := PlanPending(d, scope, c);
      var r := Apply(d, scope, c, fates);
      && Anywhere(d, c, p, r.disk)
      && (r.status.Good? && !c.dryRun ==> r.disk.pending.None? && AllAfter(d, c, p, r.disk))
      && (PlanFails(d, scope, c) || c.dryRun ==> Abandoned(d, p, r.disk))
      && (c.refused || Obstructed(d, scope, c) || c.dryRun ==> NeverBegun(d, scope, c, r.disk))
      && (c.refused || Obstructed(d, scope, c) ==> !r.status.Good?)
      && (r.status.Good? && !c.dryRun ==> After(d, scope, c, r.disk))
  {
    var p := PlanPending(d, scope, c);
    PlanRefuses(d, scope, c);
    GiveUpSafe(d, c, p, d, fates, Failed);
    GiveUpSafe(d, c, p, d, fates, Good);
    if !PlanFails(d, scope, c) && !c.dryRun {
      var r := WritePending(d, Some(p), fates);
      if r.status.Good? { CarrySafe(d, c, p, r.disk, r.fates); }
      else if r.status.Failed? { GiveUpSafe(d, c, p, r.disk, r.fates, Failed); }
    }
    var last := Apply(d, scope, c, fates);
    if last.status.Good? && !c.dryRun { MeansAfter(d, scope, c, last.disk); }
  }

  // --- any number of recoveries

  function Recoveries(d: Disk, tries: seq<seq<Fate>>): Disk
    decreases |tries|
  {
    if tries == [] then d else Recoveries(Recover(d, tries[0]).disk, tries[1..])
  }

  lemma {:induction false} RecoveriesSafe(d0: Disk, c: Change, p: Pending, d: Disk, tries: seq<seq<Fate>>)
    requires Anywhere(d0, c, p, d) && Sane(d0, p) && !p.done
    ensures Anywhere(d0, c, p, Recoveries(d, tries))
    decreases |tries|
  {
    if tries != [] {
      if InFlight(d0, p, d, p.before) { RevertSafe(d0, p, d.pending.value, d, p.before, Rest(tries[0])); }
      RecoveriesSafe(d0, c, p, Recover(d, tries[0]).disk, tries[1..]);
    }
  }

  /**
   * All or nothing: once no record is left, after a change cut anywhere and any
   * number of recoveries cut anywhere, the lists, the active generation and the
   * exposed items are all as before the change, or all as after it.
   */
  lemma AllOrNothing(d: Disk, scope: string, c: Change, fates: seq<Fate>, tries: seq<seq<Fate>>)
    requires d.pending.None? && Sane(d, PlanPending(d, scope, c))
    ensures var p := PlanPending(d, scope, c);
      var last := Recoveries(Apply(d, scope, c, fates).disk, tries);
      last.pending.None? ==>
        || (AllBefore(d, p, last, p.before) && Before(d, scope, c, last))
        || (AllAfter(d, c, p, last) && After(d, scope, c, last))
        || (Abandoned(d, p, last) && NeverBegun(d, scope, c, last))
  {
    var p := PlanPending(d, scope, c);
    ApplySafe(d, scope, c, fates);
    var last := Recoveries(Apply(d, scope, c, fates).disk, tries);
    RecoveriesSafe(d, c, p, Apply(d, scope, c, fates).disk, tries);
    if last.pending.None? {
      if AllBefore(d, p, last, p.before) { MeansBefore(d, scope, c, last); }
      if AllAfter(d, c, p, last) { MeansAfter(d, scope, c, last); }
    }
  }
}
