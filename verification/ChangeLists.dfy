// What happens to oku.toml and oku.lock over recoveries: edits of the user made
// before the commit survive, and a commit that began is undone in full.
module ChangeLists {
  import opened Basics
  import opened Change
  import opened ChangeSafety

  /** The list files and the record alone. */
  ghost predicate ListsTowards(d: Disk, p: Pending, r: Run) {
    && (r.disk.pending == Some(p) || r.disk.pending.None?)
    && (r.status.Good? ==> r.disk.pending.None?)
    && (forall f: File ::
      var now := TextOf(d, p.project, f);
      && (TextOf(r.disk, p.project, f) == now || TextOf(r.disk, p.project, f) == Goal(p, f, now))
      && (r.disk.pending.None? ==> TextOf(r.disk, p.project, f) == Goal(p, f, now)))
  }

  /** The lists stay, and the record is gone when the run is good. */
  ghost predicate KeepsLists(d: Disk, p: Pending, r: Run) {
    && ProfileOf(r.disk, p.project).lists == ProfileOf(d, p.project).lists
    && (r.disk.pending == Some(p) || r.disk.pending.None?)
    && (r.status.Good? ==> r.disk.pending.None?)
  }

  lemma RevertStagedLists(d: Disk, p: Pending, fates: seq<Fate>)
    requires d.pending == Some(p)
    ensures KeepsLists(d, p, RevertStaged(d, p, fates))
  {
  }

  lemma RevertExposedLists(d: Disk, p: Pending, fates: seq<Fate>)
    requires d.pending == Some(p)
    ensures KeepsLists(d, p, RevertExposed(d, p, fates))
  {
    var r := Expose(d, p.project, RevertWanted(d, p), fates);
    assert r.disk == d.(exposed := r.disk.exposed);
    if r.status.Good? { RevertStagedLists(r.disk, p, r.fates); }
  }

  lemma RevertProfileLists(d: Disk, p: Pending, fates: seq<Fate>)
    requires d.pending == Some(p)
    ensures KeepsLists(d, p, RevertProfile(d, p, fates))
  {
    var r := Activate(d, p.project, p.from, fates);
    if r.status.Good? { RevertExposedLists(r.disk, p, r.fates); }
  }

  lemma RevertLists(d: Disk, p: Pending, fates: seq<Fate>)
    requires d.pending == Some(p)
    ensures ListsTowards(d, p, Revert(d, p, fates))
  {
    RestoreListsGoal(d, p, fates);
    var r := RestoreLists(d, p, fates);
    if r.status.Good? { RevertProfileLists(r.disk, p, r.fates); }
  }

  /** What a revert makes of a file is what the next revert keeps or makes again. */
  lemma GoalAgain(p: Pending, f: File, now: Option<string>)
    ensures Goal(p, f, Goal(p, f, now)) == Goal(p, f, now)
  {
  }

  /**
   * Over any number of recoveries cut anywhere, each list file on its own is as it
   * is now or as its revert makes it, and the latter once the record is gone.
   */
  lemma {:induction false} RecoveriesLists(d: Disk, p: Pending, tries: seq<seq<Fate>>, f: File)
    requires d.pending == Some(p) && !p.done
    ensures var now := TextOf(d, p.project, f);
      var last := Recoveries(d, tries);
      && (TextOf(last, p.project, f) == now || TextOf(last, p.project, f) == Goal(p, f, now))
      && (last.pending.None? ==> TextOf(last, p.project, f) == Goal(p, f, now))
      && (last.pending == Some(p) || last.pending.None?)
    decreases |tries|
  {
    if tries != [] {
      RevertLists(d, p, Rest(tries[0]));
      GoalAgain(p, f, TextOf(d, p.project, f));
      var next := Recover(d, tries[0]).disk;
      if next.pending.Some? { RecoveriesLists(next, p, tries[1..], f); }
      else { NoMore(next, tries[1..]); }
    }
  }

  lemma {:induction false} NoMore(d: Disk, tries: seq<seq<Fate>>)
    requires d.pending.None?
    ensures Recoveries(d, tries) == d
    decreases |tries|
  {
    if tries != [] { NoMore(d, tries[1..]); }
  }

  /** A file that the user changed before the commit began is kept, however often recovery runs or dies. */
  lemma EditSurvives(d: Disk, p: Pending, tries: seq<seq<Fate>>, f: File)
    requires d.pending == Some(p) && !p.done && !p.committing
    requires TextOf(d, p.project, f) != Text(p.started, f)
    ensures TextOf(Recoveries(d, tries), p.project, f) == TextOf(d, p.project, f)
  {
    RecoveriesLists(d, p, tries, f);
  }

  /** Once the record says that the commit began, recovery ends with both files as before the change. */
  lemma CommitUndone(d: Disk, p: Pending, tries: seq<seq<Fate>>)
    requires d.pending == Some(p) && !p.done && p.committing
    requires Recoveries(d, tries).pending.None?
    ensures ProfileOf(Recoveries(d, tries), p.project).lists == p.before
  {
    RecoveriesLists(d, p, tries, ListFile);
    RecoveriesLists(d, p, tries, LockFile);
  }
}
