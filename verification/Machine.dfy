// The commands as oku runs them: objects whose methods update the ledger in
// memory and the files on disk, step by step. Each method is proved to do what
// the functions of Sync and Change say, for every fate of every step.
module Machine {
  import opened Basics
  import opened Exposures
  import S = Sync
  import opened SyncSettled
  import opened ChangeSafety
  import opened ChangeLive
  import C = Change

  /** The files of oku and the machine around them, with the fates of the steps to come. */
  class Computer {
    var profiles: map<string, C.Profile>
    var pending: Option<C.Pending>
    var file: seq<Item>
    var world: World
    var store: set<string>
    var fates: seq<Fate>

    ghost function At(): S.Exposed
      reads this
    {
      S.Exposed(file, world)
    }

    ghost function Disk(): C.Disk
      reads this
    {
      C.Disk(profiles, pending, At(), store)
    }

    /** The run of a command that ends here, started from r's disk and fates. */
    ghost predicate Is(r: C.Run, status: Status)
      reads this
    {
      Disk() == r.disk && fates == r.fates && status == r.status
    }

    method Meet() returns (f: Fate)
      modifies this`fates
      ensures f == Next(old(fates)) && fates == Rest(old(fates))
    {
      f := Next(fates);
      fates := Rest(fates);
    }

    function Of(scope: string): (p: C.Profile)
      reads this
      ensures p == C.ProfileOf(Disk(), scope)
    {
      if scope in profiles then profiles[scope] else C.Empty()
    }

    method WritePending(p: Option<C.Pending>) returns (status: Status)
      modifies this`pending, this`fates
      ensures Is(C.WritePending(old(Disk()), p, old(fates)), status)
    {
      var f := Meet();
      if TakesEffect(f) { pending := p; }
      status := StatusOf(f);
    }

    method Activate(scope: string, n: nat) returns (status: Status)
      modifies this`profiles, this`fates
      ensures Is(C.Activate(old(Disk()), scope, n, old(fates)), status)
    {
      var f := Meet();
      if TakesEffect(f) { profiles := profiles[scope := Of(scope).(active := n)]; }
      status := StatusOf(f);
    }

    method Discard(scope: string, n: nat) returns (status: Status)
      modifies this`profiles, this`fates
      ensures Is(C.Discard(old(Disk()), scope, n, old(fates)), status)
    {
      var f := Meet();
      if TakesEffect(f) { profiles := profiles[scope := Of(scope).(gens := Of(scope).gens - {n})]; }
      status := StatusOf(f);
    }

    method WriteText(scope: string, file: C.File, t: Option<string>) returns (status: Status)
      modifies this`profiles, this`fates
      ensures Is(C.WriteText(old(Disk()), scope, file, t, old(fates)), status)
    {
      var f := Meet();
      if TakesEffect(f) {
        profiles := profiles[scope := Of(scope).(lists := C.WithText(Of(scope).lists, file, t))];
      }
      status := StatusOf(f);
    }

    /** placeExposed: read the ledger, then sync it. */
    method Expose(scope: string, wanted: seq<Item>) returns (status: Status)
      modifies this`file, this`world, this`fates
      ensures Is(C.Expose(old(Disk()), scope, wanted, old(fates)), status)
    {
      if scope != C.GLOBAL { return Good; }
      var f := Meet();
      if f != Works { return StatusOf(f); }
      var ledger := new Ledger(this);
      status := ledger.Sync(wanted);
    }

    // --- undoing a change

    method RestoreLists(p: C.Pending) returns (status: Status, kept: seq<C.File>)
      modifies this`profiles, this`fates
      ensures Is(C.RestoreLists(old(Disk()), p, old(fates)), status)
      ensures status.Good? ==> forall f: C.File :: f in kept <==> C.Keeps(p, f, C.Text(old(Of(p.project)).lists, f))
    {
      var files := [C.ListFile, C.LockFile];
      kept := [];
      status := Good;
      for n := 0 to 2
        invariant status.Good?
        invariant n == 0 ==> Disk() == old(Disk()) && fates == old(fates) && kept == []
        invariant n == 1 ==> Is(C.RestoreFile(old(Disk()), p, C.ListFile, old(fates)), Good)
        invariant n == 2 ==> Is(C.RestoreLists(old(Disk()), p, old(fates)), Good)
        invariant n <= 1 ==> C.Text(Of(p.project).lists, C.LockFile) == C.Text(old(Of(p.project)).lists, C.LockFile)
        invariant forall f: C.File :: f in kept <==> f in files[..n] && C.Keeps(p, f, C.Text(old(Of(p.project)).lists, f))
      {
        var f := Meet();
        if f != Works { return StatusOf(f), kept; }
        if C.Keeps(p, files[n], C.Text(Of(p.project).lists, files[n])) {
          kept := kept + [files[n]];
        } else {
          status := WriteText(p.project, files[n], C.Text(p.before, files[n]));
          if status != Good { return; }
        }
      }
      forall f: C.File ensures f in files[..2] { assert f == files[0] || f == files[1]; }
    }

    method Revert(p: C.Pending) returns (status: Status)
      modifies this`profiles, this`pending, this`file, this`world, this`fates
      ensures Is(C.Revert(old(Disk()), p, old(fates)), status)
    {
      var kept;
      status, kept := RestoreLists(p);
      if status != Good { return; }
      status := Activate(p.project, p.from);
      if status != Good { return; }
      var wanted := C.ItemsOf(Of(p.project), p.from);
      if !p.elevated { wanted := KeepSystem(file, wanted); }
      status := Expose(p.project, wanted);
      if status != Good { return; }
      if p.staged {
        status := Discard(p.project, p.to);
        if status != Good { return; }
      }
      status := WritePending(None);
    }

    /** Wherever it stops, the change whose record was there is in flight or undone, and undone when this succeeds. */
    method RecoverPending() returns (status: Status)
      modifies this`profiles, this`pending, this`file, this`world, this`fates
      ensures Is(C.Recover(old(Disk()), old(fates)), status)
      ensures forall d0, p, goal ::
        CanUndo(d0, p, old(Disk()), goal) ==> Undone(d0, p, C.Run(Disk(), fates, status), goal)
    {
      ghost var before, left := Disk(), fates;
      forall d0, p, goal | CanUndo(d0, p, before, goal) ensures Undone(d0, p, C.Recover(before, left), goal) {
        RevertSafe(d0, p, before.pending.value, before, goal, Rest(left));
      }
      var f := Meet();
      if f != Works { return StatusOf(f); }
      if pending.None? { return Good; }
      if pending.value.done { status := WritePending(None); }
      else { status := Revert(pending.value); }
    }
  
    // --- making a change

    method GiveUp(scope: string, c: C.Change, outcome: Status) returns (status: Status)
      modifies this`profiles, this`fates
      ensures Is(C.GiveUp(old(Disk()), scope, c, old(fates), outcome), status)
    {
      if c.staged {
        status := Discard(scope, c.to);
        if status != Good { return; }
      }
      status := outcome;
    }

    method Commit(scope: string, edits: seq<C.Edit>) returns (status: Status)
      modifies this`profiles, this`fates
      ensures Is(C.Commit(old(Disk()), scope, edits, old(fates)), status)
    {
      for n := 0 to |edits|
        invariant C.Commit(Disk(), scope, edits[n..], fates) == C.Commit(old(Disk()), scope, edits, old(fates))
      {
        assert edits[n..][0] == edits[n] && edits[n..][1..] == edits[n + 1..];
        status := WriteText(scope, edits[n].file, Some(edits[n].text));
        if status != Good { return; }
      }
      status := Good;
    }

    method Perform(scope: string, c: C.Change, p: C.Pending, wanted: seq<Item>) returns (status: Status, q: C.Pending)
      modifies this`profiles, this`pending, this`file, this`world, this`fates
      ensures var s := C.Perform(old(Disk()), scope, c, p, wanted, old(fates)); Is(s.run, status) && q == s.p
    {
      q := p;
      status := Activate(scope, c.to);
      if status != Good { return; }
      status := Expose(scope, wanted);
      if status != Good { return; }
      q := p.(committing := true);
      status := WritePending(Some(q));
      if status != Good { return; }
      status := Commit(scope, c.commit);
    }

    method Finish(p: C.Pending) returns (status: Status)
      modifies this`pending, this`fates
      ensures Is(C.Finish(old(Disk()), p, old(fates)), status)
    {
      status := WritePending(None);
      if status == Failed {
        status := WritePending(Some(p.(done := true)));
        if status == Good { status := Failed; }
      }
    }

    method Carry(scope: string, c: C.Change, planned: C.Pending, wanted: seq<Item>) returns (status: Status)
      modifies this`profiles, this`pending, this`file, this`world, this`fates
      ensures Is(C.Carry(old(Disk()), scope, c, planned, wanted, old(fates)), status)
    {
      var p;
      status, p := Perform(scope, c, planned, wanted);
      if status == Good {
        status := Finish(p);
      } else if status == Failed {
        status := Revert(p);
        if status == Good { status := Failed; }
      }
    }

    /** What to sync to and whether with administrator rights, or that a target is in the way. */
    method PlanExposed(scope: string, c: C.Change) returns (wanted: seq<Item>, elevated: bool, blocked: bool)
      ensures wanted == C.PlanWanted(Disk(), scope, c) && elevated == C.Elevates(Disk(), scope, c)
      ensures blocked <==> C.PlanFails(Disk(), scope, c)
      ensures var p := C.ProfileOf(Disk(), scope);
        && (forall i :: i in wanted <==> Wished(file, Listed(p, c.to), c.system, i))
        && (elevated <==> MovesSystem(Disk(), scope, c)) && (blocked <==> c.refused || Obstructed(Disk(), scope, c))
    {
      PlanRefuses(Disk(), scope, c);
      forall i ensures i in C.PlanWanted(Disk(), scope, c) <==> Wished(file, Listed(C.ProfileOf(Disk(), scope), c.to), c.system, i) {
        PlanWishes(Disk(), scope, c, i);
      }
      wanted, elevated, blocked := C.ItemsOf(Of(scope), c.to), false, false;
      if PendingSystem(file, wanted) {
        elevated := c.system && scope == C.GLOBAL;
        if !c.system { wanted := KeepSystem(file, wanted); }
      }
      if scope == C.GLOBAL {
        var ledger := new Ledger(this);
        blocked := ledger.Check(wanted);
      }
      blocked := blocked || c.refused;
    }

    method Apply(scope: string, c: C.Change) returns (status: Status)
      modifies this`profiles, this`pending, this`file, this`world, this`fates
      ensures Is(C.Apply(old(Disk()), scope, c, old(fates)), status)
      ensures old(pending).None? && Sane(old(Disk()), C.PlanPending(old(Disk()), scope, c)) ==>
        var p := C.PlanPending(old(Disk()), scope, c);
        && Anywhere(old(Disk()), c, p, Disk())
        && (status.Good? && !c.dryRun ==> pending.None? && AllAfter(old(Disk()), c, p, Disk()))
      ensures CanSucceed(old(Disk()), scope, c) && old(fates) == [] ==>
        status.Good? && pending.None? && After(old(Disk()), scope, c, Disk())
      ensures old(pending).None? && (c.refused || Obstructed(old(Disk()), scope, c)) ==> !status.Good? && pending.None?
    {
      ApplyReaches(Disk(), scope, c, fates);
      var wanted, elevated, blocked := PlanExposed(scope, c);
      if blocked { status := GiveUp(scope, c, Failed); return; }
      if c.dryRun { status := GiveUp(scope, c, Good); return; }

      var started := Of(scope).lists;
      var p := C.Pending(
        scope, Of(scope).active, c.to, c.staged, elevated,
        if c.before.Some? then c.before.value else started, started, false, false);
      assert p == C.PlanPending(old(Disk()), scope, c) && !C.PlanFails(old(Disk()), scope, c);
      status := WritePending(Some(p));
      if status == Failed { status := GiveUp(scope, c, Failed); return; }
      if status == Dead { return; }

      status := Carry(scope, c, p, wanted);
    }
  }

  /** The ledger as a command reads it, and the file that it writes after each change. */
  class Ledger {
    var items: seq<Item>
    const computer: Computer

    constructor (c: Computer)
      ensures computer == c && items == c.file
    {
      computer := c;
      items := c.file;
    }

    ghost predicate Is(r: S.Outcome, status: Status)
      reads this, computer
    {
      computer.At() == r.at && items == r.items && computer.fates == r.fates && status == r.status
    }

    method Write() returns (status: Status)
      modifies computer`file, computer`fates
      ensures Is(S.WriteLedger(old(computer.At()), items, old(computer.fates)), status)
    {
      var f := computer.Meet();
      if TakesEffect(f) { computer.file := Stored(items); }
      status := StatusOf(f);
    }

    method Remove(item: Item) returns (status: Status)
      modifies this`items, computer`file, computer`world, computer`fates
      ensures Is(S.RemoveOne(item, old(items), old(computer.At()), old(computer.fates)), status)
    {
      var f := computer.Meet();
      if TakesEffect(f) { computer.world := Removed(item, computer.world); }
      if f != Works { return StatusOf(f); }
      items := Without(items, item);
      status := Write();
    }

    /** Whether the user has something at a target that is wanted now and that no item of the ledger has. */
    method Check(wanted: seq<Item>) returns (blocked: bool)
      ensures blocked <==> S.CheckFails(items, wanted, computer.world)
      ensures blocked <==> InTheWay(items, wanted, computer.world)
    {
      CheckTheirs(items, wanted, computer.world);
      for n := 0 to |wanted|
        invariant forall w :: w in wanted[..n] ==> !S.Blocked(items, w, computer.world)
      {
        if S.Blocked(items, wanted[n], computer.world) { return true; }
      }
      return false;
    }

    method Place(wanted: Item) returns (status: Status)
      modifies this`items, computer`file, computer`world, computer`fates
      ensures Is(S.PlaceOne(wanted, old(items), old(computer.At()), old(computer.fates)), status)
    {
      var want := wanted;
      if want.entry.kind.Setting? {
        var f := computer.Meet();
        if f != Works { return StatusOf(f); }
        want := want.(prior := Get(computer.world.settings, KeyOf(want)));
      }
      // The target is in the ledger file before it is made.
      items := items + [want];
      status := Write();
      if status != Good { return; }
      var after := Placed(want, computer.world);
      if after.None? { return Failed; }
      var f := computer.Meet();
      if TakesEffect(f) { computer.world := after.value; }
      status := StatusOf(f);
    }

    /** A link that someone deleted is placed again, so memory forgets it. */
    method DropGone()
      modifies this`items
      ensures items == S.Present(old(items), computer.world)
    {
      var had := items;
      items := [];
      for n := 0 to |had|
        invariant items == S.Present(had[..n], computer.world)
      {
        PresentUpTo(had, n, computer.world);
        if !Gone(had[n], computer.world) { items := items + [had[n]]; }
      }
      assert had[..|had|] == had;
    }

    method RemoveUnwanted(wanted: seq<Item>) returns (status: Status)
      modifies this`items, computer`file, computer`world, computer`fates
      ensures Is(S.RemovePass(old(items), wanted, old(items), old(computer.At()), old(computer.fates)), status)
    {
      var todo := items;
      for n := 0 to |todo|
        invariant S.RemovePass(todo[n..], wanted, items, computer.At(), computer.fates)
          == S.RemovePass(todo, wanted, todo, old(computer.At()), old(computer.fates))
      {
        assert todo[n..][0] == todo[n] && todo[n..][1..] == todo[n + 1..];
        if !Wants(wanted, todo[n]) {
          status := Remove(todo[n]);
          if status != Good { return; }
        }
      }
      status := Good;
    }

    method PlaceWanted(wanted: seq<Item>) returns (status: Status)
      modifies this`items, computer`file, computer`world, computer`fates
      ensures Is(S.PlacePass(wanted, old(items), old(computer.At()), old(computer.fates)), status)
    {
      for n := 0 to |wanted|
        invariant S.PlacePass(wanted[n..], items, computer.At(), computer.fates)
          == S.PlacePass(wanted, old(items), old(computer.At()), old(computer.fates))
      {
        assert wanted[n..][0] == wanted[n] && wanted[n..][1..] == wanted[n + 1..];
        if !Wants(items, wanted[n]) {
          status := Place(wanted[n]);
          if status != Good { return; }
        }
      }
      status := Good;
    }

    method Sync(wanted: seq<Item>) returns (status: Status)
      requires items == computer.file
      modifies this`items, computer`file, computer`world, computer`fates
      ensures Is(S.Run(old(computer.At()), wanted, old(computer.fates)), status)
      ensures forall t :: Theirs(old(computer.file), old(computer.world), t) ==>
        Get(computer.world.nodes, t) == Get(old(computer.world).nodes, t)
      ensures InTheWay(old(computer.file), wanted, old(computer.world)) ==> status.Failed? && computer.At() == old(computer.At())
    {
      SyncSpares(computer.At(), wanted, computer.fates);
      DropGone();
      var blocked := Check(wanted);
      if blocked { return Failed; }
      status := RemoveUnwanted(wanted);
      if status != Good { return; }
      status := PlaceWanted(wanted);
    }
  }

  lemma SyncSpares(at: S.Exposed, wanted: seq<Item>, fates: seq<Fate>)
    ensures var r := S.Run(at, wanted, fates);
      && (forall t :: Theirs(at.ledger, at.world, t) ==> Get(r.at.world.nodes, t) == Get(at.world.nodes, t))
      && (InTheWay(at.ledger, wanted, at.world) ==> r.status.Failed? && r.at == at)
  {
    forall t | Theirs(at.ledger, at.world, t)
      ensures Get(S.Run(at, wanted, fates).at.world.nodes, t) == Get(at.world.nodes, t)
    {
      RunSparesTheirs(at, wanted, fates, t);
    }
    if InTheWay(at.ledger, wanted, at.world) { RunRefuses(at, wanted, fates); }
  }

  lemma ApplyReaches(d: C.Disk, scope: string, c: C.Change, fates: seq<Fate>)
    ensures d.pending.None? && Sane(d, C.PlanPending(d, scope, c)) ==>
      var p, r := C.PlanPending(d, scope, c), C.Apply(d, scope, c, fates);
      && Anywhere(d, c, p, r.disk)
      && (r.status.Good? && !c.dryRun ==> r.disk.pending.None? && AllAfter(d, c, p, r.disk))
    ensures CanSucceed(d, scope, c) && fates == [] ==>
      var r := C.Apply(d, scope, c, fates); r.status.Good? && r.disk.pending.None? && After(d, scope, c, r.disk)
    ensures d.pending.None? && (c.refused || Obstructed(d, scope, c)) ==>
      !C.Apply(d, scope, c, fates).status.Good? && C.Apply(d, scope, c, fates).disk.pending.None?
  {
    PlanRefuses(d, scope, c);
    if CanSucceed(d, scope, c) && fates == [] { ApplyWorks(d, scope, c); }
    if d.pending.None? && Sane(d, C.PlanPending(d, scope, c)) { ApplySafe(d, scope, c, fates); }
  }

  lemma PresentUpTo(items: seq<Item>, n: nat, w: World)
    requires n < |items|
    ensures S.Present(items[..n + 1], w) == S.Present(items[..n], w) + (if Gone(items[n], w) then [] else [items[n]])
  {
    assert items[..n + 1] == items[..n] + [items[n]];
    PresentNext(items[..n], items[n], w);
  }

  lemma {:induction false} PresentNext(items: seq<Item>, next: Item, w: World)
    ensures S.Present(items + [next], w) == S.Present(items, w) + (if Gone(next, w) then [] else [next])
  {
    var last := if Gone(next, w) then [] else [next];
    if items == [] {
      assert [next][1..] == [] && items + [next] == [next];
    } else {
      var first, rest := if Gone(items[0], w) then [] else [items[0]], S.Present(items[1..], w);
      assert (items + [next])[1..] == items[1..] + [next];
      PresentNext(items[1..], next, w);
      assert first + (rest + last) == (first + rest) + last;
    }
  }
}
