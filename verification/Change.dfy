// internal/cli/change.go as a function of the disk and the fate of each durable
// step. A change writes its record, switches generation, exposes, edits the lists
// and deletes the record. Recovery undoes it, and may itself be cut.
module Change {
  import opened Basics
  import opened Exposures
  import S = Sync

  datatype File = ListFile | LockFile

  /** oku.toml and oku.lock, each None when it does not exist. */
  datatype Lists = Lists(list: Option<string>, lock: Option<string>)

  function Text(l: Lists, f: File): Option<string> {
    match f case ListFile => l.list case LockFile => l.lock
  }

  function WithText(l: Lists, f: File, t: Option<string>): Lists {
    match f case ListFile => l.(list := t) case LockFile => l.(lock := t)
  }

  datatype Package = Package(name: string, path: string, closure: seq<string>)

  /** A generation: its packages, the targets of its file links, and what it exposes. */
  datatype Generation = Generation(packages: seq<Package>, links: seq<string>, items: seq<Item>, created: int)

  /** The list files and the generations of one scope. Generation 0 is the profile before its first one. */
  datatype Profile = Profile(lists: Lists, active: nat, gens: map<nat, Generation>)

  datatype Pending = Pending(
    project: string, from: nat, to: nat, staged: bool, elevated: bool,
    before: Lists, started: Lists, committing: bool, done: bool)

  /** All that survives a crash. The scope "" is the global list, any other a project. */
  datatype Disk = Disk(
    profiles: map<string, Profile>, pending: Option<Pending>, exposed: S.Exposed, store: set<string>)

  const GLOBAL := ""

  /** A scope that oku has nothing of. */
  function Empty(): Profile {
    Profile(Lists(None, None), 0, map[])
  }

  function ProfileOf(d: Disk, scope: string): Profile {
    if scope in d.profiles then d.profiles[scope] else Empty()
  }

  function WithProfile(d: Disk, scope: string, p: Profile): Disk {
    d.(profiles := d.profiles[scope := p])
  }

  /** What generation n exposes. One that does not exist reads as empty. */
  function ItemsOf(p: Profile, n: nat): seq<Item> {
    if n in p.gens then p.gens[n].items else []
  }

  datatype Run = Run(disk: Disk, fates: seq<Fate>, status: Status)

  // --- durable steps

  function Step(d: Disk, after: Disk, fates: seq<Fate>): Run {
    var f := Next(fates);
    Run(if TakesEffect(f) then after else d, Rest(fates), StatusOf(f))
  }

  /** A step that only reads. */
  function Read(d: Disk, fates: seq<Fate>): Run {
    Step(d, d, fates)
  }

  function WritePending(d: Disk, p: Option<Pending>, fates: seq<Fate>): Run {
    Step(d, d.(pending := p), fates)
  }

  function Activate(d: Disk, scope: string, n: nat, fates: seq<Fate>): Run {
    Step(d, WithProfile(d, scope, ProfileOf(d, scope).(active := n)), fates)
  }

  function Discard(d: Disk, scope: string, n: nat, fates: seq<Fate>): Run {
    var p := ProfileOf(d, scope);
    Step(d, WithProfile(d, scope, p.(gens := p.gens - {n})), fates)
  }

  function WriteText(d: Disk, scope: string, f: File, t: Option<string>, fates: seq<Fate>): Run {
    var p := ProfileOf(d, scope);
    Step(d, WithProfile(d, scope, p.(lists := WithText(p.lists, f, t))), fates)
  }

  /** Read what the generation needs, then sync. Only the global list exposes. */
  function Expose(d: Disk, scope: string, wanted: seq<Item>, fates: seq<Fate>): Run {
    var f := Next(fates);
    if scope != GLOBAL then Run(d, fates, Good)
    else if f != Works then Run(d, Rest(fates), StatusOf(f))
    else
      var r := S.Run(d.exposed, wanted, Rest(fates));
      Run(d.(exposed := r.at), r.fates, r.status)
  }

  // --- undoing a change

  /** A file that no longer holds what the change found holds edits made since, unless the change began to write it. */
  predicate Keeps(p: Pending, f: File, now: Option<string>) {
    !p.committing && now != Text(p.started, f)
  }

  function RestoreFile(d: Disk, p: Pending, f: File, fates: seq<Fate>): Run {
    var r := Read(d, fates);
    if r.status != Good || Keeps(p, f, Text(ProfileOf(d, p.project).lists, f)) then r
    else WriteText(d, p.project, f, Text(p.before, f), r.fates)
  }

  function RestoreLists(d: Disk, p: Pending, fates: seq<Fate>): Run {
    var r := RestoreFile(d, p, ListFile, fates);
    if r.status != Good then r else RestoreFile(r.disk, p, LockFile, r.fates)
  }

  /** What a revert of p exposes: generation From, with system scope as it is unless the change was elevated. */
  function RevertWanted(d: Disk, p: Pending): seq<Item> {
    var items := ItemsOf(ProfileOf(d, p.project), p.from);
    if p.elevated then items else KeepSystem(d.exposed.ledger, items)
  }

  function Revert(d: Disk, p: Pending, fates: seq<Fate>): Run {
    var r := RestoreLists(d, p, fates);
    if r.status != Good then r else RevertProfile(r.disk, p, r.fates)
  }

  function RevertProfile(d: Disk, p: Pending, fates: seq<Fate>): Run {
    var r := Activate(d, p.project, p.from, fates);
    if r.status != Good then r else RevertExposed(r.disk, p, r.fates)
  }

  function RevertExposed(d: Disk, p: Pending, fates: seq<Fate>): Run {
    var r := Expose(d, p.project, RevertWanted(d, p), fates);
    if r.status != Good then r else RevertStaged(r.disk, p, r.fates)
  }

  function RevertStaged(d: Disk, p: Pending, fates: seq<Fate>): Run {
    var r := if p.staged then Discard(d, p.project, p.to, fates) else Run(d, fates, Good);
    if r.status != Good then r else WritePending(r.disk, None, r.fates)
  }

  /** What every command that changes the machine does first. */
  function Recover(d: Disk, fates: seq<Fate>): Run {
    var r := Read(d, fates);
    if r.status != Good || d.pending.None? then r
    else if d.pending.value.done then WritePending(d, None, r.fates)
    else Revert(d, d.pending.value, r.fates)
  }

  // --- making a change

  /** One write of the commit: oku.toml when a package's entry changes, oku.lock at the end. */
  datatype Edit = Edit(file: File, text: string)

  datatype Change = Change(
    to: nat, staged: bool,
    system: bool,          // the user agreed to change system scope
    before: Option<Lists>, // replaces the lists that the apply finds
    commit: seq<Edit>,
    dryRun: bool,
    refused: bool)         // the plan fails on what the model leaves out

  function Edited(l: Lists, edits: seq<Edit>): Lists
    decreases |edits|
  {
    if edits == [] then l else Edited(WithText(l, edits[0].file, Some(edits[0].text)), edits[1..])
  }

  function Commit(d: Disk, scope: string, edits: seq<Edit>, fates: seq<Fate>): Run
    decreases |edits|
  {
    if edits == [] then Run(d, fates, Good)
    else
      var r := WriteText(d, scope, edits[0].file, Some(edits[0].text), fates);
      if r.status != Good then r else Commit(r.disk, scope, edits[1..], r.fates)
  }

  function Elevates(d: Disk, scope: string, c: Change): bool {
    scope == GLOBAL && c.system && PendingSystem(d.exposed.ledger, ItemsOf(ProfileOf(d, scope), c.to))
  }

  /** Without the user's yes, system scope stays as it is. */
  function PlanWanted(d: Disk, scope: string, c: Change): seq<Item> {
    var items := ItemsOf(ProfileOf(d, scope), c.to);
    if !c.system && PendingSystem(d.exposed.ledger, items) then KeepSystem(d.exposed.ledger, items) else items
  }

  predicate PlanFails(d: Disk, scope: string, c: Change) {
    c.refused || (scope == GLOBAL && S.CheckFails(d.exposed.ledger, PlanWanted(d, scope, c), d.exposed.world))
  }

  function PlanPending(d: Disk, scope: string, c: Change): Pending {
    var p := ProfileOf(d, scope);
    Pending(
      scope, p.active, c.to, c.staged, Elevates(d, scope, c),
      if c.before.Some? then c.before.value else p.lists, p.lists, false, false)
  }

  function Apply(d: Disk, scope: string, c: Change, fates: seq<Fate>): Run {
    var p := PlanPending(d, scope, c);
    if PlanFails(d, scope, c) then GiveUp(d, scope, c, fates, Failed)
    else if c.dryRun then GiveUp(d, scope, c, fates, Good)
    else
      var r := WritePending(d, Some(p), fates);
      if r.status == Failed then GiveUp(r.disk, scope, c, r.fates, Failed)
      else if r.status == Dead then r
      else Carry(r.disk, scope, c, p, PlanWanted(d, scope, c), r.fates)
  }

  /** The rest of a change, once its record is on disk. */
  function Carry(d: Disk, scope: string, c: Change, p: Pending, wanted: seq<Item>, fates: seq<Fate>): Run {
    var s := Perform(d, scope, c, p, wanted, fates);
    match s.run.status
    case Good => Finish(s.run.disk, s.p, s.run.fates)
    case Failed => Undo(s.run.disk, s.p, s.run.fates)
    case Dead => s.run
  }

  /** The plan failed or was a dry run, so the staged generation goes again. */
  function GiveUp(d: Disk, scope: string, c: Change, fates: seq<Fate>, status: Status): Run {
    if !c.staged then Run(d, fates, status)
    else
      var r := Discard(d, scope, c.to, fates);
      if r.status == Good then r.(status := status) else r
  }

  /** How far a change got, and its record in memory, which a revert goes by. */
  datatype Performed = Performed(run: Run, p: Pending)

  function Perform(d: Disk, scope: string, c: Change, p: Pending, wanted: seq<Item>, fates: seq<Fate>): Performed {
    var r := Activate(d, scope, c.to, fates);
    if r.status != Good then Performed(r, p)
    else
      var x := Expose(r.disk, scope, wanted, r.fates);
      if x.status != Good then Performed(x, p)
      else
        // The record in memory says so even when the write of it fails.
        var q := p.(committing := true);
        var w := WritePending(x.disk, Some(q), x.fates);
        if w.status != Good then Performed(w, q)
        else Performed(Commit(w.disk, scope, c.commit, w.fates), q)
  }

  /** The error of the change is reported, whether or not the revert succeeds. */
  function Undo(d: Disk, p: Pending, fates: seq<Fate>): Run {
    var r := Revert(d, p, fates);
    if r.status == Good then r.(status := Failed) else r
  }

  function Finish(d: Disk, p: Pending, fates: seq<Fate>): Run {
    var r := WritePending(d, None, fates);
    if r.status != Failed then r
    else
      var w := WritePending(r.disk, Some(p.(done := true)), r.fates);
      if w.status == Good then w.(status := Failed) else w
  }
}
