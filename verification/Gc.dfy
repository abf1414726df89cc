// Garbage collection: internal/cli/gc.go with the roots of roots.go and the mark
// phase of du.go. Directory listings, running sessions and projects that are gone
// are inputs.
module Gc {
  import opened Basics
  import opened Exposures
  import opened Change
  import opened Commands
  import opened Machine

  datatype Retention = Retention(keep: nat, since: Option<int>)

  /** What a run reads besides oku's own files. */
  datatype Reading = Reading(
    order: seq<(string, nat)>,    // every generation, each profile oldest first
    names: set<string>,           // every profile
    holding: map<string, string>, // the store path that a path outside leads into
    sessions: set<string>,        // the store paths of running sessions
    gone: set<string>)            // the profiles whose project is gone

  datatype Report = Report(gens: map<string, set<nat>>, paths: set<string>)

  function GenAt(d: Disk, g: (string, nat)): Generation
    requires g.1 in ProfileOf(d, g.0).gens
  {
    ProfileOf(d, g.0).gens[g.1]
  }

  function GensOf(order: seq<(string, nat)>, name: string): (r: seq<nat>)
    ensures forall n :: n in r <==> (name, n) in order
  {
    if order == [] then []
    else (if order[0].0 == name then [order[0].1] else []) + GensOf(order[1..], name)
  }

  ghost predicate Ascending(nums: seq<nat>) {
    forall i, j :: 0 <= i < j < |nums| ==> nums[i] < nums[j]
  }

  /** The listing has exactly the generations of the profile, oldest first. */
  ghost predicate Listed(order: seq<(string, nat)>, d: Disk, name: string) {
    Ascending(GensOf(order, name)) && forall n :: n in GensOf(order, name) <==> n in ProfileOf(d, name).gens
  }

  ghost predicate Listing(read: Reading, d: Disk) {
    && (forall name :: Listed(read.order, d, name))
    && (forall g :: g in read.order ==> g.0 in read.names)
    && (forall s :: s in read.gone ==> IsGone(s, ProfileOf(d, s)))
  }

  /** Only a project can be gone, and its oku.toml is gone then. */
  predicate IsGone(scope: string, p: Profile) {
    scope != GLOBAL && p.lists.list.None?
  }

  // --- which generations a retention keeps

  predicate Rules(r: Retention) {
    r.keep > 0 || r.since.Some?
  }

  function Newer(nums: seq<nat>, n: nat): nat {
    if nums == [] then 0 else (if nums[0] > n then 1 else 0) + Newer(nums[1..], n)
  }

  /** The active one, the newest `keep`, those made since, and the newest one before, which was active then. */
  ghost predicate Kept(p: Profile, nums: seq<nat>, r: Retention, n: nat) {
    || n == p.active
    || (r.keep > 0 && Newer(nums, n) < r.keep)
    || (r.since.Some? && (forall m :: m in nums && m > n && m in p.gens ==> p.gens[m].created >= r.since.value))
  }

  lemma {:induction false} NewerAt(nums: seq<nat>, i: nat)
    requires Ascending(nums) && i < |nums|
    ensures Newer(nums, nums[i]) == |nums| - 1 - i
  {
    if i == 0 { NewerAll(nums[1..], nums[0]); } else { NewerAt(nums[1..], i - 1); }
  }

  lemma {:induction false} NewerAll(nums: seq<nat>, n: nat)
    requires forall i :: 0 <= i < |nums| ==> nums[i] > n
    ensures Newer(nums, n) == |nums|
  {
    if nums != [] { NewerAll(nums[1..], n); }
  }

  /** The generations that the retention does not keep, oldest first. */
  method Prune(p: Profile, nums: seq<nat>, r: Retention) returns (removed: seq<nat>)
    requires Ascending(nums) && forall n :: n in nums ==> n in p.gens
    ensures forall n :: n in removed <==> n in nums && !Kept(p, nums, r, n)
  {
    // The newest generation before Since.
    var cut := -1;
    for i := 0 to |nums|
      invariant -1 <= cut < i
      invariant cut >= 0 ==> r.since.Some? && p.gens[nums[cut]].created < r.since.value
      invariant r.since.Some? ==> forall k :: cut < k < i ==> p.gens[nums[k]].created >= r.since.value
    {
      if r.since.Some? && p.gens[nums[i]].created < r.since.value { cut := i; }
    }
    removed := [];
    for i := 0 to |nums|
      invariant forall n :: n in removed <==> n in nums[..i] && !Kept(p, nums, r, n)
    {
      var byCount := r.keep > 0 && i >= |nums| - r.keep;
      var byTime := r.since.Some? && i >= cut;
      NewerAt(nums, i);
      if r.since.Some? { KeptByTime(p, nums, r.since.value, cut, i); }
      assert nums[..i + 1] == nums[..i] + [nums[i]];
      if !(nums[i] == p.active || byCount || byTime) { removed := removed + [nums[i]]; }
    }
    assert nums[..|nums|] == nums;
  }

  lemma KeptByTime(p: Profile, nums: seq<nat>, since: int, cut: int, i: nat)
    requires Ascending(nums) && i < |nums| && -1 <= cut < |nums| && forall n :: n in nums ==> n in p.gens
    requires cut >= 0 ==> p.gens[nums[cut]].created < since
    requires forall k :: cut < k < |nums| ==> p.gens[nums[k]].created >= since
    ensures i >= cut <==> forall m :: m in nums && m > nums[i] && m in p.gens ==> p.gens[m].created >= since
  {
    if i >= cut {
      forall m | m in nums && m > nums[i] ensures p.gens[m].created >= since {
        var k :| 0 <= k < |nums| && nums[k] == m;
        assert k > i;
      }
    } else {
      assert nums[cut] in nums && nums[cut] > nums[i];
    }
  }

  ghost function Stays(d: Disk, read: Reading, r: Retention): set<(string, nat)> {
    set g | g in read.order && g.0 !in read.gone
      && (r.keep > 0 || r.since.Some? ==> Kept(ProfileOf(d, g.0), GensOf(read.order, g.0), r, g.1))
  }

  // --- what keeps a store path

  function AddClosures(m: map<string, seq<string>>, pkgs: seq<Package>): map<string, seq<string>>
    decreases |pkgs|
  {
    if pkgs == [] then m else AddClosures(m[pkgs[0].path := pkgs[0].closure], pkgs[1..])
  }

  /** The closure of each package path of the listed generations, the last one where several differ. */
  function Closures(d: Disk, order: seq<(string, nat)>): map<string, seq<string>> {
    if order == [] then map[]
    else
      var m := Closures(d, order[..|order| - 1]);
      var g := order[|order| - 1];
      if g.1 in ProfileOf(d, g.0).gens then AddClosures(m, GenAt(d, g).packages) else m
  }

  function ClosureAt(m: map<string, seq<string>>, path: string): set<string> {
    if path in m then (set c | c in m[path]) else {}
  }

  /** The store path an item leads into, with its closure. */
  function ItemRoots(read: Reading, m: map<string, seq<string>>, i: Item): set<string> {
    if i.entry.source in read.holding
    then {read.holding[i.entry.source]} + ClosureAt(m, read.holding[i.entry.source])
    else {}
  }

  ghost function Roots(d: Disk, read: Reading): set<string> {
    read.sessions + (set i, p | i in d.exposed.ledger && p in ItemRoots(read, Closures(d, read.order), i) :: p)
  }

  lemma {:induction false} AddClosuresFrom(m: map<string, seq<string>>, pkgs: seq<Package>, path: string)
    ensures var n := AddClosures(m, pkgs);
      && (path in n <==> path in m || exists k :: k in pkgs && k.path == path)
      && (path in n ==> (path in m && n[path] == m[path]) || exists k :: k in pkgs && k.path == path && n[path] == k.closure)
    decreases |pkgs|
  {
    if pkgs != [] {
      AddClosuresFrom(m[pkgs[0].path := pkgs[0].closure], pkgs[1..], path);
      assert pkgs == [pkgs[0]] + pkgs[1..];
    }
  }

  ghost predicate PackageAt(d: Disk, order: seq<(string, nat)>, path: string, closure: seq<string>) {
    exists g, k :: g in order && g.1 in ProfileOf(d, g.0).gens && k in GenAt(d, g).packages && k.path == path && k.closure == closure
  }

  lemma {:induction false} ClosuresFrom(d: Disk, order: seq<(string, nat)>, path: string)
    ensures var m := Closures(d, order);
      path in m ==> PackageAt(d, order, path, m[path])
    ensures var m := Closures(d, order);
      forall c :: PackageAt(d, order, path, c) ==> path in m
  {
    if order != [] {
      var front, g := order[..|order| - 1], order[|order| - 1];
      ClosuresFrom(d, front, path);
      assert order == front + [g];
      if g.1 in ProfileOf(d, g.0).gens { AddClosuresFrom(Closures(d, front), GenAt(d, g).packages, path); }
      forall c | PackageAt(d, order, path, c) ensures path in Closures(d, order) {
        var h, k :| h in order && h.1 in ProfileOf(d, h.0).gens && k in GenAt(d, h).packages && k.path == path && k.closure == c;
        if h in front { assert PackageAt(d, front, path, c); }
      }
    }
  }

  /**
   * An item of the ledger whose store path had a generation when the run began
   * keeps that path with the closure that a generation records for it.
   */
  lemma LedgerRooted(d: Disk, read: Reading, i: Item, closure: seq<string>)
    requires i in d.exposed.ledger && i.entry.source in read.holding
    requires PackageAt(d, read.order, read.holding[i.entry.source], closure)
    ensures var path := read.holding[i.entry.source];
      && path in Roots(d, read)
      && exists c :: PackageAt(d, read.order, path, c) && forall p :: p in c ==> p in Roots(d, read)
  {
    var path := read.holding[i.entry.source];
    var m := Closures(d, read.order);
    ClosuresFrom(d, read.order, path);
    forall p | p in m[path] ensures p in Roots(d, read) { assert p in ItemRoots(read, m, i); }
    assert path in ItemRoots(read, m, i);
  }

  // --- the run

  /** liveRoots: the ledger's items with their closures, and the running sessions. */
  method LiveRoots(c: Computer, read: Reading) returns (roots: set<string>)
    ensures roots == Roots(c.Disk(), read)
  {
    var m: map<string, seq<string>> := map[];
    for k := 0 to |read.order|
      invariant m == Closures(c.Disk(), read.order[..k])
    {
      var g := read.order[k];
      assert read.order[..k + 1][..k] == read.order[..k];
      if g.1 in c.Of(g.0).gens { m := AddClosures(m, c.Of(g.0).gens[g.1].packages); }
    }
    assert read.order[..|read.order|] == read.order;
    roots := read.sessions;
    for k := 0 to |c.file|
      invariant roots == read.sessions + (set i, p | i in c.file[..k] && p in ItemRoots(read, m, i) :: p)
    {
      assert c.file[..k + 1] == c.file[..k] + [c.file[k]];
      roots := roots + ItemRoots(read, m, c.file[k]);
    }
    assert c.file[..|c.file|] == c.file;
  }

  /** removeGoneProjects: delete the profile of each project that is gone. */
  method DropGone(c: Computer, gone: set<string>, dry: bool) returns (status: Status)
    requires forall s :: ProfileOk(ProfileOf(c.Disk(), s), c.store)
    modifies c`profiles, c`fates
    ensures dry ==> c.profiles == old(c.profiles) && status.Good?
    ensures old(c.fates) == [] ==> status.Good? && c.fates == []
    ensures forall s :: ProfileOf(c.Disk(), s) == ProfileOf(old(c.Disk()), s) || (s in gone && ProfileOf(c.Disk(), s) == Deleted(ProfileOf(old(c.Disk()), s)))
    ensures status.Good? && !dry ==> forall s :: s in gone ==> ProfileOf(c.Disk(), s) == Deleted(ProfileOf(old(c.Disk()), s))
  {
    ghost var d := c.Disk();
    var todo := gone;
    while todo != {}
      invariant todo <= gone
      invariant old(c.fates) == [] ==> c.fates == []
      invariant dry ==> c.profiles == old(c.profiles)
      invariant !dry ==> forall s ::
        ProfileOf(c.Disk(), s) == if s in gone && s !in todo then Deleted(ProfileOf(d, s)) else ProfileOf(d, s)
      decreases todo
    {
      var name :| name in todo;
      todo := todo - {name};
      if !dry {
        var f := c.Meet();
        if TakesEffect(f) { c.profiles := c.profiles[name := Deleted(c.Of(name))]; }
        if f != Works { return StatusOf(f); }
      }
    }
    status := Good;
  }

  /** A profile that is deleted. The list files are the project's own. */
  function Deleted(p: Profile): Profile {
    p.(active := 0, gens := map[])
  }

  /** q is p without some of the generations in drop. */
  ghost predicate Between(p: Profile, q: Profile, drop: set<nat>) {
    && q.active == p.active && q.lists == p.lists
    && (forall n :: n in q.gens ==> n in p.gens && q.gens[n] == p.gens[n])
    && (forall n :: n in p.gens && n !in drop ==> n in q.gens)
  }

  ghost function Drops(p: Profile, nums: seq<nat>, r: Retention): set<nat> {
    set n | n in nums && Rules(r) && !Kept(p, nums, r, n)
  }

  method PruneProfile(c: Computer, name: string, nums: seq<nat>, r: Retention, dry: bool)
    returns (status: Status, removed: set<nat>)
    requires Ascending(nums) && (forall n :: n in nums <==> n in ProfileOf(c.Disk(), name).gens)
    modifies c`profiles, c`fates
    ensures dry ==> c.profiles == old(c.profiles) && status.Good?
    ensures old(c.fates) == [] ==> status.Good? && c.fates == []
    ensures forall s :: s != name ==> ProfileOf(c.Disk(), s) == ProfileOf(old(c.Disk()), s)
    ensures Between(ProfileOf(old(c.Disk()), name), ProfileOf(c.Disk(), name), Drops(ProfileOf(old(c.Disk()), name), nums, r))
    ensures status.Good? ==> removed == Drops(ProfileOf(old(c.Disk()), name), nums, r)
    ensures status.Good? && !dry ==> forall n :: n in removed ==> n !in ProfileOf(c.Disk(), name).gens
  {
    ghost var p := c.Of(name);
    removed := {};
    if !Rules(r) { return Good, {}; }
    var todo := Prune(c.Of(name), nums, r);
    for i := 0 to |todo|
      invariant removed == set n | n in todo[..i]
      invariant old(c.fates) == [] ==> c.fates == []
      invariant dry ==> c.profiles == old(c.profiles)
      invariant forall s :: s != name ==> ProfileOf(c.Disk(), s) == ProfileOf(old(c.Disk()), s)
      invariant Between(p, ProfileOf(c.Disk(), name), Drops(p, nums, r))
      invariant !dry ==> forall n :: n in removed ==> n !in ProfileOf(c.Disk(), name).gens
    {
      assert todo[i] in todo && todo[..i + 1] == todo[..i] + [todo[i]];
      if !dry {
        status := c.Discard(name, todo[i]);
        if status != Good { return; }
      }
      removed := removed + {todo[i]};
    }
    assert todo[..|todo|] == todo;
    status := Good;
  }

  /** What the retention drops of one profile of d. */
  ghost function DropsOf(d: Disk, read: Reading, r: Retention, name: string): set<nat> {
    Drops(ProfileOf(d, name), GensOf(read.order, name), r)
  }

  ghost function AllDrops(d: Disk, read: Reading, r: Retention): map<string, set<nat>> {
    map s | s in read.names && s !in read.gone :: DropsOf(d, read, r, s)
  }

  /** Each profile that drops names lost at most those generations, and the others nothing. */
  ghost predicate AllBetween(d: Disk, e: Disk, drops: map<string, set<nat>>) {
    forall s :: if s in drops then Between(ProfileOf(d, s), ProfileOf(e, s), drops[s]) else ProfileOf(e, s) == ProfileOf(d, s)
  }

  lemma BetweenStep(d: Disk, e: Disk, f: Disk, name: string, drops: map<string, set<nat>>)
    requires AllBetween(d, e, drops) && name in drops
    requires forall s :: s != name ==> ProfileOf(f, s) == ProfileOf(e, s)
    requires Between(ProfileOf(d, name), ProfileOf(f, name), drops[name])
    ensures AllBetween(d, f, drops)
  {
  }

  ghost predicate NoneLeft(e: Disk, pruned: map<string, set<nat>>) {
    forall s, n :: s in pruned && n in pruned[s] ==> n !in ProfileOf(e, s).gens
  }

  lemma NoneLeftStep(e: Disk, f: Disk, name: string, pruned: map<string, set<nat>>, removed: set<nat>)
    requires NoneLeft(e, pruned) && name !in pruned
    requires forall s :: s != name ==> ProfileOf(f, s) == ProfileOf(e, s)
    requires forall n :: n in removed ==> n !in ProfileOf(f, name).gens
    ensures NoneLeft(f, pruned[name := removed])
  {
  }

  method PruneAll(c: Computer, read: Reading, r: Retention, dry: bool)
    returns (status: Status, pruned: map<string, set<nat>>)
    requires forall s :: s in read.names && s !in read.gone ==> Listed(read.order, c.Disk(), s)
    modifies c`profiles, c`fates
    ensures dry ==> c.profiles == old(c.profiles) && status.Good?
    ensures old(c.fates) == [] ==> status.Good? && c.fates == []
    ensures AllBetween(old(c.Disk()), c.Disk(), AllDrops(old(c.Disk()), read, r))
    ensures status.Good? ==> pruned == AllDrops(old(c.Disk()), read, r)
    ensures status.Good? && !dry ==> NoneLeft(c.Disk(), pruned)
  {
    ghost var d, drops := c.Disk(), AllDrops(c.Disk(), read, r);
    var todo := read.names - read.gone;
    pruned := map[];
    while todo != {}
      invariant todo <= drops.Keys
      invariant old(c.fates) == [] ==> c.fates == []
      invariant dry ==> c.profiles == old(c.profiles)
      invariant forall s :: s in todo ==> ProfileOf(c.Disk(), s) == ProfileOf(d, s)
      invariant AllBetween(d, c.Disk(), drops)
      invariant pruned.Keys == drops.Keys - todo && forall s :: s in pruned ==> pruned[s] == drops[s]
      invariant !dry ==> NoneLeft(c.Disk(), pruned)
      decreases todo
    {
      var name :| name in todo;
      todo := todo - {name};
      ghost var before := c.Disk();
      var removed;
      status, removed := PruneProfile(c, name, GensOf(read.order, name), r, dry);
      BetweenStep(d, before, c.Disk(), name, drops);
      if status != Good { return; }
      if !dry { NoneLeftStep(before, c.Disk(), name, pruned, removed); }
      pruned := pruned[name := removed];
    }
    status := Good;
  }

  function PathsOf(g: Generation): set<string> {
    (set k | k in g.packages :: k.path) + (set k, c | k in g.packages && c in k.closure :: c) + (set l | l in g.links)
  }

  ghost predicate Uses(g: Generation, p: string) {
    (exists k :: k in g.packages && (p == k.path || p in k.closure)) || p in g.links
  }

  lemma PathsUsed(g: Generation, p: string)
    ensures p in PathsOf(g) <==> Uses(g, p)
  {
    if k :| k in g.packages && p in k.closure { assert p in PathsOf(g); }
  }

  lemma UsesAll(g: Generation, store: set<string>)
    ensures Complete(g, store) <==> forall p :: Uses(g, p) ==> p in store
  {
    if forall p :: Uses(g, p) ==> p in store {
      forall k | k in g.packages ensures k.path in store && forall c :: c in k.closure ==> c in store {
        assert Uses(g, k.path);
        forall c | c in k.closure ensures c in store { assert Uses(g, c); }
      }
    }
  }

  /** storeHolders: every path that the roots or a generation that stays holds. */
  method Holders(c: Computer, read: Reading, roots: set<string>, pruned: map<string, set<nat>>) returns (used: set<string>)
    requires forall g :: g in read.order && Keep(read, pruned, g) ==> g.1 in ProfileOf(c.Disk(), g.0).gens
    ensures forall p :: p in used <==> p in roots || exists g :: Holds(c.Disk(), read, pruned, g, p)
    ensures forall g :: g in read.order && g.0 !in read.gone && (g.0 in pruned ==> g.1 !in pruned[g.0]) ==>
      g.1 in ProfileOf(c.Disk(), g.0).gens && Complete(GenAt(c.Disk(), g), used)
  {
    used := roots;
    for k := 0 to |read.order|
      invariant forall p :: p in used <==> p in roots || exists i :: 0 <= i < k && Holds(c.Disk(), read, pruned, read.order[i], p)
    {
      var g := read.order[k];
      if Keep(read, pruned, g) {
        ghost var before := used;
        used := used + PathsOf(c.Of(g.0).gens[g.1]);
        forall p ensures p in used <==> p in before || Holds(c.Disk(), read, pruned, read.order[k], p) {
          PathsUsed(c.Of(g.0).gens[g.1], p);
        }
      }
    }
    forall g | g in read.order && Keep(read, pruned, g) ensures Complete(GenAt(c.Disk(), g), used) {
      UsesAll(GenAt(c.Disk(), g), used);
      forall p | Uses(GenAt(c.Disk(), g), p) ensures p in used { assert Holds(c.Disk(), read, pruned, g, p); }
    }
  }

  predicate Keep(read: Reading, pruned: map<string, set<nat>>, g: (string, nat)) {
    g.0 !in read.gone && !(g.0 in pruned && g.1 in pruned[g.0])
  }

  ghost predicate Holds(d: Disk, read: Reading, pruned: map<string, set<nat>>, g: (string, nat), p: string) {
    g in read.order && Keep(read, pruned, g) && g.1 in ProfileOf(d, g.0).gens && Uses(GenAt(d, g), p)
  }

  /** What a run that starts at d keeps of the store: the roots, and what the generations name that the retention keeps. */
  ghost predicate Needs(d: Disk, read: Reading, r: Retention, p: string) {
    p in Roots(d, read) || exists g :: g in Stays(d, read, r) && Names(d, g, p)
  }

  ghost predicate Names(d: Disk, g: (string, nat), p: string) {
    g.1 in ProfileOf(d, g.0).gens && Uses(GenAt(d, g), p)
  }

  ghost function Unused(d: Disk, read: Reading, r: Retention): set<string> {
    set p | p in d.store && !Needs(d, read, r, p)
  }

  /** What Keep goes by is the retention: the generations of projects that are there, and that it keeps. */
  lemma KeepsStays(d: Disk, read: Reading, r: Retention, g: (string, nat), p: string)
    requires Listing(read, d)
    ensures g in read.order && Keep(read, AllDrops(d, read, r), g) <==> g in Stays(d, read, r)
    ensures Holds(d, read, AllDrops(d, read, r), g, p) <==> g in Stays(d, read, r) && Names(d, g, p)
  {
  }

  ghost predicate Stocked(d: Disk) {
    forall s :: ProfileOk(ProfileOf(d, s), d.store)
  }

  ghost predicate InStore(p: Profile, store: set<string>) {
    forall n :: n in p.gens ==> Complete(p.gens[n], store)
  }

  /** What any stop of a run leaves: every profile whole or gone or pruned, and all that is needed in the store. */
  ghost predicate Stopped(d: Disk, e: Disk, read: Reading, r: Retention) {
    && e.pending == d.pending && e.exposed == d.exposed && e.store <= d.store
    && (forall p :: p in d.store && Needs(d, read, r, p) ==> p in e.store)
    && (forall s :: InStore(ProfileOf(e, s), e.store))
    && (forall s :: ProfileOf(e, s) == ProfileOf(d, s) || (s in read.gone && ProfileOf(e, s) == Deleted(ProfileOf(d, s)))
          || (s in AllDrops(d, read, r) && Between(ProfileOf(d, s), ProfileOf(e, s), AllDrops(d, read, r)[s])))
  }

  /** Deleting the profiles of gone projects changes nothing for the others. */
  ghost predicate GoneOnly(d: Disk, e: Disk, gone: set<string>) {
    && e == d.(profiles := e.profiles)
    && forall s :: ProfileOf(e, s) == ProfileOf(d, s) || (s in gone && ProfileOf(e, s) == Deleted(ProfileOf(d, s)))
  }

  lemma SameDrops(d: Disk, e: Disk, read: Reading, r: Retention)
    requires GoneOnly(d, e, read.gone) && Listing(read, d)
    ensures AllDrops(e, read, r) == AllDrops(d, read, r)
    ensures forall s :: s in read.names && s !in read.gone ==> Listed(read.order, e, s)
  {
    forall s | s in read.names && s !in read.gone ensures Listed(read.order, e, s) && DropsOf(e, read, r, s) == DropsOf(d, read, r, s) {
      assert Listed(read.order, d, s);
    }
  }

  /** What the mark phase reads after the deletions is what d held. */
  lemma SameHolds(d: Disk, e: Disk, f: Disk, read: Reading, r: Retention, g: (string, nat), p: string)
    requires GoneOnly(d, e, read.gone) && AllBetween(e, f, AllDrops(d, read, r)) && Listing(read, d)
    ensures Holds(f, read, AllDrops(d, read, r), g, p) <==> Holds(d, read, AllDrops(d, read, r), g, p)
    ensures g in read.order && Keep(read, AllDrops(d, read, r), g) ==> g.1 in ProfileOf(f, g.0).gens
  {
    if g in read.order && Keep(read, AllDrops(d, read, r), g) {
      assert Listed(read.order, d, g.0) && g.1 in GensOf(read.order, g.0);
      assert ProfileOf(e, g.0) == ProfileOf(d, g.0);
    }
  }

  lemma PrunedStopped(d: Disk, e: Disk, f: Disk, read: Reading, r: Retention)
    requires GoneOnly(d, e, read.gone) && AllBetween(e, f, AllDrops(d, read, r))
    requires f == e.(profiles := f.profiles) && Stocked(d)
    ensures Stopped(d, f, read, r)
  {
    forall s ensures InStore(ProfileOf(f, s), f.store) { assert ProfileOk(ProfileOf(d, s), d.store); }
    forall s ensures ProfileOf(f, s) == ProfileOf(d, s) || (s in read.gone && ProfileOf(f, s) == Deleted(ProfileOf(d, s)))
          || (s in AllDrops(d, read, r) && Between(ProfileOf(d, s), ProfileOf(f, s), AllDrops(d, read, r)[s]))
    {
      if s !in AllDrops(d, read, r) { assert ProfileOf(f, s) == ProfileOf(e, s); }
    }
  }

  /** The profiles of a run that is past its deletions, with e as it was between the two kinds. */
  ghost predicate Pruned(d: Disk, e: Disk, f: Disk, read: Reading, r: Retention) {
    GoneOnly(d, e, read.gone) && AllBetween(e, f, AllDrops(d, read, r)) && f == e.(profiles := f.profiles)
  }

  method DeleteGens(c: Computer, read: Reading, r: Retention, dry: bool)
    returns (status: Status, pruned: map<string, set<nat>>, ghost e: Disk)
    requires Listing(read, c.Disk()) && Stocked(c.Disk())
    modifies c`profiles, c`fates
    ensures dry ==> c.profiles == old(c.profiles)
    ensures old(c.fates) == [] ==> status.Good? && c.fates == []
    ensures Stopped(old(c.Disk()), c.Disk(), read, r)
    ensures status.Good? ==> pruned == AllDrops(old(c.Disk()), read, r) && Pruned(old(c.Disk()), e, c.Disk(), read, r)
    ensures status.Good? && !dry ==> OnlyKept(c.Disk(), read, pruned) && Remaining(old(c.Disk()), c.Disk(), read, r)
  {
    pruned := map[];
    status := DropGone(c, read.gone, dry);
    e := c.Disk();
    SameDrops(old(c.Disk()), e, read, r);
    if status == Good {
      status, pruned := PruneAll(c, read, r, dry);
      PrunedStopped(old(c.Disk()), e, c.Disk(), read, r);
      if status == Good && !dry {
        OthersGone(old(c.Disk()), e, c.Disk(), read, r);
        ProfilesRemain(old(c.Disk()), e, c.Disk(), read, r);
      }
    }
  }

  /** No generation is left but those that stay. */
  ghost predicate OnlyKept(d: Disk, read: Reading, pruned: map<string, set<nat>>) {
    forall s, n :: n in ProfileOf(d, s).gens ==> (s, n) in read.order && Keep(read, pruned, (s, n))
  }

  /** What a real run that is past its deletions has of each profile. */
  ghost function Remains(d: Disk, read: Reading, r: Retention, s: string): Profile {
    var p := ProfileOf(d, s);
    if s in read.gone then Deleted(p) else p.(gens := p.gens - DropsOf(d, read, r, s))
  }

  ghost predicate Remaining(d: Disk, e: Disk, read: Reading, r: Retention) {
    forall s :: ProfileOf(e, s) == Remains(d, read, r, s)
  }

  lemma ProfilesRemain(d: Disk, e: Disk, f: Disk, read: Reading, r: Retention)
    requires Listing(read, d) && Pruned(d, e, f, read, r)
    requires forall s :: s in read.gone ==> ProfileOf(e, s) == Deleted(ProfileOf(d, s))
    requires NoneLeft(f, AllDrops(d, read, r))
    ensures Remaining(d, f, read, r)
  {
    var drops := AllDrops(d, read, r);
    forall s ensures ProfileOf(f, s) == Remains(d, read, r, s) {
      assert if s in drops then Between(ProfileOf(e, s), ProfileOf(f, s), drops[s]) else ProfileOf(f, s) == ProfileOf(e, s);
      if s in drops {
        assert ProfileOf(f, s).gens == ProfileOf(d, s).gens - drops[s];
      } else if s !in read.gone {
        forall n ensures n !in GensOf(read.order, s) { assert (s, n) in read.order ==> s in read.names; }
        assert ProfileOf(d, s).gens - {} == ProfileOf(d, s).gens;
      }
    }
  }

  lemma OthersGone(d: Disk, e: Disk, f: Disk, read: Reading, r: Retention)
    requires Listing(read, d) && Pruned(d, e, f, read, r)
    requires forall s :: s in read.gone ==> ProfileOf(e, s) == Deleted(ProfileOf(d, s))
    requires NoneLeft(f, AllDrops(d, read, r))
    ensures OnlyKept(f, read, AllDrops(d, read, r))
  {
    var drops := AllDrops(d, read, r);
    forall s, n | n in ProfileOf(f, s).gens ensures (s, n) in read.order && Keep(read, drops, (s, n)) {
      assert Listed(read.order, d, s);
      assert if s in drops then Between(ProfileOf(e, s), ProfileOf(f, s), drops[s]) else ProfileOf(f, s) == ProfileOf(e, s);
      assert n in ProfileOf(e, s).gens;
      assert n in ProfileOf(d, s).gens;
      assert n in GensOf(read.order, s);
    }
  }

  /** Delete generations, or for a dry run only say which, and find what no other holds. */
  method Mark(c: Computer, read: Reading, r: Retention, dry: bool)
    returns (status: Status, pruned: map<string, set<nat>>, unused: set<string>)
    requires Listing(read, c.Disk()) && Stocked(c.Disk())
    modifies c`profiles, c`fates
    ensures dry ==> c.profiles == old(c.profiles)
    ensures old(c.fates) == [] ==> status.Good? && c.fates == []
    ensures Stopped(old(c.Disk()), c.Disk(), read, r)
    ensures status.Good? ==> pruned == AllDrops(old(c.Disk()), read, r) && unused == Unused(old(c.Disk()), read, r)
    ensures status.Good? && !dry ==> Remaining(old(c.Disk()), c.Disk(), read, r)
    ensures status.Good? && !dry ==> forall s :: InStore(ProfileOf(c.Disk(), s), c.store - unused)
  {
    unused := {};
    var roots := LiveRoots(c, read);
    ghost var e;
    status, pruned, e := DeleteGens(c, read, r, dry);
    if status == Good {
      KeptThere(old(c.Disk()), e, c.Disk(), read, r);
      var used := Holders(c, read, roots, pruned);
      Marked(old(c.Disk()), e, c.Disk(), read, r, used);
      unused := c.store - used;
      if !dry { UnusedByKept(old(c.Disk()), e, c.Disk(), read, r); }
    }
  }

  lemma UnusedByKept(d: Disk, e: Disk, f: Disk, read: Reading, r: Retention)
    requires Listing(read, d) && Pruned(d, e, f, read, r) && OnlyKept(f, read, AllDrops(d, read, r))
    requires forall s :: InStore(ProfileOf(f, s), f.store)
    ensures forall s :: InStore(ProfileOf(f, s), f.store - Unused(d, read, r))
  {
    var drops := AllDrops(d, read, r);
    forall s, n | n in ProfileOf(f, s).gens ensures Complete(ProfileOf(f, s).gens[n], f.store - Unused(d, read, r)) {
      var g := ProfileOf(f, s).gens[n];
      assert InStore(ProfileOf(f, s), f.store);
      UsesAll(g, f.store);
      UsesAll(g, f.store - Unused(d, read, r));
      forall p | Uses(g, p) ensures p !in Unused(d, read, r) {
        assert Holds(f, read, drops, (s, n), p);
        SameHolds(d, e, f, read, r, (s, n), p);
        KeepsStays(d, read, r, (s, n), p);
      }
    }
  }

  lemma KeptThere(d: Disk, e: Disk, f: Disk, read: Reading, r: Retention)
    requires GoneOnly(d, e, read.gone) && AllBetween(e, f, AllDrops(d, read, r)) && Listing(read, d)
    ensures forall g :: g in read.order && Keep(read, AllDrops(d, read, r), g) ==> g.1 in ProfileOf(f, g.0).gens
  {
    forall g | g in read.order && Keep(read, AllDrops(d, read, r), g) ensures g.1 in ProfileOf(f, g.0).gens {
      SameHolds(d, e, f, read, r, g, "");
    }
  }

  lemma Marked(d: Disk, e: Disk, f: Disk, read: Reading, r: Retention, used: set<string>)
    requires GoneOnly(d, e, read.gone) && AllBetween(e, f, AllDrops(d, read, r)) && Listing(read, d)
    requires forall p :: p in used <==> p in Roots(d, read) || exists g :: Holds(f, read, AllDrops(d, read, r), g, p)
    ensures d.store - used == Unused(d, read, r)
  {
    forall p ensures p in used <==> Needs(d, read, r, p) {
      if g :| Holds(f, read, AllDrops(d, read, r), g, p) {
        SameHolds(d, e, f, read, r, g, p);
        KeepsStays(d, read, r, g, p);
      }
      if g :| g in Stays(d, read, r) && Names(d, g, p) {
        KeepsStays(d, read, r, g, p);
        SameHolds(d, e, f, read, r, g, p);
      }
    }
  }

  /** Delete the store paths, or for a dry run none. */
  method Sweep(c: Computer, paths: set<string>, dry: bool) returns (status: Status)
    requires paths <= c.store
    modifies c`store, c`fates
    ensures old(c.store) - paths <= c.store <= old(c.store)
    ensures old(c.fates) == [] ==> status.Good?
    ensures dry ==> c.store == old(c.store)
    ensures status.Good? && !dry ==> c.store == old(c.store) - paths
  {
    var todo := paths;
    while todo != {}
      invariant todo <= paths
      invariant old(c.fates) == [] ==> c.fates == []
      invariant c.store == if dry then old(c.store) else old(c.store) - (paths - todo)
      decreases todo
    {
      var path :| path in todo;
      todo := todo - {path};
      if !dry {
        var fate := c.Meet();
        if TakesEffect(fate) { c.store := c.store - {path}; }
        if fate != Works { return StatusOf(fate); }
      }
    }
    status := Good;
  }

  // --- the same, path by path

  /** Of what g names, all that was in the store is there now. */
  ghost predicate Spared(g: Generation, was: set<string>, now: set<string>) {
    && (forall k :: k in g.packages && k.path in was ==> k.path in now)
    && (forall k, c :: k in g.packages && c in k.closure && c in was ==> c in now)
    && (forall l :: l in g.links && l in was ==> l in now)
  }

  ghost predicate HasPackage(d: Disk, g: (string, nat), path: string, closure: seq<string>) {
    g.1 in ProfileOf(d, g.0).gens && exists k :: k in GenAt(d, g).packages && k.path == path && k.closure == closure
  }

  /** The item leads into a store path that generation g records, with that closure. */
  ghost predicate HeldIn(d: Disk, read: Reading, i: Item, g: (string, nat), closure: seq<string>) {
    i.entry.source in read.holding && g in read.order && HasPackage(d, g, read.holding[i.entry.source], closure)
  }

  /** No generation that stays, ledger item or session has a use for p. */
  ghost predicate NoUse(d: Disk, read: Reading, r: Retention, p: string) {
    && p !in read.sessions
    && (forall g :: g in Stays(d, read, r) && g.1 in ProfileOf(d, g.0).gens ==>
          (forall k :: k in GenAt(d, g).packages ==> k.path != p && p !in k.closure) && p !in GenAt(d, g).links)
    && (forall i :: i in d.exposed.ledger && i.entry.source in read.holding ==> read.holding[i.entry.source] != p)
    && (forall i, g, c :: i in d.exposed.ledger && HeldIn(d, read, i, g, c) ==> p !in c)
  }

  /** What every stop of a run leaves of the generations that stay, the ledger items and the sessions. */
  ghost predicate NeededThere(d: Disk, e: Disk, read: Reading, r: Retention) {
    && (forall g :: g in Stays(d, read, r) && g.1 in ProfileOf(d, g.0).gens ==>
          g.1 in ProfileOf(e, g.0).gens && GenAt(e, g) == GenAt(d, g) && Spared(GenAt(d, g), d.store, e.store))
    && (forall p :: p in read.sessions && p in d.store ==> p in e.store)
    && (forall i :: i in d.exposed.ledger && i.entry.source in read.holding && read.holding[i.entry.source] in d.store ==>
          read.holding[i.entry.source] in e.store)
  }

  lemma StoppedSpares(d: Disk, e: Disk, read: Reading, r: Retention)
    requires Listing(read, d) && Stopped(d, e, read, r)
    ensures NeededThere(d, e, read, r)
  {
    forall g | g in Stays(d, read, r) && g.1 in ProfileOf(d, g.0).gens
      ensures g.1 in ProfileOf(e, g.0).gens && GenAt(e, g) == GenAt(d, g) && Spared(GenAt(d, g), d.store, e.store)
    {
      KeepsStays(d, read, r, g, "");
      forall p | Uses(GenAt(d, g), p) && p in d.store ensures p in e.store { assert Names(d, g, p) && Needs(d, read, r, p); }
      forall k | k in GenAt(d, g).packages && k.path in d.store ensures k.path in e.store { assert Uses(GenAt(d, g), k.path); }
      forall k, c | k in GenAt(d, g).packages && c in k.closure && c in d.store ensures c in e.store { assert Uses(GenAt(d, g), c); }
    }
    forall p | p in read.sessions && p in d.store ensures p in e.store { assert Needs(d, read, r, p); }
    forall i | i in d.exposed.ledger && i.entry.source in read.holding && read.holding[i.entry.source] in d.store
      ensures read.holding[i.entry.source] in e.store
    {
      assert read.holding[i.entry.source] in ItemRoots(read, Closures(d, read.order), i);
      assert Needs(d, read, r, read.holding[i.entry.source]);
    }
  }

  lemma AllNoUse(d: Disk, read: Reading, r: Retention)
    ensures forall p :: p in d.store && NoUse(d, read, r, p) ==> p in Unused(d, read, r)
  {
    forall p | p in d.store && NoUse(d, read, r, p) ensures p in Unused(d, read, r) { NoUseUnused(d, read, r, p); }
  }

  lemma NoUseUnused(d: Disk, read: Reading, r: Retention, p: string)
    requires NoUse(d, read, r, p) && p in d.store
    ensures p in Unused(d, read, r)
  {
    var m := Closures(d, read.order);
    forall i | i in d.exposed.ledger ensures p !in ItemRoots(read, m, i) {
      if i.entry.source in read.holding {
        var path := read.holding[i.entry.source];
        ClosuresFrom(d, read.order, path);
        if path in m {
          var g, k :| g in read.order && g.1 in ProfileOf(d, g.0).gens && k in GenAt(d, g).packages && k.path == path && k.closure == m[path];
          assert HeldIn(d, read, i, g, m[path]);
        }
      }
    }
    forall g | g in Stays(d, read, r) ensures !Names(d, g, p) {}
  }

  /** What a real run that succeeds makes of d. */
  ghost predicate Swept(d: Disk, e: Disk, read: Reading, r: Retention) {
    && e.pending == d.pending && e.exposed == d.exposed
    && e.store == d.store - Unused(d, read, r) && Remaining(d, e, read, r)
  }

  /** The steps of a run, up to where it stops. */
  method Collect(c: Computer, read: Reading, r: Retention, dry: bool) returns (status: Status, report: Report)
    requires Listing(read, c.Disk()) && Stocked(c.Disk())
    modifies c`profiles, c`store, c`fates
    ensures c.pending.Some? ==> status.Failed? && c.Disk() == old(c.Disk())
    ensures c.pending.None? && old(c.fates) == [] ==> status.Good?
    ensures dry ==> c.Disk() == old(c.Disk())
    ensures Stopped(old(c.Disk()), c.Disk(), read, r)
    ensures status.Good? ==> report == Report(AllDrops(old(c.Disk()), read, r), Unused(old(c.Disk()), read, r))
    ensures status.Good? && !dry ==> Swept(old(c.Disk()), c.Disk(), read, r)
  {
    report := Report(map[], {});
    forall s ensures InStore(ProfileOf(c.Disk(), s), c.store) { assert ProfileOk(ProfileOf(c.Disk(), s), c.store); }
    if c.pending.Some? { return Failed, report; }
    var pruned, unused;
    status, pruned, unused := Mark(c, read, r, dry);
    if status != Good { return; }
    report := Report(pruned, unused);
    ghost var marked := c.Disk();
    status := Sweep(c, unused, dry);
    assert !dry ==> forall s :: ProfileOf(c.Disk(), s) == ProfileOf(marked, s);
    forall s ensures InStore(ProfileOf(c.Disk(), s), c.store) {
      assert ProfileOf(c.Disk(), s) == ProfileOf(marked, s) && InStore(ProfileOf(marked, s), marked.store);
      if !dry { assert InStore(ProfileOf(marked, s), marked.store - unused); }
    }
  }

  /**
   * One run of gc. While a change is pending it deletes nothing. Wherever it stops,
   * what the kept generations, the ledger and the sessions need is in the store. A
   * dry run changes nothing and reports the paths that the real run deletes.
   */
  method RunGc(c: Computer, read: Reading, r: Retention, dry: bool) returns (status: Status, report: Report)
    requires Listing(read, c.Disk()) && Stocked(c.Disk())
    modifies c`profiles, c`store, c`fates
    ensures c.pending.Some? ==> status.Failed? && c.Disk() == old(c.Disk())
    ensures c.pending.None? && old(c.fates) == [] ==> status.Good?
    ensures dry ==> c.Disk() == old(c.Disk())
    ensures Stopped(old(c.Disk()), c.Disk(), read, r) && NeededThere(old(c.Disk()), c.Disk(), read, r)
    ensures status.Good? && !dry ==> forall p :: p in old(c.store) && NoUse(old(c.Disk()), read, r, p) ==> p !in c.store
    ensures status.Good? ==> report == Report(AllDrops(old(c.Disk()), read, r), Unused(old(c.Disk()), read, r))
    ensures status.Good? && !dry ==> Swept(old(c.Disk()), c.Disk(), read, r)
  {
    ghost var d := c.Disk();
    status, report := Collect(c, read, r, dry);
    StoppedSpares(d, c.Disk(), read, r);
    AllNoUse(d, read, r);
  }

  /** Any stop of a run is one that the commands allow a collection to leave. */
  lemma StoppedCollects(d: Disk, e: Disk, read: Reading, r: Retention)
    requires Listing(read, d) && Stocked(d) && d.pending.None? && Stopped(d, e, read, r)
    ensures Collects(d, e)
  {
    forall s ensures KeepsProfile(s, ProfileOf(d, s), ProfileOf(e, s), e.store) {
      assert InStore(ProfileOf(e, s), e.store) && ProfileOk(ProfileOf(d, s), d.store);
    }
  }
}
