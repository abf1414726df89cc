// Two runs of gc, one after the other: how long the closure of what the ledger
// holds stays in the store.
module GcRuns {
  import opened Basics
  import opened Exposures
  import opened Change
  import opened Commands
  import opened Gc
  import S = Sync

  /** Whatever generation records the path records it with that closure. */
  ghost predicate OneClosure(d: Disk, path: string, closure: seq<string>) {
    forall g, c :: HasPackage(d, g, path, c) ==> c == closure
  }

  /** What else than the closure of path keeps p in a run. */
  ghost predicate HeldOtherwise(d: Disk, read: Reading, r: Retention, path: string, p: string) {
    || p == path || p in read.sessions
    || (exists g :: g in Stays(d, read, r) && Names(d, g, p))
    || (exists j :: j in d.exposed.ledger && j.entry.source in read.holding && read.holding[j.entry.source] != path
          && p in ItemRoots(read, Closures(d, read.order), j))
  }

  lemma StaysLeft(d: Disk, e: Disk, read: Reading, r: Retention, g: (string, nat))
    requires Listing(read, d) && Remaining(d, e, read, r)
    ensures g.1 in ProfileOf(e, g.0).gens <==> g in Stays(d, read, r)
    ensures g in Stays(d, read, r) ==> g.1 in ProfileOf(d, g.0).gens && GenAt(e, g) == GenAt(d, g)
  {
    assert ProfileOf(e, g.0) == Remains(d, read, r, g.0) && Listed(read.order, d, g.0);
    assert g.1 in GensOf(read.order, g.0) <==> g in read.order;
  }

  /** The listing has a package with that path exactly when some generation records it. */
  lemma ListedRecords(d: Disk, read: Reading, path: string, c: seq<string>)
    requires Listing(read, d)
    ensures PackageAt(d, read.order, path, c) <==> exists g :: HasPackage(d, g, path, c)
  {
    if g :| HasPackage(d, g, path, c) {
      assert Listed(read.order, d, g.0) && g in read.order;
      var k :| k in GenAt(d, g).packages && k.path == path && k.closure == c;
    }
    if PackageAt(d, read.order, path, c) {
      var g, k :| g in read.order && g.1 in ProfileOf(d, g.0).gens && k in GenAt(d, g).packages && k.path == path && k.closure == c;
      assert HasPackage(d, g, path, c);
    }
  }

  /** After a run the records left are those of the generations that stayed. */
  lemma RecordsLeft(d: Disk, e: Disk, read: Reading, r: Retention, g: (string, nat), path: string, c: seq<string>)
    requires Listing(read, d) && Remaining(d, e, read, r)
    ensures HasPackage(e, g, path, c) <==> g in Stays(d, read, r) && HasPackage(d, g, path, c)
  {
    StaysLeft(d, e, read, r, g);
  }

  /** What a ledger item roots: its path, and the closure while a generation records the path. */
  lemma RootsOfItem(d: Disk, read: Reading, i: Item, c: seq<string>, p: string)
    requires Listing(read, d) && i.entry.source in read.holding && OneClosure(d, read.holding[i.entry.source], c) && p in c
    ensures var path := read.holding[i.entry.source];
      p in ItemRoots(read, Closures(d, read.order), i) <==> p == path || exists g :: HasPackage(d, g, path, c)
  {
    var path, m := read.holding[i.entry.source], Closures(d, read.order);
    ClosuresFrom(d, read.order, path);
    if path in m { ListedRecords(d, read, path, m[path]); }
    ListedRecords(d, read, path, c);
  }

  lemma NeedsSplit(d: Disk, read: Reading, r: Retention, i: Item, c: seq<string>, p: string)
    requires Listing(read, d) && i in d.exposed.ledger && i.entry.source in read.holding
    requires OneClosure(d, read.holding[i.entry.source], c) && p in c
    ensures var path := read.holding[i.entry.source];
      Needs(d, read, r, p) <==> HeldOtherwise(d, read, r, path, p) || exists g :: HasPackage(d, g, path, c)
  {
    var path, m := read.holding[i.entry.source], Closures(d, read.order);
    RootsOfItem(d, read, i, c, p);
    forall j | j in d.exposed.ledger && p in ItemRoots(read, m, j)
      ensures HeldOtherwise(d, read, r, path, p) || exists g :: HasPackage(d, g, path, c)
    {
      if read.holding[j.entry.source] == path { RootsOfItem(d, read, j, c, p); }
    }
    if p == path { assert p in ItemRoots(read, m, i); }
  }

  /** A run keeps the closure of a ledger item that a generation records when the run begins. */
  lemma ClosureFirst(d: Disk, e: Disk, read: Reading, r: Retention, i: Item, g: (string, nat), c: seq<string>)
    requires Listing(read, d) && Swept(d, e, read, r)
    requires i in d.exposed.ledger && i.entry.source in read.holding
    requires OneClosure(d, read.holding[i.entry.source], c) && HasPackage(d, g, read.holding[i.entry.source], c)
    ensures forall p :: p in c && p in d.store ==> p in e.store
  {
    forall p | p in c && p in d.store ensures p in e.store { NeedsSplit(d, read, r, i, c, p); }
  }

  /**
   * The run after it keeps a path of that closure, which nothing else needs, if and
   * only if the first run left a generation that records the item's store path.
   */
  lemma ClosureKept(d: Disk, e: Disk, f: Disk, read: Reading, r: Retention, next: Reading, s: Retention,
                    i: Item, c: seq<string>, p: string)
    requires Listing(read, d) && Swept(d, e, read, r) && Listing(next, e) && Swept(e, f, next, s)
    requires i in d.exposed.ledger && i.entry.source in next.holding
    requires OneClosure(d, next.holding[i.entry.source], c) && p in c && p in e.store
    ensures var path := next.holding[i.entry.source];
      p in f.store <==> HeldOtherwise(e, next, s, path, p) || exists g :: g in Stays(d, read, r) && HasPackage(d, g, path, c)
  {
    var path := next.holding[i.entry.source];
    forall g, k | HasPackage(e, g, path, k) ensures k == c { RecordsLeft(d, e, read, r, g, path, k); }
    NeedsSplit(e, next, s, i, c, p);
    forall g ensures HasPackage(e, g, path, c) <==> g in Stays(d, read, r) && HasPackage(d, g, path, c) {
      RecordsLeft(d, e, read, r, g, path, c);
    }
  }

  // --- an app that stays exposed after its generation is gone

  function Exposed(): Item {
    Item(Entry(App, "app", "/app/App", "/Applications/App", "App", false, true, "", "", "", ""), None, 0)
  }

  /** Generation 2 has nothing, but the user has not agreed to take the app of generation 1 out of system scope. */
  function Left(gens: map<nat, Generation>, store: set<string>): Disk {
    Disk(map[GLOBAL := Profile(Lists(None, None), 2, gens)], None,
      S.Exposed([Exposed()], World(map["/Applications/App" := Node(false, "/app/App", true)], map[])), store)
  }

  const First := Generation([Package("app", "/app", ["/lib"])], [], [Exposed()], 0)
  const Second := Generation([], [], [], 1)
  const Both := map[1 := First, 2 := Second]

  function ReadOf(order: seq<(string, nat)>): Reading {
    Reading(order, {GLOBAL}, map["/app/App" := "/app"], {}, {})
  }

  lemma NotListed(order: seq<(string, nat)>, s: string)
    requires s != GLOBAL && forall g :: g in order ==> g.0 == GLOBAL
    ensures GensOf(order, s) == []
  {
    var nums := GensOf(order, s);
    assert forall k :: 0 <= k < |nums| ==> nums[k] in nums;
  }

  lemma LeftListing(gens: map<nat, Generation>, store: set<string>, order: seq<(string, nat)>)
    requires forall g :: g in order ==> g.0 == GLOBAL
    requires Ascending(GensOf(order, GLOBAL)) && forall n :: n in GensOf(order, GLOBAL) <==> n in gens
    ensures Listing(ReadOf(order), Left(gens, store))
    ensures forall s, r :: s != GLOBAL ==> DropsOf(Left(gens, store), ReadOf(order), r, s) == {}
  {
    var d := Left(gens, store);
    assert ProfileOf(d, GLOBAL).gens == gens;
    forall s ensures Listed(order, d, s) && (s != GLOBAL ==> GensOf(order, s) == []) {
      if s != GLOBAL { NotListed(order, s); }
    }
  }

  /** Of two generations, the last one active, the retention of one drops the first. */
  lemma DropsFirst(p: Profile)
    requires p.active == 2
    ensures Drops(p, [1, 2], Retention(1, None)) == {1}
  {
    assert [1, 2][1..] == [2] && Newer([2], 1) == 1 && Newer([1, 2], 1) == 1;
    assert !Kept(p, [1, 2], Retention(1, None), 1) && Kept(p, [1, 2], Retention(1, None), 2);
  }

  lemma LeftDrops()
    ensures var d, read := Left(Both, {"/app", "/lib"}), ReadOf([(GLOBAL, 1), (GLOBAL, 2)]);
      Listing(read, d) && forall s :: DropsOf(d, read, Retention(1, None), s) == if s == GLOBAL then {1} else {}
  {
    var order := [(GLOBAL, 1), (GLOBAL, 2)];
    assert order[1..] == [(GLOBAL, 2)] && GensOf([(GLOBAL, 2)], GLOBAL) == [2];
    assert GensOf(order, GLOBAL) == [1] + [2];
    LeftListing(Both, {"/app", "/lib"}, order);
    DropsFirst(ProfileOf(Left(Both, {"/app", "/lib"}), GLOBAL));
  }

  /** The first run drops the generation, and keeps both paths of the app, which is still there. */
  lemma FirstRun()
    ensures Swept(Left(Both, {"/app", "/lib"}), Left(map[2 := Second], {"/app", "/lib"}),
      ReadOf([(GLOBAL, 1), (GLOBAL, 2)]), Retention(1, None))
  {
    var d, e := Left(Both, {"/app", "/lib"}), Left(map[2 := Second], {"/app", "/lib"});
    var read, r := ReadOf([(GLOBAL, 1), (GLOBAL, 2)]), Retention(1, None);
    LeftDrops();
    assert Both - {1} == map[2 := Second];
    forall s ensures ProfileOf(e, s) == Remains(d, read, r, s) {}
    assert Package("app", "/app", ["/lib"]) in GenAt(d, (GLOBAL, 1)).packages;
    assert HasPackage(d, (GLOBAL, 1), "/app", ["/lib"]);
    assert OneClosure(d, "/app", ["/lib"]);
    NeedsSplit(d, read, r, Exposed(), ["/lib"], "/lib");
    assert "/app" in ItemRoots(read, Closures(d, read.order), Exposed());
    assert Unused(d, read, r) == {};
  }

  lemma LeftListed()
    ensures var e, f, next := Left(map[2 := Second], {"/app", "/lib"}), Left(map[2 := Second], {"/app"}), ReadOf([(GLOBAL, 2)]);
      Listing(next, e) && Remaining(e, f, next, Retention(0, None))
  {
    var e, f := Left(map[2 := Second], {"/app", "/lib"}), Left(map[2 := Second], {"/app"});
    var next, r := ReadOf([(GLOBAL, 2)]), Retention(0, None);
    assert GensOf([(GLOBAL, 2)], GLOBAL) == [2];
    LeftListing(map[2 := Second], {"/app", "/lib"}, next.order);
    forall s ensures ProfileOf(f, s) == Remains(e, next, r, s) {
      assert DropsOf(e, next, r, s) == {};
      assert ProfileOf(e, s).gens - {} == ProfileOf(e, s).gens;
    }
  }

  lemma LeftUnused()
    ensures Unused(Left(map[2 := Second], {"/app", "/lib"}), ReadOf([(GLOBAL, 2)]), Retention(0, None)) == {"/lib"}
  {
    var e, next, r := Left(map[2 := Second], {"/app", "/lib"}), ReadOf([(GLOBAL, 2)]), Retention(0, None);
    LeftListed();
    forall g, c ensures !HasPackage(e, g, "/app", c) {}
    NeedsSplit(e, next, r, Exposed(), ["/lib"], "/lib");
    forall g ensures !Names(e, g, "/lib") {}
    assert !HeldOtherwise(e, next, r, "/app", "/lib");
    assert "/app" in ItemRoots(next, Closures(e, next.order), Exposed());
  }

  /** The second run finds no generation that records the app, and deletes what the app needs. */
  lemma SecondRun()
    ensures Swept(Left(map[2 := Second], {"/app", "/lib"}), Left(map[2 := Second], {"/app"}), ReadOf([(GLOBAL, 2)]), Retention(0, None))
  {
    LeftListed();
    LeftUnused();
  }

  /** After the two runs the app is exposed and in the store, and a path of its closure is gone. */
  lemma ClosureLost()
    ensures var d, e, f := Left(Both, {"/app", "/lib"}), Left(map[2 := Second], {"/app", "/lib"}), Left(map[2 := Second], {"/app"});
      var read, next := ReadOf([(GLOBAL, 1), (GLOBAL, 2)]), ReadOf([(GLOBAL, 2)]);
      && Listing(read, d) && Swept(d, e, read, Retention(1, None)) && Listing(next, e) && Swept(e, f, next, Retention(0, None))
      && HasPackage(d, (GLOBAL, 1), "/app", ["/lib"]) && f.exposed.ledger == [Exposed()] == KeepSystem(d.exposed.ledger, Second.items)
      && "/app" in f.store && "/lib" !in f.store
  {
    LeftDrops();
    FirstRun();
    LeftListed();
    SecondRun();
    assert Package("app", "/app", ["/lib"]) in GenAt(Left(Both, {"/app", "/lib"}), (GLOBAL, 1)).packages;
  }
}
