// What a sync that succeeds leaves, and what no sync changes.
module SyncSettled {
  import opened Basics
  import opened Exposures
  import opened Sync
  import opened SyncSafety

  // --- convergence: the ledger in memory is wanted

  ghost predicate AllHeld(wanted: seq<Item>, items: seq<Item>) {
    forall w :: w in wanted ==> Wants(items, w)
  }

  lemma HeldByMore(wanted: seq<Item>, items: seq<Item>, more: seq<Item>)
    requires AllHeld(wanted, items) && forall i :: i in items ==> i in more
    ensures AllHeld(wanted, more)
  {
    forall w | w in wanted ensures Wants(more, w) {
      var have :| have in items && have.entry == w.entry;
      assert have in more;
    }
  }

  lemma {:induction false} PlacePassKeeps(todo: seq<Item>, items: seq<Item>, at: Exposed, fates: seq<Fate>)
    ensures forall i :: i in items ==> i in PlacePass(todo, items, at, fates).items
  {
    if todo != [] {
      if Wants(items, todo[0]) {
        PlacePassKeeps(todo[1..], items, at, fates);
      } else {
        var r := PlaceOne(todo[0], items, at, fates);
        if r.status.Good? { PlacePassKeeps(todo[1..], r.items, r.at, r.fates); }
      }
    }
  }

  lemma {:induction false} PlacePassWanted(
    todo: seq<Item>, wanted: seq<Item>, items: seq<Item>, at: Exposed, fates: seq<Fate>)
    requires AllWanted(items, wanted)
    requires forall w :: w in todo ==> w in wanted
    ensures AllWanted(PlacePass(todo, items, at, fates).items, wanted)
  {
    if todo != [] {
      if Wants(items, todo[0]) {
        PlacePassWanted(todo[1..], wanted, items, at, fates);
      } else {
        var item := Recorded(todo[0], at.world);
        var r := PlaceOne(todo[0], items, at, fates);
        assert r.items == items || r.items == items + [item];
        if r.status.Good? { PlacePassWanted(todo[1..], wanted, r.items, r.at, r.fates); }
      }
    }
  }

  lemma {:induction false} PlacePassHolds(todo: seq<Item>, items: seq<Item>, at: Exposed, fates: seq<Fate>)
    requires PlacePass(todo, items, at, fates).status.Good?
    ensures AllHeld(todo, PlacePass(todo, items, at, fates).items)
  {
    if todo != [] {
      var last := PlacePass(todo, items, at, fates).items;
      if Wants(items, todo[0]) {
        PlacePassHolds(todo[1..], items, at, fates);
        PlacePassKeeps(todo[1..], items, at, fates);
        assert AllHeld([todo[0]], items);
        HeldByMore([todo[0]], items, last);
      } else {
        var r := PlaceOne(todo[0], items, at, fates);
        PlacePassHolds(todo[1..], r.items, r.at, r.fates);
        PlacePassKeeps(todo[1..], r.items, r.at, r.fates);
        assert Recorded(todo[0], at.world) in last;
      }
      assert Wants(last, todo[0]);
    }
  }

  /** A sync that succeeds ends with exactly the wanted items in memory, up to what the ledger adds. */
  lemma RunSettles(at: Exposed, wanted: seq<Item>, fates: seq<Fate>)
    ensures var r := Run(at, wanted, fates);
      r.status.Good? ==> AllWanted(r.items, wanted) && AllHeld(wanted, r.items)
  {
    var items := Present(at.ledger, at.world);
    if !CheckFails(items, wanted, at.world) {
      RemovePassWanted(items, wanted, items, at, fates);
      var r := RemovePass(items, wanted, items, at, fates);
      if r.status.Good? {
        PlacePassWanted(wanted, wanted, r.items, r.at, r.fates);
        if PlacePass(wanted, r.items, r.at, r.fates).status.Good? { PlacePassHolds(wanted, r.items, r.at, r.fates); }
      }
    }
  }

  // --- the ledger file: it follows memory from the first write on

  /** Nothing to remove and nothing to place, so a sync writes nothing. */
  ghost predicate InSync(items: seq<Item>, wanted: seq<Item>) {
    AllWanted(items, wanted) && AllHeld(wanted, items)
  }

  lemma {:induction false} RemovePassFile(
    todo: seq<Item>, wanted: seq<Item>, items: seq<Item>, at: Exposed, fates: seq<Fate>)
    ensures var r := RemovePass(todo, wanted, items, at, fates);
      r.status.Good? ==>
        if AllWanted(todo, wanted) then r.at == at && r.items == items else r.at.ledger == Stored(r.items)
  {
    if todo != [] {
      if Wants(wanted, todo[0]) {
        RemovePassFile(todo[1..], wanted, items, at, fates);
        assert AllWanted(todo[1..], wanted) ==> AllWanted(todo, wanted);
      } else {
        assert todo[0] in todo;
        var r := RemoveOne(todo[0], items, at, fates);
        if r.status.Good? { RemovePassFile(todo[1..], wanted, r.items, r.at, r.fates); }
      }
    }
  }

  lemma {:induction false} PlacePassFile(todo: seq<Item>, items: seq<Item>, at: Exposed, fates: seq<Fate>)
    ensures var r := PlacePass(todo, items, at, fates);
      r.status.Good? ==>
        if AllHeld(todo, items) then r.at == at && r.items == items else r.at.ledger == Stored(r.items)
    ensures var r := PlacePass(todo, items, at, fates);
      r.status.Good? && at.ledger == Stored(items) ==> r.at.ledger == Stored(r.items)
  {
    if todo != [] {
      if Wants(items, todo[0]) {
        PlacePassFile(todo[1..], items, at, fates);
      } else {
        assert todo[0] in todo;
        var r := PlaceOne(todo[0], items, at, fates);
        if r.status.Good? { PlacePassFile(todo[1..], r.items, r.at, r.fates); }
      }
    }
  }

  /** A sync that finds nothing to do changes nothing. Any other leaves the file as memory is. */
  lemma RunFile(at: Exposed, wanted: seq<Item>, fates: seq<Fate>)
    ensures var r := Run(at, wanted, fates);
      r.status.Good? ==>
        if InSync(Present(at.ledger, at.world), wanted) then r.at == at && r.items == Present(at.ledger, at.world)
        else r.at.ledger == Stored(r.items)
  {
    var items := Present(at.ledger, at.world);
    if !CheckFails(items, wanted, at.world) {
      RemovePassFile(items, wanted, items, at, fates);
      var r := RemovePass(items, wanted, items, at, fates);
      if r.status.Good? { PlacePassFile(wanted, r.items, r.at, r.fates); }
    }
  }

  /** The ledger file holds exactly the wanted items, up to what the ledger adds. */
  ghost predicate FileIs(ledger: seq<Item>, wanted: seq<Item>) {
    AllWanted(ledger, wanted) && AllHeld(wanted, ledger)
  }

  /** The file holds every wanted item, and any other is a link that is gone. */
  ghost predicate FileMatches(at: Exposed, wanted: seq<Item>) {
    && AllHeld(wanted, at.ledger)
    && (forall i :: i in at.ledger ==> Wants(wanted, i) || Gone(i, at.world))
  }

  lemma StoredIs(items: seq<Item>, wanted: seq<Item>)
    requires InSync(items, wanted)
    ensures FileIs(Stored(items), wanted)
  {
    var file := Stored(items);
    forall s | s in file ensures Wants(wanted, s) {
      var k :| 0 <= k < |file| && file[k] == s;
      assert Wants(wanted, items[k]);
    }
    forall w | w in wanted ensures Wants(file, w) {
      var have :| have in items && have.entry == w.entry;
      var k :| 0 <= k < |items| && items[k] == have;
      assert file[k].entry == w.entry;
    }
  }

  ghost predicate HasEntry(items: seq<Item>, e: Entry) {
    exists i :: i in items && i.entry == e
  }

  predicate IsDeletedLink(i: Item, w: World) {
    (i.entry.kind.File? || i.entry.kind.Secret?) && i.entry.target !in w.nodes
  }

  /** A sync that succeeds leaves a file that matches wanted, entry by entry. */
  lemma RunMatches(at: Exposed, wanted: seq<Item>, fates: seq<Fate>)
    ensures var r := Run(at, wanted, fates); r.status.Good? ==> FileMatches(r.at, wanted)
    ensures var r := Run(at, wanted, fates);
      r.status.Good? ==>
        && (forall w :: w in wanted ==> HasEntry(r.at.ledger, w.entry))
        && (forall i :: i in r.at.ledger ==> HasEntry(wanted, i.entry) || IsDeletedLink(i, r.at.world))
  {
    var items := Present(at.ledger, at.world);
    var r := Run(at, wanted, fates);
    RunSettles(at, wanted, fates);
    RunFile(at, wanted, fates);
    if r.status.Good? {
      if InSync(items, wanted) { HeldByMore(wanted, items, at.ledger); }
      else { StoredIs(r.items, wanted); }
      MatchesEntries(r.at, wanted);
    }
  }

  lemma MatchesEntries(at: Exposed, wanted: seq<Item>)
    requires FileMatches(at, wanted)
    ensures forall w :: w in wanted ==> HasEntry(at.ledger, w.entry)
    ensures forall i :: i in at.ledger ==> HasEntry(wanted, i.entry) || IsDeletedLink(i, at.world)
  {
    forall w | w in wanted ensures HasEntry(at.ledger, w.entry) { assert Wants(at.ledger, w); }
    forall i | i in at.ledger && !HasEntry(wanted, i.entry)
      ensures IsDeletedLink(i, at.world)
    {
      assert !Wants(wanted, i) && Gone(i, at.world);
    }
  }

  /**
   * The file holds exactly the wanted items after a sync that succeeds, unless
   * there is nothing to do but forget a deleted link that is not wanted: the sync
   * drops it in memory alone, and the file still names it.
   */
  lemma RunFileExact(at: Exposed, wanted: seq<Item>, fates: seq<Fate>)
    requires Run(at, wanted, fates).status.Good?
    ensures FileIs(Run(at, wanted, fates).at.ledger, wanted) <==>
      !(InSync(Present(at.ledger, at.world), wanted)
        && exists i :: i in at.ledger && Gone(i, at.world) && !Wants(wanted, i))
  {
    var items := Present(at.ledger, at.world);
    RunSettles(at, wanted, fates);
    RunFile(at, wanted, fates);
    if InSync(items, wanted) { HeldByMore(wanted, items, at.ledger); }
    else { StoredIs(Run(at, wanted, fates).items, wanted); }
  }

  // --- targets: links are placed again, copies are not

  ghost predicate SameTarget(a: Item, b: Item) {
    !a.entry.kind.Setting? && !b.entry.kind.Setting? && a.entry.target == b.entry.target
  }

  /** No two different items share a target. */
  ghost predicate OneTargetEach(items: seq<Item>) {
    forall a, b :: a in items && b in items && SameTarget(a, b) ==> a.entry == b.entry
  }

  /** Both items are about one path, or about one setting. */
  ghost predicate SamePlace(a: Item, b: Item) {
    if a.entry.kind.Setting? then b.entry.kind.Setting? && KeyOf(a) == KeyOf(b) else SameTarget(a, b)
  }

  /** What is at the place of an item. */
  datatype Thing = InPath(node: Node) | InStore(value: string)

  function Found(i: Item, w: World): Option<Thing> {
    if i.entry.kind.Setting? then
      (if KeyOf(i) in w.settings then Some(InStore(w.settings[KeyOf(i)])) else None)
    else if i.entry.target in w.nodes then Some(InPath(w.nodes[i.entry.target]))
    else None
  }

  /** What the item itself puts there. */
  function ThingOf(i: Item): Thing {
    if i.entry.kind.Setting? then InStore(i.entry.source) else InPath(Node(IsLink(i.entry.kind), i.entry.source, true))
  }

  /** No other item of the list is about the same place. */
  ghost predicate AloneIn(items: seq<Item>, keeps: Item) {
    forall i :: i in items && SamePlace(i, keeps) ==> i.entry == keeps.entry
  }

  lemma {:induction false} RemovePassFound(
    todo: seq<Item>, wanted: seq<Item>, items: seq<Item>, at: Exposed, fates: seq<Fate>, keeps: Item)
    requires keeps in wanted && AloneIn(todo, keeps)
    ensures Found(keeps, RemovePass(todo, wanted, items, at, fates).at.world) == Found(keeps, at.world)
  {
    if todo != [] {
      if Wants(wanted, todo[0]) {
        RemovePassFound(todo[1..], wanted, items, at, fates, keeps);
      } else {
        assert todo[0] in todo && !SamePlace(todo[0], keeps);
        var r := RemoveOne(todo[0], items, at, fates);
        if r.status.Good? { RemovePassFound(todo[1..], wanted, r.items, r.at, r.fates, keeps); }
      }
    }
  }

  lemma {:induction false} PlacePassFound(
    todo: seq<Item>, items: seq<Item>, at: Exposed, fates: seq<Fate>, keeps: Item)
    requires AloneIn(todo, keeps) && PlacePass(todo, items, at, fates).status.Good?
    ensures Found(keeps, PlacePass(todo, items, at, fates).at.world) ==
      if Wants(todo, keeps) && !Wants(items, keeps) then Some(ThingOf(keeps)) else Found(keeps, at.world)
  {
    if todo != [] {
      assert todo == [todo[0]] + todo[1..];
      assert Wants(todo, keeps) <==> todo[0].entry == keeps.entry || Wants(todo[1..], keeps);
      if Wants(items, todo[0]) {
        PlacePassFound(todo[1..], items, at, fates, keeps);
      } else {
        var r := PlaceOne(todo[0], items, at, fates);
        PlacePassFound(todo[1..], r.items, r.at, r.fates, keeps);
        var item := Recorded(todo[0], at.world);
        assert item in r.items && forall i :: i in r.items ==> i in items || i == item;
        assert forall i :: i in items ==> i in r.items;
        PlaceOneFound(todo[0], items, at, fates, keeps);
      }
    }
  }

  lemma PlaceOneFound(want: Item, items: seq<Item>, at: Exposed, fates: seq<Fate>, keeps: Item)
    requires PlaceOne(want, items, at, fates).status.Good?
    requires SamePlace(want, keeps) ==> want.entry == keeps.entry
    ensures Found(keeps, PlaceOne(want, items, at, fates).at.world) ==
      if want.entry == keeps.entry then Some(ThingOf(keeps)) else Found(keeps, at.world)
  {
    assert want.entry == keeps.entry ==> SamePlace(want, keeps);
  }

  /** The ledger does not hold the item, or holds a link that is gone. */
  ghost predicate Places(at: Exposed, i: Item) {
    !Wants(at.ledger, i) || Gone(i, at.world)
  }

  /** A sync that succeeds puts a wanted item in its place exactly when Places says so, and else leaves what is there. */
  lemma RunFound(at: Exposed, wanted: seq<Item>, fates: seq<Fate>, keeps: Item)
    requires keeps in wanted && AloneIn(wanted, keeps) && (Wants(at.ledger, keeps) ==> AloneIn(at.ledger, keeps))
    requires Run(at, wanted, fates).status.Good?
    ensures Found(keeps, Run(at, wanted, fates).at.world) ==
      if Places(at, keeps) then Some(ThingOf(keeps)) else Found(keeps, at.world)
  {
    var items := Present(at.ledger, at.world);
    PresentHolds(at, keeps);
    RemovePassHolds(items, wanted, at, fates, keeps);
    var r := RemovePass(items, wanted, items, at, fates);
    PlacePassFound(wanted, r.items, r.at, r.fates, keeps);
    assert Wants(wanted, keeps);
    if Wants(items, keeps) { RemovePassFound(items, wanted, items, at, fates, keeps); }
  }

  lemma PresentHolds(at: Exposed, keeps: Item)
    requires Wants(at.ledger, keeps) ==> AloneIn(at.ledger, keeps)
    ensures var items := Present(at.ledger, at.world);
      (Wants(items, keeps) <==> !Places(at, keeps)) && (Wants(items, keeps) ==> AloneIn(items, keeps))
  {
    if Wants(at.ledger, keeps) {
      var have :| have in at.ledger && have.entry == keeps.entry;
      assert Gone(have, at.world) <==> Gone(keeps, at.world);
      assert have in Present(at.ledger, at.world) <==> !Gone(keeps, at.world);
    }
  }

  /**
   * After a sync that succeeds the path of a wanted item is as the item makes it
   * when it had to be placed, and else as it was. So a wanted link is always there,
   * and a copy that the ledger holds and that is missing stays missing.
   */
  lemma RunTarget(at: Exposed, wanted: seq<Item>, fates: seq<Fate>, keeps: Item)
    requires keeps in wanted && !keeps.entry.kind.Setting?
    requires OneTargetEach(wanted) && OneTargetEach(at.ledger)
    requires Run(at, wanted, fates).status.Good?
    ensures Get(Run(at, wanted, fates).at.world.nodes, keeps.entry.target) ==
      if Places(at, keeps) then Some(Node(IsLink(keeps.entry.kind), keeps.entry.source, true))
      else Get(at.world.nodes, keeps.entry.target)
    ensures keeps.entry.target in Run(at, wanted, fates).at.world.nodes <==>
      keeps.entry.target in at.world.nodes || IsLink(keeps.entry.kind) || !Wants(at.ledger, keeps)
  {
    if Wants(at.ledger, keeps) {
      var have :| have in at.ledger && have.entry == keeps.entry;
      assert forall i :: i in at.ledger && SamePlace(i, keeps) ==> SameTarget(i, have);
    }
    RunFound(at, wanted, fates, keeps);
  }

  /**
   * After a sync that succeeds a wanted setting has its value exactly when it had it
   * before, or the ledger did not hold it. One that the ledger holds is not written
   * again, whatever value it has.
   */
  lemma RunSetting(at: Exposed, wanted: seq<Item>, fates: seq<Fate>, keeps: Item)
    requires keeps in wanted && keeps.entry.kind.Setting?
    requires OneValueEach(wanted) && OneValueEach(at.ledger)
    requires Run(at, wanted, fates).status.Good?
    ensures Get(Run(at, wanted, fates).at.world.settings, KeyOf(keeps)) ==
      if Wants(at.ledger, keeps) then Get(at.world.settings, KeyOf(keeps)) else Some(keeps.entry.source)
    ensures Get(Run(at, wanted, fates).at.world.settings, KeyOf(keeps)) == Some(keeps.entry.source) <==>
      Get(at.world.settings, KeyOf(keeps)) == Some(keeps.entry.source) || !Wants(at.ledger, keeps)
  {
    if Wants(at.ledger, keeps) {
      var have :| have in at.ledger && have.entry == keeps.entry;
      assert forall i :: i in at.ledger && SamePlace(i, keeps) ==> KeyOf(i) == KeyOf(have);
    }
    RunFound(at, wanted, fates, keeps);
  }

  lemma RemovePassHolds(items: seq<Item>, wanted: seq<Item>, at: Exposed, fates: seq<Fate>, keeps: Item)
    requires keeps in wanted
    requires RemovePass(items, wanted, items, at, fates).status.Good?
    ensures Wants(RemovePass(items, wanted, items, at, fates).items, keeps) <==> Wants(items, keeps)
  {
    RemovePassWanted(items, wanted, items, at, fates);
    if Wants(items, keeps) {
      var have :| have in items && have.entry == keeps.entry;
      assert Wants(wanted, have);
    }
  }

  // --- one item for each path, and one for each setting, stays true of the ledger file

  /** OneTargetEach, or OneValueEach for settings. */
  ghost predicate OneEach(items: seq<Item>, settings: bool) {
    forall a, b :: a in items && b in items && a.entry.kind.Setting? == settings && SamePlace(a, b) ==> a.entry == b.entry
  }

  lemma OneEachMeans(items: seq<Item>)
    ensures OneEach(items, false) <==> OneTargetEach(items)
    ensures OneEach(items, true) <==> OneValueEach(items)
  {
    assert forall a: Item, b: Item :: SameTarget(a, b) <==> SamePlace(a, b) && !a.entry.kind.Setting?;
    if OneEach(items, true) {
      forall a, b | a in items && b in items && a.entry.kind.Setting? && b.entry.kind.Setting? && KeyOf(a) == KeyOf(b)
        ensures a.entry == b.entry
      {
        assert SamePlace(a, b);
      }
    }
  }

  lemma StoredEach(items: seq<Item>, settings: bool)
    requires OneEach(items, settings)
    ensures OneEach(Stored(items), settings)
  {
    var file := Stored(items);
    forall a, b | a in file && b in file && a.entry.kind.Setting? == settings && SamePlace(a, b) ensures a.entry == b.entry {
      var m :| 0 <= m < |file| && file[m] == a;
      var n :| 0 <= n < |file| && file[n] == b;
      assert SamePlace(items[m], items[n]);
    }
  }

  lemma {:induction false} RemovePassEach(
    todo: seq<Item>, wanted: seq<Item>, items: seq<Item>, at: Exposed, fates: seq<Fate>, settings: bool)
    requires OneEach(items, settings) && OneEach(at.ledger, settings)
    ensures OneEach(RemovePass(todo, wanted, items, at, fates).at.ledger, settings)
    ensures OneEach(RemovePass(todo, wanted, items, at, fates).items, settings)
  {
    if todo != [] {
      if Wants(wanted, todo[0]) {
        RemovePassEach(todo[1..], wanted, items, at, fates, settings);
      } else {
        var r := RemoveOne(todo[0], items, at, fates);
        StoredEach(Without(items, todo[0]), settings);
        if r.status.Good? { RemovePassEach(todo[1..], wanted, r.items, r.at, r.fates, settings); }
      }
    }
  }

  lemma NewEach(want: Item, item: Item, items: seq<Item>, wanted: seq<Item>, settings: bool)
    requires want in wanted && !Wants(items, want) && item.entry == want.entry
    requires OneEach(wanted, settings) && AllWanted(items, wanted) && OneEach(items, settings)
    ensures OneEach(items + [item], settings) && AllWanted(items + [item], wanted)
  {
    forall i | i in items && i.entry.kind.Setting? == settings ensures !SamePlace(i, item) && !SamePlace(item, i) {
      var w :| w in wanted && w.entry == i.entry;
      assert w.entry != want.entry && !SamePlace(w, want);
    }
  }

  lemma {:induction false} PlacePassEach(
    todo: seq<Item>, wanted: seq<Item>, items: seq<Item>, at: Exposed, fates: seq<Fate>, settings: bool)
    requires OneEach(wanted, settings) && AllWanted(items, wanted) && forall w :: w in todo ==> w in wanted
    requires OneEach(items, settings) && OneEach(at.ledger, settings)
    ensures OneEach(PlacePass(todo, items, at, fates).at.ledger, settings)
  {
    if todo != [] {
      if Wants(items, todo[0]) {
        PlacePassEach(todo[1..], wanted, items, at, fates, settings);
      } else {
        var item := Recorded(todo[0], at.world);
        NewEach(todo[0], item, items, wanted, settings);
        StoredEach(items + [item], settings);
        var r := PlaceOne(todo[0], items, at, fates);
        if r.status.Good? { PlacePassEach(todo[1..], wanted, r.items, r.at, r.fates, settings); }
      }
    }
  }

  lemma RunEach(at: Exposed, wanted: seq<Item>, fates: seq<Fate>, settings: bool)
    requires OneEach(wanted, settings) && OneEach(at.ledger, settings)
    ensures OneEach(Run(at, wanted, fates).at.ledger, settings)
  {
    var items := Present(at.ledger, at.world);
    if !CheckFails(items, wanted, at.world) {
      RemovePassEach(items, wanted, items, at, fates, settings);
      RemovePassWanted(items, wanted, items, at, fates);
      var r := RemovePass(items, wanted, items, at, fates);
      if r.status.Good? { PlacePassEach(wanted, wanted, r.items, r.at, r.fates, settings); }
    }
  }

  /** However a sync ends, the ledger file has one item for a path, and one for a setting, when both lists had. */
  lemma RunTargets(at: Exposed, wanted: seq<Item>, fates: seq<Fate>)
    ensures OneTargetEach(wanted) && OneTargetEach(at.ledger) ==> OneTargetEach(Run(at, wanted, fates).at.ledger)
    ensures OneValueEach(wanted) && OneValueEach(at.ledger) ==> OneValueEach(Run(at, wanted, fates).at.ledger)
  {
    OneEachMeans(wanted);
    OneEachMeans(at.ledger);
    OneEachMeans(Run(at, wanted, fates).at.ledger);
    if OneTargetEach(wanted) && OneTargetEach(at.ledger) { RunEach(at, wanted, fates, false); }
    if OneValueEach(wanted) && OneValueEach(at.ledger) { RunEach(at, wanted, fates, true); }
  }

  // --- paths that no sync touches

  /** Neither placing nor removing i changes the path t, which holds node. */
  ghost predicate Spares(i: Item, t: string, node: Option<Node>) {
    i.entry.kind.Setting? || i.entry.target != t || (IsLink(i.entry.kind) && node.Some? && !node.value.link)
  }

  lemma {:induction false} RemovePassSpares(
    todo: seq<Item>, wanted: seq<Item>, items: seq<Item>, at: Exposed, fates: seq<Fate>, t: string)
    requires forall i :: i in todo ==> Wants(wanted, i) || Spares(i, t, Get(at.world.nodes, t))
    ensures Get(RemovePass(todo, wanted, items, at, fates).at.world.nodes, t) == Get(at.world.nodes, t)
  {
    if todo != [] {
      if Wants(wanted, todo[0]) {
        RemovePassSpares(todo[1..], wanted, items, at, fates, t);
      } else {
        assert todo[0] in todo;
        var r := RemoveOne(todo[0], items, at, fates);
        if r.status.Good? { RemovePassSpares(todo[1..], wanted, r.items, r.at, r.fates, t); }
      }
    }
  }

  lemma {:induction false} PlacePassSpares(todo: seq<Item>, items: seq<Item>, at: Exposed, fates: seq<Fate>, t: string)
    requires forall w :: w in todo ==> Wants(items, w) || Spares(w, t, Get(at.world.nodes, t))
    ensures Get(PlacePass(todo, items, at, fates).at.world.nodes, t) == Get(at.world.nodes, t)
  {
    if todo != [] {
      if Wants(items, todo[0]) {
        PlacePassSpares(todo[1..], items, at, fates, t);
      } else {
        assert todo[0] in todo;
        var r := PlaceOne(todo[0], items, at, fates);
        if r.status.Good? {
          forall w | w in todo[1..] ensures Wants(r.items, w) || Spares(w, t, Get(r.at.world.nodes, t)) {
            if Wants(items, w) {
              var have :| have in items && have.entry == w.entry;
              assert have in r.items;
            }
          }
          PlacePassSpares(todo[1..], r.items, r.at, r.fates, t);
        }
      }
    }
  }

  /** A file of the user's at the target of links is neither overwritten nor deleted, however a sync ends. */
  lemma RunSparesUserFile(at: Exposed, wanted: seq<Item>, fates: seq<Fate>, t: string)
    requires t in at.world.nodes && !at.world.nodes[t].link
    requires forall i :: (i in at.ledger || i in wanted) && !i.entry.kind.Setting? && i.entry.target == t ==> IsLink(i.entry.kind)
    ensures Get(Run(at, wanted, fates).at.world.nodes, t) == Get(at.world.nodes, t)
  {
    var items := Present(at.ledger, at.world);
    if !CheckFails(items, wanted, at.world) {
      RemovePassSpares(items, wanted, items, at, fates, t);
      var r := RemovePass(items, wanted, items, at, fates);
      if r.status.Good? { PlacePassSpares(wanted, r.items, r.at, r.fates, t); }
    }
  }

  /** The path t holds something, and no item of the ledger has it. */
  ghost predicate Theirs(ledger: seq<Item>, w: World, t: string) {
    t != "" && t in w.nodes && forall i :: i in ledger ==> i.entry.target != t
  }

  /** Some wanted item would go where the user has something. */
  ghost predicate InTheWay(ledger: seq<Item>, wanted: seq<Item>, w: World) {
    exists i :: i in wanted && !i.entry.kind.Setting? && Theirs(ledger, w, i.entry.target)
  }

  lemma CheckTheirs(items: seq<Item>, wanted: seq<Item>, w: World)
    ensures CheckFails(items, wanted, w) <==> InTheWay(items, wanted, w)
  {
    forall i ensures Blocked(items, i, w) <==> !i.entry.kind.Setting? && Theirs(items, w, i.entry.target) {
      if Wants(items, i) {
        var have :| have in items && have.entry == i.entry;
        assert have.entry.target == i.entry.target;
      }
    }
  }

  /** Whatever a sync wants and however it ends, what is at a path that no ledger item has stays as it is. */
  lemma RunSparesTheirs(at: Exposed, wanted: seq<Item>, fates: seq<Fate>, t: string)
    requires Theirs(at.ledger, at.world, t)
    ensures Get(Run(at, wanted, fates).at.world.nodes, t) == Get(at.world.nodes, t)
  {
    var items := Present(at.ledger, at.world);
    CheckTheirs(items, wanted, at.world);
    if !CheckFails(items, wanted, at.world) {
      forall i | i in wanted ensures Spares(i, t, Get(at.world.nodes, t)) {
        assert !(!i.entry.kind.Setting? && Theirs(items, at.world, i.entry.target));
      }
      RemovePassSpares(items, wanted, items, at, fates, t);
      var r := RemovePass(items, wanted, items, at, fates);
      if r.status.Good? { PlacePassSpares(wanted, r.items, r.at, r.fates, t); }
    }
  }

  /** A sync that wants such a path changes nothing. */
  lemma RunRefuses(at: Exposed, wanted: seq<Item>, fates: seq<Fate>)
    requires InTheWay(at.ledger, wanted, at.world)
    ensures Run(at, wanted, fates).status.Failed? && Run(at, wanted, fates).at == at
  {
    var items := Present(at.ledger, at.world);
    var i :| i in wanted && !i.entry.kind.Setting? && Theirs(at.ledger, at.world, i.entry.target);
    assert Theirs(items, at.world, i.entry.target);
    CheckTheirs(items, wanted, at.world);
  }

  // --- system scope

  /** Only apps, fonts and services are in system scope. */
  ghost predicate SystemCopies(items: seq<Item>) {
    forall i :: i in items && i.entry.system ==> !IsLink(i.entry.kind) && !i.entry.kind.Setting?
  }

  ghost predicate SystemPath(items: seq<Item>, t: string) {
    forall i :: i in items && !i.entry.kind.Setting? && i.entry.target == t ==> i.entry.system
  }

  /** wanted has the system items of the ledger, as KeepSystem makes it, or as it is when nothing there is pending. */
  ghost predicate SystemAsIs(ledger: seq<Item>, wanted: seq<Item>) {
    forall i: Item :: i.entry.system ==> (i in wanted <==> i in ledger)
  }

  lemma SystemHeld(at: Exposed, wanted: seq<Item>, fates: seq<Fate>)
    requires SystemCopies(at.ledger) && SystemAsIs(at.ledger, wanted)
    requires RemovePass(Present(at.ledger, at.world), wanted, Present(at.ledger, at.world), at, fates).status.Good?
    ensures var items := RemovePass(Present(at.ledger, at.world), wanted, Present(at.ledger, at.world), at, fates).items;
      forall i: Item :: i in at.ledger && i.entry.system ==> i in items
  {
    var items := Present(at.ledger, at.world);
    RemovePassWanted(items, wanted, items, at, fates);
    forall i: Item | i in at.ledger && i.entry.system
      ensures i in RemovePass(items, wanted, items, at, fates).items
    {
      assert i in wanted && i in items;
    }
  }

  /** A sync that leaves system scope as it is changes no path that only system items have, however it ends. */
  lemma RunSparesSystem(at: Exposed, wanted: seq<Item>, fates: seq<Fate>, t: string)
    requires SystemCopies(at.ledger) && SystemAsIs(at.ledger, wanted)
    requires SystemPath(at.ledger, t) && SystemPath(wanted, t)
    ensures Get(Run(at, wanted, fates).at.world.nodes, t) == Get(at.world.nodes, t)
  {
    var items := Present(at.ledger, at.world);
    if !CheckFails(items, wanted, at.world) {
      forall i | i in items ensures Wants(wanted, i) || Spares(i, t, Get(at.world.nodes, t)) {
        if i.entry.system { assert i in wanted; }
      }
      RemovePassSpares(items, wanted, items, at, fates, t);
      var r := RemovePass(items, wanted, items, at, fates);
      if r.status.Good? {
        SystemHeld(at, wanted, fates);
        PlacePassSpares(wanted, r.items, r.at, r.fates, t);
      }
    }
  }

  ghost predicate SameSystem(a: seq<Item>, b: seq<Item>) {
    forall i: Item :: i.entry.system ==> (Wants(a, i) <==> Wants(b, i))
  }

  lemma StoredSystem(items: seq<Item>, ledger: seq<Item>)
    requires SameSystem(items, ledger)
    ensures SameSystem(Stored(items), ledger)
  {
    var file := Stored(items);
    forall i: Item | i.entry.system ensures Wants(file, i) <==> Wants(ledger, i) {
      if Wants(items, i) {
        var n :| 0 <= n < |items| && items[n].entry == i.entry;
        assert file[n] in file;
      }
      if Wants(file, i) {
        var n :| 0 <= n < |file| && file[n].entry == i.entry;
        assert items[n] in items;
      }
    }
  }

  lemma WithoutSystem(items: seq<Item>, ledger: seq<Item>, have: Item)
    requires SameSystem(items, ledger) && !have.entry.system
    ensures SameSystem(Without(items, have), ledger)
  {
    forall i: Item | i.entry.system && Wants(items, i) ensures Wants(Without(items, have), i) {
      var j :| j in items && j.entry == i.entry;
      assert j in Without(items, have);
    }
  }

  lemma WithSystem(items: seq<Item>, ledger: seq<Item>, item: Item)
    requires SameSystem(items, ledger) && !item.entry.system
    ensures SameSystem(items + [item], ledger)
  {
    forall i: Item | i.entry.system && Wants(items, i) ensures Wants(items + [item], i) {
      var j :| j in items && j.entry == i.entry;
      assert j in items + [item];
    }
  }

  lemma {:induction false} RemovePassSystem(
    todo: seq<Item>, wanted: seq<Item>, items: seq<Item>, at: Exposed, fates: seq<Fate>, ledger: seq<Item>)
    requires SameSystem(items, ledger) && SameSystem(at.ledger, ledger)
    requires forall i :: i in todo && i.entry.system ==> Wants(wanted, i)
    ensures var r := RemovePass(todo, wanted, items, at, fates);
      SameSystem(r.items, ledger) && SameSystem(r.at.ledger, ledger)
  {
    if todo != [] {
      if Wants(wanted, todo[0]) {
        RemovePassSystem(todo[1..], wanted, items, at, fates, ledger);
      } else {
        assert todo[0] in todo;
        WithoutSystem(items, ledger, todo[0]);
        StoredSystem(Without(items, todo[0]), ledger);
        var r := RemoveOne(todo[0], items, at, fates);
        if r.status.Good? { RemovePassSystem(todo[1..], wanted, r.items, r.at, r.fates, ledger); }
      }
    }
  }

  lemma {:induction false} PlacePassSystem(
    todo: seq<Item>, items: seq<Item>, at: Exposed, fates: seq<Fate>, ledger: seq<Item>)
    requires SameSystem(items, ledger) && SameSystem(at.ledger, ledger)
    requires forall w :: w in todo && w.entry.system ==> w in ledger
    ensures SameSystem(PlacePass(todo, items, at, fates).at.ledger, ledger)
  {
    if todo != [] {
      if Wants(items, todo[0]) {
        PlacePassSystem(todo[1..], items, at, fates, ledger);
      } else {
        assert todo[0] in todo;
        assert todo[0].entry.system ==> Wants(ledger, todo[0]);
        var item := Recorded(todo[0], at.world);
        WithSystem(items, ledger, item);
        StoredSystem(items + [item], ledger);
        var r := PlaceOne(todo[0], items, at, fates);
        if r.status.Good? { PlacePassSystem(todo[1..], r.items, r.at, r.fates, ledger); }
      }
    }
  }

  /** Such a sync leaves the system items of the ledger file, however it ends. */
  lemma RunKeepsSystem(at: Exposed, wanted: seq<Item>, fates: seq<Fate>)
    requires SystemCopies(at.ledger) && SystemAsIs(at.ledger, wanted)
    ensures SameSystem(Run(at, wanted, fates).at.ledger, at.ledger)
  {
    var items := Present(at.ledger, at.world);
    forall i: Item | i.entry.system && Wants(at.ledger, i) ensures Wants(items, i) {
      var j :| j in at.ledger && j.entry == i.entry;
      assert j in items;
    }
    if !CheckFails(items, wanted, at.world) {
      forall i | i in items && i.entry.system ensures Wants(wanted, i) { assert i in wanted; }
      RemovePassSystem(items, wanted, items, at, fates, at.ledger);
      var r := RemovePass(items, wanted, items, at, fates);
      if r.status.Good? { PlacePassSystem(wanted, r.items, r.at, r.fates, at.ledger); }
    }
  }

  /** What a change is asked to sync to without the user's yes leaves system scope as it is. */
  lemma SystemLeftAsIs(ledger: seq<Item>, wanted: seq<Item>)
    ensures SystemAsIs(ledger, KeepSystem(ledger, wanted))
    ensures !PendingSystem(ledger, wanted) ==> SystemAsIs(ledger, wanted)
  {
  }

  // --- a sync invents no item

  /** Every item is one of `from` or of `wanted`, up to what the ledger adds. */
  ghost predicate EntriesFrom(items: seq<Item>, from: seq<Item>, wanted: seq<Item>) {
    forall i :: i in items ==> Wants(from, i) || Wants(wanted, i)
  }

  lemma StoredEntries(items: seq<Item>, from: seq<Item>, wanted: seq<Item>)
    requires EntriesFrom(items, from, wanted)
    ensures EntriesFrom(Stored(items), from, wanted)
  {
    var file := Stored(items);
    forall s | s in file ensures Wants(from, s) || Wants(wanted, s) {
      var n :| 0 <= n < |file| && file[n] == s;
      assert items[n] in items;
    }
  }

  lemma {:induction false} RemovePassEntries(
    todo: seq<Item>, wanted: seq<Item>, items: seq<Item>, at: Exposed, fates: seq<Fate>, from: seq<Item>)
    requires EntriesFrom(items, from, wanted) && EntriesFrom(at.ledger, from, wanted)
    ensures var r := RemovePass(todo, wanted, items, at, fates);
      EntriesFrom(r.items, from, wanted) && EntriesFrom(r.at.ledger, from, wanted)
  {
    if todo != [] {
      if Wants(wanted, todo[0]) {
        RemovePassEntries(todo[1..], wanted, items, at, fates, from);
      } else {
        var r := RemoveOne(todo[0], items, at, fates);
        StoredEntries(Without(items, todo[0]), from, wanted);
        if r.status.Good? { RemovePassEntries(todo[1..], wanted, r.items, r.at, r.fates, from); }
      }
    }
  }

  lemma {:induction false} PlacePassEntries(
    todo: seq<Item>, wanted: seq<Item>, items: seq<Item>, at: Exposed, fates: seq<Fate>, from: seq<Item>)
    requires EntriesFrom(items, from, wanted) && EntriesFrom(at.ledger, from, wanted)
    requires forall w :: w in todo ==> w in wanted
    ensures EntriesFrom(PlacePass(todo, items, at, fates).at.ledger, from, wanted)
  {
    if todo != [] {
      if Wants(items, todo[0]) {
        PlacePassEntries(todo[1..], wanted, items, at, fates, from);
      } else {
        var r := PlaceOne(todo[0], items, at, fates);
        StoredEntries(items + [Recorded(todo[0], at.world)], from, wanted);
        if r.status.Good? { PlacePassEntries(todo[1..], wanted, r.items, r.at, r.fates, from); }
      }
    }
  }

  lemma RunEntries(at: Exposed, wanted: seq<Item>, fates: seq<Fate>)
    ensures EntriesFrom(Run(at, wanted, fates).at.ledger, at.ledger, wanted)
  {
    var items := Present(at.ledger, at.world);
    if !CheckFails(items, wanted, at.world) {
      RemovePassEntries(items, wanted, items, at, fates, at.ledger);
      var r := RemovePass(items, wanted, items, at, fates);
      if r.status.Good? { PlacePassEntries(wanted, wanted, r.items, r.at, r.fates, at.ledger); }
    }
  }

  lemma RunSystemCopies(at: Exposed, wanted: seq<Item>, fates: seq<Fate>)
    requires SystemCopies(at.ledger) && SystemCopies(wanted)
    ensures SystemCopies(Run(at, wanted, fates).at.ledger)
  {
    RunEntries(at, wanted, fates);
    var file := Run(at, wanted, fates).at.ledger;
    forall i | i in file && i.entry.system ensures !IsLink(i.entry.kind) && !i.entry.kind.Setting? {
      var j :| (j in at.ledger || j in wanted) && j.entry == i.entry;
      assert j.entry.system;
    }
  }
}
