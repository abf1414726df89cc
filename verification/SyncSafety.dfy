// What every sync keeps at every point where it can stop: the values settings
// had before oku, a ledger entry for all that oku made, and the user's files.
module SyncSafety {
  import opened Basics
  import opened Exposures
  import opened Sync

  // --- settings go back to what they were before oku

  type Settings = map<SettingKey, string>

  ghost predicate Covers(items: seq<Item>, k: SettingKey) {
    exists i :: i in items && i.entry.kind.Setting? && KeyOf(i) == k
  }

  /** Each recorded prior value is the original, and what no item covers is unchanged. */
  ghost predicate Restores(items: seq<Item>, now: Settings, orig: Settings) {
    && (forall i :: i in items && i.entry.kind.Setting? ==> i.prior == Get(orig, KeyOf(i)))
    && (forall k :: !Covers(items, k) ==> Get(now, k) == Get(orig, k))
  }

  /** A list names a setting once. */
  ghost predicate OneValueEach(wanted: seq<Item>) {
    forall a, b :: a in wanted && b in wanted && a.entry.kind.Setting? && b.entry.kind.Setting? && KeyOf(a) == KeyOf(b)
      ==> a.entry == b.entry
  }

  ghost predicate AllWanted(items: seq<Item>, wanted: seq<Item>) {
    forall i :: i in items ==> Wants(wanted, i)
  }

  lemma StoredRestores(items: seq<Item>, now: Settings, orig: Settings)
    requires Restores(items, now, orig)
    ensures Restores(Stored(items), now, orig)
  {
    var file := Stored(items);
    forall s | s in file && s.entry.kind.Setting? ensures s.prior == Get(orig, KeyOf(s)) {
      var k :| 0 <= k < |file| && file[k] == s;
      assert items[k] in items;
    }
    forall k | Covers(items, k) ensures Covers(file, k) {
      var i :| i in items && i.entry.kind.Setting? && KeyOf(i) == k;
      var n :| 0 <= n < |items| && items[n] == i;
      assert file[n] in file;
    }
  }

  /** What an item recorded before oku wrote its setting is the original value. */
  ghost predicate RecordsOrig(i: Item, orig: Settings) {
    i.entry.kind.Setting? ==> i.prior == Get(orig, KeyOf(i))
  }

  /** Undoing an item makes no other item's record wrong. */
  lemma RemovedRestores(have: Item, items: seq<Item>, w: World, orig: Settings)
    requires Restores(items, w.settings, orig) && RecordsOrig(have, orig)
    ensures Restores(items, Removed(have, w).settings, orig)
    ensures Restores(Without(items, have), Removed(have, w).settings, orig)
  {
    var now := Removed(have, w).settings;
    forall k | !Covers(Without(items, have), k) ensures Get(now, k) == Get(orig, k) {
      if Covers(items, k) {
        var i :| i in items && i.entry.kind.Setting? && KeyOf(i) == k;
        assert i == have;
      }
    }
  }

  /** The ledger file and the items in memory both lead back. */
  ghost predicate BothRestore(items: seq<Item>, at: Exposed, orig: Settings) {
    Restores(items, at.world.settings, orig) && Restores(at.ledger, at.world.settings, orig)
  }

  lemma WriteRestores(at: Exposed, items: seq<Item>, fates: seq<Fate>, orig: Settings)
    requires BothRestore(items, at, orig)
    ensures var r := WriteLedger(at, items, fates);
      BothRestore(items, r.at, orig) && r.items == items && r.at.world == at.world
  {
    StoredRestores(items, at.world.settings, orig);
  }

  lemma RemoveOneRestores(have: Item, items: seq<Item>, at: Exposed, fates: seq<Fate>, orig: Settings)
    requires BothRestore(items, at, orig) && RecordsOrig(have, orig)
    ensures var r := RemoveOne(have, items, at, fates); BothRestore(r.items, r.at, orig)
  {
    RemovedRestores(have, at.ledger, at.world, orig);
    RemovedRestores(have, items, at.world, orig);
    if Next(fates).Works? {
      WriteRestores(at.(world := Removed(have, at.world)), Without(items, have), Rest(fates), orig);
    }
  }

  lemma {:induction false} RemovePassRestores(
    todo: seq<Item>, wanted: seq<Item>, items: seq<Item>, at: Exposed, fates: seq<Fate>, orig: Settings)
    requires BothRestore(items, at, orig)
    requires forall i :: i in todo ==> RecordsOrig(i, orig)
    ensures var r := RemovePass(todo, wanted, items, at, fates); BothRestore(r.items, r.at, orig)
  {
    if todo != [] {
      if Wants(wanted, todo[0]) {
        RemovePassRestores(todo[1..], wanted, items, at, fates, orig);
      } else {
        RemoveOneRestores(todo[0], items, at, fates, orig);
        var r := RemoveOne(todo[0], items, at, fates);
        if r.status.Good? { RemovePassRestores(todo[1..], wanted, r.items, r.at, r.fates, orig); }
      }
    }
  }

  /** A setting that no item covers still has its original value, so the record is right. */
  lemma PlaceOneRestores(want: Item, items: seq<Item>, at: Exposed, fates: seq<Fate>, orig: Settings)
    requires BothRestore(items, at, orig)
    requires want.entry.kind.Setting? ==> !Covers(items, KeyOf(want))
    ensures var r := PlaceOne(want, items, at, fates); BothRestore(r.items, r.at, orig)
  {
    var item := Recorded(want, at.world);
    var more := items + [item];
    RecordedRestores(item, items, at.world, orig);
    var fates1 := if want.entry.kind.Setting? then Rest(fates) else fates;
    WriteRestores(at, more, fates1, orig);
    var r := WriteLedger(at, more, fates1);
    if r.status.Good? {
      assert r.at.ledger == Stored(more);
      HandlePlaceRestores(item, more, r.at, r.fates, orig);
    }
  }

  lemma HandlePlaceRestores(item: Item, more: seq<Item>, at: Exposed, fates: seq<Fate>, orig: Settings)
    requires BothRestore(more, at, orig) && at.ledger == Stored(more)
    requires Placed(item, at.world).Some? ==> Restores(more, Placed(item, at.world).value.settings, orig)
    ensures var r := HandlePlace(item, more, at, fates); BothRestore(r.items, r.at, orig)
  {
    var after := Placed(item, at.world);
    if after.Some? { StoredRestores(more, after.value.settings, orig); }
  }

  lemma RecordedRestores(item: Item, items: seq<Item>, w: World, orig: Settings)
    requires Restores(items, w.settings, orig)
    requires RecordsOrig(item, orig)
    ensures Restores(items + [item], w.settings, orig)
    ensures Placed(item, w).Some? ==> Restores(items + [item], Placed(item, w).value.settings, orig)
  {
    var more := items + [item];
    forall k | Covers(items, k) ensures Covers(more, k) {
      var i :| i in items && i.entry.kind.Setting? && KeyOf(i) == k;
      assert i in more;
    }
    assert item in more;
    assert item.entry.kind.Setting? ==> Covers(more, KeyOf(item));
  }

  /** With one value for each setting, a value still to write has no item of its own. */
  lemma NotCovered(want: Item, items: seq<Item>, wanted: seq<Item>)
    requires want in wanted && want.entry.kind.Setting? && !Wants(items, want)
    requires OneValueEach(wanted) && AllWanted(items, wanted)
    ensures !Covers(items, KeyOf(want))
  {
    forall i | i in items && i.entry.kind.Setting? ensures KeyOf(i) != KeyOf(want) {
      var w :| w in wanted && w.entry == i.entry;
      assert w.entry.kind.Setting? && KeyOf(w) == KeyOf(i);
    }
  }

  lemma {:induction false} PlacePassRestores(
    todo: seq<Item>, wanted: seq<Item>, items: seq<Item>, at: Exposed, fates: seq<Fate>, orig: Settings)
    requires BothRestore(items, at, orig)
    requires OneValueEach(wanted) && AllWanted(items, wanted)
    requires forall w :: w in todo ==> w in wanted
    ensures var r := PlacePass(todo, items, at, fates); BothRestore(r.items, r.at, orig)
  {
    if todo != [] {
      if Wants(items, todo[0]) {
        PlacePassRestores(todo[1..], wanted, items, at, fates, orig);
      } else {
        if todo[0].entry.kind.Setting? { NotCovered(todo[0], items, wanted); }
        PlaceOneRestores(todo[0], items, at, fates, orig);
        var r := PlaceOne(todo[0], items, at, fates);
        if r.status.Good? {
          assert Recorded(todo[0], at.world).entry == todo[0].entry;
          PlacePassRestores(todo[1..], wanted, r.items, r.at, r.fates, orig);
        }
      }
    }
  }

  lemma {:induction false} RemovePassWanted(
    todo: seq<Item>, wanted: seq<Item>, items: seq<Item>, at: Exposed, fates: seq<Fate>)
    ensures var r := RemovePass(todo, wanted, items, at, fates);
      r.status.Good? ==> forall i :: i in r.items <==> i in items && (Wants(wanted, i) || i !in todo)
  {
    if todo != [] {
      if Wants(wanted, todo[0]) {
        RemovePassWanted(todo[1..], wanted, items, at, fates);
      } else {
        var r := RemoveOne(todo[0], items, at, fates);
        if r.status.Good? { RemovePassWanted(todo[1..], wanted, r.items, r.at, r.fates); }
      }
    }
  }

  /** Wherever a sync stops, the ledger file still leads every setting back to its original value. */
  lemma RunRestores(at: Exposed, wanted: seq<Item>, fates: seq<Fate>, orig: Settings)
    requires Restores(at.ledger, at.world.settings, orig) && OneValueEach(wanted)
    ensures var r := Run(at, wanted, fates); Restores(r.at.ledger, r.at.world.settings, orig)
  {
    var items := Present(at.ledger, at.world);
    assert Restores(items, at.world.settings, orig) by {
      forall k | Covers(at.ledger, k) ensures Covers(items, k) {
        var i :| i in at.ledger && i.entry.kind.Setting? && KeyOf(i) == k;
        assert i in items;
      }
    }
    if !CheckFails(items, wanted, at.world) {
      RemovePassRestores(items, wanted, items, at, fates, orig);
      RemovePassWanted(items, wanted, items, at, fates);
      var r := RemovePass(items, wanted, items, at, fates);
      if r.status.Good? { PlacePassRestores(wanted, wanted, r.items, r.at, r.fates, orig); }
    }
  }

  // --- write-ahead: what oku made is in the ledger file

  ghost predicate Names(items: seq<Item>, t: string, link: bool) {
    exists i :: i in items && i.entry.target == t && !i.entry.kind.Setting? && IsLink(i.entry.kind) == link
  }

  /** Every path that oku made has an item that removes it. */
  ghost predicate AllNamed(items: seq<Item>, w: World) {
    forall t :: t in w.nodes && w.nodes[t].ours ==> Names(items, t, w.nodes[t].link)
  }

  lemma StoredNamed(items: seq<Item>, w: World)
    requires AllNamed(items, w)
    ensures AllNamed(Stored(items), w)
  {
    var file := Stored(items);
    forall t, link | Names(items, t, link) ensures Names(file, t, link) {
      var i :| i in items && i.entry.target == t && !i.entry.kind.Setting? && IsLink(i.entry.kind) == link;
      var n :| 0 <= n < |items| && items[n] == i;
      assert file[n] in file;
    }
  }

  lemma RemovedNamed(have: Item, items: seq<Item>, w: World)
    requires AllNamed(items, w)
    ensures AllNamed(items, Removed(have, w))
    ensures AllNamed(Without(items, have), Removed(have, w))
  {
    var w1 := Removed(have, w);
    forall t | t in w1.nodes && w1.nodes[t].ours ensures Names(Without(items, have), t, w1.nodes[t].link) {
      assert w1.nodes[t] == w.nodes[t];
      var i :| i in items && i.entry.target == t && !i.entry.kind.Setting? && IsLink(i.entry.kind) == w.nodes[t].link;
      assert i != have;
    }
  }

  lemma MoreNamed(items: seq<Item>, item: Item, w: World)
    requires AllNamed(items, w)
    ensures AllNamed(items + [item], w)
    ensures Placed(item, w).Some? ==> AllNamed(items + [item], Placed(item, w).value)
  {
    var more := items + [item];
    forall t, link | Names(items, t, link) ensures Names(more, t, link) {
      var i :| i in items && i.entry.target == t && !i.entry.kind.Setting? && IsLink(i.entry.kind) == link;
      assert i in more;
    }
    assert item in more;
    assert !item.entry.kind.Setting? ==> Names(more, item.entry.target, IsLink(item.entry.kind));
  }

  lemma {:induction false} RemovePassNamed(
    todo: seq<Item>, wanted: seq<Item>, items: seq<Item>, at: Exposed, fates: seq<Fate>)
    requires AllNamed(items, at.world) && AllNamed(at.ledger, at.world)
    ensures var r := RemovePass(todo, wanted, items, at, fates);
      AllNamed(r.at.ledger, r.at.world) && (r.status.Good? ==> AllNamed(r.items, r.at.world))
  {
    if todo != [] {
      if Wants(wanted, todo[0]) {
        RemovePassNamed(todo[1..], wanted, items, at, fates);
      } else {
        RemovedNamed(todo[0], items, at.world);
        RemovedNamed(todo[0], at.ledger, at.world);
        StoredNamed(Without(items, todo[0]), Removed(todo[0], at.world));
        var r := RemoveOne(todo[0], items, at, fates);
        if r.status.Good? { RemovePassNamed(todo[1..], wanted, r.items, r.at, r.fates); }
      }
    }
  }

  lemma {:induction false} PlacePassNamed(todo: seq<Item>, items: seq<Item>, at: Exposed, fates: seq<Fate>)
    requires AllNamed(items, at.world) && AllNamed(at.ledger, at.world)
    ensures var r := PlacePass(todo, items, at, fates); AllNamed(r.at.ledger, r.at.world)
  {
    if todo != [] {
      if Wants(items, todo[0]) {
        PlacePassNamed(todo[1..], items, at, fates);
      } else {
        var item := Recorded(todo[0], at.world);
        MoreNamed(items, item, at.world);
        StoredNamed(items + [item], at.world);
        if Placed(item, at.world).Some? { StoredNamed(items + [item], Placed(item, at.world).value); }
        var r := PlaceOne(todo[0], items, at, fates);
        if r.status.Good? { PlacePassNamed(todo[1..], r.items, r.at, r.fates); }
      }
    }
  }

  /** Links that are gone name nothing that is there. */
  lemma PresentNamed(at: Exposed)
    requires AllNamed(at.ledger, at.world)
    ensures AllNamed(Present(at.ledger, at.world), at.world)
  {
    var items := Present(at.ledger, at.world);
    forall t | t in at.world.nodes && at.world.nodes[t].ours ensures Names(items, t, at.world.nodes[t].link) {
      var i :| i in at.ledger && i.entry.target == t && !i.entry.kind.Setting? && IsLink(i.entry.kind) == at.world.nodes[t].link;
      assert i in items;
    }
  }

  /** Wherever a sync stops, the ledger file names every path that oku made. */
  lemma RunNamed(at: Exposed, wanted: seq<Item>, fates: seq<Fate>)
    requires AllNamed(at.ledger, at.world)
    ensures var r := Run(at, wanted, fates); AllNamed(r.at.ledger, r.at.world)
  {
    var items := Present(at.ledger, at.world);
    PresentNamed(at);
    if !CheckFails(items, wanted, at.world) {
      RemovePassNamed(items, wanted, items, at, fates);
      var r := RemovePass(items, wanted, items, at, fates);
      if r.status.Good? { PlacePassNamed(wanted, r.items, r.at, r.fates); }
    }
  }
}
