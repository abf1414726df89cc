// A sync that meets no fault succeeds when nothing of the user's is in its way.
module SyncLive {
  import opened Exposures
  import opened Sync
  import opened SyncSafety
  import opened SyncSettled

  /** Nothing but oku's own is at the targets of items. */
  ghost predicate Clear(items: seq<Item>, w: World) {
    forall i :: i in items && !i.entry.kind.Setting? && i.entry.target in w.nodes ==> w.nodes[i.entry.target].ours
  }

  lemma {:induction false} RemovePassWorks(todo: seq<Item>, wanted: seq<Item>, items: seq<Item>, at: Exposed)
    requires Clear(wanted, at.world)
    ensures var r := RemovePass(todo, wanted, items, at, []);
      r.status.Good? && r.fates == [] && Clear(wanted, r.at.world)
  {
    if todo != [] {
      if Wants(wanted, todo[0]) {
        RemovePassWorks(todo[1..], wanted, items, at);
      } else {
        var r := RemoveOne(todo[0], items, at, []);
        assert forall t :: t in r.at.world.nodes ==> t in at.world.nodes && r.at.world.nodes[t] == at.world.nodes[t];
        RemovePassWorks(todo[1..], wanted, r.items, r.at);
      }
    }
  }

  /** What oku made at a wanted target is named by an item, which is then the wanted one. */
  lemma NotThere(want: Item, wanted: seq<Item>, items: seq<Item>, w: World)
    requires want in wanted && !Wants(items, want) && !want.entry.kind.Setting?
    requires OneTargetEach(wanted) && AllWanted(items, wanted) && AllNamed(items, w) && Clear(wanted, w)
    ensures want.entry.target !in w.nodes
  {
    forall i | i in items && !i.entry.kind.Setting? ensures i.entry.target != want.entry.target {
      var v :| v in wanted && v.entry == i.entry;
      assert v.entry != want.entry && !SameTarget(v, want);
    }
    assert forall link :: !Names(items, want.entry.target, link);
  }

  lemma {:induction false} PlacePassWorks(todo: seq<Item>, wanted: seq<Item>, items: seq<Item>, at: Exposed)
    requires forall w :: w in todo ==> w in wanted
    requires OneTargetEach(wanted) && AllWanted(items, wanted) && AllNamed(items, at.world) && Clear(wanted, at.world)
    ensures PlacePass(todo, items, at, []).status.Good?
  {
    if todo != [] {
      if Wants(items, todo[0]) {
        PlacePassWorks(todo[1..], wanted, items, at);
      } else {
        var item := Recorded(todo[0], at.world);
        if !todo[0].entry.kind.Setting? { NotThere(todo[0], wanted, items, at.world); }
        MoreNamed(items, item, at.world);
        var r := PlaceOne(todo[0], items, at, []);
        PlacePassWorks(todo[1..], wanted, r.items, r.at);
      }
    }
  }

  lemma RunWorks(at: Exposed, wanted: seq<Item>)
    requires AllNamed(at.ledger, at.world) && OneTargetEach(wanted) && Clear(wanted, at.world)
    ensures Run(at, wanted, []).status.Good?
  {
    var items := Present(at.ledger, at.world);
    PresentNamed(at);
    forall w | w in wanted ensures !Blocked(items, w, at.world) {
      var t := w.entry.target;
      if !w.entry.kind.Setting? && t in at.world.nodes { assert Names(items, t, at.world.nodes[t].link); }
    }
    RemovePassWorks(items, wanted, items, at);
    RemovePassNamed(items, wanted, items, at, []);
    RemovePassWanted(items, wanted, items, at, []);
    var r := RemovePass(items, wanted, items, at, []);
    PlacePassWorks(wanted, wanted, r.items, r.at);
  }
}
