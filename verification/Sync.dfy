// Ledger.Sync as a function of what it meets: the ledger file, the machine and
// the fate of each step. A run that dies or fails gives the state it leaves.
module Sync {
  import opened Basics
  import opened Exposures

  /** The disk as far as a sync sees it: the ledger file and the machine. */
  datatype Exposed = Exposed(ledger: seq<Item>, world: World)

  /** What a step leaves: the disk, the items in memory, and how it went. */
  datatype Outcome = Outcome(at: Exposed, items: seq<Item>, fates: seq<Fate>, status: Status)

  function Present(items: seq<Item>, w: World): (r: seq<Item>)
    ensures forall i :: i in r <==> i in items && !Gone(i, w)
  {
    if items == [] then []
    else (if Gone(items[0], w) then [] else [items[0]]) + Present(items[1..], w)
  }

  /** The target of want is taken, and not by an item. */
  predicate Blocked(items: seq<Item>, want: Item, w: World) {
    && !Wants(items, want) && want.entry.target != "" && !want.entry.kind.Setting?
    && !(exists have :: have in items && have.entry.target == want.entry.target)
    && want.entry.target in w.nodes
  }

  predicate CheckFails(items: seq<Item>, wanted: seq<Item>, w: World) {
    exists want :: want in wanted && Blocked(items, want, w)
  }

  function WriteLedger(at: Exposed, items: seq<Item>, fates: seq<Fate>): Outcome {
    var f := Next(fates);
    Outcome(
      if TakesEffect(f) then at.(ledger := Stored(items)) else at,
      items, Rest(fates), StatusOf(f))
  }

  function RemoveOne(have: Item, items: seq<Item>, at: Exposed, fates: seq<Fate>): Outcome {
    var f := Next(fates);
    var after := if TakesEffect(f) then at.(world := Removed(have, at.world)) else at;
    if f != Works then Outcome(after, items, Rest(fates), StatusOf(f))
    else WriteLedger(after, Without(items, have), Rest(fates))
  }

  function RemovePass(todo: seq<Item>, wanted: seq<Item>, items: seq<Item>, at: Exposed, fates: seq<Fate>): Outcome {
    if todo == [] then Outcome(at, items, fates, Good)
    else if Wants(wanted, todo[0]) then RemovePass(todo[1..], wanted, items, at, fates)
    else
      var r := RemoveOne(todo[0], items, at, fates);
      if r.status != Good then r else RemovePass(todo[1..], wanted, r.items, r.at, r.fates)
  }

  /** The item to record: a setting keeps the value that oku is about to replace. */
  function Recorded(want: Item, w: World): Item {
    if want.entry.kind.Setting? then want.(prior := Get(w.settings, KeyOf(want))) else want
  }

  function HandlePlace(i: Item, items: seq<Item>, at: Exposed, fates: seq<Fate>): Outcome {
    var after := Placed(i, at.world);
    if after.None? then Outcome(at, items, fates, Failed)
    else
      var f := Next(fates);
      Outcome(
        if TakesEffect(f) then at.(world := after.value) else at,
        items, Rest(fates), StatusOf(f))
  }

  function PlaceOne(want: Item, items: seq<Item>, at: Exposed, fates: seq<Fate>): Outcome {
    // Reading the setting is a step that may fail.
    var read := if want.entry.kind.Setting? then Next(fates) else Works;
    var fates1 := if want.entry.kind.Setting? then Rest(fates) else fates;
    if read != Works then Outcome(at, items, fates1, StatusOf(read))
    else
      var item := Recorded(want, at.world);
      var r := WriteLedger(at, items + [item], fates1);
      if r.status != Good then r else HandlePlace(item, r.items, r.at, r.fates)
  }

  function PlacePass(todo: seq<Item>, items: seq<Item>, at: Exposed, fates: seq<Fate>): Outcome {
    if todo == [] then Outcome(at, items, fates, Good)
    else if Wants(items, todo[0]) then PlacePass(todo[1..], items, at, fates)
    else
      var r := PlaceOne(todo[0], items, at, fates);
      if r.status != Good then r else PlacePass(todo[1..], r.items, r.at, r.fates)
  }

  /** One sync to wanted, from the items that a fresh read of the ledger gives. */
  function Run(at: Exposed, wanted: seq<Item>, fates: seq<Fate>): Outcome {
    var items := Present(at.ledger, at.world);
    if CheckFails(items, wanted, at.world) then Outcome(at, items, fates, Failed)
    else
      var r := RemovePass(items, wanted, items, at, fates);
      if r.status != Good then r else PlacePass(wanted, r.items, r.at, r.fates)
  }
}
