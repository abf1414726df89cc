// The items that oku places outside its own directories, the machine they go
// to, and the handlers that place and remove one item (internal/expose and
// internal/cli/settings.go), on a system that links files.
module Exposures {
  import opened Basics

  datatype Kind = App | Font | Service | File | Secret | Setting

  /** What an item is. */
  datatype Entry = Entry(
    kind: Kind, pkg: string, source: string, target: string,
    name: string, enabled: bool, system: bool, user: string, hash: string,
    domain: string, key: string)

  /** An entry, what its setting held when oku first took it, and the mode for a directory that is made. */
  datatype Item = Item(entry: Entry, prior: Option<string>, dir: nat)

  /** Files and secrets are links. Every other kind but a setting is a copy. */
  predicate IsLink(k: Kind) {
    k.File? || k.Secret?
  }

  /** An item with the same entry is there; what the ledger adds to it may differ. */
  predicate Wants(items: seq<Item>, item: Item) {
    exists have :: have in items && have.entry == item.entry
  }

  /** What the ledger file holds of items: everything but the directory mode. */
  function Stored(items: seq<Item>): (r: seq<Item>)
    ensures |r| == |items|
    ensures forall k :: 0 <= k < |r| ==> r[k] == items[k].(dir := 0)
  {
    seq(|items|, k requires 0 <= k < |items| => items[k].(dir := 0))
  }

  function Without(items: seq<Item>, gone: Item): (r: seq<Item>)
    ensures forall i :: i in r <==> i in items && i != gone
  {
    if items == [] then []
    else if items[0] == gone then Without(items[1..], gone)
    else [items[0]] + Without(items[1..], gone)
  }

  // --- the machine outside oku's directories

  /** A path that exists. `ours` says that oku made it, which no code reads. */
  datatype Node = Node(link: bool, content: string, ours: bool)

  type SettingKey = (string, string)

  datatype World = World(nodes: map<string, Node>, settings: map<SettingKey, string>)

  function KeyOf(i: Item): SettingKey {
    (i.entry.domain, i.entry.key)
  }

  /** A file or secret of the list whose target someone deleted. */
  predicate Gone(i: Item, w: World) {
    IsLink(i.entry.kind) && i.entry.target !in w.nodes
  }

  /** None when the handler refuses: a link is never made over a path that exists. */
  function Placed(i: Item, w: World): Option<World> {
    match i.entry.kind
    case Setting => Some(w.(settings := w.settings[KeyOf(i) := i.entry.source]))
    case File | Secret =>
      if i.entry.target in w.nodes then None
      else Some(w.(nodes := w.nodes[i.entry.target := Node(true, i.entry.source, true)]))
    case _ => Some(w.(nodes := w.nodes[i.entry.target := Node(false, i.entry.source, true)]))
  }

  /** Where a link was, only a link is taken away: the user may have put something else there. */
  function Removed(i: Item, w: World): World {
    match i.entry.kind
    case Setting => w.(settings := Put(w.settings, KeyOf(i), i.prior))
    case File | Secret =>
      if i.entry.target in w.nodes && w.nodes[i.entry.target].link then w.(nodes := w.nodes - {i.entry.target}) else w
    case _ => w.(nodes := w.nodes - {i.entry.target})
  }

  // --- system scope

  /** `wanted` with its system items replaced by those of `have`. */
  function KeepSystem(have: seq<Item>, wanted: seq<Item>): (r: seq<Item>)
    ensures forall i :: i in r <==> if i.entry.system then i in have else i in wanted
  {
    UserItems(wanted) + SystemItems(have)
  }

  function UserItems(items: seq<Item>): (r: seq<Item>)
    ensures forall i :: i in r <==> i in items && !i.entry.system
  {
    if items == [] then []
    else (if items[0].entry.system then [] else [items[0]]) + UserItems(items[1..])
  }

  function SystemItems(items: seq<Item>): (r: seq<Item>)
    ensures forall i :: i in r <==> i in items && i.entry.system
  {
    if items == [] then []
    else (if items[0].entry.system then [items[0]] else []) + SystemItems(items[1..])
  }

  /** Whether a sync to wanted would place or remove an item in system scope. */
  predicate PendingSystem(have: seq<Item>, wanted: seq<Item>) {
    || (exists i :: i in have && i.entry.system && i !in wanted)
    || (exists i :: i in wanted && i.entry.system && i !in have)
  }
}
