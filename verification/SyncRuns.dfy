// Any number of syncs, each to its own items and each cut anywhere, with the user
// changing settings and paths in between.
module SyncRuns {
  import opened Basics
  import opened Exposures
  import opened Sync
  import opened SyncSafety
  import opened SyncSettled

  datatype Event =
    | Attempt(wanted: seq<Item>, fates: seq<Fate>)
    | UserSets(key: SettingKey, value: Option<string>)
    | UserPuts(path: string, link: bool, content: string)
    | UserDeletes(path: string)

  function After(at: Exposed, e: Event): Exposed {
    match e
    case Attempt(wanted, fates) => Run(at, wanted, fates).at
    case UserSets(key, value) => at.(world := at.world.(settings := Put(at.world.settings, key, value)))
    case UserPuts(path, link, content) => at.(world := at.world.(nodes := at.world.nodes[path := Node(link, content, false)]))
    case UserDeletes(path) => at.(world := at.world.(nodes := at.world.nodes - {path}))
  }

  function Events(at: Exposed, es: seq<Event>): Exposed
    decreases |es|
  {
    if es == [] then at else Events(After(at, es[0]), es[1..])
  }

  /** The values that oku is to give back: those of the user, also where changed while the ledger has no item for them. */
  ghost function OrigAfter(at: Exposed, e: Event, orig: Settings): Settings {
    if e.UserSets? && !Covers(at.ledger, e.key) then Put(orig, e.key, e.value) else orig
  }

  ghost function Originals(at: Exposed, es: seq<Event>, orig: Settings): Settings
    decreases |es|
  {
    if es == [] then orig else Originals(After(at, es[0]), es[1..], OrigAfter(at, es[0], orig))
  }

  /** What holds at every stop: settings lead back, and the file names what oku made. */
  ghost predicate Safe(at: Exposed, orig: Settings) {
    Restores(at.ledger, at.world.settings, orig) && AllNamed(at.ledger, at.world)
  }

  ghost predicate EventOk(e: Event) {
    e.Attempt? ==> OneValueEach(e.wanted)
  }

  lemma EventSafe(at: Exposed, e: Event, orig: Settings)
    requires Safe(at, orig) && EventOk(e)
    ensures Safe(After(at, e), OrigAfter(at, e, orig))
  {
    match e {
      case Attempt(wanted, fates) =>
        RunRestores(at, wanted, fates, orig);
        RunNamed(at, wanted, fates);
      case UserSets(key, value) =>
      case _ =>
        var w := After(at, e).world;
        assert forall t :: t in w.nodes && w.nodes[t].ours ==> t in at.world.nodes && w.nodes[t] == at.world.nodes[t];
    }
  }

  lemma {:induction false} EventsSafe(at: Exposed, es: seq<Event>, orig: Settings)
    requires Safe(at, orig) && forall e :: e in es ==> EventOk(e)
    ensures Safe(Events(at, es), Originals(at, es, orig))
    decreases |es|
  {
    if es != [] {
      assert es[0] in es;
      EventSafe(at, es[0], orig);
      EventsSafe(After(at, es[0]), es[1..], OrigAfter(at, es[0], orig));
    }
  }

  /**
   * From a machine that oku has not touched, over any syncs cut anywhere and any
   * changes by the user, removing everything in the ledger gives back every
   * setting, set or not, as it was or as the user has since made it, and leaves no
   * path that oku made.
   */
  lemma UninstallRestores(at: Exposed, es: seq<Event>, fates: seq<Fate>)
    requires at.ledger == [] && forall t :: t in at.world.nodes ==> !at.world.nodes[t].ours
    requires forall e :: e in es ==> EventOk(e)
    ensures var last := Run(Events(at, es), [], fates);
      last.status.Good? ==>
        && last.at.world.settings == Originals(at, es, at.world.settings)
        && forall t :: t in last.at.world.nodes ==> !last.at.world.nodes[t].ours
  {
    var orig := Originals(at, es, at.world.settings);
    EventsSafe(at, es, at.world.settings);
    var before := Events(at, es);
    RunRestores(before, [], fates, orig);
    RunNamed(before, [], fates);
    RunMatches(before, [], fates);
    if Run(before, [], fates).status.Good? { NothingLeft(Run(before, [], fates).at, orig); }
  }

  lemma NothingLeft(at: Exposed, orig: Settings)
    requires Safe(at, orig) && FileMatches(at, [])
    ensures at.world.settings == orig
    ensures forall t :: t in at.world.nodes ==> !at.world.nodes[t].ours
  {
    assert forall i :: i in at.ledger ==> !Wants([], i) && Gone(i, at.world);
    forall k ensures Get(at.world.settings, k) == Get(orig, k) {
      assert !Covers(at.ledger, k);
    }
    assert forall k :: k in at.world.settings <==> Get(at.world.settings, k).Some?;
    assert forall k :: k in orig <==> Get(orig, k).Some?;
    forall t | t in at.world.nodes ensures !at.world.nodes[t].ours {
      assert !Names(at.ledger, t, at.world.nodes[t].link);
    }
  }
}
