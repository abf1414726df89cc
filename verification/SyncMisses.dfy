// Inputs for which a sync that succeeds does not leave the ledger file or the
// machine as the list wants it.
module SyncMisses {
  import opened Basics
  import opened Exposures
  import opened Sync
  import opened SyncSafety
  import opened SyncSettled

  function Sample(kind: Kind): Item {
    Item(Entry(kind, "tool", "/store/tool", "/there", "tool", false, false, "", "", "domain", "key"), None, 0)
  }

  function Empty(): Exposed {
    Exposed([], World(map[], map[]))
  }

  /** The user deleted a link that the list has no more: the sync succeeds, and the file still names it. */
  lemma StaleFile()
    ensures var at := Exposed([Sample(File)], World(map[], map[]));
      && Run(at, [], []).status.Good? && Run(at, [], []).at.ledger == [Sample(File)]
      && !FileIs(Run(at, [], []).at.ledger, [])
  {
    var at := Exposed([Sample(File)], World(map[], map[]));
    assert Gone(Sample(File), at.world);
    assert Present(at.ledger[1..], at.world) == [] && Present(at.ledger, at.world) == [];
    assert Sample(File) in at.ledger && !Wants([], Sample(File));
  }

  /** The first sync dies between the ledger write and the placing, and the next one succeeds with no app there. */
  lemma LostCopy()
    ensures var want := Sample(App);
      var cut := Run(Empty(), [want], [Works, Dies]);
      var next := Run(cut.at, [want], []);
      cut.status.Dead? && next.status.Good? && want.entry.target !in next.at.world.nodes
  {
    var want := Sample(App);
    var cut := Run(Empty(), [want], [Works, Dies]);
    CutAfterWrite(want, [Works, Dies]);
    HeldRuns(cut.at, want);
  }

  /** The same for a setting, whose value is read before the ledger write. */
  lemma LostSetting()
    ensures var want := Sample(Setting);
      var cut := Run(Empty(), [want], [Works, Works, Dies]);
      var next := Run(cut.at, [want], []);
      cut.status.Dead? && next.status.Good? && next.at.world.settings == map[]
  {
    var want := Sample(Setting);
    var cut := Run(Empty(), [want], [Works, Works, Dies]);
    CutAfterWrite(want, [Works, Works, Dies]);
    HeldRuns(cut.at, want);
  }

  lemma CutAfterWrite(want: Item, fates: seq<Fate>)
    requires want == Sample(App) || want == Sample(Setting)
    requires fates == if want.entry.kind.Setting? then [Works, Works, Dies] else [Works, Dies]
    ensures Run(Empty(), [want], fates).at == Exposed([want], World(map[], map[])) && Run(Empty(), [want], fates).status.Dead?
  {
    assert !CheckFails([], [want], World(map[], map[]));
    assert RemovePass([], [want], [], Empty(), fates) == Outcome(Empty(), [], fates, Good);
    assert Recorded(want, Empty().world) == want;
    assert [] + [want] == [want] && Stored([want]) == [want];
    var r := PlaceOne(want, [], Empty(), fates);
    assert r.at == Exposed([want], World(map[], map[])) && r.status.Dead?;
  }

  lemma HeldRuns(at: Exposed, want: Item)
    requires at == Exposed([want], World(map[], map[])) && !IsLink(want.entry.kind)
    ensures Run(at, [want], []).at == at && Run(at, [want], []).status.Good?
  {
    assert want in at.ledger && Wants(at.ledger, want);
    assert Present(at.ledger[1..], at.world) == [] && Present(at.ledger, at.world) == [want];
    assert RemovePass(at.ledger[1..], [want], [want], at, []) == Outcome(at, [want], [], Good);
    assert PlacePass([want][1..], [want], at, []) == Outcome(at, [want], [], Good);
  }
}
