// The cache of deps that the packages of one run share (depCache in
// internal/cli/install.go). A root that needs a dep another root is installing
// waits for it, unless the wait would close a cycle of waits.
module DepCache {
  import opened Basics

  /** A dep that root began to install, with what that gave once it is done. */
  datatype Entry = Entry(root: string, result: Option<string>)

  datatype Cache = Cache(entries: map<string, Entry>, waiting: map<string, string>)

  // --- the wait-for graph, with the edges of roots that woke and did not yet say so

  /** The root that r waits for. */
  function WaitsFor(c: Cache, r: string): Option<string> {
    if r in c.waiting && c.waiting[r] in c.entries then Some(c.entries[c.waiting[r]].root) else None
  }

  function Hop(c: Cache, r: string, n: nat): Option<string>
    decreases n
  {
    if n == 0 then Some(r)
    else if WaitsFor(c, r).None? then None
    else Hop(c, WaitsFor(c, r).value, n - 1)
  }

  ghost predicate Reaches(c: Cache, r: string, to: string) {
    exists n: nat :: Hop(c, r, n) == Some(to)
  }

  /** Each wait goes down in rank. */
  ghost predicate Ranked(c: Cache, rank: string -> nat) {
    forall r :: WaitsFor(c, r).Some? ==> rank(r) > rank(WaitsFor(c, r).value)
  }

  ghost predicate Acyclic(c: Cache) {
    exists rank: string -> nat :: Ranked(c, rank)
  }

  /** With a rank no root waits for itself, over any number of others. */
  lemma {:induction false} HopsDown(c: Cache, rank: string -> nat, r: string, n: nat)
    requires Ranked(c, rank) && Hop(c, r, n).Some?
    ensures rank(r) >= rank(Hop(c, r, n).value) + n
    decreases n
  {
    if n > 0 { HopsDown(c, rank, WaitsFor(c, r).value, n - 1); }
  }

  lemma NoCycle(c: Cache, r: string, n: nat)
    requires Acyclic(c) && n > 0
    ensures Hop(c, r, n) != Some(r)
  {
    var rank: string -> nat :| Ranked(c, rank);
    if Hop(c, r, n).Some? { HopsDown(c, rank, r, n); }
  }

  lemma ReachesNext(c: Cache, r: string, to: string)
    requires WaitsFor(c, r).Some? && r != to
    ensures Reaches(c, r, to) <==> Reaches(c, WaitsFor(c, r).value, to)
  {
    if Reaches(c, r, to) {
      var n: nat :| Hop(c, r, n) == Some(to);
      assert Hop(c, WaitsFor(c, r).value, n - 1) == Some(to);
    }
    if Reaches(c, WaitsFor(c, r).value, to) {
      var n: nat :| Hop(c, WaitsFor(c, r).value, n) == Some(to);
      assert Hop(c, r, n + 1) == Some(to);
    }
  }

  lemma ReachesEnd(c: Cache, r: string, to: string)
    requires WaitsFor(c, r).None?
    ensures Reaches(c, r, to) <==> r == to
  {
    if r == to { assert Hop(c, r, 0) == Some(to); }
  }

  /** Waits close no cycle, each is for a dep in the cache, and no dep has the empty key. */
  ghost predicate Sound(c: Cache) {
    Acyclic(c) && "" !in c.entries && forall r :: r in c.waiting ==> c.waiting[r] in c.entries
  }

  /** A cache whose waits lead to the same roots, or have gone, is as sound. */
  lemma SameWaits(c: Cache, d: Cache)
    requires Sound(c) && "" !in d.entries
    requires forall r :: r in d.waiting ==> r in c.waiting && d.waiting[r] == c.waiting[r]
    requires forall k :: k in c.entries ==> k in d.entries && d.entries[k].root == c.entries[k].root
    ensures Sound(d)
  {
    var rank: string -> nat :| Ranked(c, rank);
    forall r | WaitsFor(d, r).Some? ensures rank(r) > rank(WaitsFor(d, r).value) {
      assert WaitsFor(d, r) == WaitsFor(c, r);
    }
    assert Ranked(d, rank);
  }

  // --- one question to the cache

  datatype Answer =
    | Mine           // the root installs the dep
    | Ready(result: string)
    | Cycle
    | Wait

  function AnswerOf(c: Cache, key: string, closes: bool): Answer {
    if key !in c.entries then Mine
    else if c.entries[key].result.Some? then Ready(c.entries[key].result.value)
    else if closes then Cycle
    else Wait
  }

  function Asked(c: Cache, root: string, key: string, a: Answer): Cache {
    match a
    case Mine => c.(entries := c.entries[key := Entry(root, None)])
    case Wait => c.(waiting := c.waiting[root := key])
    case _ => c
  }

  /** A new wait closes no cycle when the root waited for does not lead back. */
  lemma WaitAcyclic(c: Cache, root: string, key: string)
    requires Sound(c) && key in c.entries && root !in c.waiting
    requires !Reaches(c, c.entries[key].root, root)
    ensures Sound(Asked(c, root, key, Wait))
  {
    var rank: string -> nat :| Ranked(c, rank);
    var owner := c.entries[key].root;
    var next := Asked(c, root, key, Wait);
    // Lift the roots that lead to root above the one it waits for.
    ghost var lifted: string -> nat := r => if Reaches(c, r, root) then rank(r) + rank(owner) + 1 else rank(r);
    forall r | WaitsFor(next, r).Some? ensures lifted(r) > lifted(WaitsFor(next, r).value) {
      if r == root {
        assert Hop(c, root, 0) == Some(root);
      } else {
        assert WaitsFor(next, r) == WaitsFor(c, r);
        ReachesNext(c, r, root);
      }
    }
    assert Ranked(next, lifted);
  }

  class DepCache {
    var entries: map<string, Entry>
    var waiting: map<string, string>

    ghost function Now(): Cache
      reads this
    {
      Cache(entries, waiting)
    }

    constructor ()
      ensures Now() == Cache(map[], map[])
    {
      entries, waiting := map[], map[];
    }

    /** The walk from the root that installs key: whether it leads to root. It ends, since no wait closes a cycle. */
    method Closes(root: string, key: string) returns (closes: bool)
      requires Sound(Now()) && key in entries
      ensures closes <==> Reaches(Now(), entries[key].root, root)
    {
      ghost var rank: string -> nat :| Ranked(Now(), rank);
      var at := entries[key];
      while true
        invariant Reaches(Now(), entries[key].root, root) <==> Reaches(Now(), at.root, root)
        decreases rank(at.root)
      {
        if at.root == root {
          ReachesSelf(Now(), root);
          return true;
        }
        // A root that waits for nothing has no key, and no entry has the empty key.
        var next := if at.root in waiting then waiting[at.root] else "";
        if next !in entries {
          ReachesEnd(Now(), at.root, root);
          return false;
        }
        ReachesNext(Now(), at.root, root);
        at := entries[next];
      }
    }

    /** The part of do that holds the mutex: it refuses exactly the waits that would close a cycle. */
    method Ask(root: string, key: string) returns (a: Answer)
      requires Sound(Now()) && root !in waiting && key != ""
      modifies this
      ensures a == AnswerOf(old(Now()), key,
        key in old(entries) && Reaches(old(Now()), old(entries)[key].root, root))
      ensures Now() == Asked(old(Now()), root, key, a)
      ensures key !in old(entries) ==> a.Mine? && Now() == Cache(old(entries)[key := Entry(root, None)], old(waiting))
      ensures key in old(entries) && old(entries)[key].result.Some? ==>
        a == Ready(old(entries)[key].result.value) && Now() == old(Now())
      ensures key in old(entries) && old(entries)[key].result.None? ==>
        if Reaches(old(Now()), old(entries)[key].root, root) then a.Cycle? && Now() == old(Now())
        else a.Wait? && Now() == Cache(old(entries), old(waiting)[root := key])
      ensures Sound(Now())
    {
      if key !in entries {
        SameWaits(Now(), Asked(Now(), root, key, Mine));
        entries := entries[key := Entry(root, None)];
        return Mine;
      }
      if entries[key].result.Some? { return Ready(entries[key].result.value); }
      var closes := Closes(root, key);
      if closes { return Cycle; }
      WaitAcyclic(Now(), root, key);
      waiting := waiting[root := key];
      return Wait;
    }

    /** The root that installs a dep gives its result to all that wait for it. What waits for what stays. */
    method Close(key: string, result: string)
      requires Sound(Now()) && key in entries && entries[key].result.None?
      modifies this`entries
      ensures Now() == Closed(old(Now()), key, result)
      ensures Sound(Now())
    {
      SameWaits(Now(), Closed(Now(), key, result));
      entries := entries[key := entries[key].(result := Some(result))];
    }

    /** A root that woke takes the mutex again and forgets what it waited for. */
    method Woke(root: string)
      requires Sound(Now())
      modifies this`waiting
      ensures Now() == old(Now()).(waiting := old(waiting) - {root})
      ensures Sound(Now())
    {
      SameWaits(Now(), Now().(waiting := waiting - {root}));
      waiting := waiting - {root};
    }
  }

  function Closed(c: Cache, key: string, result: string): Cache
    requires key in c.entries
  {
    c.(entries := c.entries[key := c.entries[key].(result := Some(result))])
  }

  lemma ReachesSelf(c: Cache, r: string)
    ensures Reaches(c, r, r)
  {
    assert Hop(c, r, 0) == Some(r);
  }
}
