// Every run of the roots ends, when each package has finitely many deps: no
// interleaving goes on for ever.
module DepEnds {
  import opened Basics
  import opened DepCache
  import opened DepRuns

  /** What asks for deps and builds: a root itself, or the install of a dep. */
  datatype Frame = Root(name: string) | Dep(key: string)

  /** What root r is at: the innermost install, or itself. */
  function FrameOf(r: string, t: Thread): Frame {
    if t.stack == [] then Root(r) else Dep(t.stack[|t.stack| - 1])
  }

  /** How often each frame may still ask for a dep or begin a build. */
  type Left = map<Frame, nat>

  predicate Spends(a: Action) {
    a.Ask? || a.Lock?
  }

  function After(s: System, left: Left, r: string, a: Action): Left
    requires r in s.threads
  {
    var f := FrameOf(r, s.threads[r]);
    if Spends(a) && f in left && left[f] > 0 then left[f := left[f] - 1] else left
  }

  /** Each frame asks and builds no more often than its package has deps and builds, and asks for one of keys. */
  ghost predicate Finite(s: System, left: Left, keys: set<string>, steps: seq<(string, Action)>)
    requires CanRun(s, steps)
    decreases |steps|
  {
    steps == [] ||
      var r, a := steps[0].0, steps[0].1;
      var f := FrameOf(r, s.threads[r]);
      && (Spends(a) ==> f in left && left[f] > 0)
      && (a.Ask? ==> a.key in keys)
      && Finite(Do(s, r, a), After(s, left, r, a), keys, steps[1..])
  }

  // --- sums

  ghost function Sum<K(!new)>(m: map<K, nat>): nat
    decreases |m|
  {
    if m == map[] then 0 else var k :| k in m; m[k] + Sum(m - {k})
  }

  lemma {:induction false} SumWithout<K(!new)>(m: map<K, nat>, k: K)
    requires k in m
    ensures Sum(m) == m[k] + Sum(m - {k})
    decreases |m|
  {
    var j :| j in m && Sum(m) == m[j] + Sum(m - {j});
    if j != k {
      SumWithout(m - {j}, k);
      SumWithout(m - {k}, j);
      assert m - {j} - {k} == m - {k} - {j};
    }
  }

  lemma SumPut<K(!new)>(m: map<K, nat>, k: K, v: nat)
    requires k in m
    ensures Sum(m[k := v]) == Sum(m) - m[k] + v
  {
    SumWithout(m, k);
    SumWithout(m[k := v], k);
    assert m[k := v] - {k} == m - {k};
  }

  // --- what every step uses up

  function Weight(p: Phase): nat {
    match p
    case Fresh => 2
    case Running => 1
    case Blocked(_) => 2
    case Over => 0
  }

  function Weights(threads: map<string, Thread>): map<string, nat> {
    map r | r in threads :: Weight(threads[r].phase)
  }

  predicate IsOpen(c: Cache, k: string) {
    k !in c.entries || c.entries[k].result.None?
  }

  function Open(c: Cache, keys: set<string>): set<string> {
    set k | k in keys && IsOpen(c, k)
  }

  ghost function Potential(s: System, left: Left, keys: set<string>): nat {
    3 * Sum(left) + Sum(Weights(s.threads)) + |Open(s.cache, keys)| + if s.build.Some? then 1 else 0
  }

  lemma WeightsPut(threads: map<string, Thread>, r: string, t: Thread)
    requires r in threads
    ensures Sum(Weights(threads[r := t])) == Sum(Weights(threads)) - Weight(threads[r].phase) + Weight(t.phase)
  {
    assert Weights(threads[r := t]) == Weights(threads)[r := Weight(t.phase)];
    SumPut(Weights(threads), r, Weight(t.phase));
  }

  lemma SpendsThree(s: System, left: Left, r: string, a: Action)
    requires r in s.threads && Spends(a) && FrameOf(r, s.threads[r]) in left && left[FrameOf(r, s.threads[r])] > 0
    ensures Sum(After(s, left, r, a)) == Sum(left) - 1
  {
    var f := FrameOf(r, s.threads[r]);
    SumPut(left, f, left[f] - 1);
  }

  /** An install that is done is open no more, and no other step opens or closes one. */
  lemma FinishCloses(s: System, keys: set<string>, r: string, result: string)
    requires Inv(s) && Enabled(s, r, Finish(result)) && s.cache.entries.Keys <= keys
    ensures |Open(Do(s, r, Finish(result)).cache, keys)| == |Open(s.cache, keys)| - 1
  {
    assert StackOk(s.cache, r, s.threads[r]);
    var key := s.threads[r].stack[|s.threads[r].stack| - 1];
    assert Open(Do(s, r, Finish(result)).cache, keys) == Open(s.cache, keys) - {key};
    assert key in Open(s.cache, keys);
  }

  lemma OpenSame(s: System, keys: set<string>, r: string, a: Action)
    requires Enabled(s, r, a) && !a.Finish?
    ensures Open(Do(s, r, a).cache, keys) == Open(s.cache, keys)
  {
    forall k ensures IsOpen(Do(s, r, a).cache, k) <==> IsOpen(s.cache, k) {}
  }

  function PhaseChange(a: Action): int {
    if a.Ask? then 1 else if a.Start? || a.Wake? || a.Exit? then -1 else 0
  }

  lemma ThreadDrops(s: System, r: string, a: Action)
    requires Enabled(s, r, a)
    ensures var next := Do(s, r, a);
      && r in next.threads && next.threads == s.threads[r := next.threads[r]]
      && Weight(next.threads[r].phase) <= Weight(s.threads[r].phase) + PhaseChange(a)
  {
  }

  lemma PhaseDrops(s: System, r: string, a: Action)
    requires Enabled(s, r, a)
    ensures Sum(Weights(Do(s, r, a).threads)) <= Sum(Weights(s.threads)) + PhaseChange(a)
  {
    ThreadDrops(s, r, a);
    WeightsPut(s.threads, r, Do(s, r, a).threads[r]);
  }

  lemma DoDrops(s: System, left: Left, keys: set<string>, r: string, a: Action)
    requires Inv(s) && Enabled(s, r, a) && s.cache.entries.Keys <= keys
    requires Spends(a) ==> FrameOf(r, s.threads[r]) in left && left[FrameOf(r, s.threads[r])] > 0
    ensures Potential(Do(s, r, a), After(s, left, r, a), keys) < Potential(s, left, keys)
  {
    PhaseDrops(s, r, a);
    if Spends(a) { SpendsThree(s, left, r, a); }
    match a {
      case Finish(result) => FinishCloses(s, keys, r, result);
      case _ => OpenSame(s, keys, r, a);
    }
    BuildKept(s, r, a);
  }

  lemma BuildKept(s: System, r: string, a: Action)
    requires Enabled(s, r, a)
    ensures var next := Do(s, r, a);
      if a.Lock? then s.build.None? && next.build.Some? else if a.Unlock? then s.build.Some? && next.build.None? else next.build == s.build
  {
  }

  lemma EntriesIn(s: System, keys: set<string>, r: string, a: Action)
    requires Enabled(s, r, a) && s.cache.entries.Keys <= keys && (a.Ask? ==> a.key in keys)
    ensures Do(s, r, a).cache.entries.Keys <= keys
  {
  }

  /** A run is no longer than the potential that it starts with. */
  lemma {:induction false} Ends(s: System, left: Left, keys: set<string>, steps: seq<(string, Action)>)
    requires Inv(s) && CanRun(s, steps) && Finite(s, left, keys, steps) && s.cache.entries.Keys <= keys
    ensures |steps| <= Potential(s, left, keys)
    decreases |steps|
  {
    if steps != [] {
      var r, a := steps[0].0, steps[0].1;
      DoInv(s, r, a);
      DoDrops(s, left, keys, r, a);
      EntriesIn(s, keys, r, a);
      Ends(Do(s, r, a), After(s, left, r, a), keys, steps[1..]);
    }
  }

  /**
   * Every interleaving ends: for roots and keys that each ask and build finitely
   * often, no run is longer than three steps for each time, one for each key and two
   * for each root.
   */
  lemma RunsEnd(roots: set<string>, limit: nat, left: Left, keys: set<string>, steps: seq<(string, Action)>)
    requires limit > 0 && CanRun(Begin(roots, limit), steps) && Finite(Begin(roots, limit), left, keys, steps)
    ensures |steps| <= 3 * Sum(left) + |keys| + 2 * |roots|
  {
    var s := Begin(roots, limit);
    BeginInv(roots, limit);
    Ends(s, left, keys, steps);
    assert Open(s.cache, keys) == keys;
    FreshSum(s.threads);
    assert s.threads.Keys == roots;
  }

  lemma {:induction false} FreshSum(threads: map<string, Thread>)
    requires forall r :: r in threads ==> threads[r].phase.Fresh?
    ensures Sum(Weights(threads)) == 2 * |threads.Keys|
    decreases |threads|
  {
    if threads.Keys == {} {
      assert Weights(threads) == map[];
    } else {
      var r :| r in threads;
      SumWithout(Weights(threads), r);
      assert Weights(threads) - {r} == Weights(threads - {r});
      FreshSum(threads - {r});
      assert (threads - {r}).Keys == threads.Keys - {r};
    }
  }
}
