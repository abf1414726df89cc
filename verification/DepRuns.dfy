// The packages of one run, each a thread, installing their deps through one cache
// in any interleaving, with the slots that limit how many run and the mutex that
// lets one build at a time (install and installHere, reconcile.go and install.go).
module DepRuns {
  import opened Basics
  import opened DepCache

  datatype Phase = Fresh | Running | Blocked(key: string) | Over

  /** The deps that a root is installing, the innermost last. */
  datatype Thread = Thread(phase: Phase, stack: seq<string>)

  /** `begun` and `told` are the history: the installs that began, and each answer with a result. */
  datatype System = System(
    cache: Cache, threads: map<string, Thread>, used: nat, limit: nat, build: Option<string>,
    begun: seq<string>, told: seq<(string, string)>)

  datatype Action =
    | Start           // take a slot
    | Ask(key: string)
    | Finish(result: string) // the innermost install is done, and the channel closes
    | Lock            // begin a build, once the deps are installed
    | Unlock
    | Wake            // the channel closed, and the root takes the cache's mutex again
    | Exit            // give the slot back

  predicate Busy(p: Phase) {
    p.Running? || p.Blocked?
  }

  /** What the code of root r may do next, whatever the others do. While it builds it asks for nothing. */
  predicate Intends(s: System, r: string, a: Action) {
    && r in s.threads
    && var t := s.threads[r];
      match a
      case Start => t.phase.Fresh?
      case Wake => t.phase.Blocked?
      case Ask(key) => t.phase.Running? && s.build != Some(r) && key != ""
      case Finish(_) => t.phase.Running? && s.build != Some(r) && t.stack != []
      case Lock => t.phase.Running? && s.build != Some(r)
      case Unlock => t.phase.Running? && s.build == Some(r)
      case Exit => t.phase.Running? && s.build != Some(r) && t.stack == []
  }

  /** The step need not wait for another root. */
  predicate Enabled(s: System, r: string, a: Action) {
    && Intends(s, r, a)
    && match a
      case Start => s.used < s.limit
      case Wake => s.threads[r].phase.key in s.cache.entries && s.cache.entries[s.threads[r].phase.key].result.Some?
      case Lock => s.build.None?
      case _ => true
  }

  ghost function AnswerTo(s: System, r: string, key: string): Answer {
    AnswerOf(s.cache, key, key in s.cache.entries && Reaches(s.cache, s.cache.entries[key].root, r))
  }

  ghost function Do(s: System, r: string, a: Action): System
    requires Enabled(s, r, a)
  {
    var t := s.threads[r];
    match a
    case Start => s.(threads := s.threads[r := t.(phase := Running)], used := s.used + 1)
    case Exit => s.(threads := s.threads[r := t.(phase := Over)], used := if s.used > 0 then s.used - 1 else 0)
    case Lock => s.(build := Some(r))
    case Unlock => s.(build := None)
    case Wake =>
      s.(cache := s.cache.(waiting := s.cache.waiting - {r}),
         threads := s.threads[r := t.(phase := Running)],
         told := s.told + [(t.phase.key, s.cache.entries[t.phase.key].result.value)])
    case Finish(result) =>
      var key := t.stack[|t.stack| - 1];
      if key !in s.cache.entries then s
      else s.(cache := Closed(s.cache, key, result),
              threads := s.threads[r := t.(stack := t.stack[..|t.stack| - 1])],
              told := s.told + [(key, result)])
    case Ask(key) =>
      var answer := AnswerTo(s, r, key);
      var next := s.(cache := Asked(s.cache, r, key, answer));
      match answer
      case Mine => next.(threads := s.threads[r := t.(stack := t.stack + [key])], begun := s.begun + [key])
      case Ready(result) => next.(told := s.told + [(key, result)])
      case Cycle => next
      case Wait => next.(threads := s.threads[r := t.(phase := Blocked(key))])
  }

  // --- what every reachable state keeps

  ghost function Active(s: System): set<string> {
    set r | r in s.threads && Busy(s.threads[r].phase)
  }

  ghost predicate WaitsOk(s: System) {
    && (forall r :: r in s.cache.waiting ==> r in s.threads && s.threads[r].phase == Blocked(s.cache.waiting[r]))
    && (forall r :: r in s.threads && s.threads[r].phase.Blocked? ==> r in s.cache.waiting)
  }

  /** An install that is not done is on the stack of the root that began it, which is not over. */
  ghost predicate StacksOk(s: System) {
    && (forall k :: k in s.cache.entries && s.cache.entries[k].result.None? ==>
          s.cache.entries[k].root in s.threads && k in s.threads[s.cache.entries[k].root].stack)
    && (forall r :: r in s.threads ==> StackOk(s.cache, r, s.threads[r]))
  }

  ghost predicate StackOk(c: Cache, r: string, t: Thread) {
    && (t.stack != [] ==> Busy(t.phase))
    && (forall i :: 0 <= i < |t.stack| ==>
          t.stack[i] in c.entries && c.entries[t.stack[i]] == Entry(r, None))
    && (forall i, j :: 0 <= i < j < |t.stack| ==> t.stack[i] != t.stack[j])
  }

  ghost predicate SlotsOk(s: System) {
    && s.limit > 0 && s.used == |Active(s)|
    && (s.build.Some? ==> s.build.value in s.threads && s.threads[s.build.value].phase.Running?)
  }

  /** Each install began once, and every answer for a key was the result of its install. */
  ghost predicate HistoryOk(s: System) {
    && (forall k :: k in s.begun <==> k in s.cache.entries)
    && (forall i, j :: 0 <= i < j < |s.begun| ==> s.begun[i] != s.begun[j])
    && (forall t :: t in s.told ==> t.0 in s.cache.entries && s.cache.entries[t.0].result == Some(t.1))
  }

  ghost predicate Inv(s: System) {
    Sound(s.cache) && WaitsOk(s) && StacksOk(s) && SlotsOk(s) && HistoryOk(s)
  }

  lemma ActiveMoves(s: System, r: string, t: Thread)
    requires r in s.threads
    ensures var next := s.(threads := s.threads[r := t]);
      Active(next) == if Busy(t.phase) then Active(s) + {r} else Active(s) - {r}
  {
  }

  lemma StartInv(s: System, r: string)
    requires Inv(s) && Enabled(s, r, Start)
    ensures Inv(Do(s, r, Start))
  {
    ActiveMoves(s, r, s.threads[r].(phase := Running));
    assert r !in Active(s);
  }

  lemma ExitInv(s: System, r: string)
    requires Inv(s) && Enabled(s, r, Exit)
    ensures Inv(Do(s, r, Exit))
  {
    ActiveMoves(s, r, s.threads[r].(phase := Over));
    assert r in Active(s);
  }

  /** Moving between running and blocked keeps the slots and the stacks. */
  lemma MoveKeeps(s: System, r: string, phase: Phase, next: System)
    requires StacksOk(s) && SlotsOk(s) && r in s.threads && Busy(s.threads[r].phase) && Busy(phase)
    requires s.build != Some(r)
    requires next.threads == s.threads[r := s.threads[r].(phase := phase)] && next.cache.entries == s.cache.entries
    requires next.used == s.used && next.limit == s.limit && next.build == s.build
    ensures StacksOk(next) && SlotsOk(next)
  {
    ActiveMoves(s, r, s.threads[r].(phase := phase));
    assert Active(next) == Active(s.(threads := next.threads)) == Active(s);
    forall q | q in next.threads ensures StackOk(next.cache, q, next.threads[q]) {
      assert StackOk(s.cache, q, s.threads[q]);
    }
  }

  lemma WakeInv(s: System, r: string)
    requires Inv(s) && Enabled(s, r, Wake)
    ensures Inv(Do(s, r, Wake))
  {
    var next := Do(s, r, Wake);
    MoveKeeps(s, r, Running, next);
    SameWaits(s.cache, next.cache);
  }

  /** A new top or a shorter stack keeps the slots. */
  lemma StackKeepsSlots(s: System, r: string, stack: seq<string>, next: System)
    requires SlotsOk(s) && r in s.threads
    requires next.threads == s.threads[r := s.threads[r].(stack := stack)]
    requires next.used == s.used && next.limit == s.limit && next.build == s.build
    ensures SlotsOk(next)
  {
    ActiveMoves(s, r, s.threads[r].(stack := stack));
    assert Active(next) == Active(s.(threads := next.threads)) == Active(s);
  }

  /** The state after the innermost install of r is done. */
  function Finished(s: System, r: string, result: string): System
    requires r in s.threads && s.threads[r].stack != []
    requires s.threads[r].stack[|s.threads[r].stack| - 1] in s.cache.entries
  {
    var t := s.threads[r];
    var key := t.stack[|t.stack| - 1];
    s.(cache := Closed(s.cache, key, result),
       threads := s.threads[r := t.(stack := t.stack[..|t.stack| - 1])],
       told := s.told + [(key, result)])
  }

  lemma FinishDoes(s: System, r: string, result: string)
    requires Inv(s) && Enabled(s, r, Finish(result))
    ensures s.threads[r].stack[|s.threads[r].stack| - 1] in s.cache.entries
    ensures s.cache.entries[s.threads[r].stack[|s.threads[r].stack| - 1]].result.None?
    ensures Do(s, r, Finish(result)) == Finished(s, r, result)
  {
    assert StackOk(s.cache, r, s.threads[r]);
  }

  lemma FinishHistory(s: System, r: string, result: string)
    requires Inv(s) && Enabled(s, r, Finish(result))
    requires s.threads[r].stack[|s.threads[r].stack| - 1] in s.cache.entries
    requires s.cache.entries[s.threads[r].stack[|s.threads[r].stack| - 1]].result.None?
    ensures WaitsOk(Finished(s, r, result)) && HistoryOk(Finished(s, r, result))
  {
  }

  lemma FinishInv(s: System, r: string, result: string)
    requires Inv(s) && Enabled(s, r, Finish(result))
    ensures Inv(Do(s, r, Finish(result)))
  {
    FinishDoes(s, r, result);
    var t, next := s.threads[r], Finished(s, r, result);
    var key, rest := t.stack[|t.stack| - 1], t.stack[..|t.stack| - 1];
    FinishHistory(s, r, result);
    StackKeepsSlots(s, r, rest, next);
    SameWaits(s.cache, next.cache);
    FinishStacks(s, r, key, rest, next);
  }

  /** Every open install is still on its root's stack, and every stack holds open installs. */
  lemma FinishStacks(s: System, r: string, key: string, rest: seq<string>, next: System)
    requires StacksOk(s) && r in s.threads && s.threads[r].stack == rest + [key] && Busy(s.threads[r].phase)
    requires next.threads == s.threads[r := s.threads[r].(stack := rest)]
    requires key in s.cache.entries && exists result :: next.cache == Closed(s.cache, key, result)
    ensures StacksOk(next)
  {
    assert StackOk(s.cache, r, s.threads[r]);
    assert (rest + [key])[|rest|] == key;
    forall k | k in next.cache.entries && next.cache.entries[k].result.None?
      ensures next.cache.entries[k].root in next.threads && k in next.threads[next.cache.entries[k].root].stack
    {
      assert k != key && s.cache.entries[k] == next.cache.entries[k];
    }
    forall q | q in next.threads ensures StackOk(next.cache, q, next.threads[q]) {
      assert StackOk(s.cache, q, s.threads[q]);
      forall i | 0 <= i < |next.threads[q].stack| ensures next.threads[q].stack[i] != key {
        if q == r { assert (rest + [key])[i] != (rest + [key])[|rest|]; }
      }
      assert forall i :: 0 <= i < |next.threads[q].stack| ==> next.threads[q].stack[i] == s.threads[q].stack[i];
    }
  }

  lemma AskMineInv(s: System, r: string, key: string)
    requires Inv(s) && Enabled(s, r, Ask(key)) && key !in s.cache.entries
    ensures Inv(Do(s, r, Ask(key)))
  {
    var t := s.threads[r];
    var next := s.(cache := Asked(s.cache, r, key, Mine), threads := s.threads[r := t.(stack := t.stack + [key])], begun := s.begun + [key]);
    assert Do(s, r, Ask(key)) == next;
    StackKeepsSlots(s, r, t.stack + [key], next);
    SameWaits(s.cache, next.cache);
    MineStacks(s, r, key, next);
  }

  lemma MineStacks(s: System, r: string, key: string, next: System)
    requires StacksOk(s) && r in s.threads && Busy(s.threads[r].phase) && key !in s.cache.entries
    requires next.threads == s.threads[r := s.threads[r].(stack := s.threads[r].stack + [key])]
    requires next.cache == Asked(s.cache, r, key, Mine)
    ensures StacksOk(next)
  {
    forall q | q in next.threads ensures StackOk(next.cache, q, next.threads[q]) {
      assert StackOk(s.cache, q, s.threads[q]);
    }
    forall k | k in next.cache.entries && next.cache.entries[k].result.None?
      ensures next.cache.entries[k].root in next.threads && k in next.threads[next.cache.entries[k].root].stack
    {
      if k != key { assert k in s.cache.entries; }
    }
  }

  lemma AskWaitInv(s: System, r: string, key: string)
    requires Inv(s) && Enabled(s, r, Ask(key)) && AnswerTo(s, r, key).Wait?
    ensures Inv(Do(s, r, Ask(key)))
  {
    var next := Do(s, r, Ask(key));
    MoveKeeps(s, r, Blocked(key), next);
    WaitAcyclic(s.cache, r, key);
  }

  /** Any step of any root keeps the invariant. */
  lemma DoInv(s: System, r: string, a: Action)
    requires Inv(s) && Enabled(s, r, a)
    ensures Inv(Do(s, r, a))
  {
    match a
    case Start => StartInv(s, r);
    case Exit => ExitInv(s, r);
    case Lock =>
    case Unlock =>
    case Wake => WakeInv(s, r);
    case Finish(result) => FinishInv(s, r, result);
    case Ask(key) =>
      if key !in s.cache.entries { AskMineInv(s, r, key); }
      else if AnswerTo(s, r, key).Wait? { AskWaitInv(s, r, key); }
  }

  // --- every run

  ghost function Runs(s: System, steps: seq<(string, Action)>): System
    requires CanRun(s, steps)
    decreases |steps|
  {
    if steps == [] then s else Runs(Do(s, steps[0].0, steps[0].1), steps[1..])
  }

  ghost predicate CanRun(s: System, steps: seq<(string, Action)>)
    decreases |steps|
  {
    steps == [] || (Enabled(s, steps[0].0, steps[0].1) && CanRun(Do(s, steps[0].0, steps[0].1), steps[1..]))
  }

  function Begin(roots: set<string>, limit: nat): System {
    System(Cache(map[], map[]), map r | r in roots :: Thread(Fresh, []), 0, limit, None, [], [])
  }

  lemma BeginInv(roots: set<string>, limit: nat)
    requires limit > 0
    ensures Inv(Begin(roots, limit))
  {
    var s := Begin(roots, limit);
    var rank: string -> nat := r => 0;
    assert Ranked(s.cache, rank);
    assert Active(s) == {};
  }

  lemma {:induction false} RunsInv(s: System, steps: seq<(string, Action)>)
    requires Inv(s) && CanRun(s, steps)
    ensures Inv(Runs(s, steps))
    decreases |steps|
  {
    if steps != [] {
      DoInv(s, steps[0].0, steps[0].1);
      RunsInv(Do(s, steps[0].0, steps[0].1), steps[1..]);
    }
  }

  /** A result stays, and so does the root that installs a dep. */
  lemma {:induction false} ResultsStay(s: System, steps: seq<(string, Action)>, key: string)
    requires Inv(s) && CanRun(s, steps) && key in s.cache.entries
    ensures var last := Runs(s, steps).cache.entries;
      && key in last && last[key].root == s.cache.entries[key].root
      && (s.cache.entries[key].result.Some? ==> last[key] == s.cache.entries[key])
    decreases |steps|
  {
    if steps != [] {
      DoInv(s, steps[0].0, steps[0].1);
      DoStays(s, steps[0].0, steps[0].1, key);
      ResultsStay(Do(s, steps[0].0, steps[0].1), steps[1..], key);
    }
  }

  lemma DoStays(s: System, r: string, a: Action, key: string)
    requires Inv(s) && Enabled(s, r, a) && key in s.cache.entries
    ensures var next := Do(s, r, a).cache.entries;
      && key in next && next[key].root == s.cache.entries[key].root
      && (s.cache.entries[key].result.Some? ==> next[key] == s.cache.entries[key])
  {
    assert StackOk(s.cache, r, s.threads[r]);
  }

  // --- no deadlock

  lemma {:induction false} Lowest(roots: set<string>, rank: string -> nat) returns (r: string)
    requires roots != {}
    ensures r in roots && forall q :: q in roots ==> rank(r) <= rank(q)
    decreases roots
  {
    var first :| first in roots;
    var others := roots - {first};
    r := first;
    if others != {} {
      var q := Lowest(others, rank);
      if rank(q) < rank(first) { r := q; }
    }
    assert roots == others + {first};
  }

  ghost function Waiters(s: System): set<string> {
    set r | r in s.threads && s.threads[r].phase.Blocked?
  }

  /** When nothing runs, who waits for a result that is not there waits for another that waits. */
  lemma WaitsForWaiter(s: System, r: string)
    requires Inv(s) && r in Waiters(s) && forall q :: q in s.threads ==> !s.threads[q].phase.Running?
    requires s.threads[r].phase.key in s.cache.entries && s.cache.entries[s.threads[r].phase.key].result.None?
    ensures WaitsFor(s.cache, r).Some? && WaitsFor(s.cache, r).value in Waiters(s)
  {
    var owner := s.cache.entries[s.threads[r].phase.key].root;
    assert StackOk(s.cache, owner, s.threads[owner]);
    assert s.cache.waiting[r] == s.threads[r].phase.key;
  }

  /** So the lowest of them waits for a result that is there. */
  lemma LowestWakes(s: System) returns (r: string)
    requires Inv(s) && Waiters(s) != {}
    requires forall q :: q in s.threads ==> !s.threads[q].phase.Running?
    ensures Enabled(s, r, Wake)
  {
    var rank: string -> nat :| Ranked(s.cache, rank);
    r := Lowest(Waiters(s), rank);
    assert r in s.cache.waiting && s.cache.waiting[r] == s.threads[r].phase.key;
    if s.cache.entries[s.threads[r].phase.key].result.None? {
      WaitsForWaiter(s, r);
      assert false;
    }
  }

  ghost predicate AllIntend(s: System, intents: map<string, Action>) {
    forall r :: r in s.threads && !s.threads[r].phase.Over? ==> r in intents && Intends(s, r, intents[r])
  }

  /**
   * No deadlock: in every reachable state, whatever each unfinished root is about
   * to do, one of them can do it without waiting for another.
   */
  lemma SomeRootSteps(s: System, intents: map<string, Action>) returns (r: string)
    requires Inv(s) && AllIntend(s, intents)
    requires exists q :: q in s.threads && !s.threads[q].phase.Over?
    ensures r in s.threads && !s.threads[r].phase.Over? && Enabled(s, r, intents[r])
  {
    if s.build.Some? {
      r := s.build.value;
    } else if q :| q in s.threads && s.threads[q].phase.Running? {
      r := q;
    } else if Waiters(s) != {} {
      r := LowestWakes(s);
    } else {
      r :| r in s.threads && !s.threads[r].phase.Over?;
      assert forall p :: p in s.threads ==> p !in Waiters(s);
      assert Active(s) == {};
    }
  }

  /** The theorems together, for any roots and any interleaving of them. */
  lemma NoDeadlock(roots: set<string>, limit: nat, steps: seq<(string, Action)>, intents: map<string, Action>) returns (r: string)
    requires limit > 0 && CanRun(Begin(roots, limit), steps)
    requires AllIntend(Runs(Begin(roots, limit), steps), intents)
    requires exists q :: q in Runs(Begin(roots, limit), steps).threads && !Runs(Begin(roots, limit), steps).threads[q].phase.Over?
    ensures var s := Runs(Begin(roots, limit), steps);
      && Inv(s) && r in s.threads && !s.threads[r].phase.Over? && Enabled(s, r, intents[r])
  {
    BeginInv(roots, limit);
    RunsInv(Begin(roots, limit), steps);
    r := SomeRootSteps(Runs(Begin(roots, limit), steps), intents);
  }

  // --- when a cycle that is reported is one

  /** r waits for an install that is not done. */
  predicate Live(c: Cache, r: string) {
    r in c.waiting && c.waiting[r] in c.entries && c.entries[c.waiting[r]].result.None?
  }

  /** Each of the roots waits for an install that another of them has not done. */
  ghost predicate Stuck(c: Cache, roots: set<string>) {
    forall r :: r in roots ==> Live(c, r) && c.entries[c.waiting[r]].root in roots
  }

  predicate LiveFor(c: Cache, from: string, n: nat)
    decreases n
  {
    n == 0 || (Live(c, from) && LiveFor(c, c.entries[c.waiting[from]].root, n - 1))
  }

  /** No root on the walk to `to` has a result to wake to. The walk sees this while it holds the mutex. */
  ghost predicate NoStale(c: Cache, from: string, to: string) {
    exists n: nat :: Hop(c, from, n) == Some(to) && LiveFor(c, from, n)
  }

  lemma {:induction false} ChainStuck(c: Cache, from: string, to: string, n: nat) returns (roots: set<string>)
    requires Hop(c, from, n) == Some(to) && LiveFor(c, from, n)
    ensures from in roots && to in roots
    ensures forall r :: r in roots && r != to ==> Live(c, r) && c.entries[c.waiting[r]].root in roots
    decreases n
  {
    if n == 0 {
      roots := {from};
    } else {
      roots := ChainStuck(c, c.entries[c.waiting[from]].root, to, n - 1);
      roots := roots + {from};
    }
  }

  lemma {:induction false} StuckLive(c: Cache, key: string, roots: set<string>, from: string, to: string, n: nat)
    requires Stuck(Asked(c, to, key, Wait), roots) && from in roots && Hop(c, from, n) == Some(to) && to !in c.waiting
    ensures LiveFor(c, from, n)
    decreases n
  {
    if n > 0 {
      assert Live(Asked(c, to, key, Wait), from);
      StuckLive(c, key, roots, c.entries[c.waiting[from]].root, to, n - 1);
    }
  }

  lemma StuckIf(c: Cache, r: string, key: string)
    requires key in c.entries && c.entries[key].result.None? && NoStale(c, c.entries[key].root, r)
    ensures exists roots :: r in roots && Stuck(Asked(c, r, key, Wait), roots)
  {
    var from, next := c.entries[key].root, Asked(c, r, key, Wait);
    var n: nat :| Hop(c, from, n) == Some(r) && LiveFor(c, from, n);
    var roots := ChainStuck(c, from, r, n);
    forall q | q in roots ensures Live(next, q) && next.entries[next.waiting[q]].root in roots {
      if q != r { assert Live(c, q); }
    }
    assert r in roots && Stuck(next, roots);
  }

  lemma StuckOnlyIf(c: Cache, r: string, key: string, roots: set<string>)
    requires key in c.entries && r !in c.waiting && Reaches(c, c.entries[key].root, r)
    requires r in roots && Stuck(Asked(c, r, key, Wait), roots)
    ensures NoStale(c, c.entries[key].root, r)
  {
    assert Live(Asked(c, r, key, Wait), r);
    var n: nat :| Hop(c, c.entries[key].root, n) == Some(r);
    StuckLive(c, key, roots, c.entries[key].root, r, n);
  }

  /**
   * A cycle that is reported is one, in that the wait would leave a set of roots
   * with each other's open installs, exactly when no root on the walk is stale.
   */
  lemma RealCycle(s: System, r: string, key: string)
    requires Inv(s) && Enabled(s, r, Ask(key)) && AnswerTo(s, r, key).Cycle?
    ensures (exists roots :: r in roots && Stuck(Asked(s.cache, r, key, Wait), roots))
      <==> NoStale(s.cache, s.cache.entries[key].root, r)
  {
    assert r !in s.cache.waiting;
    if NoStale(s.cache, s.cache.entries[key].root, r) { StuckIf(s.cache, r, key); }
    if roots :| r in roots && Stuck(Asked(s.cache, r, key, Wait), roots) { StuckOnlyIf(s.cache, r, key, roots); }
  }

  lemma StuckBlocked(s: System, roots: set<string>, q: string)
    requires WaitsOk(s) && Stuck(s.cache, roots) && q in roots
    ensures q in s.threads && s.threads[q].phase == Blocked(s.cache.waiting[q])
  {
    assert Live(s.cache, q);
  }

  /** An install that is open stays so under every step but those of the root that began it. */
  lemma OpenStays(s: System, key: string, r: string, a: Action)
    requires StacksOk(s) && Enabled(s, r, a) && key in s.cache.entries && s.cache.entries[key].result.None?
    requires r != s.cache.entries[key].root
    ensures var next := Do(s, r, a).cache.entries; key in next && next[key] == s.cache.entries[key]
  {
    assert StackOk(s.cache, r, s.threads[r]);
  }

  lemma WaitStays(s: System, q: string, r: string, a: Action)
    requires Enabled(s, r, a) && q != r && q in s.cache.waiting
    ensures q in Do(s, r, a).cache.waiting && Do(s, r, a).cache.waiting[q] == s.cache.waiting[q]
  {
  }

  /** Roots that are stuck can do nothing, and stay so whatever any root does. */
  lemma StuckStays(s: System, roots: set<string>, r: string, a: Action)
    requires WaitsOk(s) && StacksOk(s) && Stuck(s.cache, roots) && Enabled(s, r, a)
    ensures r !in roots && Stuck(Do(s, r, a).cache, roots)
  {
    if r in roots {
      StuckBlocked(s, roots, r);
      assert false;
    }
    var next := Do(s, r, a).cache;
    forall q | q in roots ensures Live(next, q) && next.entries[next.waiting[q]].root in roots {
      WaitStays(s, q, r, a);
      OpenStays(s, s.cache.waiting[q], r, a);
    }
  }

  // --- an input for which it is none

  lemma RunsMore(s: System, steps: seq<(string, Action)>, r: string, a: Action)
    requires Enabled(s, r, a) && CanRun(Do(s, r, a), steps)
    ensures CanRun(s, [(r, a)] + steps) && Runs(s, [(r, a)] + steps) == Runs(Do(s, r, a), steps)
  {
    assert ([(r, a)] + steps)[1..] == steps;
  }

  /** a begins y, b begins x, a waits for x, and b has x. */
  function StaleState(): System {
    System(
      Cache(map["y" := Entry("a", None), "x" := Entry("b", Some("done"))], map["a" := "x"]),
      map["a" := Thread(Blocked("x"), ["y"]), "b" := Thread(Running, [])], 2, 2, None,
      ["y", "x"], [("x", "done")])
  }

  /** Both roots run, and each began an install. */
  function BothBegan(): System {
    System(
      Cache(map["y" := Entry("a", None), "x" := Entry("b", None)], map[]),
      map["a" := Thread(Running, ["y"]), "b" := Thread(Running, ["x"])], 2, 2, None, ["y", "x"], [])
  }

  function BothRun(): System {
    System(Cache(map[], map[]), map["a" := Thread(Running, []), "b" := Thread(Running, [])], 2, 2, None, [], [])
  }

  lemma Started() returns (steps: seq<(string, Action)>)
    ensures CanRun(Begin({"a", "b"}, 2), steps) && Runs(Begin({"a", "b"}, 2), steps) == BothRun()
  {
    var s0 := Begin({"a", "b"}, 2);
    var s1 := Do(s0, "a", Start);
    var s2 := Do(s1, "b", Start);
    assert s2.threads == BothRun().threads && s2 == BothRun();
    steps := [];
    RunsMore(s1, steps, "b", Start);
    steps := [("b", Start)] + steps;
    RunsMore(s0, steps, "a", Start);
    steps := [("a", Start)] + steps;
  }

  lemma Began() returns (steps: seq<(string, Action)>)
    ensures CanRun(BothRun(), steps) && Runs(BothRun(), steps) == BothBegan()
  {
    var s2 := BothRun();
    var s3 := Do(s2, "a", Ask("y"));
    var s4 := Do(s3, "b", Ask("x"));
    assert s4.threads["a"] == Thread(Running, ["y"]) && s4.threads["b"] == Thread(Running, ["x"]);
    assert s4.threads == BothBegan().threads && s4.begun == BothBegan().begun;
    assert s4.cache.entries == BothBegan().cache.entries && s4 == BothBegan();
    steps := [];
    RunsMore(s3, steps, "b", Ask("x"));
    steps := [("b", Ask("x"))] + steps;
    RunsMore(s2, steps, "a", Ask("y"));
    steps := [("a", Ask("y"))] + steps;
  }

  lemma Stale() returns (steps: seq<(string, Action)>)
    ensures CanRun(BothBegan(), steps) && Runs(BothBegan(), steps) == StaleState()
  {
    var s4 := BothBegan();
    ReachesEnd(s4.cache, "b", "a");
    var s5 := Do(s4, "a", Ask("x"));
    var s6 := Do(s5, "b", Finish("done"));
    assert s6.threads == StaleState().threads && s6.told == StaleState().told;
    assert s6.cache.entries == StaleState().cache.entries && s6.cache.waiting == StaleState().cache.waiting;
    assert s6 == StaleState();
    steps := [];
    RunsMore(s5, steps, "b", Finish("done"));
    steps := [("b", Finish("done"))] + steps;
    RunsMore(s4, steps, "a", Ask("x"));
    steps := [("a", Ask("x"))] + steps;
  }

  lemma {:induction false} RunsBoth(s: System, steps: seq<(string, Action)>, more: seq<(string, Action)>)
    requires CanRun(s, steps) && CanRun(Runs(s, steps), more)
    ensures CanRun(s, steps + more) && Runs(s, steps + more) == Runs(Runs(s, steps), more)
    decreases |steps|
  {
    if steps == [] {
      assert steps + more == more;
    } else {
      RunsBoth(Do(s, steps[0].0, steps[0].1), steps[1..], more);
      assert (steps + more)[1..] == steps[1..] + more;
    }
  }

  /** b is told of a cycle though a is stale: the result it waits for is there, and it could wake at once. */
  lemma FalseCycle() returns (steps: seq<(string, Action)>)
    ensures CanRun(Begin({"a", "b"}, 2), steps)
    ensures var s := Runs(Begin({"a", "b"}, 2), steps);
      Enabled(s, "b", Ask("y")) && AnswerTo(s, "b", "y").Cycle? && Enabled(s, "a", Wake)
  {
    var start := Started();
    var began := Began();
    var stale := Stale();
    RunsBoth(BothRun(), began, stale);
    RunsBoth(Begin({"a", "b"}, 2), start, began + stale);
    steps := start + (began + stale);
    assert Hop(StaleState().cache, "a", 1) == Some("b");
  }
}
