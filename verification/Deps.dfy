// The deps of one package, installed depth first (installDeps, buildOnly and the
// closure part of installHere in internal/cli/install.go). What a ref names is an
// input; a dep that is not for this machine is passed over.
module Deps {
  type Ref = string

  datatype Dep = Dep(ref: Ref, onHost: bool)

  /** A package: its store path, the deps that its build needs and those it runs with. */
  datatype Package = Package(path: string, build: seq<Dep>, runtime: seq<Dep>)

  type World = map<Ref, Package>

  datatype Installed = Installed(path: string, closure: seq<string>, buildOnly: seq<string>)

  datatype Outcome =
    | Done(got: Installed)
    | Cycle(trace: seq<Ref>)    // "dependency cycle: a -> b -> a"
    | Missing(trace: seq<Ref>)  // the last ref names nothing

  // --- walks through the deps on this machine

  function Host(deps: seq<Dep>): (r: seq<Ref>)
    ensures forall d :: d in r <==> Dep(d, true) in deps
  {
    if deps == [] then []
    else (if deps[0].onHost then [deps[0].ref] else []) + Host(deps[1..])
  }

  /** The refs that a package needs here: all of them, or those it runs with. */
  function Needs(p: Package, run: bool): seq<Ref> {
    if run then Host(p.runtime) else Host(p.build + p.runtime)
  }

  ghost predicate Edge(w: World, a: Ref, b: Ref, run: bool) {
    a in w && b in Needs(w[a], run)
  }

  ghost predicate Walk(w: World, p: seq<Ref>, run: bool) {
    p != [] && forall i, j :: 0 <= i < j < |p| && j == i + 1 ==> Edge(w, p[i], p[j], run)
  }

  /** x is the store path of ref or of something a walk from it comes to. */
  ghost predicate Reaches(w: World, ref: Ref, x: string, run: bool) {
    exists p :: Leads(w, p, ref, x, run)
  }

  ghost predicate Below(w: World, ref: Ref, x: string, run: bool)
    requires ref in w
  {
    exists d :: d in Needs(w[ref], run) && Reaches(w, d, x, run)
  }

  ghost predicate Repeats(p: seq<Ref>) {
    exists i, j :: 0 <= i < j < |p| && p[i] == p[j]
  }

  lemma WalkOn(w: World, p: seq<Ref>, d: Ref, run: bool)
    requires Walk(w, p, run) && Edge(w, p[|p| - 1], d, run)
    ensures Walk(w, p + [d], run)
  {
    var q := p + [d];
    forall i, j | 0 <= i < j < |q| && j == i + 1 ensures Edge(w, q[i], q[j], run) {
      if j < |p| { assert q[i] == p[i] && q[j] == p[j]; }
    }
  }

  lemma WalkFrom(w: World, ref: Ref, p: seq<Ref>, run: bool)
    requires Walk(w, p, run) && Edge(w, ref, p[0], run)
    ensures Walk(w, [ref] + p, run)
  {
    var q := [ref] + p;
    forall i, j | 0 <= i < j < |q| && j == i + 1 ensures Edge(w, q[i], q[j], run) {
      if i > 0 { assert q[i] == p[i - 1] && q[j] == p[j - 1]; }
    }
  }

  lemma WalkRest(w: World, p: seq<Ref>, run: bool)
    requires Walk(w, p, run) && |p| > 1
    ensures Walk(w, p[1..], run) && Edge(w, p[0], p[1], run)
  {
    var q := p[1..];
    forall i, j | 0 <= i < j < |q| && j == i + 1 ensures Edge(w, q[i], q[j], run) {
      assert q[i] == p[i + 1] && q[j] == p[j + 1];
    }
  }

  ghost predicate Leads(w: World, p: seq<Ref>, ref: Ref, x: string, run: bool) {
    Walk(w, p, run) && p[0] == ref && p[|p| - 1] in w && w[p[|p| - 1]].path == x
  }

  lemma ReachesStep(w: World, ref: Ref, x: string, run: bool)
    requires ref in w
    ensures Reaches(w, ref, x, run) <==> w[ref].path == x || Below(w, ref, x, run)
  {
    if w[ref].path == x { assert Leads(w, [ref], ref, x, run); }
    if Below(w, ref, x, run) {
      var d :| d in Needs(w[ref], run) && Reaches(w, d, x, run);
      var p :| Leads(w, p, d, x, run);
      WalkFrom(w, ref, p, run);
      assert Leads(w, [ref] + p, ref, x, run);
    }
    if Reaches(w, ref, x, run) && w[ref].path != x {
      var p :| Leads(w, p, ref, x, run);
      WalkRest(w, p, run);
      assert Leads(w, p[1..], p[1], x, run);
    }
  }

  /** What a package needs at run time it needs. */
  lemma RunReaches(w: World, ref: Ref, x: string)
    requires Reaches(w, ref, x, true)
    ensures Reaches(w, ref, x, false)
  {
    var p :| Leads(w, p, ref, x, true);
    forall i, j | 0 <= i < j < |p| && j == i + 1 ensures Edge(w, p[i], p[j], false) {
      assert Edge(w, p[i], p[j], true);
      assert Dep(p[j], true) in w[p[i]].runtime;
    }
    assert Leads(w, p, ref, x, false);
  }

  // --- what an install gives

  /**
   * x is taken over from ref: a walk through runtime deps comes to a package with
   * that store path which does not itself need it.
   */
  ghost predicate KeepsPath(w: World, ref: Ref, x: string) {
    exists p :: Leads(w, p, ref, x, true) && !Below(w, p[|p| - 1], x, false)
  }

  ghost predicate KeepsBelow(w: World, ref: Ref, x: string)
    requires ref in w
  {
    exists d :: d in Needs(w[ref], true) && KeepsPath(w, d, x)
  }

  lemma KeepsReaches(w: World, ref: Ref, x: string)
    requires KeepsPath(w, ref, x)
    ensures Reaches(w, ref, x, true) && Reaches(w, ref, x, false)
  {
    var p :| Leads(w, p, ref, x, true) && !Below(w, p[|p| - 1], x, false);
    RunReaches(w, ref, x);
  }

  lemma KeepsStep(w: World, ref: Ref, x: string)
    requires ref in w
    ensures KeepsPath(w, ref, x) <==> (w[ref].path == x && !Below(w, ref, x, false)) || KeepsBelow(w, ref, x)
  {
    if w[ref].path == x && !Below(w, ref, x, false) {
      var p := [ref];
      assert Leads(w, p, ref, x, true) && p[|p| - 1] == ref;
    }
    if KeepsBelow(w, ref, x) {
      var d :| d in Needs(w[ref], true) && KeepsPath(w, d, x);
      var p :| Leads(w, p, d, x, true) && !Below(w, p[|p| - 1], x, false);
      WalkFrom(w, ref, p, true);
      var q := [ref] + p;
      assert Leads(w, q, ref, x, true) && q[|q| - 1] == p[|p| - 1];
    }
    if KeepsPath(w, ref, x) {
      var p :| Leads(w, p, ref, x, true) && !Below(w, p[|p| - 1], x, false);
      if |p| > 1 { KeepsRest(w, ref, x, p); }
    }
  }

  lemma KeepsRest(w: World, ref: Ref, x: string, p: seq<Ref>)
    requires ref in w && Leads(w, p, ref, x, true) && !Below(w, p[|p| - 1], x, false) && |p| > 1
    ensures KeepsBelow(w, ref, x)
  {
    WalkRest(w, p, true);
    var q := p[1..];
    assert Leads(w, q, p[1], x, true) && q[|q| - 1] == p[|p| - 1];
    assert KeepsPath(w, p[1], x);
  }

  /**
   * The closure is exactly what the package needs, and the build-only part is
   * exactly what of it no runtime dep hands on.
   */
  ghost predicate Right(w: World, ref: Ref, got: Installed)
    requires ref in w
  {
    && got.path == w[ref].path
    && (forall x :: x in got.closure <==> Below(w, ref, x, false))
    && (forall x :: x in got.buildOnly <==> x in got.closure && !KeepsBelow(w, ref, x))
  }

  /** No walk on from here repeats a ref or comes to one that names nothing. */
  ghost predicate Fine(w: World, base: seq<Ref>) {
    forall p :: Walk(w, p, false) && base <= p ==> !Repeats(p) && p[|p| - 1] in w
  }

  ghost predicate Explains(w: World, base: seq<Ref>, o: Outcome) {
    match o
    case Done(_) => Fine(w, base)
    case Cycle(p) => Walk(w, p, false) && base <= p && Repeats(p)
    case Missing(p) => Walk(w, p, false) && base <= p && p[|p| - 1] !in w
  }

  /** An install and a repeated or missing ref exclude each other. */
  lemma DoneOrNot(w: World, base: seq<Ref>, o: Outcome)
    requires Explains(w, base, o)
    ensures o.Done? <==> Fine(w, base)
  {
  }

  lemma FineStep(w: World, base: seq<Ref>, ref: Ref)
    requires ref in w && base != [] && base[|base| - 1] == ref && Walk(w, base, false) && !Repeats(base)
    requires forall d :: d in Needs(w[ref], false) ==> d !in base && Fine(w, base + [d])
    ensures Fine(w, base)
  {
    forall p | Walk(w, p, false) && base <= p ensures !Repeats(p) && p[|p| - 1] in w {
      if |p| > |base| {
        var d := p[|base|];
        assert Edge(w, p[|base| - 1], p[|base|], false);
        assert p[|base| - 1] == base[|base| - 1];
        assert base + [d] <= p;
      } else {
        assert p == base;
      }
    }
  }

  // --- the methods

  datatype DepSet = DepSet(closure: seq<string>, runtimes: seq<seq<string>>)

  /** What is left of the closure without all that the deps from the index first on hand on. */
  method BuildOnly(s: DepSet, first: nat) returns (only: seq<string>)
    requires first <= |s.runtimes|
    ensures forall x :: x in only <==> x in s.closure && forall k :: first <= k < |s.runtimes| ==> x !in s.runtimes[k]
  {
    var runtime: seq<string> := [];
    for k := first to |s.runtimes|
      invariant forall x :: x in runtime <==> exists j :: first <= j < k && x in s.runtimes[j]
    {
      runtime := runtime + s.runtimes[k];
    }
    only := [];
    for i := 0 to |s.closure|
      invariant forall x :: x in only <==> x in s.closure[..i] && x !in runtime
    {
      assert s.closure[..i + 1] == s.closure[..i] + [s.closure[i]];
      if s.closure[i] !in runtime { only := only + [s.closure[i]]; }
    }
    assert s.closure[..|s.closure|] == s.closure;
  }

  /** The paths of whole that are not in others, in order. */
  method Except(whole: seq<string>, others: seq<string>) returns (r: seq<string>)
    ensures forall x :: x in r <==> x in whole && x !in others
  {
    r := [];
    for i := 0 to |whole|
      invariant forall x :: x in r <==> x in whole[..i] && x !in others
    {
      assert whole[..i + 1] == whole[..i] + [whole[i]];
      if whole[i] !in others { r := r + [whole[i]]; }
    }
    assert whole[..|whole|] == whole;
  }

  /** first, and the paths of more that it does not have, each once. */
  method Merge(first: seq<string>, more: seq<string>) returns (r: seq<string>)
    ensures forall x :: x in r <==> x in first || x in more
  {
    r := first;
    for i := 0 to |more|
      invariant forall x :: x in r <==> x in first || x in more[..i]
    {
      assert more[..i + 1] == more[..i] + [more[i]];
      if more[i] !in r { r := r + [more[i]]; }
    }
    assert more[..|more|] == more;
  }

  ghost predicate ClosureOk(w: World, hosts: seq<Ref>, closure: seq<string>) {
    forall x :: x in closure <==> exists d :: d in hosts && Reaches(w, d, x, false)
  }

  ghost predicate RunsOk(w: World, hosts: seq<Ref>, runtimes: seq<seq<string>>) {
    && |runtimes| == |hosts|
    && (forall k, x :: 0 <= k < |hosts| ==> (x in runtimes[k] <==> KeepsPath(w, hosts[k], x)))
  }

  ghost predicate SetOk(w: World, base: seq<Ref>, hosts: seq<Ref>, s: DepSet) {
    && ClosureOk(w, hosts, s.closure) && RunsOk(w, hosts, s.runtimes)
    && (forall d :: d in hosts ==> d !in base && Fine(w, base + [d]))
  }

  lemma HostNext(deps: seq<Dep>, d: Dep)
    ensures Host(deps + [d]) == Host(deps) + if d.onHost then [d.ref] else []
  {
    if deps != [] {
      assert (deps + [d])[1..] == deps[1..] + [d];
      HostNext(deps[1..], d);
    }
  }

  /** What a dep gives to the set of its parent. */
  lemma DepPaths(w: World, d: Ref, got: Installed, x: string)
    requires d in w && Right(w, d, got)
    ensures x in [got.path] + got.closure <==> Reaches(w, d, x, false)
    ensures x in [got.path] + got.closure && x !in got.buildOnly <==> KeepsPath(w, d, x)
  {
    ReachesStep(w, d, x, false);
    KeepsStep(w, d, x);
    if KeepsBelow(w, d, x) {
      var e :| e in Needs(w[d], true) && KeepsPath(w, e, x);
      KeepsReaches(w, e, x);
      RunNeeds(w[d], e);
    }
  }

  lemma RunNeeds(p: Package, d: Ref)
    requires d in Needs(p, true)
    ensures d in Needs(p, false)
  {
    assert Dep(d, true) in p.runtime;
  }

  function Seen(p: seq<Ref>): set<Ref> {
    set r | r in p
  }

  ghost predicate Start(w: World, stack: seq<Ref>, ref: Ref) {
    Walk(w, stack + [ref], false) && !Repeats(stack + [ref])
  }

  /**
   * Install ref, whose parents are on the stack. It always ends: done with the
   * closure and the build-only part that the deps give, or with the walk that
   * repeats a ref or comes to a missing one; and it is done exactly when no walk
   * on from here does either.
   */
  method Install(w: World, stack: seq<Ref>, ref: Ref) returns (o: Outcome)
    requires Start(w, stack, ref)
    ensures Explains(w, stack + [ref], o)
    ensures o.Done? <==> Fine(w, stack + [ref])
    ensures o.Done? ==> ref in w && Right(w, ref, o.got)
    decreases |w.Keys - Seen(stack)|, 1
  {
    var base := stack + [ref];
    if ref !in w { return Missing(base); }
    var p := w[ref];
    var failed, s;
    failed, s := InstallDeps(w, stack, ref, p.build + p.runtime);
    if !failed.Done? {
      DoneOrNot(w, base, failed);
      return failed;
    }
    var buildDeps := |Host(p.build)|;
    HostSplit(p.build, p.runtime);
    var only := BuildOnly(s, buildDeps);
    o := Done(Installed(p.path, s.closure, only));
    RightSet(w, base, ref, s, o.got);
    FineStep(w, base, ref);
  }

  lemma {:induction false} HostSplit(a: seq<Dep>, b: seq<Dep>)
    ensures Host(a + b) == Host(a) + Host(b)
  {
    if a == [] {
      assert a + b == b;
    } else {
      assert (a + b)[1..] == a[1..] + b;
      HostSplit(a[1..], b);
    }
  }

  lemma RightSet(w: World, base: seq<Ref>, ref: Ref, s: DepSet, got: Installed)
    requires ref in w && SetOk(w, base, Host(w[ref].build) + Host(w[ref].runtime), s)
    requires Host(w[ref].build + w[ref].runtime) == Host(w[ref].build) + Host(w[ref].runtime)
    requires got.path == w[ref].path && got.closure == s.closure
    requires forall x :: x in got.buildOnly <==>
      x in s.closure && forall k :: |Host(w[ref].build)| <= k < |s.runtimes| ==> x !in s.runtimes[k]
    ensures Right(w, ref, got)
  {
    forall x ensures KeepsBelow(w, ref, x) <==> exists k :: |Host(w[ref].build)| <= k < |s.runtimes| && x in s.runtimes[k] {
      RunBelow(w, base, ref, s, x);
    }
  }

  lemma HandedOn(w: World, ref: Ref, runtimes: seq<seq<string>>, x: string) returns (k: nat)
    requires ref in w && RunsOk(w, Host(w[ref].build) + Host(w[ref].runtime), runtimes) && KeepsBelow(w, ref, x)
    ensures |Host(w[ref].build)| <= k < |runtimes| && x in runtimes[k]
  {
    var build, run := Host(w[ref].build), Host(w[ref].runtime);
    var d :| d in run && KeepsPath(w, d, x);
    var i :| 0 <= i < |run| && run[i] == d;
    k := |build| + i;
    assert (build + run)[k] == d;
  }

  lemma HandsOn(w: World, ref: Ref, runtimes: seq<seq<string>>, x: string, k: nat)
    requires ref in w && RunsOk(w, Host(w[ref].build) + Host(w[ref].runtime), runtimes)
    requires |Host(w[ref].build)| <= k < |runtimes| && x in runtimes[k]
    ensures KeepsBelow(w, ref, x)
  {
    var build, run := Host(w[ref].build), Host(w[ref].runtime);
    assert (build + run)[k] == run[k - |build|];
  }

  /** The runtimes from the first runtime dep on are what the runtime deps hand on. */
  lemma RunBelow(w: World, base: seq<Ref>, ref: Ref, s: DepSet, x: string)
    requires ref in w && SetOk(w, base, Host(w[ref].build) + Host(w[ref].runtime), s)
    ensures KeepsBelow(w, ref, x) <==> exists k :: |Host(w[ref].build)| <= k < |s.runtimes| && x in s.runtimes[k]
  {
    if KeepsBelow(w, ref, x) {
      var k := HandedOn(w, ref, s.runtimes, x);
    }
    if k :| |Host(w[ref].build)| <= k < |s.runtimes| && x in s.runtimes[k] { HandsOn(w, ref, s.runtimes, x, k); }
  }

  method InstallDeps(w: World, stack: seq<Ref>, ref: Ref, wanted: seq<Dep>) returns (failed: Outcome, s: DepSet)
    requires Start(w, stack, ref) && ref in w && Host(wanted) == Needs(w[ref], false)
    ensures failed.Done? ==> SetOk(w, stack + [ref], Host(wanted), s)
    ensures !failed.Done? ==> Explains(w, stack + [ref], failed)
    decreases |w.Keys - Seen(stack)|, 0
  {
    var base := stack + [ref];
    s := DepSet([], []);
    for i := 0 to |wanted|
      invariant SetOk(w, base, Host(wanted[..i]), s)
    {
      var dep := wanted[i];
      assert wanted[..i + 1] == wanted[..i] + [dep];
      HostNext(wanted[..i], dep);
      if dep.onHost {
        var d := dep.ref;
        assert dep in wanted && d in Host(wanted);
        WalkOn(w, base, d, false);
        if d in base {
          CycleExplains(w, base, d);
          return Cycle(base + [d]), s;
        }
        SmallerStack(w, stack, ref, d);
        var o := Install(w, base, d);
        if !o.Done? {
          ExplainsBefore(w, base, d, o);
          return o, s;
        }
        s := Record(w, base, Host(wanted[..i]), s, d, o.got);
      }
    }
    assert wanted[..|wanted|] == wanted;
    failed := Done(Installed("", [], []));
  }

  /** What one installed dep adds to the set. */
  method Record(ghost w: World, ghost base: seq<Ref>, ghost hosts: seq<Ref>, s: DepSet, ghost d: Ref, got: Installed)
    returns (next: DepSet)
    requires SetOk(w, base, hosts, s) && d in w && Right(w, d, got) && d !in base && Fine(w, base + [d])
    ensures SetOk(w, base, hosts + [d], next)
  {
    var whole := [got.path] + got.closure;
    var runtime := Except(whole, got.buildOnly);
    var closure := Merge(s.closure, whole);
    next := DepSet(closure, s.runtimes + [runtime]);
    SetNext(w, base, hosts, s, d, got, next);
  }

  lemma SmallerStack(w: World, stack: seq<Ref>, ref: Ref, d: Ref)
    requires Start(w, stack, ref) && ref in w && d !in stack + [ref]
    ensures |w.Keys - Seen(stack + [ref])| < |w.Keys - Seen(stack)|
    ensures !Repeats(stack + [ref] + [d])
  {
    var base := stack + [ref];
    forall k | 0 <= k < |stack| ensures stack[k] != ref { assert base[k] == stack[k] && base[|stack|] == ref; }
    assert Seen(base) == Seen(stack) + {ref};
    assert w.Keys - Seen(base) == (w.Keys - Seen(stack)) - {ref};
  }

  lemma SetNext(w: World, base: seq<Ref>, hosts: seq<Ref>, s: DepSet, d: Ref, got: Installed, next: DepSet)
    requires SetOk(w, base, hosts, s) && d in w && Right(w, d, got) && d !in base && Fine(w, base + [d])
    requires |next.runtimes| == |s.runtimes| + 1 && next.runtimes[..|s.runtimes|] == s.runtimes
    requires forall x :: x in next.closure <==> x in s.closure || x in [got.path] + got.closure
    requires forall x :: x in next.runtimes[|s.runtimes|] <==> x in [got.path] + got.closure && x !in got.buildOnly
    ensures SetOk(w, base, hosts + [d], next)
  {
    ClosureNext(w, hosts, s.closure, d, got, next.closure);
    RunsNext(w, hosts, s.runtimes, d, got, next.runtimes);
  }

  lemma ClosureNext(w: World, hosts: seq<Ref>, closure: seq<string>, d: Ref, got: Installed, next: seq<string>)
    requires ClosureOk(w, hosts, closure) && d in w && Right(w, d, got)
    requires forall x :: x in next <==> x in closure || x in [got.path] + got.closure
    ensures ClosureOk(w, hosts + [d], next)
  {
    forall x ensures x in next <==> exists e :: e in hosts + [d] && Reaches(w, e, x, false) {
      DepPaths(w, d, got, x);
      OneMoreHost(w, hosts, d, x);
    }
  }

  lemma RunsNext(w: World, hosts: seq<Ref>, runtimes: seq<seq<string>>, d: Ref, got: Installed, next: seq<seq<string>>)
    requires RunsOk(w, hosts, runtimes) && d in w && Right(w, d, got)
    requires |next| == |runtimes| + 1 && next[..|runtimes|] == runtimes
    requires forall x :: x in next[|runtimes|] <==> x in [got.path] + got.closure && x !in got.buildOnly
    ensures RunsOk(w, hosts + [d], next)
  {
    forall k, x | 0 <= k < |hosts + [d]| ensures x in next[k] <==> KeepsPath(w, (hosts + [d])[k], x) {
      if k < |hosts| { assert next[k] == runtimes[k]; } else { DepPaths(w, d, got, x); }
    }
  }

  lemma OneMoreHost(w: World, hosts: seq<Ref>, d: Ref, x: string)
    ensures (exists e :: e in hosts + [d] && Reaches(w, e, x, false))
      <==> (exists e :: e in hosts && Reaches(w, e, x, false)) || Reaches(w, d, x, false)
  {
    if e :| e in hosts && Reaches(w, e, x, false) { assert e in hosts + [d]; }
    if Reaches(w, d, x, false) { assert d in hosts + [d]; }
  }

  lemma CycleExplains(w: World, base: seq<Ref>, d: Ref)
    requires Walk(w, base + [d], false) && d in base
    ensures Explains(w, base, Cycle(base + [d]))
  {
    var k :| 0 <= k < |base| && base[k] == d;
    assert (base + [d])[k] == (base + [d])[|base|];
  }

  lemma ExplainsBefore(w: World, base: seq<Ref>, d: Ref, o: Outcome)
    requires Explains(w, base + [d], o) && !o.Done?
    ensures Explains(w, base, o)
  {
  }

  // --- when the build-only part is exactly what run time does not need

  ghost predicate BuildOnlyExact(w: World, ref: Ref, got: Installed)
    requires ref in w
  {
    forall x :: x in got.buildOnly <==> x in got.closure && !Below(w, ref, x, true)
  }

  lemma KeepsBelowNeeds(w: World, ref: Ref, x: string)
    requires ref in w && KeepsBelow(w, ref, x)
    ensures Below(w, ref, x, true)
  {
    var d :| d in Needs(w[ref], true) && KeepsPath(w, d, x);
    KeepsReaches(w, d, x);
  }

  lemma RunBelowBelow(w: World, ref: Ref, x: string)
    requires ref in w && Below(w, ref, x, true)
    ensures Below(w, ref, x, false)
  {
    var d :| d in Needs(w[ref], true) && Reaches(w, d, x, true);
    RunReaches(w, d, x);
    RunNeeds(w[ref], d);
  }

  /**
   * The build-only part is exact if and only if each store path needed at run time
   * is one that some runtime dep hands on.
   */
  lemma ExactWhen(w: World, ref: Ref, got: Installed)
    requires ref in w && Right(w, ref, got)
    ensures BuildOnlyExact(w, ref, got) <==> forall x :: Below(w, ref, x, true) ==> KeepsBelow(w, ref, x)
  {
    forall x ensures KeepsBelow(w, ref, x) ==> Below(w, ref, x, true) {
      if KeepsBelow(w, ref, x) { KeepsBelowNeeds(w, ref, x); }
    }
    forall x ensures Below(w, ref, x, true) ==> x in got.closure {
      if Below(w, ref, x, true) { RunBelowBelow(w, ref, x); }
    }
  }

  /** No package needs its own store path. */
  ghost predicate NoSelf(w: World) {
    forall ref :: ref in w ==> !Below(w, ref, w[ref].path, false)
  }

  lemma ExactWithoutSelf(w: World, ref: Ref, got: Installed)
    requires ref in w && Right(w, ref, got) && NoSelf(w)
    ensures BuildOnlyExact(w, ref, got)
  {
    ExactWhen(w, ref, got);
    forall x | Below(w, ref, x, true) ensures KeepsBelow(w, ref, x) {
      var d :| d in Needs(w[ref], true) && Reaches(w, d, x, true);
      var p :| Leads(w, p, d, x, true);
      assert KeepsPath(w, d, x);
    }
  }

  ghost predicate NeedsPath(w: World, ref: Ref, x: string)
    requires ref in w
  {
    exists d :: d in Needs(w[ref], false) && d in w && w[d].path == x
  }

  /** Refs with one store path need the same store paths, as where the path is a hash of all that the package needs. */
  ghost predicate Sealed(w: World) {
    forall a, b, x :: a in w && b in w && w[a].path == w[b].path && NeedsPath(w, a, x) ==> NeedsPath(w, b, x)
  }

  lemma WalkJoin(w: World, p: seq<Ref>, q: seq<Ref>, run: bool)
    requires Walk(w, p, run) && Walk(w, q, run) && Edge(w, p[|p| - 1], q[0], run)
    ensures Walk(w, p + q, run)
  {
    var r := p + q;
    forall i, j | 0 <= i < j < |r| && j == i + 1 ensures Edge(w, r[i], r[j], run) {
      if j < |p| { assert r[i] == p[i] && r[j] == p[j]; }
      if i >= |p| { assert r[i] == q[i - |p|] && r[j] == q[j - |p|]; }
    }
  }

  lemma RunWalk(w: World, p: seq<Ref>)
    requires Walk(w, p, true)
    ensures Walk(w, p, false)
  {
    forall i, j | 0 <= i < j < |p| && j == i + 1 ensures Edge(w, p[i], p[j], false) {
      assert Edge(w, p[i], p[j], true);
      RunNeeds(w[p[i]], p[j]);
    }
  }

  /** What a walk comes to from one ref, a walk comes to from any other with its store path. */
  lemma {:induction false} Mirror(w: World, p: seq<Ref>, b: Ref) returns (q: seq<Ref>)
    requires Sealed(w) && Walk(w, p, false) && p[0] in w && p[|p| - 1] in w && b in w && w[b].path == w[p[0]].path
    ensures |q| == |p| && Leads(w, q, b, w[p[|p| - 1]].path, false)
  {
    if |p| == 1 {
      q := [b];
    } else {
      WalkRest(w, p, false);
      assert p[1] in w by { if |p| > 2 { assert Edge(w, p[1], p[2], false); } }
      assert NeedsPath(w, p[0], w[p[1]].path);
      var e :| e in Needs(w[b], false) && e in w && w[e].path == w[p[1]].path;
      var rest := Mirror(w, p[1..], e);
      WalkFrom(w, b, rest, false);
      q := [b] + rest;
    }
  }

  lemma FewerLeft(w: World, q: seq<Ref>, p: seq<Ref>)
    requires !Repeats(q + p) && p != [] && p[|p| - 1] in w
    ensures |w.Keys - Seen(q + p)| < |w.Keys - Seen(q)|
  {
    var last := p[|p| - 1];
    assert (q + p)[|q + p| - 1] == last;
    forall k | 0 <= k < |q| ensures q[k] != last { assert (q + p)[k] == q[k]; }
    assert last in w.Keys - Seen(q) && last in q + p;
    assert w.Keys - Seen(q + p) <= (w.Keys - Seen(q)) - {last};
    Smaller(w.Keys - Seen(q + p), (w.Keys - Seen(q)) - {last});
  }

  lemma Smaller(a: set<Ref>, b: set<Ref>)
    requires a <= b
    ensures |a| <= |b|
  {
    assert b == a + (b - a);
  }

  /**
   * Where no walk from here repeats a ref, no package on one needs its own path:
   * the refs with that path would need one another without end.
   */
  lemma {:induction false} NoSelfHere(w: World, q: seq<Ref>, x: string)
    requires Walk(w, q, false) && Sealed(w) && q[|q| - 1] in w && w[q[|q| - 1]].path == x
    requires Fine(w, [q[0]])
    ensures !Below(w, q[|q| - 1], x, false)
    decreases |w.Keys - Seen(q)|
  {
    var a := q[|q| - 1];
    if Below(w, a, x, false) {
      var d :| d in Needs(w[a], false) && Reaches(w, d, x, false);
      var p :| Leads(w, p, d, x, false);
      WalkJoin(w, q, p, false);
      assert [q[0]] <= q + p;
      FewerLeft(w, q, p);
      WalkFrom(w, a, p, false);
      BelowAgain(w, [a] + p, x);
      NoSelfHere(w, q + p, x);
    }
  }

  lemma BelowAgain(w: World, p: seq<Ref>, x: string)
    requires Sealed(w) && Walk(w, p, false) && |p| > 1 && p[0] in w && p[|p| - 1] in w
    requires w[p[0]].path == x && w[p[|p| - 1]].path == x
    ensures Below(w, p[|p| - 1], x, false)
  {
    var r := Mirror(w, p, p[|p| - 1]);
    WalkRest(w, r, false);
    assert Leads(w, r[1..], r[1], x, false);
  }

  /** Where refs with one store path need the same paths, an install that is done has an exact build-only part. */
  lemma ExactWhenDone(w: World, ref: Ref, got: Installed)
    requires ref in w && Right(w, ref, got) && Sealed(w) && Fine(w, [ref])
    ensures BuildOnlyExact(w, ref, got)
  {
    ExactWhen(w, ref, got);
    forall x | Below(w, ref, x, true) ensures KeepsBelow(w, ref, x) { KeptWhenDone(w, ref, x); }
  }

  lemma KeptWhenDone(w: World, ref: Ref, x: string)
    requires ref in w && Sealed(w) && Fine(w, [ref]) && Below(w, ref, x, true)
    ensures KeepsBelow(w, ref, x)
  {
    var d :| d in Needs(w[ref], true) && Reaches(w, d, x, true);
    var p :| Leads(w, p, d, x, true);
    WalkFrom(w, ref, p, true);
    var q := [ref] + p;
    RunWalk(w, q);
    assert q[|q| - 1] == p[|p| - 1];
    NoSelfHere(w, q, x);
    assert KeepsPath(w, d, x);
  }

  /**
   * a and b are one manifest in two directories, downloaded without a wrapper, so that
   * both have one store path. What it runs with is the manifest beside it, which is k
   * for a and c for b; and k is built with b.
   */
  function SharedWorld(): World {
    map["root" := Package("/root", [], [Dep("a", true)]),
        "a" := Package("/tool", [], [Dep("k", true)]),
        "k" := Package("/built", [Dep("b", true)], []),
        "b" := Package("/tool", [], [Dep("c", true)]),
        "c" := Package("/kit", [], [])]
  }

  /** The path that the root runs with counts as build-only. */
  lemma SharedPath(got: Installed)
    requires Right(SharedWorld(), "root", got)
    ensures "/tool" in got.buildOnly && Below(SharedWorld(), "root", "/tool", true) && Fine(SharedWorld(), ["root"])
  {
    SharedNeeds();
    SharedRun();
    SharedFine();
    RunBelowBelow(SharedWorld(), "root", "/tool");
  }

  lemma SharedRun()
    ensures Below(SharedWorld(), "root", "/tool", true) && !KeepsBelow(SharedWorld(), "root", "/tool")
  {
    var w := SharedWorld();
    SharedNeeds();
    ReachesStep(w, "b", "/tool", false);
    ReachesStep(w, "k", "/tool", false);
    assert Below(w, "a", "/tool", false);
    KeepsStep(w, "k", "/tool");
    KeepsStep(w, "a", "/tool");
    ReachesStep(w, "a", "/tool", true);
  }

  lemma Longer(w: World, base: seq<Ref>, d: Ref)
    requires Walk(w, base, false) && !Repeats(base) && Edge(w, base[|base| - 1], d, false) && d !in base
    ensures Walk(w, base + [d], false) && !Repeats(base + [d])
  {
    WalkOn(w, base, d, false);
  }

  /** A package that needs one ref alone is fine when that one is. */
  lemma FineOne(w: World, base: seq<Ref>, ref: Ref, d: Ref)
    requires ref in w && base != [] && base[|base| - 1] == ref && Walk(w, base, false) && !Repeats(base)
    requires Needs(w[ref], false) == [d] && d !in base && Fine(w, base + [d])
    ensures Fine(w, base)
  {
    FineStep(w, base, ref);
  }

  /** Five packages in a row, each of which needs the next one alone, and the last one nothing. */
  lemma FineRow(w: World, a: Ref, b: Ref, c: Ref, d: Ref, e: Ref)
    requires a in w && b in w && c in w && d in w && e in w
    requires Needs(w[a], false) == [b] && Needs(w[b], false) == [c] && Needs(w[c], false) == [d]
    requires Needs(w[d], false) == [e] && Needs(w[e], false) == []
    requires a != b && a != c && a != d && a != e && b != c && b != d && b != e && c != d && c != e && d != e
    ensures Fine(w, [a])
  {
    var one := [a];
    var two := one + [b];
    var three := two + [c];
    var four := three + [d];
    Longer(w, one, b);
    Longer(w, two, c);
    Longer(w, three, d);
    Longer(w, four, e);
    FineStep(w, four + [e], e);
    FineOne(w, four, d, e);
    FineOne(w, three, c, d);
    FineOne(w, two, b, c);
    FineOne(w, one, a, b);
  }

  lemma SharedFine()
    ensures Fine(SharedWorld(), ["root"])
  {
    SharedNeeds();
    FineRow(SharedWorld(), "root", "a", "k", "b", "c");
  }

  lemma SharedNeeds()
    ensures var w := SharedWorld();
      && Needs(w["root"], true) == Needs(w["root"], false) == ["a"]
      && Needs(w["a"], true) == Needs(w["a"], false) == ["k"]
      && Needs(w["k"], true) == [] && Needs(w["k"], false) == ["b"]
      && Needs(w["b"], true) == Needs(w["b"], false) == ["c"]
      && Needs(w["c"], true) == Needs(w["c"], false) == []
  {
    OneDep("a");
    OneDep("k");
    OneDep("b");
    OneDep("c");
  }

  lemma OneDep(ref: Ref)
    ensures var deps := [Dep(ref, true)]; Host(deps) == [ref] && [] + deps == deps && deps + [] == deps
  {
    assert [Dep(ref, true)][1..] == [];
  }
}
