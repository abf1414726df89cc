// The line diff of internal/cli/listreview.go: a table of longest common
// subsequences, filled from the end, and a walk through it.
module Diff {
  datatype Op = Same | Drop | Add

  datatype Line = Line(op: Op, text: string)

  // --- what an edit script is, whoever makes it

  /** The lines that a script starts from. */
  function Old(s: seq<Line>): seq<string> {
    if s == [] then [] else Old(s[..|s| - 1]) + if s[|s| - 1].op.Add? then [] else [s[|s| - 1].text]
  }

  /** The lines that a script ends with. */
  function New(s: seq<Line>): seq<string> {
    if s == [] then [] else New(s[..|s| - 1]) + if s[|s| - 1].op.Drop? then [] else [s[|s| - 1].text]
  }

  function Count(s: seq<Line>, op: Op): nat {
    if s == [] then 0 else Count(s[..|s| - 1], op) + if s[|s| - 1].op == op then 1 else 0
  }

  function Changes(s: seq<Line>): nat {
    Count(s, Drop) + Count(s, Add)
  }

  ghost predicate IsScript(s: seq<Line>, a: seq<string>, b: seq<string>) {
    Old(s) == a && New(s) == b
  }

  /** Removals come before the additions that replace them. */
  ghost predicate Ordered(s: seq<Line>) {
    forall j, k :: 0 <= j < k < |s| && k == j + 1 ==> !(s[j].op.Add? && s[k].op.Drop?)
  }

  lemma {:induction false} Counts(s: seq<Line>)
    ensures |Old(s)| == Count(s, Same) + Count(s, Drop)
    ensures |New(s)| == Count(s, Same) + Count(s, Add)
  {
    if s != [] { Counts(s[..|s| - 1]); }
  }

  // --- the longest common subsequence of the lines from i and from j on

  function Lcs(a: seq<string>, b: seq<string>, i: nat, j: nat): nat
    requires i <= |a| && j <= |b|
    decreases |a| - i + |b| - j
  {
    if i == |a| || j == |b| then 0
    else if a[i] == b[j] then Lcs(a, b, i + 1, j + 1) + 1
    else Max(Lcs(a, b, i + 1, j), Lcs(a, b, i, j + 1))
  }

  function Max(x: nat, y: nat): nat {
    if x > y then x else y
  }

  lemma {:induction false} LcsSteps(a: seq<string>, b: seq<string>, i: nat, j: nat)
    requires i <= |a| && j <= |b|
    ensures i < |a| ==> Lcs(a, b, i + 1, j) <= Lcs(a, b, i, j) <= Lcs(a, b, i + 1, j) + 1
    ensures j < |b| ==> Lcs(a, b, i, j + 1) <= Lcs(a, b, i, j) <= Lcs(a, b, i, j + 1) + 1
    decreases |a| - i + |b| - j
  {
    if i < |a| { LcsSteps(a, b, i + 1, j); }
    if j < |b| { LcsSteps(a, b, i, j + 1); }
    if i < |a| && j < |b| { LcsSteps(a, b, i + 1, j + 1); }
  }

  /** A script up to i and j keeps no more lines than the subsequence does not have from there on. */
  lemma {:induction false} KeepsAtMost(s: seq<Line>, a: seq<string>, b: seq<string>, i: nat, j: nat)
    requires i <= |a| && j <= |b| && IsScript(s, a[..i], b[..j])
    ensures Count(s, Same) + Lcs(a, b, i, j) <= Lcs(a, b, 0, 0)
    decreases |s|
  {
    if s != [] {
      var front, last := s[..|s| - 1], s[|s| - 1];
      var di, dj := if last.op.Add? then 0 else 1, if last.op.Drop? then 0 else 1;
      assert a[..i][..i - di] == a[..i - di] && b[..j][..j - dj] == b[..j - dj];
      assert Old(s)[..|Old(front)|] == Old(front) && New(s)[..|New(front)|] == New(front);
      KeepsAtMost(front, a, b, i - di, j - dj);
      LcsSteps(a, b, i - di, j - dj);
      if last.op.Same? { assert Old(s)[i - 1] == New(s)[j - 1] == last.text; }
    }
  }

  /** A script that keeps the longest common subsequence has the fewest changes. */
  lemma Fewest(s: seq<Line>, t: seq<Line>, a: seq<string>, b: seq<string>)
    requires IsScript(s, a, b) && IsScript(t, a, b) && Count(s, Same) == Lcs(a, b, 0, 0)
    ensures Changes(s) <= Changes(t)
  {
    assert a[..|a|] == a && b[..|b|] == b;
    KeepsAtMost(t, a, b, |a|, |b|);
    Counts(s);
    Counts(t);
  }

  lemma AppendTexts(s: seq<Line>, l: Line)
    ensures Old(s + [l]) == if l.op.Add? then Old(s) else Old(s) + [l.text]
    ensures New(s + [l]) == if l.op.Drop? then New(s) else New(s) + [l.text]
  {
    assert (s + [l])[..|s|] == s;
  }

  lemma AppendCount(s: seq<Line>, l: Line)
    ensures Count(s + [l], Same) == Count(s, Same) + if l.op.Same? then 1 else 0
  {
    assert (s + [l])[..|s|] == s;
  }

  lemma AppendOrdered(s: seq<Line>, l: Line)
    requires Ordered(s) && !(s != [] && s[|s| - 1].op.Add? && l.op.Drop?)
    ensures Ordered(s + [l])
  {
    var t := s + [l];
    forall j, k | 0 <= j < k < |t| && k == j + 1 ensures !(t[j].op.Add? && t[k].op.Drop?) {
      assert k < |s| ==> t[j] == s[j] && t[k] == s[k];
    }
  }

  lemma Append(s: seq<Line>, l: Line)
    requires Ordered(s) && !(s != [] && s[|s| - 1].op.Add? && l.op.Drop?)
    ensures Old(s + [l]) == if l.op.Add? then Old(s) else Old(s) + [l.text]
    ensures New(s + [l]) == if l.op.Drop? then New(s) else New(s) + [l.text]
    ensures Count(s + [l], Same) == Count(s, Same) + if l.op.Same? then 1 else 0
    ensures Ordered(s + [l])
  {
    AppendTexts(s, l);
    AppendCount(s, l);
    AppendOrdered(s, l);
  }

  /** diffLines gives an edit script from a to b with the fewest changes of all. */
  method DiffLines(a: seq<string>, b: seq<string>) returns (out: seq<Line>)
    ensures IsScript(out, a, b)
    ensures Count(out, Same) == Lcs(a, b, 0, 0)
    ensures forall s :: IsScript(s, a, b) ==> Changes(out) <= Changes(s)
    ensures Ordered(out)
  {
    var common := Table(a, b);
    out := Walk(a, b, common);
    forall s | IsScript(s, a, b) ensures Changes(out) <= Changes(s) { Fewest(out, s, a, b); }
  }

  /** How a walk that is at i and j can go on: by the line it appends. */
  ghost predicate Walked(a: seq<string>, b: seq<string>, i: nat, j: nat, out: seq<Line>) {
    && i <= |a| && j <= |b| && IsScript(out, a[..i], b[..j])
    && Count(out, Same) + Lcs(a, b, i, j) == Lcs(a, b, 0, 0)
    && Ordered(out)
    && (out != [] && out[|out| - 1].op.Add? && i < |a| ==> Lcs(a, b, i, j) > Lcs(a, b, i + 1, j))
  }

  lemma WalkSame(a: seq<string>, b: seq<string>, i: nat, j: nat, out: seq<Line>)
    requires Walked(a, b, i, j, out) && i < |a| && j < |b| && a[i] == b[j]
    ensures Walked(a, b, i + 1, j + 1, out + [Line(Same, a[i])])
  {
    Append(out, Line(Same, a[i]));
    assert a[..i + 1] == a[..i] + [a[i]] && b[..j + 1] == b[..j] + [b[j]];
  }

  lemma WalkDrop(a: seq<string>, b: seq<string>, i: nat, j: nat, out: seq<Line>)
    requires Walked(a, b, i, j, out) && i < |a| && (j < |b| ==> a[i] != b[j])
    requires j < |b| ==> Lcs(a, b, i + 1, j) >= Lcs(a, b, i, j + 1)
    ensures Walked(a, b, i + 1, j, out + [Line(Drop, a[i])])
  {
    Append(out, Line(Drop, a[i]));
    assert a[..i + 1] == a[..i] + [a[i]];
  }

  lemma WalkAdd(a: seq<string>, b: seq<string>, i: nat, j: nat, out: seq<Line>)
    requires Walked(a, b, i, j, out) && j < |b| && (i < |a| ==> a[i] != b[j])
    requires i < |a| ==> Lcs(a, b, i + 1, j) < Lcs(a, b, i, j + 1)
    ensures Walked(a, b, i, j + 1, out + [Line(Add, b[j])])
  {
    Append(out, Line(Add, b[j]));
    if i < |a| { LcsSteps(a, b, i + 1, j); }
    assert b[..j + 1] == b[..j] + [b[j]];
  }

  method Walk(a: seq<string>, b: seq<string>, common: array2<nat>) returns (out: seq<Line>)
    requires IsTable(common, a, b)
    ensures IsScript(out, a, b) && Ordered(out) && Count(out, Same) == Lcs(a, b, 0, 0)
  {
    out := [];
    var i, j := 0, 0;
    while i < |a| || j < |b|
      invariant Walked(a, b, i, j, out)
      decreases |a| - i + |b| - j
    {
      if i < |a| && j < |b| && a[i] == b[j] {
        WalkSame(a, b, i, j, out);
        out, i, j := out + [Line(Same, a[i])], i + 1, j + 1;
      } else {
        assert i < |a| && j < |b| ==> common[i + 1, j] == Lcs(a, b, i + 1, j) && common[i, j + 1] == Lcs(a, b, i, j + 1);
        if i < |a| && (j == |b| || common[i + 1, j] >= common[i, j + 1]) {
          WalkDrop(a, b, i, j, out);
          out, i := out + [Line(Drop, a[i])], i + 1;
        } else {
          WalkAdd(a, b, i, j, out);
          out, j := out + [Line(Add, b[j])], j + 1;
        }
      }
    }
    WalkDone(a, b, out);
  }

  lemma WalkDone(a: seq<string>, b: seq<string>, out: seq<Line>)
    requires Walked(a, b, |a|, |b|, out)
    ensures IsScript(out, a, b) && Ordered(out) && Count(out, Same) == Lcs(a, b, 0, 0)
  {
    assert a[..|a|] == a && b[..|b|] == b;
  }

  ghost predicate IsTable(common: array2<nat>, a: seq<string>, b: seq<string>)
    reads common
  {
    && common.Length0 == |a| + 1 && common.Length1 == |b| + 1
    && forall i, j :: 0 <= i <= |a| && 0 <= j <= |b| ==> common[i, j] == Lcs(a, b, i, j)
  }

  /** The table, filled from the last lines to the first. */
  method Table(a: seq<string>, b: seq<string>) returns (common: array2<nat>)
    ensures fresh(common)
    ensures IsTable(common, a, b)
  {
    common := new nat[|a| + 1, |b| + 1]((i, j) => 0);
    for i := |a| downto 0
      invariant forall m, n :: 0 <= m < i && 0 <= n <= |b| ==> common[m, n] == 0
      invariant forall m, n :: i <= m <= |a| && 0 <= n <= |b| ==> common[m, n] == Lcs(a, b, m, n)
    {
      FillRow(common, a, b, i);
    }
  }

  method FillRow(common: array2<nat>, a: seq<string>, b: seq<string>, i: nat)
    requires i < |a| && common.Length0 == |a| + 1 && common.Length1 == |b| + 1
    requires common[i, |b|] == 0
    requires forall m, n :: m == i + 1 && 0 <= n <= |b| ==> common[m, n] == Lcs(a, b, m, n)
    modifies common
    ensures forall n :: 0 <= n <= |b| ==> common[i, n] == Lcs(a, b, i, n)
    ensures forall m, n :: 0 <= m <= |a| && 0 <= n <= |b| && m != i ==> common[m, n] == old(common[m, n])
  {
    for j := |b| downto 0
      invariant forall n :: j <= n <= |b| ==> common[i, n] == Lcs(a, b, i, n)
      invariant forall m, n :: 0 <= m <= |a| && 0 <= n <= |b| && m != i ==> common[m, n] == old(common[m, n])
    {
      var cell := if a[i] == b[j] then common[i + 1, j + 1] + 1 else Max(common[i + 1, j], common[i, j + 1]);
      assert common[i + 1, j] == old(common[i + 1, j]) && common[i + 1, j + 1] == old(common[i + 1, j + 1]);
      assert cell == Lcs(a, b, i, j);
      common[i, j] := cell;
    }
  }
}
