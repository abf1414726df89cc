// What a dry run prints of a file's change (internal/cli/contentdiff.go): the
// changed lines, with up to two unchanged lines around each.
module TextDiff {
  import opened Diff
  import Strings

  const CONTEXT := 2
  const CELLS := 4194304
  const TOO_LONG := "...the file is too long to compare line by line"

  function Lines(s: string): seq<string> {
    if s == "" then []
    else Strings.Split(if s[|s| - 1] == '\n' then s[..|s| - 1] else s, '\n')
  }

  /** The lines are the text, but for a line break at its end. */
  lemma LinesRead(s: string)
    ensures AllWhole(Lines(s)) && (Strings.Join(Lines(s), '\n') == s || Strings.Join(Lines(s), '\n') + "\n" == s)
    ensures s != "" && s[|s| - 1] != '\n' ==> Strings.Join(Lines(s), '\n') == s
    ensures Lines(s) == [] <==> s == ""
  {
    if s != "" {
      var text := if s[|s| - 1] == '\n' then s[..|s| - 1] else s;
      Strings.JoinSplit(text, '\n');
      assert s == s[..|s| - 1] + [s[|s| - 1]];
    }
  }

  ghost predicate AllWhole(lines: seq<string>) {
    forall l :: l in lines ==> '\n' !in l
  }

  function Mark(l: Line): string {
    (match l.op case Same => " " case Drop => "-" case Add => "+") + l.text
  }

  /** Within two lines of a change. */
  predicate Near(ops: seq<Line>, i: int) {
    exists j :: 0 <= j < |ops| && i - 2 <= j <= i + 2 && ops[j].op != Same
  }

  /** What is printed for the first n lines of the script. */
  function Shown(ops: seq<Line>, n: nat): seq<string>
    requires n <= |ops|
  {
    if n == 0 then []
    else
      var before := Shown(ops, n - 1);
      if !Near(ops, n - 1) then before
      else before + (if n > 1 && !Near(ops, n - 2) && before != [] then ["..."] else []) + [Mark(ops[n - 1])]
  }

  /** The printed lines that start with a plus or a minus. */
  function Marked(lines: seq<string>): seq<string> {
    if lines == [] then []
    else
      var l := lines[|lines| - 1];
      Marked(lines[..|lines| - 1]) + if l != "" && (l[0] == '+' || l[0] == '-') then [l] else []
  }

  /** A removed line after a minus, or an added one after a plus. */
  function Change(l: Line): seq<string> {
    match l.op case Same => [] case Drop => ["-" + l.text] case Add => ["+" + l.text]
  }

  function MarksOf(ops: seq<Line>): seq<string> {
    if ops == [] then []
    else
      var l := ops[|ops| - 1];
      MarksOf(ops[..|ops| - 1]) + Change(l)
  }

  /** The printed lines that start with a space. */
  function Spaced(lines: seq<string>): seq<string> {
    if lines == [] then []
    else
      var l := lines[|lines| - 1];
      Spaced(lines[..|lines| - 1]) + if l != "" && l[0] == ' ' then [l] else []
  }

  /** The unchanged lines among the first n that are near a change. */
  function ContextOf(ops: seq<Line>, n: nat): seq<string>
    requires n <= |ops|
  {
    if n == 0 then []
    else ContextOf(ops, n - 1) + if ops[n - 1].op.Same? && Near(ops, n - 1) then [" " + ops[n - 1].text] else []
  }

  lemma MarkedMark(lines: seq<string>, l: Line)
    ensures Marked(lines + [Mark(l)]) == Marked(lines) + Change(l)
    ensures Spaced(lines + [Mark(l)]) == Spaced(lines) + if l.op.Same? then [" " + l.text] else []
  {
    assert (lines + [Mark(l)])[..|lines|] == lines;
  }

  lemma MarkedGap(lines: seq<string>)
    ensures Marked(lines + ["..."]) == Marked(lines) && Spaced(lines + ["..."]) == Spaced(lines)
  {
    assert (lines + ["..."])[..|lines|] == lines;
  }

  lemma MarksNext(ops: seq<Line>, n: nat)
    requires 0 < n <= |ops|
    ensures MarksOf(ops[..n]) == MarksOf(ops[..n - 1]) + Change(ops[n - 1])
  {
    assert ops[..n][..n - 1] == ops[..n - 1];
  }

  /**
   * The printed changes are the changes of the script, each once and in order, and
   * with them come the unchanged lines within two of a change.
   */
  lemma {:induction false} ShownMarks(ops: seq<Line>, n: nat)
    requires n <= |ops|
    ensures Marked(Shown(ops, n)) == MarksOf(ops[..n]) && Spaced(Shown(ops, n)) == ContextOf(ops, n)
  {
    if n == 0 {
      assert ops[..n] == [];
    } else {
      ShownMarks(ops, n - 1);
      MarksNext(ops, n);
      ShownStep(ops, n);
    }
  }

  lemma {:induction false} ShownNone(ops: seq<Line>, n: nat)
    requires n <= |ops|
    ensures Shown(ops, n) == [] <==> forall i :: 0 <= i < n ==> !Near(ops, i)
  {
    if n > 0 { ShownNone(ops, n - 1); }
  }

  /** What one line of the script adds to what is printed. */
  lemma ShownStep(ops: seq<Line>, n: nat)
    requires 0 < n <= |ops|
    ensures Marked(Shown(ops, n)) == Marked(Shown(ops, n - 1)) + Change(ops[n - 1])
    ensures Spaced(Shown(ops, n)) == Spaced(Shown(ops, n - 1)) +
      (if Near(ops, n - 1) && ops[n - 1].op.Same? then [" " + ops[n - 1].text] else [])
  {
    var before := Shown(ops, n - 1);
    if Near(ops, n - 1) {
      var gap := n > 1 && !Near(ops, n - 2) && before != [];
      MarkedGap(before);
      MarkedMark(if gap then before + ["..."] else before, ops[n - 1]);
      assert !gap ==> before + [] == before;
    }
  }

  lemma {:induction false} NoChange(s: seq<Line>, a: seq<string>, b: seq<string>)
    requires IsScript(s, a, b) && forall i :: 0 <= i < |s| ==> s[i].op.Same?
    ensures a == b && MarksOf(s) == []
    decreases |s|
  {
    if s != [] { NoChange(s[..|s| - 1], Old(s[..|s| - 1]), New(s[..|s| - 1])); }
  }

  lemma {:induction false} LcsOfSame(a: seq<string>, i: nat)
    requires i <= |a|
    ensures Lcs(a, a, i, i) == |a| - i
    decreases |a| - i
  {
    if i < |a| { LcsOfSame(a, i + 1); }
  }

  lemma {:induction false} AllKept(s: seq<Line>)
    requires Count(s, Same) == |s|
    ensures forall i :: 0 <= i < |s| ==> s[i].op.Same?
  {
    if s != [] {
      AtMostAll(s[..|s| - 1]);
      AllKept(s[..|s| - 1]);
    }
  }

  lemma {:induction false} AtMostAll(s: seq<Line>)
    ensures Count(s, Same) + Changes(s) == |s|
  {
    if s != [] { AtMostAll(s[..|s| - 1]); }
  }

  /** With no line to print, the texts have the same lines, and the other way round. */
  lemma EmptyWhenSame(ops: seq<Line>, a: seq<string>, b: seq<string>)
    requires IsScript(ops, a, b) && Count(ops, Same) == Lcs(a, b, 0, 0)
    ensures Shown(ops, |ops|) == [] <==> a == b
  {
    ShownMarks(ops, |ops|);
    ShownNone(ops, |ops|);
    if Shown(ops, |ops|) == [] {
      forall i | 0 <= i < |ops| ensures ops[i].op.Same? { assert !Near(ops, i); }
      NoChange(ops, a, b);
    }
    if a == b {
      LcsOfSame(a, 0);
      Counts(ops);
      AtMostAll(ops);
      AllKept(ops);
    }
  }

  /** keep marks the lines within CONTEXT of a change. */
  method Keep(script: seq<Line>) returns (keep: array<bool>)
    ensures fresh(keep) && keep.Length == |script|
    ensures forall k :: 0 <= k < |script| ==> (keep[k] <==> Near(script, k))
  {
    keep := new bool[|script|](_ => false);
    for i := 0 to |script|
      invariant forall k :: 0 <= k < |script| ==> (keep[k] <==> NearUpTo(script, i, k))
    {
      if script[i].op != Same {
        var lo := if i < CONTEXT then 0 else i - CONTEXT;
        var hi := if i + CONTEXT < |script| then i + CONTEXT + 1 else |script|;
        for j := lo to hi
          invariant forall k :: 0 <= k < |script| ==> (keep[k] <==> lo <= k < j || NearUpTo(script, i, k))
        {
          keep[j] := true;
        }
      }
      NearNext(script, i);
    }
  }

  /** Within two lines of a change that is among the first i lines. */
  ghost predicate NearUpTo(ops: seq<Line>, i: nat, k: int) {
    exists j :: 0 <= j < i && j < |ops| && k - CONTEXT <= j <= k + CONTEXT && ops[j].op != Same
  }

  lemma NearNext(ops: seq<Line>, i: nat)
    requires i < |ops|
    ensures forall k :: NearUpTo(ops, i + 1, k) <==> NearUpTo(ops, i, k) || (ops[i].op != Same && k - CONTEXT <= i <= k + CONTEXT)
  {
    forall k ensures NearUpTo(ops, i + 1, k) <==> NearUpTo(ops, i, k) || (ops[i].op != Same && k - CONTEXT <= i <= k + CONTEXT) {
      if j :| 0 <= j < i + 1 && k - CONTEXT <= j <= k + CONTEXT && ops[j].op != Same {
        assert j == i || NearUpTo(ops, i, k);
      }
    }
  }

  method Printed(script: seq<Line>) returns (lines: seq<string>)
    ensures lines == Shown(script, |script|)
  {
    var keep := Keep(script);
    lines := [];
    for i := 0 to |script|
      invariant lines == Shown(script, i)
    {
      if keep[i] {
        if i > 0 && !keep[i - 1] && |lines| > 0 { lines := lines + ["..."]; }
        lines := lines + [Mark(script[i])];
      }
    }
  }

  /** The printed lines, with the script they come from. */
  method TextDiff(a: string, b: string) returns (lines: seq<string>, ghost ops: seq<Line>)
    ensures |Lines(a)| * |Lines(b)| > 4194304 ==> lines == [TOO_LONG]
    ensures |Lines(a)| * |Lines(b)| <= 4194304 ==>
      && IsScript(ops, Lines(a), Lines(b)) && Count(ops, Same) == Lcs(Lines(a), Lines(b), 0, 0) && Ordered(ops)
      && lines == Shown(ops, |ops|) && Marked(lines) == MarksOf(ops) && Spaced(lines) == ContextOf(ops, |ops|)
      && (lines == [] <==> Lines(a) == Lines(b))
  {
    var was, now := Lines(a), Lines(b);
    ops := [];
    if |was| * |now| > CELLS { return [TOO_LONG], []; }
    var script := DiffLines(was, now);
    ops := script;
    lines := Printed(script);
    ShownMarks(script, |script|);
    assert script[..|script|] == script;
    EmptyWhenSame(script, was, now);
  }
}
