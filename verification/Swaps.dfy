// Replacing a word in a text where it stands for itself (swap in
// internal/infer/infer.go).
module Swaps {
  import opened Basics
  import opened Strings

  predicate IsDigit(c: char) {
    '0' <= c <= '9'
  }

  predicate IsLetter(c: char) {
    'a' <= c <= 'z' || 'A' <= c <= 'Z'
  }

  predicate IsBrace(c: char) {
    c == '{' || c == '}'
  }

  predicate Plain(s: string) {
    forall c :: c in s ==> !IsBrace(c)
  }

  predicate Matches(s: string, word: string, start: nat) {
    start + |word| <= |s| && s[start..start + |word|] == word
  }

  function Find(s: string, word: string, at: nat): (r: Option<nat>)
    requires at <= |s|
    ensures r.Some? ==> at <= r.value && Matches(s, word, r.value)
    decreases |s| - at
  {
    if at + |word| > |s| then None
    else if Matches(s, word, at) then Some(at)
    else if at == |s| then None
    else Find(s, word, at + 1)
  }

  /** s[at] goes on a word of letters. A v alone in front of it, as in v1, is no word. */
  predicate InWord(s: string, at: nat)
    requires at <= |s|
  {
    && at > 0 && IsLetter(s[at - 1])
    && (!(s[at - 1] == 'v' || s[at - 1] == 'V') || (at > 1 && IsLetter(s[at - 2])))
  }

  /** An occurrence that stays as it is. */
  predicate Skips(s: string, word: string, start: nat)
    requires start + |word| <= |s|
  {
    || (start > 0 && IsDigit(s[start - 1]))
    || (start + |word| < |s| && IsDigit(s[start + |word|]))
    || ('.' !in word && InWord(s, start))
  }

  predicate Hit(s: string, word: string, start: nat) {
    Matches(s, word, start) && !Skips(s, word, start)
  }

  /** The text has the word where it stands for itself. */
  ghost predicate Occurs(s: string, word: string) {
    exists start :: Hit(s, word, start)
  }

  /** Where the word is replaced when it is looked for from `at` on. */
  function Cuts(s: string, word: string, at: nat): seq<nat>
    requires word != ""
    decreases |s| - at
  {
    if at + |word| > |s| then []
    else if !Matches(s, word, at) then Cuts(s, word, at + 1)
    else if Skips(s, word, at) then Cuts(s, word, at + |word|)
    else [at] + Cuts(s, word, at + |word|)
  }

  predicate Hits(s: string, word: string, from: nat, cuts: seq<nat>)
    decreases |cuts|
  {
    cuts != [] ==> from <= cuts[0] && Hit(s, word, cuts[0]) && Hits(s, word, cuts[0] + |word|, cuts[1..])
  }

  /** Cuts of n characters each in a text of length len, none before from and no two over each other. */
  predicate Marks(len: nat, n: nat, from: nat, cuts: seq<nat>)
    decreases |cuts|
  {
    if cuts == [] then from <= len
    else from <= cuts[0] && cuts[0] + n <= len && Marks(len, n, cuts[0] + n, cuts[1..])
  }

  function BuildFrom(s: string, n: nat, sub: string, from: nat, cuts: seq<nat>): string
    requires Marks(|s|, n, from, cuts)
    decreases |cuts|
  {
    if cuts == [] then s[from..]
    else s[from..cuts[0]] + sub + BuildFrom(s, n, sub, cuts[0] + n, cuts[1..])
  }

  /** s from `from` on, with sub in place of the n characters at each cut. */
  function Build(s: string, n: nat, sub: string, from: nat, cuts: seq<nat>): string
    requires Marks(|s|, n, from, cuts)
  {
    BuildFrom(s, n, sub, from, cuts)
  }

  lemma {:induction false} HitsMark(s: string, word: string, from: nat, cuts: seq<nat>)
    requires Hits(s, word, from, cuts) && from <= |s|
    ensures Marks(|s|, |word|, from, cuts)
    decreases |cuts|
  {
    if cuts != [] { HitsMark(s, word, cuts[0] + |word|, cuts[1..]); }
  }

  lemma {:induction false} CutsHit(s: string, word: string, from: nat, at: nat)
    requires word != "" && from <= at
    ensures Hits(s, word, from, Cuts(s, word, at))
    decreases |s| - at
  {
    if at + |word| > |s| {
    } else if !Matches(s, word, at) {
      CutsHit(s, word, from, at + 1);
    } else if Skips(s, word, at) {
      CutsHit(s, word, from, at + |word|);
    } else {
      CutsHit(s, word, at + |word|, at + |word|);
      HitsMore(s, word, from, at, Cuts(s, word, at + |word|));
    }
  }

  lemma HitsMore(s: string, word: string, from: nat, cut: nat, rest: seq<nat>)
    requires from <= cut && Hit(s, word, cut) && Hits(s, word, cut + |word|, rest)
    ensures Hits(s, word, from, [cut] + rest)
  {
    assert ([cut] + rest)[1..] == rest;
  }

  lemma CutsMark(s: string, word: string, from: nat, at: nat)
    requires word != "" && from <= at && from <= |s|
    ensures Marks(|s|, |word|, from, Cuts(s, word, at))
  {
    CutsHit(s, word, from, at);
    HitsMark(s, word, from, Cuts(s, word, at));
  }

  lemma {:induction false} CutsFind(s: string, word: string, at: nat)
    requires word != "" && at <= |s|
    ensures Find(s, word, at).None? ==> Cuts(s, word, at) == []
    ensures Find(s, word, at).Some? ==> Cuts(s, word, at) == Cuts(s, word, Find(s, word, at).value)
    decreases |s| - at
  {
    if at + |word| <= |s| && !Matches(s, word, at) { CutsFind(s, word, at + 1); }
  }

  lemma Apart(s: string, word: string, at: nat, p: nat)
    requires at < p && Matches(s, word, at) && Matches(s, word, p) && word != ""
    requires forall i :: 0 < i < |word| ==> word[i] != word[0]
    ensures at + |word| <= p
  {
    assert s[p..p + |word|][0] == s[p];
    assert forall i :: at <= i < at + |word| ==> s[i] == s[at..at + |word|][i - at];
  }

  /** Every occurrence that swap may replace is cut, when no two of them can overlap. */
  lemma {:induction false} AllCut(s: string, word: string, at: nat, p: nat)
    requires word != "" && at <= p && Hit(s, word, p)
    requires forall i :: 0 < i < |word| ==> word[i] != word[0]
    ensures p in Cuts(s, word, at)
    decreases |s| - at
  {
    if at == p {
    } else if !Matches(s, word, at) {
      AllCut(s, word, at + 1, p);
    } else {
      Apart(s, word, at, p);
      AllCut(s, word, at + |word|, p);
    }
  }

  lemma {:induction false} HitsEach(s: string, word: string, from: nat, cuts: seq<nat>, p: nat)
    requires Hits(s, word, from, cuts) && p in cuts
    ensures Hit(s, word, p)
    decreases |cuts|
  {
    if p != cuts[0] { HitsEach(s, word, cuts[0] + |word|, cuts[1..], p); }
  }

  /** The word is there, with no digit next to it, and unless it has a dot, no letters before it but a v of its own. */
  ghost predicate StandsAlone(s: string, word: string, p: nat) {
    var end := p + |word|;
    && end <= |s| && s[p..end] == word
    && (p > 0 ==> !('0' <= s[p - 1] <= '9')) && (end < |s| ==> !('0' <= s[end] <= '9'))
    && ('.' !in word && p > 0 && Letter(s[p - 1]) ==> s[p - 1] in "vV" && (p > 1 ==> !Letter(s[p - 2])))
  }

  ghost predicate Letter(c: char) {
    'a' <= c <= 'z' || 'A' <= c <= 'Z'
  }

  /** Only what stands alone is cut, and all that does where no two occurrences can overlap. */
  lemma CutsWhere(s: string, word: string, p: nat)
    requires word != ""
    ensures p in Cuts(s, word, 0) ==> StandsAlone(s, word, p)
    ensures (forall i :: 0 < i < |word| ==> word[i] != word[0]) && StandsAlone(s, word, p) ==> p in Cuts(s, word, 0)
  {
    assert Hit(s, word, p) <==> StandsAlone(s, word, p);
    CutsHit(s, word, 0, 0);
    if p in Cuts(s, word, 0) { HitsEach(s, word, 0, Cuts(s, word, 0), p); }
    if (forall i :: 0 < i < |word| ==> word[i] != word[0]) && Hit(s, word, p) { AllCut(s, word, 0, p); }
  }

  /** The result of the loop with r made so far. */
  function Made(r: string, s: string, word: string, sub: string, from: nat, at: nat): string
    requires from <= at <= |s| && word != ""
  {
    CutsMark(s, word, from, at);
    r + Build(s, |word|, sub, from, Cuts(s, word, at))
  }

  function Swapped(s: string, word: string, sub: string): string
    requires word != ""
  {
    Made("", s, word, sub, 0, 0)
  }

  lemma SwappedText(s: string, word: string, sub: string)
    requires word != ""
    ensures Marks(|s|, |word|, 0, Cuts(s, word, 0)) && Swapped(s, word, sub) == Build(s, |word|, sub, 0, Cuts(s, word, 0))
  {
    CutsMark(s, word, 0, 0);
    var made := Build(s, |word|, sub, 0, Cuts(s, word, 0));
    assert "" + made == made;
  }

  /** The loop ends for every word that is not empty. */
  method Swap(s: string, word: string, sub: string) returns (r: string)
    requires word != ""
    ensures r == Swapped(s, word, sub)
  {
    r := "";
    var from, at := 0, 0;
    ghost var goal := Made("", s, word, sub, 0, 0);
    while true
      invariant 0 <= from <= at <= |s|
      invariant Made(r, s, word, sub, from, at) == goal
      decreases |s| - at
    {
      MadeNext(r, s, word, sub, from, at);
      var found := Find(s, word, at);
      if found.None? {
        assert r + s[from..] == goal;
        return r + s[from..];
      }
      var start := found.value;
      at := start + |word|;
      if !Skips(s, word, start) {
        r := r + (s[from..start] + sub);
        from := at;
      }
    }
  }

  lemma MadeNext(r: string, s: string, word: string, sub: string, from: nat, at: nat)
    requires from <= at <= |s| && word != ""
    ensures Find(s, word, at).None? ==> Made(r, s, word, sub, from, at) == r + s[from..]
    ensures Find(s, word, at).Some? ==>
      var start, end := Find(s, word, at).value, Find(s, word, at).value + |word|;
      Made(r, s, word, sub, from, at) ==
        if Skips(s, word, start) then Made(r, s, word, sub, from, end)
        else Made(r + (s[from..start] + sub), s, word, sub, end, end)
  {
    CutsFind(s, word, at);
    var found := Find(s, word, at);
    if found.Some? {
      CutsMark(s, word, from, at);
      if !Skips(s, word, found.value) { MadeOn(r, s, word, sub, from, at); }
    }
  }

  /** An occurrence that is replaced moves into what the loop has made. */
  lemma MadeOn(r: string, s: string, word: string, sub: string, from: nat, at: nat)
    requires from <= at <= |s| && word != ""
    requires Find(s, word, at).Some? && !Skips(s, word, Find(s, word, at).value)
    ensures var start, end := Find(s, word, at).value, Find(s, word, at).value + |word|;
      Made(r, s, word, sub, from, at) == Made(r + (s[from..start] + sub), s, word, sub, end, end)
  {
    CutsFind(s, word, at);
    CutsMark(s, word, from, at);
    var start := Find(s, word, at).value;
    var end := start + |word|;
    CutsMark(s, word, end, end);
    var rest := Cuts(s, word, end);
    assert Cuts(s, word, at) == [start] + rest;
    BuildCut(s, |word|, sub, from, start, rest);
    Regroup(r, s[from..start] + sub, Build(s, |word|, sub, end, rest));
  }

  lemma BuildCut(s: string, n: nat, sub: string, from: nat, cut: nat, rest: seq<nat>)
    requires Marks(|s|, n, from, [cut] + rest)
    ensures from <= cut <= |s| && Marks(|s|, n, cut + n, rest)
    ensures Build(s, n, sub, from, [cut] + rest) == s[from..cut] + sub + Build(s, n, sub, cut + n, rest)
  {
    assert ([cut] + rest)[1..] == rest;
  }

  // --- the empty word

  /** One turn of the loop: what it has made, and where it looks next; None where it returns. */
  datatype Turn = Turn(r: string, from: nat, at: nat)

  function Next(s: string, word: string, sub: string, t: Turn): Option<Turn>
    requires t.from <= t.at <= |s|
    ensures Next(s, word, sub, t).Some? ==>
      var u := Next(s, word, sub, t).value; u.from <= u.at <= |s| && u.at >= t.at + |word|
  {
    var found := Find(s, word, t.at);
    if found.None? then None
    else
      var start, end := found.value, found.value + |word|;
      Some(if Skips(s, word, start) then t.(at := end) else Turn(t.r + (s[t.from..start] + sub), end, end))
  }

  function Turns(s: string, word: string, sub: string, t: Turn, n: nat): Option<Turn>
    requires t.from <= t.at <= |s|
    decreases n
  {
    if n == 0 then Some(t)
    else if Next(s, word, sub, t).None? then None
    else Turns(s, word, sub, Next(s, word, sub, t).value, n - 1)
  }

  /** With the empty word no number of turns ends the loop: it stays where it is. */
  lemma {:induction false} EmptyNeverEnds(s: string, sub: string, t: Turn, n: nat)
    requires t.from <= t.at <= |s|
    ensures Turns(s, "", sub, t, n).Some? && Turns(s, "", sub, t, n).value.at == t.at
    decreases n
  {
    assert Matches(s, "", t.at);
    if n > 0 { EmptyNeverEnds(s, sub, Next(s, "", sub, t).value, n - 1); }
  }
}
