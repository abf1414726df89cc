// A URL template as its parts, and what replacing a word in it makes of them.
module Parts {
  import opened Strings
  import opened Swaps
  import opened Pluses

  /** A character that is no brace, or a variable as it is written and what it stands for. */
  datatype Part = Char(c: char) | Var(text: string, value: string)

  predicate Written(text: string) {
    |text| > 1 && text[0] == '{' && text[|text| - 1] == '}'
  }

  predicate Proper(ps: seq<Part>) {
    forall p :: p in ps ==> if p.Char? then !IsBrace(p.c) else Written(p.text)
  }

  function Text(p: Part): string {
    if p.Char? then [p.c] else p.text
  }

  function Value(p: Part): string {
    if p.Char? then [p.c] else p.value
  }

  function Texts(ps: seq<Part>): string {
    if ps == [] then "" else Text(ps[0]) + Texts(ps[1..])
  }

  /** The template as it is written. */
  function Render(ps: seq<Part>): string {
    Texts(ps)
  }

  /** What the template stands for. */
  function Read(ps: seq<Part>): string {
    if ps == [] then "" else Value(ps[0]) + Read(ps[1..])
  }

  lemma {:induction false} RenderConcat(a: seq<Part>, b: seq<Part>)
    ensures Render(a + b) == Render(a) + Render(b)
  {
    if a == [] {
      assert a + b == b;
    } else {
      RenderConcat(a[1..], b);
      assert (a + b)[1..] == a[1..] + b;
      Regroup(Text(a[0]), Render(a[1..]), Render(b));
    }
  }

  lemma {:induction false} ReadConcat(a: seq<Part>, b: seq<Part>)
    ensures Read(a + b) == Read(a) + Read(b)
  {
    if a == [] {
      assert a + b == b;
    } else {
      ReadConcat(a[1..], b);
      assert (a + b)[1..] == a[1..] + b;
      Regroup(Value(a[0]), Read(a[1..]), Read(b));
    }
  }

  lemma OneMore(p: Part, ps: seq<Part>)
    ensures Render([p] + ps) == Text(p) + Render(ps) && Read([p] + ps) == Value(p) + Read(ps)
  {
    assert ([p] + ps)[1..] == ps;
  }

  function Chars(s: string): (ps: seq<Part>)
    ensures |ps| == |s| && forall i :: 0 <= i < |s| ==> ps[i] == Char(s[i])
  {
    seq(|s|, i requires 0 <= i < |s| => Char(s[i]))
  }

  lemma {:induction false} CharsRender(s: string)
    ensures Render(Chars(s)) == s && Read(Chars(s)) == s
  {
    if s != "" {
      CharsRender(s[1..]);
      assert Chars(s)[1..] == Chars(s[1..]);
    }
  }

  /** Text without braces has no variables, and reads as it is written. */
  lemma {:induction false} OnlyChars(ps: seq<Part>)
    requires Proper(ps) && Plain(Render(ps))
    ensures Render(ps) == Read(ps)
  {
    if ps != [] {
      assert ps[0] in ps && Render(ps)[0] in Render(ps);
      assert forall c :: c in Render(ps[1..]) ==> c in Render(ps);
      OnlyChars(ps[1..]);
    }
  }

  // --- what a pass may not find

  /** A search for word that hits inside the variable stays away from it. */
  predicate Guarded(text: string, word: string) {
    forall d: nat :: 0 < d && d + |word| < |text| && Matches(text, word, d) ==> StaysAway(text, word, d)
  }

  predicate StaysAway(text: string, word: string, d: nat) {
    '.' !in word && 0 < d <= |text| && IsLetter(text[d - 1]) && text[d - 1] != 'v' && text[d - 1] != 'V'
  }

  predicate Safe(ps: seq<Part>, word: string) {
    forall p :: p in ps && p.Var? ==> Guarded(p.text, word)
  }

  lemma Slice(a: string, b: string, c: string, i: nat, j: nat)
    requires i <= j <= |b|
    ensures (a + (b + c))[|a| + i..|a| + j] == b[i..j]
    ensures i < j ==> (a + (b + c))[|a| + i] == b[i]
  {
  }

  /** Where an occurrence inside a variable stands in it, with x before the variable and y after it. */
  lemma InsideText(x: string, t: string, y: string, start: nat, word: string)
    requires word != "" && Matches(x + (t + y), word, start) && |x| < start && start + |word| < |x| + |t|
    ensures t[start - |x|..start - |x| + |word|] == word
    ensures (x + (t + y))[start - 1] == t[start - |x| - 1]
  {
    var d := start - |x|;
    Slice(x, t, y, d - 1, d);
    Slice(x, t, y, d, d + |word|);
  }

  lemma InsideSkips(x: string, t: string, y: string, start: nat, word: string)
    requires word != "" && Guarded(t, word)
    requires Matches(x + (t + y), word, start) && |x| < start && start + |word| < |x| + |t|
    ensures Skips(x + (t + y), word, start)
  {
    InsideText(x, t, y, start, word);
    assert Matches(t, word, start - |x|);
  }

  // --- what a pass keeps

  /** An occurrence that is replaced and begins after the variable t does not begin in it. */
  lemma Beyond(s: string, from: nat, t: string, y: string, start: nat, word: string)
    requires from <= |s| && s[from..] == t + y && from < start && Hit(s, word, start)
    requires word != "" && Plain(word) && Written(t) && Guarded(t, word)
    ensures from + |t| <= start
  {
    var x, last := s[..from], from + |t| - 1;
    assert s == x + (t + y) && s[last] == t[|t| - 1];
    if start <= last {
      if start + |word| <= last {
        InsideSkips(x, t, y, start, word);
      } else {
        InWordPlain(s, word, start, last);
      }
      assert false;
    }
  }

  lemma InWordPlain(s: string, word: string, start: nat, k: nat)
    requires Plain(word) && Matches(s, word, start) && start <= k < start + |word|
    ensures !IsBrace(s[k])
  {
    assert s[k] == s[start..start + |word|][k - start] && word[k - start] in word;
  }

  lemma TakenFirst(ps: seq<Part>, word: string)
    requires Proper(ps) && Plain(word) && Matches(Render(ps), word, 0) && word != ""
    ensures ps != [] && Text(ps[0]) == [word[0]] && Matches(Render(ps[1..]), word[1..], 0)
    ensures Proper(ps[1..]) && Plain(word[1..])
  {
    assert ps[0] in ps && Render(ps)[0] == word[0] && word[0] in word;
    assert Render(ps)[..|word|][1..] == Render(ps[1..])[..|word| - 1];
  }

  /** A word without braces that the text begins with is as many parts of its own. */
  lemma {:induction false} Taken(ps: seq<Part>, word: string)
    requires Proper(ps) && Plain(word) && Matches(Render(ps), word, 0)
    ensures |word| <= |ps| && Render(ps[..|word|]) == word
  {
    if word != "" {
      TakenFirst(ps, word);
      Taken(ps[1..], word[1..]);
      var more := ps[1..][..|word| - 1];
      OneMore(ps[0], more);
      assert ps[..|word|] == [ps[0]] + more;
    }
  }

  lemma BuildNone(s: string, n: nat, sub: string, from: nat)
    requires from <= |s|
    ensures Build(s, n, sub, from, []) == s[from..]
  {
  }

  lemma BuildSkip(s: string, n: nat, sub: string, from: nat, cuts: seq<nat>, k: nat, made: string) returns (rest: string)
    requires Marks(|s|, n, from, cuts) && cuts != [] && from + k <= cuts[0] && made == Build(s, n, sub, from, cuts)
    ensures Marks(|s|, n, from + k, cuts) && from + k <= |s|
    ensures rest == Build(s, n, sub, from + k, cuts) && made == s[from..from + k] + rest
  {
    rest := Build(s, n, sub, from + k, cuts);
    var last := Build(s, n, sub, cuts[0] + n, cuts[1..]);
    assert s[from..cuts[0]] == s[from..from + k] + s[from + k..cuts[0]];
    Regroup(s[from..from + k], s[from + k..cuts[0]], sub);
    Regroup(s[from..from + k], s[from + k..cuts[0]] + sub, last);
  }

  lemma BuildHere(s: string, n: nat, sub: string, from: nat, cuts: seq<nat>, made: string) returns (rest: string)
    requires Marks(|s|, n, from, cuts) && cuts != [] && cuts[0] == from && made == Build(s, n, sub, from, cuts)
    ensures Marks(|s|, n, from + n, cuts[1..]) && from + n <= |s|
    ensures rest == Build(s, n, sub, from + n, cuts[1..]) && made == sub + rest
  {
    rest := Build(s, n, sub, from + n, cuts[1..]);
    assert s[from..from] + sub == sub;
  }

  /** The parts with v in place of mid read the same as before, up to "+". */
  lemma Replaced(mid: seq<Part>, b: seq<Part>, v: Part, rest: seq<Part>, plus: bool)
    requires Proper(mid) && Plain(Render(mid)) && Alike(Render(mid), Value(v), plus) && Alike(Read(b), Read(rest), plus)
    ensures Alike(Read(mid + b), Read([v] + rest), plus)
  {
    OneMore(v, rest);
    OnlyChars(mid);
    ReadConcat(mid, b);
    AlikeConcat(Read(mid), Value(v), Read(b), Read(rest), plus);
  }

  lemma Kept(p: Part, b: seq<Part>, rest: seq<Part>, plus: bool)
    requires Alike(Read(b), Read(rest), plus)
    ensures Alike(Read([p] + b), Read([p] + rest), plus)
  {
    OneMore(p, b);
    OneMore(p, rest);
    AlikeSame(Value(p), plus);
    AlikeConcat(Value(p), Value(p), Read(b), Read(rest), plus);
  }

  /** The next cut is where the text is that is left, or behind its first part. */
  lemma FirstPart(s: string, ps: seq<Part>, from: nat, start: nat, word: string)
    requires from <= |s| && s[from..] == Render(ps) && from <= start && Hit(s, word, start)
    requires word != "" && Plain(word) && Safe(ps, word) && Proper(ps)
    ensures ps != [] && (from == start || from + |Text(ps[0])| <= start)
    ensures from + |Text(ps[0])| <= |s| && s[from..from + |Text(ps[0])|] == Text(ps[0])
    ensures s[from + |Text(ps[0])|..] == Render(ps[1..])
  {
    assert |s[from..]| > 0;
    assert ps[0] in ps;
    var t := Text(ps[0]);
    if ps[0].Var? && from < start { Beyond(s, from, t, Render(ps[1..]), start, word); }
    assert s[from..][..|t|] == t && s[from..][|t|..] == Render(ps[1..]);
  }

  ghost predicate Ready(s: string, ps: seq<Part>, from: nat, cuts: seq<nat>, word: string) {
    && from <= |s| && s[from..] == Render(ps) && Hits(s, word, from, cuts)
    && word != "" && Plain(word) && Safe(ps, word) && Proper(ps)
  }

  /** ps with v in place of the n characters at each cut. */
  function Put(ps: seq<Part>, from: nat, cuts: seq<nat>, n: nat, v: Part): seq<Part>
    requires n > 0
    decreases |ps|
  {
    if cuts == [] || ps == [] then ps
    else if cuts[0] == from && n <= |ps| then [v] + Put(ps[n..], from + n, cuts[1..], n, v)
    else [ps[0]] + Put(ps[1..], from + |Text(ps[0])|, cuts, n, v)
  }

  /** At a cut the word is parts of its own, and what is left is ready again. */
  lemma ReadyHere(s: string, ps: seq<Part>, from: nat, cuts: seq<nat>, word: string)
    requires Ready(s, ps, from, cuts, word) && cuts != [] && cuts[0] == from
    ensures |word| <= |ps| && Render(ps[..|word|]) == word && ps == ps[..|word|] + ps[|word|..]
    ensures Proper(ps[..|word|]) && Ready(s, ps[|word|..], from + |word|, cuts[1..], word)
  {
    assert s[from..][..|word|] == s[from..from + |word|];
    Taken(ps, word);
    RenderConcat(ps[..|word|], ps[|word|..]);
    assert ps == ps[..|word|] + ps[|word|..];
    assert s[from..][|word|..] == s[from + |word|..];
  }

  lemma ReadyOn(s: string, ps: seq<Part>, from: nat, cuts: seq<nat>, word: string)
    requires Ready(s, ps, from, cuts, word) && cuts != [] && cuts[0] != from
    ensures ps != [] && ps == [ps[0]] + ps[1..] && from + |Text(ps[0])| <= cuts[0]
    ensures from + |Text(ps[0])| <= |s| && s[from..from + |Text(ps[0])|] == Text(ps[0])
    ensures Ready(s, ps[1..], from + |Text(ps[0])|, cuts, word)
  {
    FirstPart(s, ps, from, cuts[0], word);
  }

  /** Each cut is at a part, and the word is parts of its own there. */
  ghost predicate Fits(ps: seq<Part>, from: nat, cuts: seq<nat>, word: string)
    requires word != ""
    decreases |ps|
  {
    cuts == [] || (ps != [] &&
      if cuts[0] == from
      then |word| <= |ps| && Render(ps[..|word|]) == word && Proper(ps[..|word|]) && Fits(ps[|word|..], from + |word|, cuts[1..], word)
      else from + |Text(ps[0])| <= cuts[0] && Fits(ps[1..], from + |Text(ps[0])|, cuts, word))
  }

  lemma {:induction false} ReadyFits(s: string, ps: seq<Part>, from: nat, cuts: seq<nat>, word: string)
    requires Ready(s, ps, from, cuts, word)
    ensures Fits(ps, from, cuts, word)
    decreases |ps|, 1
  {
    if cuts != [] {
      if cuts[0] == from { FitsHere(s, ps, from, cuts, word); } else { FitsOn(s, ps, from, cuts, word); }
    }
  }

  lemma {:induction false} FitsHere(s: string, ps: seq<Part>, from: nat, cuts: seq<nat>, word: string)
    requires Ready(s, ps, from, cuts, word) && cuts != [] && cuts[0] == from
    ensures Fits(ps, from, cuts, word)
    decreases |ps|, 0
  {
    ReadyHere(s, ps, from, cuts, word);
    ReadyFits(s, ps[|word|..], from + |word|, cuts[1..], word);
  }

  lemma {:induction false} FitsOn(s: string, ps: seq<Part>, from: nat, cuts: seq<nat>, word: string)
    requires Ready(s, ps, from, cuts, word) && cuts != [] && cuts[0] != from
    ensures Fits(ps, from, cuts, word)
    decreases |ps|, 0
  {
    ReadyOn(s, ps, from, cuts, word);
    ReadyFits(s, ps[1..], from + |Text(ps[0])|, cuts, word);
  }

  lemma RestOf(s: string, ps: seq<Part>, from: nat, k: nat)
    requires from <= |s| && s[from..] == Render(ps) && k <= |ps|
    ensures from + |Render(ps[..k])| <= |s| && s[from..from + |Render(ps[..k])|] == Render(ps[..k])
    ensures s[from + |Render(ps[..k])|..] == Render(ps[k..])
  {
    assert ps == ps[..k] + ps[k..];
    RenderConcat(ps[..k], ps[k..]);
    var n := |Render(ps[..k])|;
    assert s[from..][..n] == s[from..from + n] && s[from..][n..] == s[from + n..];
  }

  /** A pass replaces whole text between variables. */
  lemma {:induction false} PutText(s: string, ps: seq<Part>, from: nat, cuts: seq<nat>, word: string, v: Part,
                                   made: string, out: seq<Part>)
    requires from <= |s| && s[from..] == Render(ps) && word != "" && Fits(ps, from, cuts, word)
    requires Marks(|s|, |word|, from, cuts) && made == Build(s, |word|, Text(v), from, cuts)
    requires out == Put(ps, from, cuts, |word|, v)
    ensures made == Render(out)
    decreases |ps|, 1
  {
    if cuts == [] {
      BuildNone(s, |word|, Text(v), from);
      assert out == ps;
    } else if cuts[0] == from {
      PutHere(s, ps, from, cuts, word, v, made, out);
    } else {
      PutOn(s, ps, from, cuts, word, v, made, out);
    }
  }

  lemma {:induction false} PutHere(s: string, ps: seq<Part>, from: nat, cuts: seq<nat>, word: string, v: Part,
                                   made: string, out: seq<Part>)
    requires from <= |s| && s[from..] == Render(ps) && word != "" && Fits(ps, from, cuts, word)
    requires Marks(|s|, |word|, from, cuts) && made == Build(s, |word|, Text(v), from, cuts)
    requires out == Put(ps, from, cuts, |word|, v)
    requires cuts != [] && cuts[0] == from
    ensures made == Render(out)
    decreases |ps|, 0
  {
    FitsCut(ps, from, cuts, word, v);
    RestOf(s, ps, from, |word|);
    var rest := BuildHere(s, |word|, Text(v), from, cuts, made);
    var more := Put(ps[|word|..], from + |word|, cuts[1..], |word|, v);
    PutText(s, ps[|word|..], from + |word|, cuts[1..], word, v, rest, more);
    Behind(v, more, out, rest, made);
  }

  lemma {:induction false} PutOn(s: string, ps: seq<Part>, from: nat, cuts: seq<nat>, word: string, v: Part,
                                 made: string, out: seq<Part>)
    requires from <= |s| && s[from..] == Render(ps) && word != "" && Fits(ps, from, cuts, word)
    requires Marks(|s|, |word|, from, cuts) && made == Build(s, |word|, Text(v), from, cuts)
    requires out == Put(ps, from, cuts, |word|, v)
    requires cuts != [] && cuts[0] != from
    ensures made == Render(out)
    decreases |ps|, 0
  {
    FitsMove(ps, from, cuts, word, v);
    var rest := PutStep(s, ps, from, cuts, |word|, Text(v), made);
    var more := Put(ps[1..], from + |Text(ps[0])|, cuts, |word|, v);
    PutText(s, ps[1..], from + |Text(ps[0])|, cuts, word, v, rest, more);
    Behind(ps[0], more, out, rest, made);
  }

  /** A part that comes before the next cut stays, and the rest of the text is that of the other parts. */
  lemma PutStep(s: string, ps: seq<Part>, from: nat, cuts: seq<nat>, n: nat, sub: string, made: string) returns (rest: string)
    requires from <= |s| && s[from..] == Render(ps) && ps != [] && cuts != [] && from + |Text(ps[0])| <= cuts[0]
    requires Marks(|s|, n, from, cuts) && made == Build(s, n, sub, from, cuts)
    ensures from + |Text(ps[0])| <= |s| && s[from + |Text(ps[0])|..] == Render(ps[1..])
    ensures Marks(|s|, n, from + |Text(ps[0])|, cuts)
    ensures rest == Build(s, n, sub, from + |Text(ps[0])|, cuts) && made == Text(ps[0]) + rest
  {
    FirstText(s, ps, from);
    rest := BuildSkip(s, n, sub, from, cuts, |Text(ps[0])|, made);
  }

  lemma Behind(first: Part, more: seq<Part>, out: seq<Part>, rest: string, made: string)
    requires out == [first] + more && rest == Render(more) && made == Text(first) + rest
    ensures made == Render(out)
  {
    OneMore(first, more);
  }

  lemma FirstText(s: string, ps: seq<Part>, from: nat)
    requires from <= |s| && s[from..] == Render(ps) && ps != []
    ensures from + |Text(ps[0])| <= |s| && s[from..from + |Text(ps[0])|] == Text(ps[0])
    ensures s[from + |Text(ps[0])|..] == Render(ps[1..])
  {
    var t := Text(ps[0]);
    assert s[from..][..|t|] == t && s[from..][|t|..] == Render(ps[1..]);
  }

  /** What the template stands for stays, up to "+". */
  lemma {:induction false} PutReads(ps: seq<Part>, from: nat, cuts: seq<nat>, word: string, v: Part, plus: bool)
    requires word != "" && Fits(ps, from, cuts, word) && Plain(word) && Alike(word, Value(v), plus)
    ensures Alike(Read(ps), Read(Put(ps, from, cuts, |word|, v)), plus)
    decreases |ps|, 1
  {
    if cuts == [] {
      AlikeSame(Read(ps), plus);
    } else if cuts[0] == from {
      ReadsHere(ps, from, cuts, word, v, plus);
    } else {
      ReadsOn(ps, from, cuts, word, v, plus);
    }
  }

  lemma {:induction false} ReadsHere(ps: seq<Part>, from: nat, cuts: seq<nat>, word: string, v: Part, plus: bool)
    requires word != "" && Fits(ps, from, cuts, word) && Plain(word) && Alike(word, Value(v), plus)
    requires cuts != [] && cuts[0] == from
    ensures Alike(Read(ps), Read(Put(ps, from, cuts, |word|, v)), plus)
    decreases |ps|, 0
  {
    FitsCut(ps, from, cuts, word, v);
    var front, back := ps[..|word|], ps[|word|..];
    PutReads(back, from + |word|, cuts[1..], word, v, plus);
    Replaced(front, back, v, Put(back, from + |word|, cuts[1..], |word|, v), plus);
  }

  lemma FitsMove(ps: seq<Part>, from: nat, cuts: seq<nat>, word: string, v: Part)
    requires word != "" && Fits(ps, from, cuts, word) && cuts != [] && cuts[0] != from
    ensures ps != [] && ps == [ps[0]] + ps[1..] && from + |Text(ps[0])| <= cuts[0]
    ensures Fits(ps[1..], from + |Text(ps[0])|, cuts, word)
    ensures Put(ps, from, cuts, |word|, v) == [ps[0]] + Put(ps[1..], from + |Text(ps[0])|, cuts, |word|, v)
  {
  }

  lemma FitsCut(ps: seq<Part>, from: nat, cuts: seq<nat>, word: string, v: Part)
    requires word != "" && Fits(ps, from, cuts, word) && cuts != [] && cuts[0] == from
    ensures |word| <= |ps| && ps == ps[..|word|] + ps[|word|..]
    ensures Render(ps[..|word|]) == word && Proper(ps[..|word|]) && Fits(ps[|word|..], from + |word|, cuts[1..], word)
    ensures Put(ps, from, cuts, |word|, v) == [v] + Put(ps[|word|..], from + |word|, cuts[1..], |word|, v)
  {
  }

  lemma {:induction false} ReadsOn(ps: seq<Part>, from: nat, cuts: seq<nat>, word: string, v: Part, plus: bool)
    requires word != "" && Fits(ps, from, cuts, word) && Plain(word) && Alike(word, Value(v), plus)
    requires cuts != [] && cuts[0] != from
    ensures Alike(Read(ps), Read(Put(ps, from, cuts, |word|, v)), plus)
    decreases |ps|, 0
  {
    FitsMove(ps, from, cuts, word, v);
    PutReads(ps[1..], from + |Text(ps[0])|, cuts, word, v, plus);
    Kept(ps[0], ps[1..], Put(ps[1..], from + |Text(ps[0])|, cuts, |word|, v), plus);
  }

  lemma {:induction false} PutParts(ps: seq<Part>, from: nat, cuts: seq<nat>, n: nat, v: Part)
    requires n > 0
    ensures forall p :: p in Put(ps, from, cuts, n, v) ==> p in ps || p == v
    decreases |ps|
  {
    if cuts != [] && ps != [] {
      if cuts[0] == from && n <= |ps| {
        PutParts(ps[n..], from + n, cuts[1..], n, v);
      } else {
        PutParts(ps[1..], from + |Text(ps[0])|, cuts, n, v);
      }
    }
  }

  // --- the variables that a pass writes and keeps

  lemma {:induction false} VarShows(ps: seq<Part>, x: Part)
    requires Proper(ps) && x in ps && x.Var?
    ensures !Plain(Render(ps))
  {
    var t, rest := Text(ps[0]), Render(ps[1..]);
    if x == ps[0] {
      assert (t + rest)[0] == '{' && IsBrace('{');
    } else {
      VarShows(ps[1..], x);
      var c :| c in rest && IsBrace(c);
      assert c in t + rest;
    }
  }

  lemma {:induction false} PutKeeps(ps: seq<Part>, from: nat, cuts: seq<nat>, word: string, v: Part, x: Part)
    requires word != "" && Fits(ps, from, cuts, word) && Plain(word) && Proper(ps) && x in ps && x.Var?
    ensures x in Put(ps, from, cuts, |word|, v)
    decreases |ps|
  {
    if cuts != [] {
      if cuts[0] == from {
        if x in ps[..|word|] { VarShows(ps[..|word|], x); }
        assert ps == ps[..|word|] + ps[|word|..];
        PutKeeps(ps[|word|..], from + |word|, cuts[1..], word, v, x);
      } else if x != ps[0] {
        PutKeeps(ps[1..], from + |Text(ps[0])|, cuts, word, v, x);
      }
    }
  }

  lemma {:induction false} PutWrites(ps: seq<Part>, from: nat, cuts: seq<nat>, word: string, v: Part)
    requires word != "" && Fits(ps, from, cuts, word) && cuts != []
    ensures v in Put(ps, from, cuts, |word|, v)
    decreases |ps|
  {
    if cuts[0] != from { PutWrites(ps[1..], from + |Text(ps[0])|, cuts, word, v); }
  }

  lemma {:induction false} RenderHas(ps: seq<Part>, x: Part) returns (i: nat)
    requires x in ps
    ensures Matches(Render(ps), Text(x), i)
  {
    var t, rest := Text(ps[0]), Render(ps[1..]);
    if x == ps[0] {
      i := 0;
      assert (t + rest)[..|t|] == t;
    } else {
      var j := RenderHas(ps[1..], x);
      i := |t| + j;
      assert Render(ps) == t + rest;
      MatchBehind(t, rest, Text(x), j);
    }
  }

  lemma MatchBehind(t: string, rest: string, word: string, j: nat)
    requires Matches(rest, word, j)
    ensures Matches(t + rest, word, |t| + j)
  {
    assert (t + rest)[|t| + j..|t| + j + |word|] == rest[j..j + |word|];
  }
}
