// The tag and the version of a release in its URLs (template in
// internal/infer/infer.go), and what expanding the two variables gives back
// (Expand in internal/manifest/manifest.go).
module Template {
  import opened Strings
  import opened Swaps
  import opened Pluses
  import opened Parts

  const TAG := "{{tag}}"
  const VERSION := "{{version}}"

  function FirstDigit(s: string): (r: nat)
    ensures r <= |s|
    ensures r < |s| ==> IsDigit(s[r])
  {
    if s == "" || IsDigit(s[0]) then 0 else 1 + FirstDigit(s[1..])
  }

  /** The tag from its first digit on, and the whole tag when it has none. */
  function VersionOf(tag: string): string {
    var i := FirstDigit(tag);
    if 0 < i < |tag| then tag[i..] else tag
  }

  function Twice(url: string, word: string, sub: string): string
    requires word != ""
  {
    Swapped(Swapped(url, word, sub), Escaped(word), sub)
  }

  /** The template of a URL. Expanding it gives the URL back, but for three tags. */
  method Fill(url: string, tag: string, version: string) returns (r: string)
    requires tag != "" && version != ""
    ensures r == Templated(url, tag, version)
    ensures Plain(url) && Plain(tag) && version == VersionOf(tag) ==>
      (Alike(url, Expand(r, tag, version), '+' in tag) <==> !(Clashes(tag) && Occurs(url, tag)))
  {
    if Plain(url) && Plain(tag) { RoundTrip(url, tag); }
    r := Swap(url, tag, TAG);
    r := Swap(r, Escaped(tag), TAG);
    if version != tag {
      r := Swap(r, version, VERSION);
      r := Swap(r, Escaped(version), VERSION);
    }
  }

  function Templated(url: string, tag: string, version: string): string
    requires tag != "" && version != ""
  {
    var r := Twice(url, tag, TAG);
    if version == tag then r else Twice(r, version, VERSION)
  }

  // --- expanding the variables again

  predicate StartsWith(s: string, p: string) {
    |p| <= |s| && s[..|p|] == p
  }

  /** Each whole variable gives its value, left to right, and the rest stays. */
  function Expand(s: string, tag: string, version: string): string
    decreases |s|
  {
    if s == "" then ""
    else if StartsWith(s, TAG) then tag + Expand(s[|TAG|..], tag, version)
    else if StartsWith(s, VERSION) then version + Expand(s[|VERSION|..], tag, version)
    else [s[0]] + Expand(s[1..], tag, version)
  }

  /** The template of a URL, expanded for the same release. */
  function Back(url: string, tag: string): string
    requires tag != ""
  {
    Expand(Templated(url, tag, VersionOf(tag)), tag, VersionOf(tag))
  }

  // --- the two variables as parts

  /** The parts of a template that template makes: characters and the two variables. */
  predicate Known(ps: seq<Part>, tag: string, version: string) {
    Proper(ps) && forall p :: p in ps && p.Var? ==> p == Var(TAG, tag) || p == Var(VERSION, version)
  }

  lemma ExpandOne(p: Part, rest: string, tag: string, version: string)
    requires Known([p], tag, version)
    ensures Expand(Text(p) + rest, tag, version) == Value(p) + Expand(rest, tag, version)
  {
    var s, t := Text(p) + rest, Text(p);
    assert p in [p];
    assert s[..|t|] == t && s[|t|..] == rest;
    assert TAG[2] == 't' && VERSION[2] == 'v';
    assert StartsWith(s, TAG) ==> s[0] == TAG[0] && s[2] == TAG[2];
    assert StartsWith(s, VERSION) ==> s[0] == VERSION[0];
    if p.Var? { assert s[2] == t[2]; }
  }

  /** Whole variables give their values, and other text without braces stays. */
  lemma {:induction false} ExpandRender(ps: seq<Part>, tag: string, version: string)
    requires Known(ps, tag, version)
    ensures Expand(Render(ps), tag, version) == Read(ps)
  {
    if ps != [] {
      assert ps[0] in ps;
      ExpandOne(ps[0], Render(ps[1..]), tag, version);
      ExpandRender(ps[1..], tag, version);
    }
  }

  /** The tags that swap finds in the variable it wrote itself. */
  predicate Clashes(tag: string) {
    tag == "t" || tag == "ta" || tag == "tag"
  }

  lemma TagNames()
    ensures TAG[2..3] == "t" && TAG[2..4] == "ta" && TAG[2..5] == "tag"
  {
    assert TAG == ['{', '{', 't', 'a', 'g', '}', '}'];
    assert "t" == ['t'] && "ta" == ['t', 'a'] && "tag" == ['t', 'a', 'g'];
  }

  lemma TagGuarded(word: string)
    requires word != "" && Plain(word) && !Clashes(word)
    ensures Guarded(TAG, word)
  {
    forall d: nat | 0 < d && d + |word| < |TAG| && Matches(TAG, word, d) ensures StaysAway(TAG, word, d) { InTag(word, d); }
  }

  lemma InTag(word: string, d: nat)
    requires word != "" && Plain(word) && !Clashes(word)
    requires 0 < d && d + |word| < |TAG| && TAG[d..d + |word|] == word
    ensures StaysAway(TAG, word, d)
  {
    var last := |word| - 1;
    assert word[0] in word && word[0] == TAG[d];
    assert word[last] in word && word[last] == TAG[d + last];
    TagNames();
    assert word == TAG[d..d + |word|];
    assert d != 2;
    assert forall c :: c in word ==> c in TAG;
  }

  lemma DigitGuarded(word: string)
    requires word != "" && IsDigit(word[0])
    ensures Guarded(TAG, word) && Guarded(VERSION, word)
  {
    forall d: nat | d + |word| < |TAG| ensures !Matches(TAG, word, d) { NotDigit(TAG, word, d); }
    forall d: nat | d + |word| < |VERSION| ensures !Matches(VERSION, word, d) { NotDigit(VERSION, word, d); }
  }

  lemma NotDigit(text: string, word: string, d: nat)
    requires text == TAG || text == VERSION
    requires word != "" && IsDigit(word[0]) && d + |word| < |text|
    ensures !Matches(text, word, d)
  {
    assert text[d..d + |word|][0] == text[d] && !IsDigit(text[d]);
  }

  // --- the passes

  function Passed(ps: seq<Part>, word: string, v: Part): seq<Part>
    requires word != ""
  {
    Put(ps, 0, Cuts(Render(ps), word, 0), |word|, v)
  }

  lemma PassFits(ps: seq<Part>, word: string)
    requires word != "" && Plain(word) && Safe(ps, word) && Proper(ps)
    ensures Fits(ps, 0, Cuts(Render(ps), word, 0), word)
  {
    var s := Render(ps);
    CutsHit(s, word, 0, 0);
    assert s[0..] == s;
    ReadyFits(s, ps, 0, Cuts(s, word, 0), word);
  }

  lemma PassText(ps: seq<Part>, word: string, v: Part)
    requires word != "" && Fits(ps, 0, Cuts(Render(ps), word, 0), word)
    ensures Swapped(Render(ps), word, Text(v)) == Render(Passed(ps, word, v))
  {
    var s, cuts := Render(ps), Cuts(Render(ps), word, 0);
    SwappedText(s, word, Text(v));
    assert s[0..] == s;
    PutText(s, ps, 0, cuts, word, v, Swapped(s, word, Text(v)), Passed(ps, word, v));
  }

  /** One pass reads back as what it was given, and leaves no braces but those of variables. */
  lemma PassKeeps(ps: seq<Part>, word: string, v: Part, plus: bool)
    requires word != "" && Plain(word) && Safe(ps, word) && Proper(ps) && Alike(word, Value(v), plus)
    ensures Swapped(Render(ps), word, Text(v)) == Render(Passed(ps, word, v))
    ensures Alike(Read(ps), Read(Passed(ps, word, v)), plus)
    ensures forall p :: p in Passed(ps, word, v) ==> p in ps || p == v
  {
    PassFits(ps, word);
    PassText(ps, word, v);
    PutReads(ps, 0, Cuts(Render(ps), word, 0), word, v, plus);
    PutParts(ps, 0, Cuts(Render(ps), word, 0), |word|, v);
  }

  /** A pass keeps the variables that are there, and writes its own when it cuts anything. */
  lemma PassWrites(ps: seq<Part>, word: string, v: Part)
    requires word != "" && Plain(word) && Safe(ps, word) && Proper(ps)
    ensures forall x :: x in ps && x.Var? ==> x in Passed(ps, word, v)
    ensures Cuts(Render(ps), word, 0) != [] ==> v in Passed(ps, word, v)
  {
    var cuts := Cuts(Render(ps), word, 0);
    PassFits(ps, word);
    forall x | x in ps && x.Var? ensures x in Passed(ps, word, v) { PutKeeps(ps, 0, cuts, word, v, x); }
    if cuts != [] { PutWrites(ps, 0, cuts, word, v); }
  }

  /** Both passes of one word. */
  lemma TwiceKeeps(ps: seq<Part>, word: string, v: Part, plus: bool) returns (out: seq<Part>)
    requires word != "" && Plain(word) && Proper(ps) && Proper([v]) && word == Value(v) && ('+' in word ==> plus)
    requires Safe(ps, word) && Safe(ps, Escaped(word)) && Safe([v], Escaped(word))
    ensures Twice(Render(ps), word, Text(v)) == Render(out) && Alike(Read(ps), Read(out), plus)
    ensures forall p :: p in out ==> p in ps || p == v
    ensures v.Var? ==> forall x :: x in ps && x.Var? ==> x in out
    ensures v.Var? && Cuts(Render(ps), word, 0) != [] ==> v in out
  {
    AlikeSame(word, plus);
    AlikeEscaped(word, plus);
    EscapedPlain(word);
    var once := Passed(ps, word, v);
    PassKeeps(ps, word, v, plus);
    assert v in [v];
    out := Passed(once, Escaped(word), v);
    PassKeeps(once, Escaped(word), v, plus);
    PassWrites(ps, word, v);
    PassWrites(once, Escaped(word), v);
    AlikeChain(Read(ps), Read(once), Read(out), plus);
  }

  lemma {:induction false} CharsPlain(s: string)
    requires Plain(s)
    ensures Proper(Chars(s)) && forall p :: p in Chars(s) ==> p.Char?
  {
    assert forall i :: 0 <= i < |s| ==> s[i] in s;
  }

  lemma TagPasses(url: string, tag: string) returns (out: seq<Part>)
    requires Plain(url) && Plain(tag) && tag != "" && !Clashes(tag)
    ensures Twice(url, tag, TAG) == Render(out) && Alike(url, Read(out), '+' in tag)
    ensures Proper(out) && forall p :: p in out && p.Var? ==> p == Var(TAG, tag)
    ensures Cuts(url, tag, 0) != [] ==> Var(TAG, tag) in out
  {
    var v := Var(TAG, tag);
    CharsRender(url);
    CharsPlain(url);
    EscapedPlain(tag);
    TagGuarded(Escaped(tag));
    assert v in [v] && Proper([v]) && Safe([v], Escaped(tag));
    out := TwiceKeeps(Chars(url), tag, v, '+' in tag);
  }

  lemma VersionPasses(ps: seq<Part>, tag: string) returns (out: seq<Part>)
    requires Plain(tag) && VersionOf(tag) != tag && Proper(ps) && forall p :: p in ps && p.Var? ==> p == Var(TAG, tag)
    ensures Twice(Render(ps), VersionOf(tag), VERSION) == Render(out) && Known(out, tag, VersionOf(tag))
    ensures Alike(Read(ps), Read(out), '+' in tag)
    ensures forall x :: x in ps && x.Var? ==> x in out
    ensures Cuts(Render(ps), VersionOf(tag), 0) != [] ==> Var(VERSION, VersionOf(tag)) in out
  {
    var version := VersionOf(tag);
    var v := Var(VERSION, version);
    assert version[0] != '+' && IsDigit(version[0]) && Escaped(version)[0] == version[0];
    assert forall c :: c in version ==> c in tag;
    DigitGuarded(version);
    DigitGuarded(Escaped(version));
    assert v in [v] && Proper([v]) && Safe([v], Escaped(version));
    out := TwiceKeeps(ps, version, v, '+' in tag);
  }

  /** Where the tag is not one of the three, expanding the template gives the URL back. */
  lemma Returns(url: string, tag: string)
    requires Plain(url) && Plain(tag) && tag != "" && !Clashes(tag)
    ensures Alike(url, Back(url, tag), '+' in tag)
  {
    var version := VersionOf(tag);
    var out := TagPasses(url, tag);
    if version != tag {
      var last := VersionPasses(out, tag);
      AlikeChain(url, Read(out), Read(last), '+' in tag);
      out := last;
    }
    ExpandRender(out, tag, version);
  }

  ghost predicate Has(s: string, word: string) {
    exists i :: Matches(s, word, i)
  }

  lemma PartsHave(ps: seq<Part>, x: Part)
    requires x in ps
    ensures Has(Render(ps), Text(x))
  {
    var i := RenderHas(ps, x);
  }

  /**
   * The tag is written as a variable when a pass cuts it anywhere, and so is a version
   * that is not the whole tag, in what the passes for the tag leave.
   */
  lemma Writes(url: string, tag: string)
    requires Plain(url) && Plain(tag) && tag != "" && !Clashes(tag)
    ensures var version := VersionOf(tag);
      && (Cuts(url, tag, 0) != [] ==> Has(Templated(url, tag, version), TAG))
      && (version != tag && Cuts(Twice(url, tag, TAG), version, 0) != [] ==> Has(Templated(url, tag, version), VERSION))
  {
    var version := VersionOf(tag);
    var out := TagPasses(url, tag);
    if version == tag {
      if Cuts(url, tag, 0) != [] { PartsHave(out, Var(TAG, tag)); }
    } else {
      var last := VersionPasses(out, tag);
      if Cuts(url, tag, 0) != [] { PartsHave(last, Var(TAG, tag)); }
      if Cuts(Render(out), version, 0) != [] { PartsHave(last, Var(VERSION, version)); }
    }
  }

  /** The version is the tag without what comes before its first digit, or the whole tag where that leaves nothing or all. */
  lemma VersionIs(tag: string)
    ensures var version := VersionOf(tag);
      && |version| <= |tag| && tag[|tag| - |version|..] == version
      && (version != tag ==> '0' <= version[0] <= '9' && forall i :: 0 <= i < |tag| - |version| ==> !('0' <= tag[i] <= '9'))
      && (version == tag ==> (tag != "" && '0' <= tag[0] <= '9') || forall i :: 0 <= i < |tag| ==> !('0' <= tag[i] <= '9'))
  {
    NoDigitBefore(tag);
  }

  lemma {:induction false} NoDigitBefore(s: string)
    ensures forall i :: 0 <= i < FirstDigit(s) ==> !('0' <= s[i] <= '9')
  {
    if s != "" && !IsDigit(s[0]) { NoDigitBefore(s[1..]); }
  }

  /** The three tags have no version of their own and no "+". */
  lemma ClashTemplate(url: string, tag: string)
    requires Clashes(tag)
    ensures VersionOf(tag) == tag && Plain(tag)
    ensures Templated(url, tag, tag) == Swapped(Swapped(url, tag, TAG), tag, TAG)
  {
    assert tag[0] == 't';
    assert |tag| > 1 ==> tag[1] == 'a';
    assert |tag| > 2 ==> tag[2] == 'g';
    assert FirstDigit(tag[1..]) == |tag| - 1;
    EscapedPlain(tag);
  }

  /** A tag that no pass replaces leaves the URL as it is. */
  lemma Untouched(url: string, tag: string)
    requires Plain(url) && Clashes(tag) && !Occurs(url, tag)
    ensures Back(url, tag) == url
  {
    ClashTemplate(url, tag);
    CutsHit(url, tag, 0, 0);
    assert Cuts(url, tag, 0) == [];
    CharsRender(url);
    CharsPlain(url);
    ExpandRender(Chars(url), tag, VersionOf(tag));
  }

  const FOUR := "{{{{"

  lemma Beyond(s: string, i: nat, n: nat)
    requires n <= i && Matches(s, FOUR, i)
    ensures Matches(s[n..], FOUR, i - n)
  {
    assert s[n..][i - n..i - n + 4] == s[i..i + 4];
  }

  lemma Clear(s: string, i: nat, p: string)
    requires Matches(s, FOUR, i) && StartsWith(s, p) && |p| > 2
    requires p[0] == '{' && p[1] == '{' && forall k :: 2 <= k < |p| ==> p[k] != '{'
    ensures |p| <= i
  {
    assert s[i] == FOUR[0] && s[i + 1] == FOUR[1] && s[i + 2] == FOUR[2];
    assert forall k :: 0 <= k < |p| ==> s[k] == p[k];
  }

  /** The first two of four braces are no part of a variable. */
  lemma {:induction false} FourBraces(s: string, i: nat, tag: string, version: string)
    requires Matches(s, FOUR, i)
    ensures '{' in Expand(s, tag, version)
    decreases |s|
  {
    if StartsWith(s, TAG) {
      Clear(s, i, TAG);
      Beyond(s, i, |TAG|);
      FourBraces(s[|TAG|..], i - |TAG|, tag, version);
    } else if StartsWith(s, VERSION) {
      Clear(s, i, VERSION);
      Beyond(s, i, |VERSION|);
      FourBraces(s[|VERSION|..], i - |VERSION|, tag, version);
    } else if i > 0 {
      Beyond(s, i, 1);
      FourBraces(s[1..], i - 1, tag, version);
    } else {
      assert s[0] == FOUR[0];
    }
  }

  lemma LastPlain(s: string, word: string, start: nat)
    requires Matches(s, word, start) && word != "" && Plain(word)
    ensures !IsBrace(s[start + |word| - 1])
  {
    assert s[start + |word| - 1] == s[start..start + |word|][|word| - 1] == word[|word| - 1];
    assert word[|word| - 1] in word;
  }

  lemma FourThere(head: string, rest: string, i: nat)
    requires Matches(rest, FOUR, i)
    ensures Matches(head + rest, FOUR, |head| + i)
  {
    assert (head + rest)[|head| + i..|head| + i + 4] == rest[i..i + 4];
  }

  lemma FourHere(head: string, rest: string)
    requires |head| >= 2 && head[|head| - 2] == '{' && head[|head| - 1] == '{'
    ensures Matches(head + TAG + rest, FOUR, |head| - 2)
  {
    var r := head + TAG + rest;
    assert TAG[0] == '{' && TAG[1] == '{';
    assert r[|head|] == TAG[0] && r[|head| + 1] == TAG[1];
  }

  lemma {:induction false} InRest(s: string, word: string, from: nat, cuts: seq<nat>, q: nat)
    requires Hits(s, word, from, cuts) && q in cuts
    ensures from <= q && Hit(s, word, q)
    decreases |cuts|
  {
    if cuts[0] != q { InRest(s, word, cuts[0] + |word|, cuts[1..], q); }
  }

  /** A cut right after two braces puts four of them next to each other. */
  lemma {:induction false} BuildFour(s: string, word: string, from: nat, cuts: seq<nat>, q: nat, made: string) returns (i: nat)
    requires from <= |s| && Hits(s, word, from, cuts) && q in cuts && word != "" && Plain(word)
    requires from + 2 <= q <= |s| && s[q - 2] == '{' && s[q - 1] == '{'
    requires Marks(|s|, |word|, from, cuts) && made == Build(s, |word|, TAG, from, cuts)
    ensures Matches(made, FOUR, i)
    decreases |cuts|
  {
    var start, end := cuts[0], cuts[0] + |word|;
    var rest := Build(s, |word|, TAG, end, cuts[1..]);
    if start == q {
      i := q - 2 - from;
      FourHere(s[from..q], rest);
    } else {
      InRest(s, word, end, cuts[1..], q);
      LastPlain(s, word, start);
      i := BuildFour(s, word, end, cuts[1..], q, rest);
      FourThere(s[from..start] + TAG, rest, i);
      i := |s[from..start] + TAG| + i;
    }
  }

  /** The second pass finds one of the three tags in the variable that the first pass wrote. */
  lemma WrittenHit(x: string, y: string, tag: string)
    requires Clashes(tag)
    ensures tag != "" && Plain(tag)
    ensures Hit(x + TAG + y, tag, |x| + 2) && (x + TAG + y)[|x|] == '{' && (x + TAG + y)[|x| + 1] == '{'
    ensures forall i :: 0 < i < |tag| ==> tag[i] != tag[0]
  {
    var s := x + TAG + y;
    assert TAG[1] == '{' && TAG[3] == 'a' && TAG[4] == 'g' && TAG[5] == '}';
    assert forall k :: 0 <= k < 7 ==> s[|x| + k] == TAG[k];
    Slice(x, TAG, y, 2, 2 + |tag|);
    Regroup(x, TAG, y);
    TagNames();
  }

  lemma FirstPass(url: string, tag: string, start: nat) returns (x: string, y: string)
    requires Clashes(tag) && Hit(url, tag, start)
    ensures Swapped(url, tag, TAG) == x + TAG + y
  {
    WrittenHit("", "", tag);
    AllCut(url, tag, 0, start);
    CutsMark(url, tag, 0, 0);
    var cuts := Cuts(url, tag, 0);
    x, y := url[0..cuts[0]], Build(url, |tag|, TAG, cuts[0] + |tag|, cuts[1..]);
  }

  lemma FourAfter(s: string, tag: string, q: nat) returns (i: nat)
    requires tag != "" && Plain(tag) && Hit(s, tag, q) && q >= 2 && s[q - 2] == '{' && s[q - 1] == '{'
    requires forall i :: 0 < i < |tag| ==> tag[i] != tag[0]
    ensures Matches(Swapped(s, tag, TAG), FOUR, i)
  {
    AllCut(s, tag, 0, q);
    CutsHit(s, tag, 0, 0);
    SwappedText(s, tag, TAG);
    i := BuildFour(s, tag, 0, Cuts(s, tag, 0), q, Swapped(s, tag, TAG));
  }

  lemma SecondPass(x: string, y: string, tag: string) returns (i: nat)
    requires Clashes(tag)
    ensures Matches(Swapped(x + TAG + y, tag, TAG), FOUR, i)
  {
    WrittenHit(x, y, tag);
    i := FourAfter(x + TAG + y, tag, |x| + 2);
  }

  lemma Broken(url: string, tag: string, start: nat)
    requires Plain(url) && Clashes(tag) && Hit(url, tag, start)
    ensures '{' in Back(url, tag)
  {
    ClashTemplate(url, tag);
    var x, y := FirstPass(url, tag, start);
    var i := SecondPass(x, y, tag);
    FourBraces(Swapped(x + TAG + y, tag, TAG), i, tag, tag);
  }

  lemma NotAlike(url: string, back: string)
    requires Plain(url) && '{' in back
    ensures !Alike(url, back, false)
  {
    if Alike(url, back, false) { AlikeEqual(url, back); }
  }

  lemma OtherBack(url: string, tag: string)
    requires Plain(url) && Plain(tag) && tag != "" && !Clashes(tag)
    ensures Alike(url, Back(url, tag), '+' in tag) <==> !(Clashes(tag) && Occurs(url, tag))
  {
    Returns(url, tag);
  }

  lemma ClashBack(url: string, tag: string)
    requires Plain(url) && Clashes(tag)
    ensures Alike(url, Back(url, tag), '+' in tag) <==> !(Clashes(tag) && Occurs(url, tag))
  {
    assert '+' !in tag;
    if Occurs(url, tag) {
      var start :| Hit(url, tag, start);
      Broken(url, tag, start);
      NotAlike(url, Back(url, tag));
    } else {
      Untouched(url, tag);
      AlikeSame(url, false);
    }
  }

  /** The URL comes back for every tag but the three, and for those where the URL does not have the tag. */
  lemma RoundTrip(url: string, tag: string)
    requires Plain(url) && Plain(tag) && tag != ""
    ensures Alike(url, Back(url, tag), '+' in tag) <==> !(Clashes(tag) && Occurs(url, tag))
  {
    if Clashes(tag) { ClashBack(url, tag); } else { OtherBack(url, tag); }
  }

  /** Without "+" in the tag, the URL comes back unchanged. */
  lemma RoundTripSame(url: string, tag: string)
    requires Plain(url) && Plain(tag) && tag != "" && '+' !in tag
    ensures Back(url, tag) == url <==> !(Clashes(tag) && Occurs(url, tag))
  {
    var back := Back(url, tag);
    RoundTrip(url, tag);
    if Alike(url, back, false) { AlikeEqual(url, back); }
    AlikeSame(url, false);
  }

  /** An input that does not come back. */
  lemma TagOfT()
    ensures Back("x/t", "t") != "x/t"
  {
    assert Plain("x/t") && Plain("t");
    assert "x/t"[2..3] == "t" && Hit("x/t", "t", 2) && Occurs("x/t", "t");
    RoundTripSame("x/t", "t");
  }
}
