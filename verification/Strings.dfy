// Splitting a text at a separator and joining the parts again.
module Strings {
  lemma Regroup(a: string, b: string, c: string)
    ensures a + (b + c) == (a + b) + c
  {
  }

  function Split(s: string, c: char): (r: seq<string>)
    ensures |r| > 0
  {
    if s == [] then [""]
    else if s[0] == c then [""] + Split(s[1..], c)
    else var r := Split(s[1..], c); [[s[0]] + r[0]] + r[1..]
  }

  function Join(parts: seq<string>, c: char): string {
    if parts == [] then ""
    else if |parts| == 1 then parts[0]
    else parts[0] + [c] + Join(parts[1..], c)
  }

  /** A part that the separator does not cut. */
  predicate Whole(part: string, c: char) {
    c !in part
  }

  predicate AllWhole(parts: seq<string>, c: char) {
    forall p :: p in parts ==> Whole(p, c)
  }

  lemma {:induction false} JoinSplit(s: string, c: char)
    ensures Join(Split(s, c), c) == s && AllWhole(Split(s, c), c)
  {
    if s != [] {
      JoinSplit(s[1..], c);
      var r := Split(s[1..], c);
      if s[0] == c {
        assert Split(s, c)[1..] == r;
      } else {
        assert Split(s, c)[1..] == r[1..];
        assert r == [r[0]] + r[1..];
        assert r[0] in r && Whole([s[0]] + r[0], c);
        assert forall p :: p in r[1..] ==> p in r;
      }
    }
  }

  lemma {:induction false} SplitWhole(s: string, c: char)
    requires Whole(s, c)
    ensures Split(s, c) == [s]
  {
    if s != [] {
      assert s[0] in s && [s[0]] + s[1..] == s;
      SplitWhole(s[1..], c);
    }
  }

  lemma FirstJoined(r: seq<string>, q: seq<string>, d: char)
    requires |r| > 0
    ensures [[d] + (r + q)[0]] + (r + q)[1..] == ([[d] + r[0]] + r[1..]) + q
    ensures [""] + (r + q) == ([""] + r) + q
  {
  }

  lemma {:induction false} SplitConcat(s: string, t: string, c: char)
    ensures Split(s + [c] + t, c) == Split(s, c) + Split(t, c)
  {
    var u := s + [c] + t;
    if s == [] {
      assert u[1..] == t;
    } else {
      SplitConcat(s[1..], t, c);
      assert u[1..] == s[1..] + [c] + t;
      FirstJoined(Split(s[1..], c), Split(t, c), s[0]);
    }
  }

  /** The number of parts is the number of separators and one more. */
  lemma {:induction false} SplitJoinLength(parts: seq<string>, c: char)
    requires parts != []
    ensures |Split(Join(parts, c), c)| >= |parts|
    ensures AllWhole(parts, c) ==> Split(Join(parts, c), c) == parts
    ensures !AllWhole(parts, c) ==> |Split(Join(parts, c), c)| > |parts|
  {
    if |parts| == 1 {
      if Whole(parts[0], c) { SplitWhole(parts[0], c); } else { Cut(parts[0], c); }
    } else {
      SplitConcat(parts[0], Join(parts[1..], c), c);
      SplitJoinLength(parts[1..], c);
      assert parts == [parts[0]] + parts[1..];
      if Whole(parts[0], c) { SplitWhole(parts[0], c); } else { Cut(parts[0], c); }
    }
  }

  lemma {:induction false} Cut(s: string, c: char)
    requires !Whole(s, c)
    ensures |Split(s, c)| > 1
  {
    if s[0] != c { Cut(s[1..], c); }
  }
}
