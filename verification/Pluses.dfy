// Texts that are the same but for "+" and its form in a URL, "%2B".
module Pluses {
  import opened Swaps

  /** "+" as GitHub writes it in a URL. */
  function Escaped(s: string): (r: string)
    ensures s != "" ==> r != ""
  {
    if s == "" then "" else (if s[0] == '+' then "%2B" else [s[0]]) + Escaped(s[1..])
  }

  /** b is a, up to some "%2B" read as "+"; exactly a when plus is false. */
  predicate Alike(a: string, b: string, plus: bool)
    decreases |a|
  {
    || (a == "" && b == "")
    || (a != "" && b != "" && a[0] == b[0] && Alike(a[1..], b[1..], plus))
    || (plus && |a| >= 3 && a[..3] == "%2B" && b != "" && b[0] == '+' && Alike(a[3..], b[1..], plus))
  }

  lemma {:induction false} AlikeSame(a: string, plus: bool)
    ensures Alike(a, a, plus)
  {
    if a != "" { AlikeSame(a[1..], plus); }
  }

  lemma {:induction false} AlikeEqual(a: string, b: string)
    requires Alike(a, b, false)
    ensures a == b
  {
    if a != "" {
      AlikeEqual(a[1..], b[1..]);
      assert a == [a[0]] + a[1..] && b == [b[0]] + b[1..];
    }
  }

  lemma {:induction false} AlikeConcat(a: string, b: string, c: string, d: string, plus: bool)
    requires Alike(a, b, plus) && Alike(c, d, plus)
    ensures Alike(a + c, b + d, plus)
    decreases |a|
  {
    if a == "" {
      assert a + c == c && b + d == d;
    } else {
      assert (b + d)[1..] == b[1..] + d && (a + c)[1..] == a[1..] + c;
      if a[0] == b[0] && Alike(a[1..], b[1..], plus) {
        AlikeConcat(a[1..], b[1..], c, d, plus);
      } else {
        AlikeConcat(a[3..], b[1..], c, d, plus);
        assert (a + c)[3..] == a[3..] + c && (a + c)[..3] == a[..3];
      }
    }
  }

  lemma Kept(a: string, b: string, plus: bool)
    requires Alike(a, b, plus) && |b| >= 3 && b[..3] == "%2B"
    ensures |a| >= 3 && a[..3] == "%2B" && Alike(a[3..], b[3..], plus)
  {
    assert b[0] == b[..3][0] && b[1] == b[..3][1] && b[2] == b[..3][2];
    KeptOne(a, b, plus);
    KeptOne(a[1..], b[1..], plus);
    assert a[1..][1..] == a[2..] && b[1..][1..] == b[2..];
    KeptOne(a[2..], b[2..], plus);
    assert a[2..][1..] == a[3..] && b[2..][1..] == b[3..];
  }

  lemma KeptOne(a: string, b: string, plus: bool)
    requires Alike(a, b, plus) && b != "" && b[0] != '+'
    ensures a != "" && a[0] == b[0] && Alike(a[1..], b[1..], plus)
  {
  }

  lemma {:induction false} AlikeChain(a: string, b: string, c: string, plus: bool)
    requires Alike(a, b, plus) && Alike(b, c, plus)
    ensures Alike(a, c, plus)
    decreases |a|
  {
    if a != "" {
      if a[0] == b[0] && Alike(a[1..], b[1..], plus) {
        if b[0] == c[0] && Alike(b[1..], c[1..], plus) {
          AlikeChain(a[1..], b[1..], c[1..], plus);
        } else {
          Kept(a, b, plus);
          AlikeChain(a[3..], b[3..], c[1..], plus);
        }
      } else {
        AlikeChain(a[3..], b[1..], c[1..], plus);
      }
    }
  }

  lemma {:induction false} AlikeEscaped(s: string, plus: bool)
    requires '+' in s ==> plus
    ensures Alike(Escaped(s), s, plus)
  {
    if s != "" {
      AlikeEscaped(s[1..], plus);
      assert Escaped(s)[|Escaped(s)| - |Escaped(s[1..])|..] == Escaped(s[1..]);
      if s[0] == '+' {
        assert Escaped(s)[3..] == Escaped(s[1..]) && Escaped(s)[..3] == "%2B";
      } else {
        assert Escaped(s)[1..] == Escaped(s[1..]);
      }
    }
  }

  lemma {:induction false} EscapedPlain(s: string)
    requires Plain(s)
    ensures Plain(Escaped(s)) && '+' !in Escaped(s)
    ensures '+' !in s ==> Escaped(s) == s
    ensures '+' in s ==> '%' in Escaped(s)
  {
    if s != "" {
      assert s == [s[0]] + s[1..];
      EscapedPlain(s[1..]);
    }
  }
}
