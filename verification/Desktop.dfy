// The Exec value of a desktop entry (oneLine and desktopArg in
// internal/expose/expose.go), and how the Desktop Entry Specification reads it:
// the escapes of a string value, then the quotes of an argument, then %%.
module Desktop {
  import opened Basics
  import opened Strings

  const RESERVED := " \t\"'\\><~|&;$*?#()`"

  predicate Reserved(c: char) {
    c in RESERVED
  }

  /** s with each character as f writes it. */
  function Each(s: string, f: char -> string): string {
    if s == "" then "" else f(s[0]) + Each(s[1..], f)
  }

  function OnLine(c: char): string {
    if c == '\n' || c == '\r' then " " else [c]
  }

  function Percent(c: char): string {
    if c == '%' then "%%" else [c]
  }

  /** The characters that a quoted argument escapes. */
  predicate Special(c: char) {
    c == '\\' || c == '"' || c == '`' || c == '$'
  }

  function InQuotes(c: char): string {
    if Special(c) then ['\\', c] else [c]
  }

  function Slashes(c: char): string {
    if c == '\\' then "\\\\" else [c]
  }

  function OneLine(s: string): string {
    Each(s, OnLine)
  }

  function Arg(path: string): string {
    var p := Each(OneLine(path), Percent);
    if exists c :: c in p && Reserved(c) then "\"" + Each(Each(p, InQuotes), Slashes) + "\"" else p
  }

  // --- the reader, by the Exec key of the Desktop Entry Specification

  /** The characters that the specification reserves. */
  predicate MustQuote(c: char) {
    || c == ' ' || c == '\t' || c == '\n' || c == '"' || c == '\'' || c == '\\' || c == '>' || c == '<' || c == '~'
    || c == '|' || c == '&' || c == ';' || c == '$' || c == '*' || c == '?' || c == '#' || c == '(' || c == ')' || c == '`'
  }

  /** Those that a quoted argument has to escape. */
  predicate MustEscape(c: char) {
    c == '"' || c == '`' || c == '$' || c == '\\'
  }

  /** The escapes of a string value; of them only \\ is written here. */
  function Unescape(s: string): Option<string> {
    if s == "" then Some("")
    else if s[0] != '\\' then Then([s[0]], Unescape(s[1..]))
    else if |s| > 1 && s[1] == '\\' then Then("\\", Unescape(s[2..]))
    else None
  }

  function Then(head: string, rest: Option<string>): Option<string> {
    if rest.None? then None else Some(head + rest.value)
  }

  /** A quoted argument from behind its first quote to its last one. */
  function Unquote(s: string): Option<string> {
    if s == "" then None
    else if s == "\"" then Some("")
    else if s[0] != '\\' then (if MustEscape(s[0]) then None else Then([s[0]], Unquote(s[1..])))
    else if |s| > 1 && MustEscape(s[1]) then Then([s[1]], Unquote(s[2..]))
    else None
  }

  /** The one argument that s is. Outside quotes no reserved character may stand. */
  function Argument(s: string): Option<string> {
    if s != "" && s[0] == '"' then Unquote(s[1..])
    else if s == "" || exists c :: c in s && MustQuote(c) then None
    else Some(s)
  }

  /** %% is a percent sign, and every other code names something else. */
  function Codes(s: string): Option<string> {
    if s == "" then Some("")
    else if s[0] != '%' then Then([s[0]], Codes(s[1..]))
    else if |s| > 1 && s[1] == '%' then Then("%", Codes(s[2..]))
    else None
  }

  function And(s: Option<string>, f: string -> Option<string>): Option<string> {
    if s.None? then None else f(s.value)
  }

  function Parse(value: string): Option<string> {
    And(And(Unescape(value), Argument), Codes)
  }

  // --- the round trip

  lemma ReservedIs(c: char)
    ensures MustQuote(c) <==> Reserved(c) || c == '\n'
  {
    assert RESERVED == [' ', '\t', '"', '\'', '\\', '>', '<', '~', '|', '&', ';', '$', '*', '?', '#', '(', ')', '`'];
  }

  lemma {:induction false} CodesPercent(s: string)
    ensures Codes(Each(s, Percent)) == Some(s)
  {
    if s != "" {
      var rest := Each(s[1..], Percent);
      CodesPercent(s[1..]);
      assert s == [s[0]] + s[1..];
      if s[0] == '%' { assert ("%%" + rest)[2..] == rest; } else { assert ([s[0]] + rest)[1..] == rest; }
    }
  }

  lemma UnescapeOne(c: char, rest: string)
    ensures Unescape(Slashes(c) + rest) == Then([c], Unescape(rest))
  {
    if c == '\\' { assert (Slashes(c) + rest)[2..] == rest; } else { assert (Slashes(c) + rest)[1..] == rest; }
  }

  lemma {:induction false} UnescapeSlashes(s: string, t: string, u: string)
    requires Unescape(t) == Some(u)
    ensures Unescape(Each(s, Slashes) + t) == Some(s + u)
  {
    if s == "" {
      assert Each(s, Slashes) + t == t && s + u == u;
    } else {
      UnescapeSlashes(s[1..], t, u);
      UnescapeOne(s[0], Each(s[1..], Slashes) + t);
      Regroup(Slashes(s[0]), Each(s[1..], Slashes), t);
      Regroup([s[0]], s[1..], u);
      assert s == [s[0]] + s[1..];
    }
  }

  lemma {:induction false} UnquoteQuoted(s: string)
    ensures Unquote(Each(s, InQuotes) + "\"") == Some(s)
  {
    if s == "" {
      assert Each(s, InQuotes) + "\"" == "\"";
    } else {
      var rest := Each(s[1..], InQuotes);
      UnquoteQuoted(s[1..]);
      assert s == [s[0]] + s[1..];
      if Special(s[0]) {
        assert ((['\\', s[0]] + rest) + "\"")[2..] == rest + "\"";
      } else {
        assert (([s[0]] + rest) + "\"")[1..] == rest + "\"";
        assert ([s[0]] + rest) + "\"" != "\"";
      }
    }
  }

  lemma {:induction false} NoSlash(s: string)
    requires '\\' !in s
    ensures Unescape(s) == Some(s)
  {
    if s != "" {
      NoSlash(s[1..]);
      assert s == [s[0]] + s[1..];
    }
  }

  lemma UnescapeQuoted(q: string)
    ensures Unescape("\"" + Each(q, Slashes) + "\"") == Some("\"" + (q + "\""))
  {
    NoSlash("\"");
    UnescapeSlashes(q, "\"", "\"");
    var v := "\"" + Each(q, Slashes) + "\"";
    assert v[1..] == Each(q, Slashes) + "\"";
  }

  /** A path that is not empty is read back as one argument, with its line breaks as spaces. */
  lemma ArgRead(path: string)
    requires path != ""
    ensures Parse(Arg(path)) == Some(OneLine(path))
  {
    var p := Each(OneLine(path), Percent);
    CodesPercent(OneLine(path));
    if exists c :: c in p && Reserved(c) {
      var q := Each(p, InQuotes);
      UnescapeQuoted(q);
      UnquoteQuoted(p);
      assert ("\"" + (q + "\""))[1..] == q + "\"";
      assert Argument("\"" + (q + "\"")) == Some(p);
    } else {
      OnOneLine(path);
      EachKeeps(OneLine(path), Percent, '\n');
      forall c | c in p ensures !MustQuote(c) { ReservedIs(c); }
      assert MustQuote('\\') && MustQuote('"');
      NoSlash(p);
      assert p != "" && p[0] in p;
    }
  }

  /** A path without reserved characters and percent signs is written as it is. */
  lemma ArgBare(path: string)
    requires '%' !in path && forall c :: c in path ==> !MustQuote(c) && c != '\r'
    ensures Arg(path) == path
  {
    EachSame(path, OnLine);
    EachSame(path, Percent);
    forall c | c in path ensures !Reserved(c) { ReservedIs(c); }
  }

  lemma {:induction false} EachSame(s: string, f: char -> string)
    requires forall c :: c in s ==> f(c) == [c]
    ensures Each(s, f) == s
  {
    if s != "" {
      EachSame(s[1..], f);
      assert s == [s[0]] + s[1..];
    }
  }

  /** The value stays on its line, so a name cannot start another key. */
  lemma {:induction false} OnOneLine(s: string)
    ensures '\n' !in OneLine(s) && '\r' !in OneLine(s) && |OneLine(s)| == |s|
    ensures forall i :: 0 <= i < |s| ==> OneLine(s)[i] == if s[i] == '\n' || s[i] == '\r' then ' ' else s[i]
  {
    if s != "" {
      OnOneLine(s[1..]);
      assert OneLine(s) == OnLine(s[0]) + OneLine(s[1..]);
    }
  }

  lemma {:induction false} EachKeeps(s: string, f: char -> string, bad: char)
    requires bad !in s && forall c :: c != bad ==> bad !in f(c)
    ensures bad !in Each(s, f)
  {
    if s != "" { EachKeeps(s[1..], f, bad); }
  }

  lemma ArgOnOneLine(path: string)
    ensures '\n' !in Arg(path) && '\r' !in Arg(path)
  {
    OnOneLine(path);
    var p := Each(OneLine(path), Percent);
    forall bad | bad == '\n' || bad == '\r' ensures bad !in Arg(path) {
      EachKeeps(OneLine(path), Percent, bad);
      EachKeeps(p, InQuotes, bad);
      EachKeeps(Each(p, InQuotes), Slashes, bad);
    }
  }
}
