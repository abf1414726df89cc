// The environment that the shell hook applies before each prompt
// (internal/cli/hook.go and envset.go). A run remembers in the environment what it
// did, so that the next one can take it back before it does its own.
module Hook {
  import opened Basics
  import opened Strings

  type Env = map<string, string>

  const PATH := "PATH"
  const SEP := ':'

  /** The variables of a shell, with the state that the last run left: old values, and entries put in front. */
  datatype Shell = Shell(env: Env, saved: map<string, Option<string>>, added: map<string, seq<string>>)

  /** What the lists of a directory ask for. */
  datatype Want = Want(sets: Env, unsets: set<string>, prepend: map<string, seq<string>>)

  // --- what a variable is without the hook

  function SplitList(s: string): seq<string> {
    if s == "" then [] else Split(s, SEP)
  }

  /** A later one may be the user's. */
  function RemoveFirst(list: seq<string>, entry: string): seq<string> {
    if list == [] then []
    else if list[0] == entry then list[1..]
    else [list[0]] + RemoveFirst(list[1..], entry)
  }

  function Strip(list: seq<string>, entries: seq<string>): seq<string>
    decreases |entries|
  {
    if entries == [] then list else Strip(RemoveFirst(list, entries[0]), entries[1..])
  }

  function Base(sh: Shell, name: string): Option<string> {
    if name in sh.saved then sh.saved[name]
    else if name !in sh.env || name !in sh.added then Get(sh.env, name)
    else Some(Join(Strip(SplitList(sh.env[name]), sh.added[name]), SEP))
  }

  function BaseEnv(sh: Shell): Env {
    map name | name in sh.env.Keys + sh.saved.Keys && Base(sh, name).Some? :: Base(sh, name).value
  }

  // --- what a variable is to be

  function Fronted(entries: seq<string>, rest: Option<string>): string {
    Join(entries, SEP) + if rest.Some? && rest.value != "" then [SEP] + rest.value else ""
  }

  predicate IsOnlyPrepended(want: Want, name: string) {
    name in want.prepend && name !in want.sets && name !in want.unsets
  }

  function Names(want: Want): set<string> {
    want.sets.Keys + want.unsets + want.prepend.Keys
  }

  /** The value that name ends up with over base. */
  function FinalValue(want: Want, name: string, base: Option<string>): Option<string> {
    if name in want.prepend then
      Some(Fronted(want.prepend[name],
        if name in want.sets then Some(want.sets[name]) else if name in want.unsets then None else base))
    else if name in want.unsets then None
    else Get(want.sets, name)
  }

  // --- one run

  /** Without the hook there is no such variable. */
  predicate WasUnset(sh: Shell, name: string) {
    if name in sh.saved then sh.saved[name].None? else name !in sh.added && name !in sh.env
  }

  function SavedAfter(sh: Shell, want: Want): map<string, Option<string>> {
    map name | name in Names(want) && (!IsOnlyPrepended(want, name) || WasUnset(sh, name)) ::
      if IsOnlyPrepended(want, name) then None else Base(sh, name)
  }

  function AddedAfter(want: Want): map<string, seq<string>> {
    map name | name in want.prepend && IsOnlyPrepended(want, name) :: want.prepend[name]
  }

  /** The names a run gives a value: those it wants, and those that the last run changed. */
  function Touched(sh: Shell, want: Want): set<string> {
    Names(want) + sh.saved.Keys + sh.added.Keys
  }

  function Target(sh: Shell, want: Want, name: string): Option<string> {
    if name in Names(want) then FinalValue(want, name, Base(sh, name))
    else if name in sh.saved then Base(sh, name)
    else Some(if Base(sh, name).Some? then Base(sh, name).value else "")
  }

  /** What the shell is asked to do. An empty path leaves PATH as it is. */
  datatype Change = Change(
    sets: Env, unsets: set<string>, path: string,
    saved: map<string, Option<string>>, added: map<string, seq<string>>)

  predicate Sets(sh: Shell, want: Want, name: string) {
    name in Touched(sh, want) && Target(sh, want, name).Some? && Get(sh.env, name) != Target(sh, want, name)
  }

  function ChangeOf(sh: Shell, want: Want): Change {
    Change(
      map name | name in Touched(sh, want) && name != PATH && Sets(sh, want, name) :: Target(sh, want, name).value,
      set name | name in Touched(sh, want) && Target(sh, want, name).None? && name in sh.env,
      if Sets(sh, want, PATH) then Target(sh, want, PATH).value else "",
      SavedAfter(sh, want), AddedAfter(want))
  }

  function Evaluated(sh: Shell, c: Change): Shell {
    var env := sh.env - c.unsets;
    Shell((if c.path != "" then env[PATH := c.path] else env) + c.sets, c.saved, c.added)
  }

  function Hooked(sh: Shell, want: Want): Shell {
    Evaluated(sh, ChangeOf(sh, want))
  }

  /** The value of a name after a run. PATH is never set to nothing. */
  lemma HookedValue(sh: Shell, want: Want, name: string)
    ensures Get(Hooked(sh, want).env, name) ==
      if name !in Touched(sh, want) || (name == PATH && Target(sh, want, name) == Some("")) then Get(sh.env, name)
      else Target(sh, want, name)
  {
  }

  // --- taking the entries out again

  lemma {:induction false} RemoveFirstOf(list: seq<string>, entry: string)
    ensures forall p :: p in RemoveFirst(list, entry) ==> p in list
    ensures |list| - 1 <= |RemoveFirst(list, entry)| <= |list|
    ensures entry !in list ==> RemoveFirst(list, entry) == list
  {
    if list != [] { RemoveFirstOf(list[1..], entry); }
  }

  lemma {:induction false} StripFront(entries: seq<string>, rest: seq<string>)
    ensures Strip(entries + rest, entries) == rest
    decreases |entries|
  {
    if entries == [] {
      assert entries + rest == rest;
    } else {
      assert (entries + rest)[1..] == entries[1..] + rest;
      StripFront(entries[1..], rest);
    }
  }

  /** An entry that the separator cuts is never found, so too much stays. */
  lemma {:induction false} StripShort(list: seq<string>, entries: seq<string>)
    requires AllWhole(list, SEP)
    ensures AllWhole(Strip(list, entries), SEP)
    ensures |Strip(list, entries)| >= |list| - |entries|
    ensures !AllWhole(entries, SEP) ==> |Strip(list, entries)| > |list| - |entries|
    decreases |entries|
  {
    if entries != [] {
      RemoveFirstOf(list, entries[0]);
      StripShort(RemoveFirst(list, entries[0]), entries[1..]);
      assert entries == [entries[0]] + entries[1..];
    }
  }

  /** Entries as a list may give them: at least one, and none empty. */
  predicate Entries(entries: seq<string>) {
    entries != [] && forall e :: e in entries ==> e != ""
  }

  lemma SplitFronted(entries: seq<string>, r: string)
    requires Entries(entries)
    ensures SplitList(Fronted(entries, Some(r))) == Split(Join(entries, SEP), SEP) + SplitList(r)
    ensures Fronted(entries, Some(r)) != "" && Fronted(entries, None) == Fronted(entries, Some(""))
  {
    assert entries[0] in entries;
    if r != "" {
      SplitConcat(Join(entries, SEP), r, SEP);
      assert Join(entries, SEP) + [SEP] + r == Join(entries, SEP) + ([SEP] + r);
    } else {
      assert Join(entries, SEP) + "" == Join(entries, SEP);
    }
  }

  /** The value before is found again exactly when no entry holds the separator. */
  lemma StripFronted(entries: seq<string>, r: string)
    requires Entries(entries)
    ensures Join(Strip(SplitList(Fronted(entries, Some(r))), entries), SEP) == r <==> AllWhole(entries, SEP)
  {
    var list := SplitList(Fronted(entries, Some(r)));
    SplitFronted(entries, r);
    SplitJoinLength(entries, SEP);
    JoinSplit(r, SEP);
    JoinSplit(Join(entries, SEP), SEP);
    if AllWhole(entries, SEP) {
      StripFront(entries, SplitList(r));
    } else {
      assert AllWhole(list, SEP);
      StripShort(list, entries);
      var kept := Strip(list, entries);
      assert |kept| > 1 + |SplitList(r)|;
      SplitJoinLength(kept, SEP);
    }
  }

  // --- when a run keeps what each variable is without the hook

  /** Lists give entries to put in front, and let nothing set or unset PATH. */
  ghost predicate WantOk(want: Want) {
    && (forall n :: n in want.prepend ==> Entries(want.prepend[n]))
    && PATH !in want.sets && PATH !in want.unsets
  }

  /** PATH cannot go back to a value that is set and empty, since an empty path means no change. */
  predicate PathStuck(sh: Shell, name: string) {
    name == PATH && Base(sh, name) == Some("") && Get(sh.env, name) != Some("")
  }

  /**
   * What a caller can check of one name before a run: no entry to put in front
   * holds the separator, the user did not unset a variable that only has entries
   * in front, and PATH does not go back to an empty value.
   */
  predicate NameOk(sh: Shell, want: Want, name: string) {
    if IsOnlyPrepended(want, name) then
      WasUnset(sh, name) || ((name in sh.saved || name in sh.env) && AllWhole(want.prepend[name], SEP))
    else if name in Names(want) then true
    else if name in sh.saved then !PathStuck(sh, name)
    else if name in sh.added then (name in sh.env || name == PATH) && !PathStuck(sh, name)
    else true
  }

  lemma PrependedBase(sh: Shell, want: Want, name: string)
    requires WantOk(want) && IsOnlyPrepended(want, name) && !WasUnset(sh, name)
    ensures Base(Hooked(sh, want), name) == Base(sh, name) <==> NameOk(sh, want, name)
  {
    var entries := want.prepend[name];
    var base := Base(sh, name);
    HookedValue(sh, want, name);
    SplitFronted(entries, if base.Some? then base.value else "");
    StripFronted(entries, if base.Some? then base.value else "");
  }

  /** A run keeps a variable's value without the hook exactly when NameOk says so. */
  lemma BaseKept(sh: Shell, want: Want, name: string)
    requires WantOk(want)
    ensures Base(Hooked(sh, want), name) == Base(sh, name) <==> NameOk(sh, want, name)
  {
    HookedValue(sh, want, name);
    if IsOnlyPrepended(want, name) {
      if !WasUnset(sh, name) { PrependedBase(sh, want, name); }
    }
  }

  /** An entry that holds two directories stays behind when the directory is left. */
  lemma SeparatorStays()
    ensures var sh := Shell(map["V" := "x"], map[], map[]);
      var want := Want(map[], {}, map["V" := ["/a:/b"]]);
      WantOk(want) && Base(Hooked(sh, want), "V") != Base(sh, "V") == Some("x")
  {
    var sh := Shell(map["V" := "x"], map[], map[]);
    var want := Want(map[], {}, map["V" := ["/a:/b"]]);
    assert SEP == "/a:/b"[2];
    assert !Whole("/a:/b", SEP);
    BaseKept(sh, want, "V");
  }

  /** A prepended variable that the user unset comes back as set, and empty. */
  lemma UnsetForgotten()
    ensures var sh := Shell(map[], map[], map["V" := ["/a"]]);
      var want := Want(map[], {}, map["V" := ["/a"]]);
      WantOk(want) && Base(sh, "V").None? && Base(Hooked(sh, want), "V").Some?
  {
    BaseKept(Shell(map[], map[], map["V" := ["/a"]]), Want(map[], {}, map["V" := ["/a"]]), "V");
  }

  /** A PATH that was set and empty keeps the entries of a project that is left. */
  lemma EmptyPathStays()
    ensures var sh := Shell(map[PATH := "/a"], map[], map[PATH := ["/a"]]);
      var left := Hooked(sh, Want(map[], {}, map[]));
      Base(sh, PATH) == Some("") && left.env == map[PATH := "/a"] && left.added == map[]
  {
    assert Split("/a", SEP) == ["/a"] by { SplitWhole("/a", SEP); }
    HookedValue(Shell(map[PATH := "/a"], map[], map[PATH := ["/a"]]), Want(map[], {}, map[]), PATH);
  }

  // --- history independence

  /** The environment that want gives over base, by itself. */
  function Overlay(base: Env, want: Want): Env {
    map n | n in base.Keys + Names(want) && OverlayValue(base, want, n).Some? :: OverlayValue(base, want, n).value
  }

  function OverlayValue(base: Env, want: Want, n: string): Option<string> {
    if n in Names(want) then FinalValue(want, n, Get(base, n)) else Get(base, n)
  }

  /** What the hook put in front of a variable is in a variable that is set. */
  ghost predicate Tidy(sh: Shell) {
    forall n :: n in sh.added ==> n in sh.env || n in sh.saved
  }

  /** Want as a list gives it, over a base whose PATH is not set and empty. */
  ghost predicate Fair(base: Env, want: Want) {
    && WantOk(want) && Get(base, PATH) != Some("")
    && forall n :: n in want.prepend ==> AllWhole(want.prepend[n], SEP)
  }

  lemma BaseEnvGet(sh: Shell, name: string)
    ensures Get(BaseEnv(sh), name) == Base(sh, name)
  {
  }

  lemma SameMap(a: Env, b: Env)
    requires forall n :: Get(a, n) == Get(b, n)
    ensures a == b
  {
    forall n ensures n in a <==> n in b { assert Get(a, n) == Get(b, n); }
    forall n | n in a ensures a[n] == b[n] { assert Get(a, n) == Get(b, n); }
  }

  lemma OverlayGet(base: Env, want: Want, n: string)
    ensures Get(Overlay(base, want), n) == OverlayValue(base, want, n)
  {
    if n in base { assert n in base.Keys; }
  }

  /** Entries before a text, with a separator exactly when there is a text. */
  ghost predicate InFront(entries: seq<string>, rest: string, value: string) {
    value == Join(entries, SEP) + (if rest == "" then "" else [SEP] + rest)
  }

  /** What a directory makes of a variable that is base without it. */
  ghost predicate IsFinal(want: Want, n: string, base: Option<string>, value: Option<string>) {
    if n in want.prepend then
      && value.Some?
      && InFront(want.prepend[n],
           if n in want.sets then want.sets[n] else if n in want.unsets || base.None? then "" else base.value, value.value)
    else if n in want.unsets then value.None?
    else n in want.sets && value == Some(want.sets[n])
  }

  /** env is what a directory gives over the user's own environment. */
  ghost predicate Gives(own: Env, want: Want, env: Env) {
    && (forall n :: n in want.sets || n in want.unsets || n in want.prepend ==> IsFinal(want, n, Get(own, n), Get(env, n)))
    && (forall n :: n !in want.sets && n !in want.unsets && n !in want.prepend ==> Get(env, n) == Get(own, n))
  }

  lemma FinalIs(want: Want, n: string, base: Option<string>)
    requires n in Names(want)
    ensures IsFinal(want, n, base, FinalValue(want, n, base))
  {
  }

  lemma OverlayGives(own: Env, want: Want)
    ensures Gives(own, want, Overlay(own, want))
  {
    forall n ensures Get(Overlay(own, want), n) == OverlayValue(own, want, n) { OverlayGet(own, want, n); }
    forall n | n in Names(want) ensures IsFinal(want, n, Get(own, n), Get(Overlay(own, want), n)) { FinalIs(want, n, Get(own, n)); }
  }

  /** In a tidy shell a fair run gives the environment of want alone, and keeps the base. */
  lemma FairRun(sh: Shell, want: Want)
    requires Tidy(sh) && Fair(BaseEnv(sh), want)
    ensures var next := Hooked(sh, want);
      && Tidy(next) && BaseEnv(next) == BaseEnv(sh) && next.env == Overlay(BaseEnv(sh), want)
      && Gives(BaseEnv(sh), want, next.env)
  {
    OverlayGives(BaseEnv(sh), want);
    var next := Hooked(sh, want);
    BaseEnvGet(sh, PATH);
    forall n ensures Get(BaseEnv(next), n) == Get(BaseEnv(sh), n) {
      assert NameOk(sh, want, n);
      BaseKept(sh, want, n);
      BaseEnvGet(sh, n);
      BaseEnvGet(next, n);
    }
    SameMap(BaseEnv(next), BaseEnv(sh));
    forall n ensures Get(next.env, n) == Get(Overlay(BaseEnv(sh), want), n) { FairValue(sh, want, n); }
    SameMap(next.env, Overlay(BaseEnv(sh), want));
    forall n | n in next.added ensures n in next.env { HookedValue(sh, want, n); SplitFronted(want.prepend[n], ""); }
  }

  lemma FairValue(sh: Shell, want: Want, n: string)
    requires Tidy(sh) && Fair(BaseEnv(sh), want)
    ensures Get(Hooked(sh, want).env, n) == Get(Overlay(BaseEnv(sh), want), n)
  {
    HookedValue(sh, want, n);
    BaseEnvGet(sh, n);
    OverlayGet(BaseEnv(sh), want, n);
    if n in want.prepend { SplitFronted(want.prepend[n], if Base(sh, n).Some? then Base(sh, n).value else ""); }
  }

  /** A prompt in a directory, whose lists see the base, or the user setting or unsetting a variable. */
  datatype Event = Prompt(dir: Env -> Want) | Export(name: string, value: Option<string>)

  function Happens(sh: Shell, e: Event): Shell {
    match e
    case Prompt(dir) => Hooked(sh, dir(BaseEnv(sh)))
    case Export(name, value) => sh.(env := Put(sh.env, name, value))
  }

  function Events(sh: Shell, es: seq<Event>): Shell
    decreases |es|
  {
    if es == [] then sh else Events(Happens(sh, es[0]), es[1..])
  }

  /**
   * The environment that is the user's: a new value of a variable that the hook has
   * set is the project's and goes with it, and one of a variable with entries in
   * front counts without them.
   */
  function OwnAfter(sh: Shell, own: Env, e: Event): Env {
    match e
    case Prompt(_) => own
    case Export(name, value) =>
      if name in sh.saved then own
      else if name in sh.added && value.Some? then own[name := Join(Strip(SplitList(value.value), sh.added[name]), SEP)]
      else Put(own, name, value)
  }

  function Own(sh: Shell, own: Env, es: seq<Event>): Env
    decreases |es|
  {
    if es == [] then own else Own(Happens(sh, es[0]), OwnAfter(sh, own, es[0]), es[1..])
  }

  /** All but unsetting a variable that only has entries in front, whose old value the hook does not have. */
  ghost predicate FairEvent(sh: Shell, e: Event) {
    match e
    case Prompt(dir) => Fair(BaseEnv(sh), dir(BaseEnv(sh)))
    case Export(name, value) => value.Some? || name !in sh.added || name in sh.saved
  }

  ghost predicate FairEvents(sh: Shell, es: seq<Event>)
    decreases |es|
  {
    es == [] || (FairEvent(sh, es[0]) && FairEvents(Happens(sh, es[0]), es[1..]))
  }

  lemma ExportBase(sh: Shell, name: string, value: Option<string>)
    requires Tidy(sh) && FairEvent(sh, Export(name, value))
    ensures Tidy(Happens(sh, Export(name, value)))
    ensures BaseEnv(Happens(sh, Export(name, value))) == OwnAfter(sh, BaseEnv(sh), Export(name, value))
  {
    var next := Happens(sh, Export(name, value));
    var own := OwnAfter(sh, BaseEnv(sh), Export(name, value));
    forall n ensures Get(BaseEnv(next), n) == Get(own, n) {
      BaseEnvGet(sh, n);
      BaseEnvGet(next, n);
    }
    SameMap(BaseEnv(next), own);
  }

  lemma {:induction false} EventsBase(sh: Shell, es: seq<Event>)
    requires Tidy(sh) && FairEvents(sh, es)
    ensures Tidy(Events(sh, es)) && BaseEnv(Events(sh, es)) == Own(sh, BaseEnv(sh), es)
    decreases |es|
  {
    if es != [] {
      match es[0] {
        case Prompt(dir) => FairRun(sh, dir(BaseEnv(sh)));
        case Export(name, value) => ExportBase(sh, name, value);
      }
      EventsBase(Happens(sh, es[0]), es[1..]);
    }
  }

  /**
   * After any prompts and changes by the user, the environment depends only on the
   * user's own environment and on the directory of the last prompt. Outside every
   * project, where nothing is wanted, it is the user's own.
   */
  lemma HistoryIndependent(env: Env, es: seq<Event>, dir: Env -> Want)
    requires FairEvents(Shell(env, map[], map[]), es)
    requires Fair(Own(Shell(env, map[], map[]), env, es), dir(Own(Shell(env, map[], map[]), env, es)))
    ensures var start := Shell(env, map[], map[]);
      var own := Own(start, env, es);
      var last := Happens(Events(start, es), Prompt(dir));
      && last.env == Overlay(own, dir(own)) && Gives(own, dir(own), last.env)
      && (dir(own) == Want(map[], {}, map[]) ==> last.env == own)
  {
    var start := Shell(env, map[], map[]);
    forall n ensures Get(BaseEnv(start), n) == Get(env, n) { BaseEnvGet(start, n); }
    SameMap(BaseEnv(start), env);
    EventsBase(start, es);
    var own := Own(start, env, es);
    FairRun(Events(start, es), dir(own));
    OverlayNothing(own);
  }

  lemma OverlayNothing(own: Env)
    ensures Overlay(own, Want(map[], {}, map[])) == own
  {
    var none := Want(map[], {}, map[]);
    forall n ensures Get(Overlay(own, none), n) == Get(own, n) { OverlayGet(own, none, n); }
    SameMap(Overlay(own, none), own);
  }

  /** What the user appends to a list variable in a project stays theirs, behind what they had. */
  lemma AppendIsOwn(sh: Shell, own: Env, name: string, entries: seq<string>, base: string, more: string)
    requires name in sh.added && name !in sh.saved && sh.added[name] == entries
    requires Entries(entries) && AllWhole(entries, SEP) && more != ""
    ensures OwnAfter(sh, own, Export(name, Some(Fronted(entries, Some(base)) + [SEP] + more))) ==
      own[name := if base == "" then more else base + [SEP] + more]
  {
    var rest := if base == "" then more else base + [SEP] + more;
    var joined := Fronted(entries, Some(base)) + [SEP] + more;
    if base != "" {
      assert joined == Join(entries, SEP) + ([SEP] + (base + [SEP] + more));
    } else {
      assert Join(entries, SEP) + "" == Join(entries, SEP);
      assert joined == Join(entries, SEP) + ([SEP] + more);
    }
    assert joined == Fronted(entries, Some(rest));
    StripFronted(entries, rest);
  }
}
