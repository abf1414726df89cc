// The hook as it runs: loops over the variables, in any order, that fill the
// change, and a shell that evaluates it.
module Terminal {
  import opened Basics
  import opened Strings
  import opened Hook

  class Terminal {
    var env: Env
    var saved: map<string, Option<string>>
    var added: map<string, seq<string>>

    ghost function Now(): Shell
      reads this
    {
      Shell(env, saved, added)
    }

    /** The value a variable has without what the hook applied. */
    method Base(name: string) returns (value: Option<string>)
      ensures value == Hook.Base(Now(), name)
    {
      if name in saved { return saved[name]; }
      if name !in env || name !in added { return Get(env, name); }
      var kept := SplitList(env[name]);
      var entries := added[name];
      for n := 0 to |entries|
        invariant Strip(kept, entries[n..]) == Strip(SplitList(env[name]), entries)
      {
        assert entries[n..][0] == entries[n] && entries[n..][1..] == entries[n + 1..];
        kept := RemoveFirst(kept, entries[n]);
      }
      return Some(Join(kept, SEP));
    }

    /** The variables that want sets and unsets. */
    method PlainValues(want: Want) returns (final: map<string, Option<string>>)
      ensures final == map n | n in want.sets.Keys + want.unsets :: Plain(want, n)
    {
      final := map[];
      var todo := want.sets.Keys;
      while todo != {}
        invariant todo <= want.sets.Keys
        invariant final == map n | n in want.sets && n !in todo :: Some(want.sets[n])
        decreases todo
      {
        var n :| n in todo;
        final, todo := final[n := Some(want.sets[n])], todo - {n};
      }
      todo := want.unsets;
      while todo != {}
        invariant todo <= want.unsets
        invariant final == map n | n in want.sets.Keys + (want.unsets - todo) ::
          if n in want.unsets && n !in todo then None else Get(want.sets, n)
        decreases todo
      {
        var n :| n in todo;
        final, todo := final[n := None], todo - {n};
      }
    }

    /** The value each wanted variable ends up with, and the entries of those that only have entries in front. */
    method FinalValues(want: Want) returns (final: map<string, Option<string>>, prepended: map<string, seq<string>>)
      ensures final.Keys == Names(want) && forall n :: n in final ==> final[n] == FinalValue(want, n, Hook.Base(Now(), n))
      ensures forall n :: n in want.sets || n in want.unsets || n in want.prepend <==> n in final
      ensures forall n :: n in final ==> IsFinal(want, n, Hook.Base(Now(), n), final[n])
      ensures prepended == AddedAfter(want)
      ensures forall n :: n in prepended <==> n in want.prepend && n !in want.sets && n !in want.unsets
      ensures forall n :: n in prepended ==> prepended[n] == want.prepend[n]
    {
      forall n | n in Names(want) ensures IsFinal(want, n, Hook.Base(Now(), n), FinalValue(want, n, Hook.Base(Now(), n))) {
        FinalIs(want, n, Hook.Base(Now(), n));
      }
      var plain := PlainValues(want);
      final, prepended := Fronts(want, plain);
    }

    /** The entries in front, over what want sets and unsets or the variable is. */
    method Fronts(want: Want, plain: map<string, Option<string>>)
      returns (final: map<string, Option<string>>, prepended: map<string, seq<string>>)
      requires plain == map n | n in want.sets.Keys + want.unsets :: Plain(want, n)
      ensures final.Keys == Names(want) && forall n :: n in final ==> final[n] == FinalValue(want, n, Hook.Base(Now(), n))
      ensures prepended == AddedAfter(want)
    {
      final := plain;
      prepended := map[];
      var todo := want.prepend.Keys;
      while todo != {}
        invariant todo <= want.prepend.Keys
        invariant forall n :: n in final <==> n in want.sets || n in want.unsets || (n in want.prepend && n !in todo)
        invariant forall n :: n in final ==>
          final[n] == if n in todo then Plain(want, n) else FinalValue(want, n, Hook.Base(Now(), n))
        invariant forall n :: n in prepended <==> n in want.prepend && n !in todo && IsOnlyPrepended(want, n)
        invariant forall n :: n in prepended ==> prepended[n] == want.prepend[n]
        decreases todo
      {
        var n :| n in todo;
        todo := todo - {n};
        var rest := Base(n);
        if n in want.sets { rest := Some(want.sets[n]); }
        else if n in want.unsets { rest := None; }
        else { prepended := prepended[n := want.prepend[n]]; }
        final := final[n := Some(Fronted(want.prepend[n], rest))];
      }
    }

    /** Ask the shell for value, when that differs from what is set. */
    method Apply(c: Change, name: string, value: Option<string>) returns (r: Change)
      ensures r == Asked(env, c, name, value)
    {
      r := c;
      if value.None? && name in env {
        r := c.(unsets := c.unsets + {name});
      } else if value.Some? && Get(env, name) != value && name == PATH {
        r := c.(path := value.value);
      } else if value.Some? && Get(env, name) != value {
        r := c.(sets := c.sets[name := value.value]);
      }
    }

    /** Keep what the variable was, unless only its entries have to go again. */
    method Save(c: Change, n: string, only: bool) returns (r: Change)
      ensures var keeps := !only || WasUnset(Now(), n);
        r == if keeps then c.(saved := c.saved[n := if only then None else Hook.Base(Now(), n)]) else c
    {
      r := c;
      if !only {
        var base := Base(n);
        r := c.(saved := c.saved[n := base]);
      } else if (n in saved && saved[n].None?) || (n !in saved && n !in added && n !in env) {
        r := c.(saved := c.saved[n := None]);
      }
    }

    /** The variables that hold now, each saved and asked for. */
    method ApplyFinal(final: map<string, Option<string>>, prepended: map<string, seq<string>>) returns (change: Change)
      ensures change == Asks(env, final, final.Keys, Saves(Now(), final.Keys, prepended), prepended)
    {
      change := Change(map[], {}, "", map[], prepended);
      var todo := final.Keys;
      AsksNone(Now(), final, prepended);
      assert final.Keys - todo == {};
      while todo != {}
        invariant todo <= final.Keys
        invariant change == Asks(env, final, final.Keys - todo, Saves(Now(), final.Keys - todo, prepended), prepended)
        decreases todo
      {
        var n :| n in todo;
        ghost var done := final.Keys - todo;
        todo := todo - {n};
        assert final.Keys - todo == done + {n};
        SavesNext(Now(), done, prepended, n);
        change := Save(change, n, n in prepended);
        AsksNext(env, final, done, change, n);
        change := Apply(change, n, final[n]);
      }
      assert final.Keys - todo == final.Keys;
    }

    /** The names that the last run touched and this one leaves alone go back to what they were. */
    method Undo(c: Change, names: set<string>, ghost targets: map<string, Option<string>>, ghost done: set<string>)
      returns (change: Change)
      requires names !! done && names <= targets.Keys && done <= targets.Keys && c == Asks(env, targets, done, c.saved, c.added)
      requires forall n :: n in names ==> targets[n] == Restored(Now(), n)
      ensures change == Asks(env, targets, done + names, c.saved, c.added)
    {
      change := c;
      var todo := names;
      assert done + (names - todo) == done;
      while todo != {}
        invariant todo <= names
        invariant change == Asks(env, targets, done + (names - todo), c.saved, c.added)
        decreases todo
      {
        var n :| n in todo;
        ghost var so := done + (names - todo);
        todo := todo - {n};
        assert done + (names - todo) == so + {n};
        AsksNext(env, targets, so, change, n);
        var base := Base(n);
        if n !in saved && base.None? { base := Some(""); }
        change := Apply(change, n, base);
      }
      assert done + (names - todo) == done + names;
    }

    /** hookChange: undo what the last run applied, then apply what holds now. */
    method HookChange(want: Want) returns (change: Change)
      ensures change == ChangeOf(Now(), want)
    {
      ghost var targets := map n | n in Touched(Now(), want) :: Target(Now(), want, n);
      var final, prepended := FinalValues(want);
      change := ApplyFinal(final, prepended);
      AsksMore(env, final, targets, final.Keys, change.saved, prepended);
      change := Undo(change, saved.Keys - final.Keys, targets, final.Keys);
      change := Undo(change, added.Keys - saved.Keys - final.Keys, targets, final.Keys + (saved.Keys - final.Keys));
      assert final.Keys + (saved.Keys - final.Keys) + (added.Keys - saved.Keys - final.Keys) == targets.Keys;
      AsksAll(Now(), want, targets);
    }

    /**
     * One prompt: the hook runs and the shell evaluates what it prints. The value of
     * a variable without the hook stays exactly as NameOk says, and the environment
     * is that of the directory over the user's own.
     */
    method Prompt(want: Want)
      modifies this
      ensures Now() == Hooked(old(Now()), want)
      ensures WantOk(want) ==>
        forall n :: Hook.Base(Now(), n) == Hook.Base(old(Now()), n) <==> NameOk(old(Now()), want, n)
      ensures Tidy(old(Now())) && Fair(BaseEnv(old(Now())), want) ==>
        && Tidy(Now()) && BaseEnv(Now()) == BaseEnv(old(Now())) && env == Overlay(BaseEnv(old(Now())), want)
        && Gives(BaseEnv(old(Now())), want, env)
    {
      ghost var sh := Now();
      if WantOk(want) {
        forall n ensures Hook.Base(Hooked(sh, want), n) == Hook.Base(sh, n) <==> NameOk(sh, want, n) { BaseKept(sh, want, n); }
      }
      if Tidy(sh) && Fair(BaseEnv(sh), want) { FairRun(sh, want); }
      var change := HookChange(want);
      Evaluate(change);
    }

    /** What the shell does with the change. */
    method Evaluate(c: Change)
      modifies this
      ensures Now() == Evaluated(old(Now()), c)
    {
      env := env - c.unsets;
      if c.path != "" { env := env[PATH := c.path]; }
      env := env + c.sets;
      saved, added := c.saved, c.added;
    }
  }

  function Asked(env: Env, c: Change, name: string, value: Option<string>): Change {
    if value.None? then (if name in env then c.(unsets := c.unsets + {name}) else c)
    else if Get(env, name) == value then c
    else if name == PATH then c.(path := value.value)
    else c.(sets := c.sets[name := value.value])
  }

  /** What a variable is to be that the hook does not set any more. */
  function Restored(sh: Shell, n: string): Option<string> {
    if n !in sh.saved && Hook.Base(sh, n).None? then Some("") else Hook.Base(sh, n)
  }

  /** The change that asks for the target of each name in done, where that differs from what is set. */
  ghost function Asks(
    env: Env, targets: map<string, Option<string>>, done: set<string>,
    saved: map<string, Option<string>>, added: map<string, seq<string>>): Change
    requires done <= targets.Keys
  {
    Change(
      map n | n in done && n != PATH && targets[n].Some? && Get(env, n) != targets[n] :: targets[n].value,
      set n | n in done && targets[n].None? && n in env,
      if PATH in done && targets[PATH].Some? && Get(env, PATH) != targets[PATH] then targets[PATH].value else "",
      saved, added)
  }

  ghost function Saves(sh: Shell, done: set<string>, prepended: map<string, seq<string>>): map<string, Option<string>> {
    map n | n in done && (n !in prepended || WasUnset(sh, n)) :: if n in prepended then None else Hook.Base(sh, n)
  }

  lemma AsksNone(sh: Shell, targets: map<string, Option<string>>, prepended: map<string, seq<string>>)
    ensures Asks(sh.env, targets, {}, Saves(sh, {}, prepended), prepended) == Change(map[], {}, "", map[], prepended)
  {
  }

  lemma SavesNext(sh: Shell, done: set<string>, prepended: map<string, seq<string>>, n: string)
    requires n !in done
    ensures Saves(sh, done + {n}, prepended) ==
      if n !in prepended || WasUnset(sh, n)
      then Saves(sh, done, prepended)[n := if n in prepended then None else Hook.Base(sh, n)]
      else Saves(sh, done, prepended)
  {
  }

  lemma AsksNext(env: Env, targets: map<string, Option<string>>, done: set<string>, c: Change, n: string)
    requires done <= targets.Keys && c == Asks(env, targets, done, c.saved, c.added) && n !in done && n in targets
    ensures Asked(env, c, n, targets[n]) == Asks(env, targets, done + {n}, c.saved, c.added)
  {
    AskedSets(env, targets, done, c, n);
    AskedUnsets(env, targets, done, c, n);
  }

  lemma AskedSets(env: Env, targets: map<string, Option<string>>, done: set<string>, c: Change, n: string)
    requires done <= targets.Keys && c == Asks(env, targets, done, c.saved, c.added) && n !in done && n in targets
    ensures Asked(env, c, n, targets[n]).sets == Asks(env, targets, done + {n}, c.saved, c.added).sets
  {
  }

  lemma AskedUnsets(env: Env, targets: map<string, Option<string>>, done: set<string>, c: Change, n: string)
    requires done <= targets.Keys && c == Asks(env, targets, done, c.saved, c.added) && n !in done && n in targets
    ensures Asked(env, c, n, targets[n]).unsets == Asks(env, targets, done + {n}, c.saved, c.added).unsets
  {
  }

  lemma AsksMore(
    env: Env, a: map<string, Option<string>>, b: map<string, Option<string>>, done: set<string>,
    saved: map<string, Option<string>>, added: map<string, seq<string>>)
    requires done <= a.Keys && done <= b.Keys && forall n :: n in done ==> a[n] == b[n]
    ensures Asks(env, a, done, saved, added) == Asks(env, b, done, saved, added)
  {
  }

  lemma AsksAll(sh: Shell, want: Want, targets: map<string, Option<string>>)
    requires targets == map n | n in Touched(sh, want) :: Target(sh, want, n)
    ensures Asks(sh.env, targets, targets.Keys, Saves(sh, Names(want), AddedAfter(want)), AddedAfter(want)) == ChangeOf(sh, want)
  {
    AsksSets(sh, want, targets);
    AsksUnsets(sh, want, targets);
    SavesAll(sh, want);
    AsksPath(sh, want, targets);
  }

  lemma AsksSets(sh: Shell, want: Want, targets: map<string, Option<string>>)
    requires targets == map n | n in Touched(sh, want) :: Target(sh, want, n)
    ensures Asks(sh.env, targets, targets.Keys, map[], map[]).sets == ChangeOf(sh, want).sets
  {
  }

  lemma AsksUnsets(sh: Shell, want: Want, targets: map<string, Option<string>>)
    requires targets == map n | n in Touched(sh, want) :: Target(sh, want, n)
    ensures Asks(sh.env, targets, targets.Keys, map[], map[]).unsets == ChangeOf(sh, want).unsets
  {
  }

  lemma AsksPath(sh: Shell, want: Want, targets: map<string, Option<string>>)
    requires targets == map n | n in Touched(sh, want) :: Target(sh, want, n)
    ensures Asks(sh.env, targets, targets.Keys, map[], map[]).path == ChangeOf(sh, want).path
  {
  }

  lemma SavesAll(sh: Shell, want: Want)
    ensures Saves(sh, Names(want), AddedAfter(want)) == SavedAfter(sh, want)
  {
  }

  function Plain(want: Want, n: string): Option<string> {
    if n in want.unsets then None else Get(want.sets, n)
  }
}
