// The answers of one command (answers.get in internal/forge/revalidate.go):
// readers that run at once and share one answer for each key.
module Answers {
  import opened Basics
  import opened Revalidate

  type Reader = nat

  /** The once of an answer: not begun, running, or done for good. */
  datatype Once = New | Busy | Done(response: Response)

  datatype Phase =
    | Waits          // has not looked its key up yet
    | Holds          // has the answer of its key, and is before once.Do or blocked in it
    | Asks           // runs the once
    | Has(response: Response)

  /** asked counts the requests that left for the host. */
  datatype State = State(key: map<Reader, Key>, at: map<Reader, Phase>, byKey: map<Key, Once>, asked: multiset<Key>)

  datatype Action = LookUp(r: Reader) | Begin(r: Reader) | Finish(r: Reader, response: Response) | Take(r: Reader)

  predicate Enabled(s: State, a: Action) {
    a.r in s.key && a.r in s.at &&
    match a
    case LookUp(r) => s.at[r].Waits?
    case Begin(r) => s.at[r].Holds? && Get(s.byKey, s.key[r]) == Some(New)
    case Finish(r, _) => s.at[r].Asks?
    case Take(r) => s.at[r].Holds? && s.key[r] in s.byKey && s.byKey[s.key[r]].Done?
  }

  function Do(s: State, a: Action): State
    requires Enabled(s, a)
  {
    var k := s.key[a.r];
    match a
    case LookUp(r) => s.(at := s.at[r := Holds], byKey := if k in s.byKey then s.byKey else s.byKey[k := New])
    case Begin(r) => s.(at := s.at[r := Asks], byKey := s.byKey[k := Busy], asked := s.asked + multiset{k})
    case Finish(r, response) => s.(at := s.at[r := Holds], byKey := s.byKey[k := Done(response)])
    case Take(r) => s.(at := s.at[r := Has(s.byKey[k].response)])
  }

  predicate Started(s: State) {
    s.at.Keys == s.key.Keys && (forall r :: r in s.at ==> s.at[r].Waits?) && s.byKey == map[] && s.asked == multiset{}
  }

  ghost predicate Reachable(s: State, actions: seq<Action>, t: State)
    decreases |actions|
  {
    if actions == [] then s == t else Enabled(s, actions[0]) && Reachable(Do(s, actions[0]), actions[1..], t)
  }

  ghost predicate ReaderOk(s: State, r: Reader)
    requires r in s.at && r in s.key
  {
    match s.at[r]
    case Waits => true
    case Holds => s.key[r] in s.byKey
    case Asks => Get(s.byKey, s.key[r]) == Some(Busy)
    case Has(response) => Get(s.byKey, s.key[r]) == Some(Done(response))
  }

  ghost predicate KeyOk(s: State, k: Key)
    requires s.at.Keys == s.key.Keys
  {
    && s.asked[k] == (if k !in s.byKey || s.byKey[k].New? then 0 else 1)
    && (Get(s.byKey, k) == Some(Busy) ==> exists r :: r in s.at && s.at[r].Asks? && s.key[r] == k)
  }

  ghost predicate Inv(s: State) {
    && s.at.Keys == s.key.Keys
    && (forall r :: r in s.at ==> ReaderOk(s, r))
    && (forall k :: KeyOk(s, k))
    && (forall q, r :: q in s.at && r in s.at && s.at[q].Asks? && s.at[r].Asks? && s.key[q] == s.key[r] ==> q == r)
  }

  lemma DoInv(s: State, a: Action)
    requires Inv(s) && Enabled(s, a)
    ensures Inv(Do(s, a))
  {
    var t, k := Do(s, a), s.key[a.r];
    assert KeyOk(s, k) && ReaderOk(s, a.r);
    forall r | r in t.at ensures ReaderOk(t, r) { assert ReaderOk(s, r); }
    forall c ensures KeyOk(t, c) {
      assert KeyOk(s, c);
      if Get(t.byKey, c) == Some(Busy) {
        if a.Begin? && c == k {
          assert t.at[a.r].Asks?;
        } else {
          var r :| r in s.at && s.at[r].Asks? && s.key[r] == c;
          assert t.at[r].Asks?;
        }
      }
    }
  }

  lemma {:induction false} RunsInv(s: State, actions: seq<Action>, t: State)
    requires Inv(s) && Reachable(s, actions, t)
    ensures Inv(t)
    decreases |actions|
  {
    if actions != [] {
      DoInv(s, actions[0]);
      RunsInv(Do(s, actions[0]), actions[1..], t);
    }
  }

  /** Each answer that is there is what some request of the actions so far got for the key. */
  ghost predicate Given(s: State, past: seq<Action>) {
    forall k :: k in s.byKey && s.byKey[k].Done? ==> GotBy(s, past, k, s.byKey[k].response)
  }

  ghost predicate GotBy(s: State, past: seq<Action>, k: Key, response: Response) {
    exists a :: a in past && a.Finish? && a.response == response && Get(s.key, a.r) == Some(k)
  }

  lemma {:induction false} RunsGiven(s: State, past: seq<Action>, actions: seq<Action>, t: State)
    requires Given(s, past) && Reachable(s, actions, t)
    ensures Given(t, past + actions)
    decreases |actions|
  {
    if actions == [] {
      assert past + actions == past;
    } else {
      var a, next := actions[0], Do(s, actions[0]);
      forall k | k in next.byKey && next.byKey[k].Done? ensures GotBy(next, past + [a], k, next.byKey[k].response) {
        if a.Finish? && s.key[a.r] == k {
          assert a in past + [a];
        } else {
          var b :| b in past && b.Finish? && b.response == s.byKey[k].response && Get(s.key, b.r) == Some(k);
          assert b in past + [a];
        }
      }
      RunsGiven(next, past + [a], actions[1..], t);
      assert past + [a] + actions[1..] == past + actions;
    }
  }

  /** Under any interleaving the host is asked at most once for a key, and all readers of it have the same answer. */
  lemma AskedOnce(s: State, actions: seq<Action>, t: State)
    requires Started(s) && Reachable(s, actions, t)
    ensures t.at.Keys == t.key.Keys && forall k :: t.asked[k] <= 1
    ensures forall q, r :: q in t.at && r in t.at && t.at[q].Has? && t.at[r].Has? && t.key[q] == t.key[r] ==> t.at[q] == t.at[r]
    ensures forall r :: r in t.at && t.at[r].Has? ==> GotBy(t, actions, t.key[r], t.at[r].response)
  {
    RunsInv(s, actions, t);
    RunsGiven(s, [], actions, t);
    assert [] + actions == actions;
    forall k ensures t.asked[k] <= 1 { assert KeyOk(t, k); }
    assert forall r :: r in t.at ==> ReaderOk(t, r);
  }

  /** Until every reader has its answer, one of them can go on. */
  lemma SomeoneGoesOn(s: State, actions: seq<Action>, t: State, r: Reader) returns (a: Action)
    requires Started(s) && Reachable(s, actions, t) && r in t.at && !t.at[r].Has?
    ensures Enabled(t, a)
  {
    RunsInv(s, actions, t);
    assert ReaderOk(t, r);
    var k := t.key[r];
    match t.at[r] {
      case Waits => a := LookUp(r);
      case Asks => a := Finish(r, Error);
      case Holds =>
        assert KeyOk(t, k);
        match t.byKey[k] {
          case New => a := Begin(r);
          case Done(_) => a := Take(r);
          case Busy =>
            var q :| q in t.at && t.at[q].Asks? && t.key[q] == k;
            a := Finish(q, Error);
        }
    }
  }
}
