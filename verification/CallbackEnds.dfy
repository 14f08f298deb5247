/** How callback lists come to an end: a list that fires only once and does not remember is
    disabled after its fire, and a locked list that remembers goes on for new functions only. */
module CallbackEnds {
  import opened Wrappers
  import opened Callbacks
  import opened CallbackTurns

  // ---------- "once" without "memory" ----------

  const ONCE := Flags(true, false)

  ghost function First<A>(shots: seq<Shot<A>>): Option<Shot<A>> {
    if shots == [] then None else Some(shots[0])
  }

  /** Nothing is called before the first fire. It calls a prefix of the functions added, each
      once, in order, with its arguments; when it is over every function that was on the list
      when it was made has been called, and the list is disabled. */
  ghost predicate FiresOnce<F, A>(l: List<F, A>, added: seq<F>, first: Option<Shot<A>>) {
    match first
    case None => l.trace == [] && !l.firing
    case Some(shot) =>
      CalledInOrder(l.trace, added, shot.args) && (!l.firing ==> Off(l) && shot.seen <= |l.trace|)
  }

  ghost predicate OnceState<F, A>(l: List<F, A>, added: seq<F>, first: Option<Shot<A>>) {
    && FiresOnce(l, added, first)
    && (first.None? ==> l.list == Some(added) && l.stack.Some? && l.memory.Nothing? && l.start == 0)
    && (first.Some? ==> first.value.seen <= |added|)
    && (l.firing && first.Some? ==>
          && l.list == Some(added) && l.memory.Fired? && l.length == |added|
          && l.current == Some(first.value.args) && l.index + 1 == |l.trace|)
  }

  lemma OnceBegins<F, A>(l: List<F, A>, added: seq<F>, args: A, r: List<F, A>)
    requires OnceState(l, added, None) && r == Begin(ONCE, l, args)
    ensures OnceState(r, added, Some(Shot(args, |added|)))
  {
    var e := l.(memory := Fired, firing := true, index := 0, start := 0, length := |added|, current := Some(args));
    assert Begin(ONCE, l, args) == Loop(ONCE, e, args);
    if added == [] { assert Finish(ONCE, e.(firing := false)) == Disable(e.(firing := false)); }
  }

  lemma OnceReturns<F, A>(l: List<F, A>, added: seq<F>, first: Option<Shot<A>>, r: List<F, A>)
    requires OnceState(l, added, first) && r == Return(ONCE, l)
    ensures OnceState(r, added, first)
  {
    if l.firing {
      var l1 := l.(index := l.index + 1);
      if |added| <= l1.index {
        assert Finish(ONCE, l1.(firing := false)) == Disable(l1.(firing := false));
      }
    }
  }

  lemma {:induction false} OnceRuns<F, A>(acts: seq<Action<F, A>>)
    requires forall i :: 0 <= i < |acts| ==> IsPlain(acts[i])
    ensures OnceState(RunList(ONCE, Empty<F, A>(), acts), Added(acts), First(Shots(acts)))
  {
    if acts != [] {
      var before, a := acts[..|acts| - 1], acts[|acts| - 1];
      assert IsPlain(a);
      OnceRuns(before);
      var l := RunList(ONCE, Empty<F, A>(), before);
      match a
      case Adds(fs) =>
      case Fires(args) =>
        if Shots(before) == [] { OnceBegins(l, Added(before), args, Fire(ONCE, l, args)); }
        assert Added(before) + [] == Added(before);
      case Returns =>
        OnceReturns(l, Added(before), First(Shots(before)), Return(ONCE, l));
        assert Added(before) + [] == Added(before);
    }
  }

  /** In every run of a "once" list that does not remember, only the first fire calls
      anything, and the list is disabled after it. */
  lemma {:induction false} OnceIsOnce<F, A>(acts: seq<Action<F, A>>)
    requires forall i :: 0 <= i < |acts| ==> IsPlain(acts[i])
    ensures FiresOnce(RunList(Flags(true, false), Empty<F, A>(), acts), Added(acts), First(Shots(acts)))
  {
    OnceRuns(acts);
  }

  // ---------- locked lists that remember ----------

  /** Since it was locked the list has called a prefix of the functions that were `due`, each
      once and in order, and all of them when it is idle. */
  ghost predicate GoesOn<F, A>(l: List<F, A>, base: seq<Call<F, A>>, due: seq<F>, args: A) {
    && base <= l.trace && CalledInOrder(l.trace[|base|..], due, args)
    && (!l.firing ==> |l.trace| == |base| + |due|)
  }

  /** The functions `past` were called before that. */
  ghost predicate LockedState<F, A>(l: List<F, A>, base: seq<Call<F, A>>, past: seq<F>, due: seq<F>, args: A) {
    && GoesOn(l, base, due, args)
    && l.stack.None? && l.memory == Args(args) && l.list == Some(past + due) && l.start == 0
    && (l.firing ==>
          && l.current == Some(args) && l.length == |past| + |due|
          && l.index + 1 == |past| + |l.trace| - |base|)
  }

  lemma LockedBegins<F, A>(l: List<F, A>, fs: seq<F>, r: List<F, A>)
    requires l.list.Some? && l.stack.None? && l.memory.Args? && !l.firing && r == Add(Again(true), l, fs)
    ensures var n := |l.list.value|;
      r == l.(list := Some(l.list.value + fs), firing := fs != [], index := n, start := 0, length := n + |fs|,
              current := Some(l.memory.args),
              trace := if fs == [] then l.trace else l.trace + [Call(fs[0], l.memory.args)])
  {
    var n, args := |l.list.value|, l.memory.args;
    var e := l.(list := Some(l.list.value + fs), firing := true, index := n, start := 0, length := n + |fs|,
                current := Some(args));
    assert Add(Again(true), l, fs) == Loop(Again(true), e, args);
    if fs == [] { assert Finish(Again(true), e.(firing := false)) == e.(firing := false); }
  }

  lemma OneMoreCalled<F, A>(trace: seq<Call<F, A>>, base: seq<Call<F, A>>, due: seq<F>, args: A)
    requires base <= trace && CalledInOrder(trace[|base|..], due, args) && |trace| - |base| < |due|
    ensures var more := trace + [Call(due[|trace| - |base|], args)];
      base <= more && CalledInOrder(more[|base|..], due, args)
  {
    var more := trace + [Call(due[|trace| - |base|], args)];
    assert more[|base|..] == trace[|base|..] + [Call(due[|trace| - |base|], args)];
  }

  lemma LockedAdds<F, A>(l: List<F, A>, base: seq<Call<F, A>>, past: seq<F>, due: seq<F>, args: A, fs: seq<F>)
    requires LockedState(l, base, past, due, args)
    ensures LockedState(Add(Again(true), l, fs), base, past, due + fs, args)
  {
    assert past + due + fs == past + (due + fs);
    if !l.firing {
      LockedBegins(l, fs, Add(Again(true), l, fs));
      if fs != [] {
        assert (due + fs)[|due|] == fs[0];
        OneMoreCalled(l.trace, base, due + fs, args);
      }
    }
  }

  lemma LockedReturns<F, A>(l: List<F, A>, base: seq<Call<F, A>>, past: seq<F>, due: seq<F>, args: A)
    requires LockedState(l, base, past, due, args)
    ensures LockedState(Return(Again(true), l), base, past, due, args)
  {
    if l.firing {
      var l1 := l.(index := l.index + 1);
      if l1.index < |past| + |due| {
        assert (past + due)[l1.index] == due[|l.trace| - |base|];
        OneMoreCalled(l.trace, base, due, args);
      } else {
        assert Finish(Again(true), l1.(firing := false)) == l1.(firing := false);
      }
    }
  }

  lemma {:induction false} LockedRuns<F, A>(l: List<F, A>, base: seq<Call<F, A>>, past: seq<F>, due: seq<F>, args: A, acts: seq<Action<F, A>>)
    requires LockedState(l, base, past, due, args) && forall i :: 0 <= i < |acts| ==> IsPlain(acts[i])
    ensures LockedState(RunList(Again(true), l, acts), base, past, due + Added(acts), args)
    decreases |acts|
  {
    if acts == [] {
      assert due + [] == due;
    } else {
      var before, a := acts[..|acts| - 1], acts[|acts| - 1];
      assert IsPlain(a);
      LockedRuns(l, base, past, due, args, before);
      var r := RunList(Again(true), l, before);
      assert (due + Added(before)) + [] == due + Added(before);
      match a
      case Adds(fs) =>
        LockedAdds(r, base, past, due + Added(before), args, fs);
        assert due + Added(before) + fs == due + (Added(before) + fs);
      case Fires(_) => assert Added(before) + [] == Added(before);
      case Returns =>
        LockedReturns(r, base, past, due + Added(before), args);
        assert Added(before) + [] == Added(before);
    }
  }

  /** Locking a list that remembers and has fired: the turn under way goes to the end of the
      list, functions added later are called with the same arguments, and nothing else is.
      The fires put off are dropped. */
  lemma {:induction false} LockFinishesTheTurn<F, A>(acts: seq<Action<F, A>>, later: seq<Action<F, A>>)
    requires forall i :: 0 <= i < |acts| ==> IsPlain(acts[i])
    requires forall i :: 0 <= i < |later| ==> IsPlain(later[i])
    requires Turns(true, acts) != []
    ensures var l, t := RunList(Flags(false, true), Empty<F, A>(), acts), Turns(true, acts)[|Turns(true, acts)| - 1];
      && t.upto <= |Added(acts)| && t.shot < |Shots(acts)|
      && GoesOn(RunList(Flags(false, true), Lock(l), later), l.trace, Added(acts)[t.upto..] + Added(later), Shots(acts)[t.shot].args)
  {
    RunTurns(true, acts);
    var l, turns := RunList(Again(true), Empty<F, A>(), acts), Turns(true, acts);
    var t := turns[|turns| - 1];
    assert TurnOk(t, |Added(acts)|, |Shots(acts)|);
    JustLocked(l, Added(acts), Shots(acts), turns);
    LockedRuns(Lock(l), l.trace, Added(acts)[..t.upto], Added(acts)[t.upto..], Shots(acts)[t.shot].args, later);
  }

  lemma JustLocked<F, A>(l: List<F, A>, added: seq<F>, shots: seq<Shot<A>>, turns: seq<Turn>)
    requires Turning(l, true, added, shots, turns) && turns != []
    requires TurnOk(turns[|turns| - 1], |added|, |shots|)
    ensures var t := turns[|turns| - 1];
      LockedState(Lock(l), l.trace, added[..t.upto], added[t.upto..], shots[t.shot].args)
  {
    var t := turns[|turns| - 1];
    assert added[..t.upto] + added[t.upto..] == added;
    assert l.trace[|l.trace|..] == [];
  }
}
