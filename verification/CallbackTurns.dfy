/** Callback lists that fire again and again. A fire made while callbacks run is put off;
    none is lost, and each takes its turn with its own arguments. */
module CallbackTurns {
  import opened Wrappers
  import opened Callbacks

  /** A fire, with the number of functions on the list when it was made. */
  datatype Shot<A> = Shot(args: A, seen: nat)

  /** A turn: for fire number `shot`, the functions from number `from` up to `upto` have
      been called, in order. */
  datatype Turn = Turn(shot: nat, from: nat, upto: nat)

  /** The steps of a list that is neither locked nor disabled. */
  predicate IsPlain<F, A>(a: Action<F, A>) {
    a.Adds? || a.Fires? || a.Returns?
  }

  /** Everything added, in order. */
  function Added<F, A>(acts: seq<Action<F, A>>): seq<F> {
    if acts == [] then []
    else Added(acts[..|acts| - 1]) + if acts[|acts| - 1].Adds? then acts[|acts| - 1].fs else []
  }

  /** All fires, in order. */
  function Shots<F, A>(acts: seq<Action<F, A>>): seq<Shot<A>> {
    if acts == [] then []
    else
      var before := acts[..|acts| - 1];
      Shots(before) + if acts[|acts| - 1].Fires? then [Shot(acts[|acts| - 1].args, |Added(before)|)] else []
  }

  // ---------- what turns call ----------

  ghost predicate TurnOk(t: Turn, functions: nat, shots: nat) {
    t.from <= t.upto <= functions && t.shot < shots
  }

  ghost predicate TurnsOk(turns: seq<Turn>, functions: nat, shots: nat) {
    forall i :: 0 <= i < |turns| ==> TurnOk(turns[i], functions, shots)
  }

  ghost function Calls<F, A>(added: seq<F>, shots: seq<Shot<A>>, t: Turn): (r: seq<Call<F, A>>)
    requires TurnOk(t, |added|, |shots|)
    ensures |r| == t.upto - t.from
    ensures forall k :: 0 <= k < |r| ==> r[k] == Call(added[t.from + k], shots[t.shot].args)
  {
    seq(t.upto - t.from, k requires 0 <= k < t.upto - t.from => Call(added[t.from + k], shots[t.shot].args))
  }

  ghost function AllCalls<F, A>(added: seq<F>, shots: seq<Shot<A>>, turns: seq<Turn>): seq<Call<F, A>>
    requires TurnsOk(turns, |added|, |shots|)
  {
    if turns == [] then []
    else AllCalls(added, shots, turns[..|turns| - 1]) + Calls(added, shots, turns[|turns| - 1])
  }

  /** How many fires have had their turn, or are having it. */
  ghost function Taken(turns: seq<Turn>): nat {
    if turns == [] then 0 else turns[|turns| - 1].shot + 1
  }

  /** A turn is the first one of the next fire, from the first function on; or, on a list
      that remembers, it goes on for the same fire where the turn before it stopped. */
  ghost predicate Follows(turns: seq<Turn>, i: nat, memory: bool)
    requires i < |turns|
  {
    || (turns[i].from == 0 && turns[i].shot == if i == 0 then 0 else turns[i - 1].shot + 1)
    || (memory && 0 < i && turns[i].shot == turns[i - 1].shot && turns[i].from == turns[i - 1].upto)
  }

  /** What callers of a list that fires again and again are promised. All calls are those of
      a sequence of turns. The fires have their turns in the order they were made, each with
      its own arguments; the others are put off, and none is while the list is idle. A turn
      that is over has reached every function that was on the list when its fire was made.
      The turn under way goes on to the end of the list as it stands, and an idle list that
      remembers has called every function for the latest fire. */
  ghost predicate Served<F, A>(l: List<F, A>, memory: bool, added: seq<F>, shots: seq<Shot<A>>, turns: seq<Turn>) {
    && TurnsOk(turns, |added|, |shots|) && l.trace == AllCalls(added, shots, turns)
    && (forall i :: 0 <= i < |turns| ==> Follows(turns, i, memory))
    && (forall i :: 0 <= i < |turns| && (i + 1 < |turns| || !l.firing) ==> Over(shots, turns[i]))
    && l.stack.Some? && Waiting(l.stack.value, shots, Taken(turns))
    && (!l.firing ==> l.stack.value == [])
    && (l.firing ==> turns != [] && l.index + 1 == turns[|turns| - 1].upto && l.length == |added|)
    && (memory && !l.firing && turns != [] ==> turns[|turns| - 1].upto == |added|)
  }

  ghost predicate Over<A>(shots: seq<Shot<A>>, t: Turn) {
    t.shot < |shots| && shots[t.shot].seen <= t.upto
  }

  /** The fires put off are exactly those that have not been taken, in order. */
  ghost predicate Waiting<A>(stack: seq<A>, shots: seq<Shot<A>>, taken: nat) {
    taken + |stack| == |shots| && forall k :: 0 <= k < |stack| ==> stack[k] == shots[taken + k].args
  }

  // ---------- which turns there are ----------

  /** A fire on an idle list begins its turn; any other is put off. */
  ghost function TurnsAfterFire(turns: seq<Turn>, firing: bool, functions: nat): seq<Turn> {
    if firing then turns else turns + [Turn(Taken(turns), 0, if 0 < functions then 1 else 0)]
  }

  /** An idle list that remembers calls the new functions for the latest fire. */
  ghost function TurnsAfterAdd(turns: seq<Turn>, firing: bool, memory: bool, functions: nat, more: nat): seq<Turn> {
    if firing || !memory || turns == [] then turns
    else turns + [Turn(turns[|turns| - 1].shot, functions, if 0 < more then functions + 1 else functions)]
  }

  /** The next function is called; at the end of the list the next fire has its turn. */
  ghost function TurnsAfterReturn(turns: seq<Turn>, firing: bool, functions: nat, shots: nat): seq<Turn> {
    if !firing || turns == [] then turns
    else if turns[|turns| - 1].upto < functions then Longer(turns)
    else if Taken(turns) < shots then turns + [Turn(Taken(turns), 0, 1)]
    else turns
  }

  ghost function Longer(turns: seq<Turn>): seq<Turn>
    requires turns != []
  {
    turns[|turns| - 1 := turns[|turns| - 1].(upto := turns[|turns| - 1].upto + 1)]
  }

  /** The turns of a run. */
  ghost function Turns<F, A>(memory: bool, acts: seq<Action<F, A>>): seq<Turn> {
    if acts == [] then []
    else
      var before := acts[..|acts| - 1];
      var turns, firing := Turns(memory, before), RunList(Again(memory), Empty<F, A>(), before).firing;
      match acts[|acts| - 1]
      case Adds(fs) => TurnsAfterAdd(turns, firing, memory, |Added(before)|, |fs|)
      case Fires(args) => TurnsAfterFire(turns, firing, |Added(before)|)
      case Returns => TurnsAfterReturn(turns, firing, |Added(before)|, |Shots(before)|)
      case _ => turns
  }

  // ---------- the state between two steps ----------

  ghost predicate Turning<F, A>(l: List<F, A>, memory: bool, added: seq<F>, shots: seq<Shot<A>>, turns: seq<Turn>) {
    && Served(l, memory, added, shots, turns)
    && l.list == Some(added) && l.start == 0
    && (forall i :: 0 <= i < |shots| ==> shots[i].seen <= |added|)
    && (if turns == [] then !l.firing && l.memory.Nothing?
        else RunsTurn(l, memory, added, shots, turns[|turns| - 1]))
  }

  /** The variables of the loop belong to the last turn. */
  ghost predicate RunsTurn<F, A>(l: List<F, A>, memory: bool, added: seq<F>, shots: seq<Shot<A>>, t: Turn) {
    && t.shot < |shots| && l.memory == Kept(memory, shots[t.shot].args)
    && (l.firing ==>
          l.current == Some(shots[t.shot].args) && t.from < t.upto <= |added|)
  }

  ghost function Kept<A>(memory: bool, args: A): Memory<A> {
    if memory then Args(args) else Fired
  }

  ghost function Again(memory: bool): Flags {
    Flags(false, memory)
  }

  /** The state in which the loop is entered. */
  ghost function Entering<F, A>(l: List<F, A>, memory: bool, args: A): List<F, A>
    requires l.list.Some?
  {
    l.(memory := Kept(memory, args), firing := true, index := l.start, start := 0,
       length := |l.list.value|, current := Some(args))
  }

  lemma Begins<F, A>(l: List<F, A>, memory: bool, args: A)
    requires l.list.Some? && (l.start < |l.list.value| || l.stack == Some([]))
    ensures Begin(Again(memory), l, args) ==
      if l.start < |l.list.value|
      then Entering(l, memory, args).(trace := l.trace + [Call(l.list.value[l.start], args)])
      else Entering(l, memory, args).(firing := false)
  {
    var e := Entering(l, memory, args);
    assert Begin(Again(memory), l, args) == Loop(Again(memory), e, args);
    if |l.list.value| <= l.start {
      assert Finish(Again(memory), e.(firing := false)) == e.(firing := false);
    }
  }

  /** More functions and more fires do not change what the turns so far have called. */
  lemma {:induction false} CallsStay<F, A>(added: seq<F>, shots: seq<Shot<A>>, turns: seq<Turn>, fs: seq<F>, more: seq<Shot<A>>)
    requires TurnsOk(turns, |added|, |shots|)
    ensures TurnsOk(turns, |added + fs|, |shots + more|)
    ensures AllCalls(added + fs, shots + more, turns) == AllCalls(added, shots, turns)
  {
    assert forall i :: 0 <= i < |turns| ==> TurnOk(turns[i], |added|, |shots|);
    if turns != [] {
      var t := turns[|turns| - 1];
      CallsStay(added, shots, turns[..|turns| - 1], fs, more);
      assert Calls(added + fs, shots + more, t) == Calls(added, shots, t);
    }
  }

  // ---------- one more turn, one more call ----------

  /** A new turn that has made its first call, or has nothing to call. */
  lemma TurnBegins<F, A>(added: seq<F>, shots: seq<Shot<A>>, turns: seq<Turn>, t: Turn)
    requires TurnsOk(turns, |added|, |shots|) && t.shot < |shots| && t.from <= |added|
    requires t.upto == if t.from < |added| then t.from + 1 else t.from
    ensures TurnsOk(turns + [t], |added|, |shots|)
    ensures AllCalls(added, shots, turns + [t]) == AllCalls(added, shots, turns) +
      if t.from < |added| then [Call(added[t.from], shots[t.shot].args)] else []
  {
    assert (turns + [t])[..|turns|] == turns;
    assert Calls(added, shots, t) == if t.from < |added| then [Call(added[t.from], shots[t.shot].args)] else [];
  }

  lemma OneMoreCall<F, A>(added: seq<F>, shots: seq<Shot<A>>, t: Turn)
    requires TurnOk(t, |added|, |shots|) && t.upto < |added|
    ensures Calls(added, shots, t.(upto := t.upto + 1)) ==
      Calls(added, shots, t) + [Call(added[t.upto], shots[t.shot].args)]
  {
  }

  lemma Regrouped<X>(a: seq<X>, b: seq<X>, c: seq<X>)
    ensures a + (b + c) == (a + b) + c
  {
  }

  /** The last turn makes one more call. */
  lemma TurnGoesOn<F, A>(added: seq<F>, shots: seq<Shot<A>>, turns: seq<Turn>, t: Turn, next: seq<Turn>)
    requires TurnsOk(turns, |added|, |shots|) && turns != [] && t == turns[|turns| - 1] && t.upto < |added|
    requires next == Longer(turns)
    ensures TurnsOk(next, |added|, |shots|) && t.shot < |shots|
    ensures AllCalls(added, shots, next) == AllCalls(added, shots, turns) + [Call(added[t.upto], shots[t.shot].args)]
  {
    assert TurnOk(t, |added|, |shots|);
    SameButLast(added, shots, turns, t, next);
    OneMoreCall(added, shots, t);
    Regrouped(AllCalls(added, shots, turns[..|turns| - 1]), Calls(added, shots, t),
              [Call(added[t.upto], shots[t.shot].args)]);
  }

  lemma SameButLast<F, A>(added: seq<F>, shots: seq<Shot<A>>, turns: seq<Turn>, t: Turn, next: seq<Turn>)
    requires TurnsOk(turns, |added|, |shots|) && turns != [] && t == turns[|turns| - 1] && t.upto < |added|
    requires next == Longer(turns)
    ensures TurnsOk(next, |added|, |shots|) && TurnsOk(turns[..|turns| - 1], |added|, |shots|)
    ensures TurnOk(t, |added|, |shots|) && TurnOk(t.(upto := t.upto + 1), |added|, |shots|)
    ensures AllCalls(added, shots, turns) ==
      AllCalls(added, shots, turns[..|turns| - 1]) + Calls(added, shots, t)
    ensures AllCalls(added, shots, next) ==
      AllCalls(added, shots, turns[..|turns| - 1]) + Calls(added, shots, t.(upto := t.upto + 1))
  {
    assert TurnOk(t, |added|, |shots|);
    assert next[..|turns| - 1] == turns[..|turns| - 1];
  }

  /** What turn may come next. */
  ghost predicate MayFollow(turns: seq<Turn>, t: Turn, memory: bool) {
    || (t.from == 0 && t.shot == Taken(turns))
    || (memory && turns != [] && t.shot == turns[|turns| - 1].shot && t.from == turns[|turns| - 1].upto)
  }

  lemma FollowsAfter(turns: seq<Turn>, t: Turn, memory: bool, more: seq<Turn>)
    requires forall i :: 0 <= i < |turns| ==> Follows(turns, i, memory)
    requires MayFollow(turns, t, memory) && more == turns + [t]
    ensures forall i :: 0 <= i < |more| ==> Follows(more, i, memory)
  {
    forall i | 0 <= i < |more| ensures Follows(more, i, memory) {
      if i < |turns| { assert Follows(turns, i, memory); }
    }
  }

  lemma OneMoreTurn<A>(shots: seq<Shot<A>>, turns: seq<Turn>, t: Turn, memory: bool, more: seq<Turn>)
    requires forall i :: 0 <= i < |turns| ==> Follows(turns, i, memory)
    requires forall i :: 0 <= i < |turns| ==> Over(shots, turns[i])
    requires MayFollow(turns, t, memory) && more == turns + [t]
    ensures forall i :: 0 <= i < |more| ==> Follows(more, i, memory)
    ensures forall i :: 0 <= i < |more| - 1 ==> Over(shots, more[i])
  {
    FollowsAfter(turns, t, memory, more);
  }

  lemma FollowsLonger(turns: seq<Turn>, memory: bool)
    requires turns != [] && forall i :: 0 <= i < |turns| ==> Follows(turns, i, memory)
    ensures var next := Longer(turns);
      Taken(next) == Taken(turns) && forall i :: 0 <= i < |next| ==> Follows(next, i, memory)
  {
    var next := Longer(turns);
    forall i | 0 <= i < |next| ensures Follows(next, i, memory) {
      assert Follows(turns, i, memory);
    }
  }

  // ---------- the steps ----------

  /** The list takes up a fire, or repeats the remembered one, and begins turn `t`. */
  lemma {:induction false} TakesCall<F, A>(l: List<F, A>, memory: bool, added: seq<F>, shots: seq<Shot<A>>, turns: seq<Turn>, t: Turn, more: seq<Turn>, r: List<F, A>)
    requires TurnsOk(turns, |added|, |shots|) && l.trace == AllCalls(added, shots, turns) && more == turns + [t]
    requires t.shot < |shots| && t.from <= |added| && t.upto == if t.from < |added| then t.from + 1 else t.from
    requires l.list == Some(added) && l.start == t.from && (t.from == |added| ==> l.stack == Some([]))
    requires r == Begin(Again(memory), l, shots[t.shot].args)
    ensures more != [] && more[|more| - 1] == t
    ensures TurnsOk(more, |added|, |shots|) && r.trace == AllCalls(added, shots, more)
    ensures r == Entering(l, memory, shots[t.shot].args).(trace := r.trace, firing := t.from < |added|)
  {
    Begins(l, memory, shots[t.shot].args);
    TurnBegins(added, shots, turns, t);
  }

  lemma TakenTurn<F, A>(l: List<F, A>, memory: bool, added: seq<F>, shots: seq<Shot<A>>, turns: seq<Turn>, r: List<F, A>)
    requires turns != [] && TurnsOk(turns, |added|, |shots|) && r.trace == AllCalls(added, shots, turns)
    requires forall i :: 0 <= i < |turns| ==> Follows(turns, i, memory)
    requires forall i :: 0 <= i < |turns| - 1 ==> Over(shots, turns[i])
    requires forall i :: 0 <= i < |shots| ==> shots[i].seen <= |added|
    requires var t := turns[|turns| - 1];
      && l.list == Some(added) && l.start == t.from && t.shot < |shots|
      && t.upto == (if t.from < |added| then t.from + 1 else t.from)
      && l.stack.Some? && Waiting(l.stack.value, shots, t.shot + 1) && (t.from == |added| ==> l.stack.value == [])
      && r == Entering(l, memory, shots[t.shot].args).(trace := r.trace, firing := t.from < |added|)
    ensures Turning(r, memory, added, shots, turns)
  {
    var t := turns[|turns| - 1];
    assert TurnOk(t, |added|, |shots|);
    assert Over(shots, t) || r.firing;
  }

  lemma Begun<F, A>(l: List<F, A>, memory: bool, added: seq<F>, shots: seq<Shot<A>>, turns: seq<Turn>, t: Turn, more: seq<Turn>, r: List<F, A>)
    requires forall i :: 0 <= i < |turns| ==> Follows(turns, i, memory)
    requires forall i :: 0 <= i < |turns| ==> Over(shots, turns[i])
    requires forall i :: 0 <= i < |shots| ==> shots[i].seen <= |added|
    requires MayFollow(turns, t, memory) && t.shot < |shots|
    requires t.upto == if t.from < |added| then t.from + 1 else t.from
    requires l.list == Some(added) && l.start == t.from
    requires l.stack.Some? && Waiting(l.stack.value, shots, t.shot + 1) && (t.from == |added| ==> l.stack.value == [])
    requires more == turns + [t] && TurnsOk(more, |added|, |shots|) && r.trace == AllCalls(added, shots, more)
    requires r == Entering(l, memory, shots[t.shot].args).(trace := r.trace, firing := t.from < |added|)
    ensures Turning(r, memory, added, shots, more)
  {
    OneMoreTurn(shots, turns, t, memory, more);
    TakenTurn(l, memory, added, shots, more, r);
  }

  /** The list begins a turn: the next fire's, or one that goes on for the remembered fire. */
  lemma BeginsTurn<F, A>(l: List<F, A>, memory: bool, added: seq<F>, shots: seq<Shot<A>>, turns: seq<Turn>, t: Turn, r: List<F, A>)
    requires TurnsOk(turns, |added|, |shots|) && l.trace == AllCalls(added, shots, turns)
    requires forall i :: 0 <= i < |turns| ==> Follows(turns, i, memory)
    requires forall i :: 0 <= i < |turns| ==> Over(shots, turns[i])
    requires forall i :: 0 <= i < |shots| ==> shots[i].seen <= |added|
    requires MayFollow(turns, t, memory) && t.shot < |shots| && t.from <= |added|
    requires t.upto == if t.from < |added| then t.from + 1 else t.from
    requires l.list == Some(added) && l.start == t.from
    requires l.stack.Some? && Waiting(l.stack.value, shots, t.shot + 1) && (t.from == |added| ==> l.stack.value == [])
    requires r == Begin(Again(memory), l, shots[t.shot].args)
    ensures Turning(r, memory, added, shots, turns + [t])
  {
    var more := turns + [t];
    TakesCall(l, memory, added, shots, turns, t, more, r);
    Begun(l, memory, added, shots, turns, t, more, r);
  }

  lemma FireTurns<F, A>(l: List<F, A>, memory: bool, added: seq<F>, shots: seq<Shot<A>>, turns: seq<Turn>, args: A)
    requires Turning(l, memory, added, shots, turns)
    ensures Turning(Fire(Again(memory), l, args), memory, added, shots + [Shot(args, |added|)],
                    TurnsAfterFire(turns, l.firing, |added|))
  {
    var more := shots + [Shot(args, |added|)];
    CallsStay(added, shots, turns, [], [Shot(args, |added|)]);
    assert added + [] == added;
    if l.firing {
      PutOff(l, memory, added, shots, turns, args);
    } else {
      OverStays(shots, turns, Shot(args, |added|));
      var t := Turn(Taken(turns), 0, if added != [] then 1 else 0);
      BeginsTurn(l, memory, added, more, turns, t, Fire(Again(memory), l, args));
    }
  }

  lemma PutOff<F, A>(l: List<F, A>, memory: bool, added: seq<F>, shots: seq<Shot<A>>, turns: seq<Turn>, args: A)
    requires Turning(l, memory, added, shots, turns) && l.firing
    requires var more := shots + [Shot(args, |added|)];
      && TurnsOk(turns, |added|, |more|) && l.trace == AllCalls(added, more, turns)
    ensures Turning(l.(stack := Some(l.stack.value + [args])), memory, added, shots + [Shot(args, |added|)], turns)
  {
    var more := shots + [Shot(args, |added|)];
    var r := l.(stack := Some(l.stack.value + [args]));
    OverStays(shots, turns[..|turns| - 1], Shot(args, |added|));
    forall i | 0 <= i < |turns| && (i + 1 < |turns| || !r.firing) ensures Over(more, turns[i]) {
      assert turns[i] == turns[..|turns| - 1][i];
    }
    WaitsToo(l.stack.value, shots, Taken(turns), Shot(args, |added|));
    assert Served(r, memory, added, more, turns);
  }

  lemma OverStays<A>(shots: seq<Shot<A>>, turns: seq<Turn>, s: Shot<A>)
    requires forall i :: 0 <= i < |turns| ==> Over(shots, turns[i])
    ensures forall i :: 0 <= i < |turns| ==> Over(shots + [s], turns[i])
  {
  }

  lemma WaitsToo<A>(stack: seq<A>, shots: seq<Shot<A>>, taken: nat, s: Shot<A>)
    requires Waiting(stack, shots, taken)
    ensures Waiting(stack + [s.args], shots + [s], taken)
  {
  }

  lemma AddTurns<F, A>(l: List<F, A>, memory: bool, added: seq<F>, shots: seq<Shot<A>>, turns: seq<Turn>, fs: seq<F>)
    requires Turning(l, memory, added, shots, turns)
    ensures Turning(Add(Again(memory), l, fs), memory, added + fs, shots,
                    TurnsAfterAdd(turns, l.firing, memory, |added|, |fs|))
  {
    CallsStay(added, shots, turns, fs, []);
    assert shots + [] == shots;
    if l.firing || !memory || turns == [] {
      JoinsTurn(l, memory, added, shots, turns, fs, Add(Again(memory), l, fs));
    } else {
      Repeats(l, memory, added, shots, turns, fs);
    }
  }

  /** New functions wait for the turn under way, or for the next fire. */
  lemma JoinsTurn<F, A>(l: List<F, A>, memory: bool, added: seq<F>, shots: seq<Shot<A>>, turns: seq<Turn>, fs: seq<F>, r: List<F, A>)
    requires Turning(l, memory, added, shots, turns)
    requires TurnsOk(turns, |added + fs|, |shots|) && l.trace == AllCalls(added + fs, shots, turns)
    requires l.firing || !memory || turns == []
    requires r == l.(list := Some(added + fs), length := if l.firing then |added + fs| else l.length)
    ensures Turning(r, memory, added + fs, shots, turns)
  {
    assert Served(r, memory, added + fs, shots, turns);
  }

  /** New functions are called for the remembered fire. */
  lemma {:induction false} Repeats<F, A>(l: List<F, A>, memory: bool, added: seq<F>, shots: seq<Shot<A>>, turns: seq<Turn>, fs: seq<F>)
    requires Turning(l, memory, added, shots, turns)
    requires TurnsOk(turns, |added + fs|, |shots|) && l.trace == AllCalls(added + fs, shots, turns)
    requires !l.firing && memory && turns != []
    ensures Turning(Add(Again(memory), l, fs), memory, added + fs, shots,
                    turns + [Turn(turns[|turns| - 1].shot, |added|, if fs != [] then |added| + 1 else |added|)])
  {
    var n, k := |added|, turns[|turns| - 1].shot;
    var l1 := l.(list := Some(added + fs), start := n);
    assert Add(Again(memory), l, fs) == Begin(Again(memory), l1, shots[k].args);
    BeginsTurn(l1, memory, added + fs, shots, turns, Turn(k, n, if fs != [] then n + 1 else n), Add(Again(memory), l, fs));
  }

  lemma ReturnTurns<F, A>(l: List<F, A>, memory: bool, added: seq<F>, shots: seq<Shot<A>>, turns: seq<Turn>)
    requires Turning(l, memory, added, shots, turns)
    ensures Turning(Return(Again(memory), l), memory, added, shots,
                    TurnsAfterReturn(turns, l.firing, |added|, |shots|))
  {
    if l.firing {
      if l.index + 1 < |added| {
        CallNext(l, memory, added, shots, turns);
      } else {
        EndTurn(l, memory, added, shots, turns);
      }
    }
  }

  lemma CallNext<F, A>(l: List<F, A>, memory: bool, added: seq<F>, shots: seq<Shot<A>>, turns: seq<Turn>)
    requires Turning(l, memory, added, shots, turns) && l.firing && l.index + 1 < |added|
    ensures Turning(Return(Again(memory), l), memory, added, shots, Longer(turns))
  {
    var next := Longer(turns);
    TurnGoesOn(added, shots, turns, turns[|turns| - 1], next);
    FollowsLonger(turns, memory);
    assert Return(Again(memory), l) ==
      l.(index := l.index + 1, trace := l.trace + [Call(added[l.index + 1], l.current.value)]);
    forall i | 0 <= i < |next| && i + 1 < |next| ensures Over(shots, next[i]) {
      assert Over(shots, turns[i]);
    }
  }

  lemma EndTurn<F, A>(l: List<F, A>, memory: bool, added: seq<F>, shots: seq<Shot<A>>, turns: seq<Turn>)
    requires Turning(l, memory, added, shots, turns) && l.firing && |added| <= l.index + 1
    ensures Turning(Return(Again(memory), l), memory, added, shots,
                    if l.stack.value == [] then turns else turns + [Turn(Taken(turns), 0, 1)])
  {
    LastIsOver(l, memory, added, shots, turns);
    var l1 := l.(index := l.index + 1, firing := false);
    assert Return(Again(memory), l) == Finish(Again(memory), l1);
    if l.stack.value != [] {
      var l2 := l1.(stack := Some(l.stack.value[1..]));
      TakesNext(l, memory, added, shots, turns, l2);
      assert Return(Again(memory), l) == Begin(Again(memory), l2, l.stack.value[0]);
    }
  }

  lemma LastIsOver<F, A>(l: List<F, A>, memory: bool, added: seq<F>, shots: seq<Shot<A>>, turns: seq<Turn>)
    requires Turning(l, memory, added, shots, turns) && l.firing && |added| <= l.index + 1
    ensures turns[|turns| - 1].upto == |added|
    ensures forall i :: 0 <= i < |turns| ==> Over(shots, turns[i])
  {
    var t := turns[|turns| - 1];
    assert TurnOk(t, |added|, |shots|) && shots[t.shot].seen <= |added|;
  }

  /** The first of the fires put off is taken up. */
  lemma {:induction false} TakesNext<F, A>(l: List<F, A>, memory: bool, added: seq<F>, shots: seq<Shot<A>>, turns: seq<Turn>, l2: List<F, A>)
    requires Turning(l, memory, added, shots, turns) && l.firing && |added| <= l.index + 1
    requires l.stack.value != []
    requires l2 == l.(index := l.index + 1, firing := false, stack := Some(l.stack.value[1..]))
    ensures Turning(Begin(Again(memory), l2, l.stack.value[0]), memory, added, shots, turns + [Turn(Taken(turns), 0, 1)])
  {
    LastIsOver(l, memory, added, shots, turns);
    var k := Taken(turns);
    assert Waiting(l2.stack.value, shots, k + 1);
    BeginsTurn(l2, memory, added, shots, turns, Turn(k, 0, 1), Begin(Again(memory), l2, l.stack.value[0]));
  }

  // ---------- every run ----------

  lemma {:induction false} RunTurns<F, A>(memory: bool, acts: seq<Action<F, A>>)
    requires forall i :: 0 <= i < |acts| ==> IsPlain(acts[i])
    ensures Turning(RunList(Again(memory), Empty<F, A>(), acts), memory, Added(acts), Shots(acts), Turns(memory, acts))
  {
    if acts != [] {
      var before, a := acts[..|acts| - 1], acts[|acts| - 1];
      assert IsPlain(a);
      RunTurns(memory, before);
      var l, turns := RunList(Again(memory), Empty<F, A>(), before), Turns(memory, before);
      match a
      case Adds(fs) =>
        AddTurns(l, memory, Added(before), Shots(before), turns, fs);
        assert Shots(before) + [] == Shots(before);
      case Fires(args) =>
        FireTurns(l, memory, Added(before), Shots(before), turns, args);
        assert Added(before) + [] == Added(before);
      case Returns =>
        ReturnTurns(l, memory, Added(before), Shots(before), turns);
        assert Shots(before) + [] == Shots(before) && Added(before) + [] == Added(before);
    }
  }

  /** In every run of a list without "once", until it is locked or disabled, no fire is lost:
      the fires have their turns in order, each with its own arguments and for every function
      then on the list, and what is put off is taken up before the list is idle. */
  lemma {:induction false} NoFireIsLost<F, A>(memory: bool, acts: seq<Action<F, A>>)
    requires forall i :: 0 <= i < |acts| ==> IsPlain(acts[i])
    ensures Served(RunList(Flags(false, memory), Empty<F, A>(), acts), memory, Added(acts), Shots(acts), Turns(memory, acts))
  {
    RunTurns(memory, acts);
  }

  /** A turn that a step has ended: the list is idle, or another turn has begun. */
  ghost predicate Ends<F, A>(memory: bool, before: seq<Action<F, A>>, a: Action<F, A>) {
    var acts := before + [a];
    && RunList(Again(memory), Empty<F, A>(), before).firing
    && (!RunList(Again(memory), Empty<F, A>(), acts).firing || |Turns(memory, before)| < |Turns(memory, acts)|)
  }

  lemma {:induction false} StepEndsComplete<F, A>(memory: bool, before: seq<Action<F, A>>, a: Action<F, A>)
    requires forall i :: 0 <= i < |before| ==> IsPlain(before[i])
    requires IsPlain(a) && Ends(memory, before, a)
    ensures a.Returns? && Turns(memory, before) != [] && Turns(memory, before) <= Turns(memory, before + [a])
    ensures Turns(memory, before)[|Turns(memory, before)| - 1].upto == |Added(before)|
  {
    var acts := before + [a];
    assert acts[..|before|] == before;
    RunTurns(memory, before);
    var l := RunList(Again(memory), Empty<F, A>(), before);
    if a.Returns? { ReturnEnds(l, memory, Added(before), Shots(before), Turns(memory, before), Return(Again(memory), l)); }
  }

  lemma ReturnEnds<F, A>(l: List<F, A>, memory: bool, added: seq<F>, shots: seq<Shot<A>>, turns: seq<Turn>, r: List<F, A>)
    requires Turning(l, memory, added, shots, turns) && l.firing && r == Return(Again(memory), l)
    ensures var next := TurnsAfterReturn(turns, true, |added|, |shots|);
      !r.firing || |turns| < |next| ==> turns[|turns| - 1].upto == |added| && turns <= next
  {
    if l.index + 1 < |added| {
      assert r == l.(index := l.index + 1, trace := l.trace + [Call(added[l.index + 1], l.current.value)]);
    }
  }

  /** Turns stay: only the last one may go on, and only while the list fires. */
  ghost predicate Stay(was: seq<Turn>, fired: bool, now: seq<Turn>, fires: bool) {
    && |was| <= |now| && (forall i :: 0 <= i < |was| - 1 ==> now[i] == was[i])
    && (!fired ==> was <= now && (|was| < |now| || !fires))
  }

  lemma StayLonger(a: seq<Turn>, a': bool, b: seq<Turn>, b': bool, c: seq<Turn>, c': bool)
    requires Stay(a, a', b, b') && Stay(b, b', c, c')
    ensures Stay(a, a', c, c')
  {
  }

  ghost predicate StayInRun<F, A>(memory: bool, before: seq<Action<F, A>>, acts: seq<Action<F, A>>) {
    Stay(Turns(memory, before), RunList(Again(memory), Empty<F, A>(), before).firing,
         Turns(memory, acts), RunList(Again(memory), Empty<F, A>(), acts).firing)
  }

  lemma StayInStep<F, A>(memory: bool, before: seq<Action<F, A>>, a: Action<F, A>, acts: seq<Action<F, A>>)
    requires acts == before + [a] && IsPlain(a)
    requires forall i :: 0 <= i < |before| ==> IsPlain(before[i])
    ensures StayInRun(memory, before, acts)
  {
    assert acts[..|acts| - 1] == before;
    RunTurns(memory, before);
  }

  lemma {:induction false} TurnsStay<F, A>(memory: bool, acts: seq<Action<F, A>>, p: nat)
    requires p <= |acts| && forall i :: 0 <= i < |acts| ==> IsPlain(acts[i])
    ensures StayInRun(memory, acts[..p], acts)
    decreases |acts|
  {
    if p < |acts| {
      var before, a := acts[..|acts| - 1], acts[|acts| - 1];
      assert before[..p] == acts[..p];
      TurnsStay(memory, before, p);
      assert IsPlain(a);
      StayInStep(memory, before, a, acts);
      StayLonger(Turns(memory, acts[..p]), RunList(Again(memory), Empty<F, A>(), acts[..p]).firing,
                 Turns(memory, before), RunList(Again(memory), Empty<F, A>(), before).firing,
                 Turns(memory, acts), RunList(Again(memory), Empty<F, A>(), acts).firing);
    } else {
      assert acts[..p] == acts;
    }
  }

  /** Whenever a step of a run ends a turn, that turn has reached every function then on the
      list, and it stays as it is for the rest of the run. */
  lemma {:induction false} TurnsEndComplete<F, A>(memory: bool, acts: seq<Action<F, A>>, p: nat)
    requires forall i :: 0 <= i < |acts| ==> IsPlain(acts[i])
    requires p < |acts| && Ends(memory, acts[..p], acts[p])
    ensures var last := |Turns(memory, acts[..p])| - 1;
      0 <= last < |Turns(memory, acts)| && Turns(memory, acts)[last].upto == |Added(acts[..p])|
  {
    assert acts[..p + 1] == acts[..p] + [acts[p]];
    StepEndsComplete(memory, acts[..p], acts[p]);
    TurnsStay(memory, acts, p + 1);
  }
}
