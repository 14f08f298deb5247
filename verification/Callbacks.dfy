/** A callback list that may be added to and fired while its callbacks run.
    The closure variables of the list are the state; the code between two
    callbacks is one step, and whatever a callback does happens in between. */
module Callbacks {
  import opened Wrappers

  /** The list's memory: nothing yet, "fired but not remembered", or the arguments. */
  datatype Memory<A> = Nothing | Fired | Args(args: A)

  datatype Call<F, A> = Call(f: F, args: A)

  datatype Flags = Flags(once: bool, memory: bool)

  /** `list` and `stack` are missing once the list is disabled or locked. While
      `firing`, callback `index` is running with arguments `current`. `trace` is
      the history of all calls made. */
  datatype List<F, A> = List(
    list: Option<seq<F>>, stack: Option<seq<A>>, memory: Memory<A>,
    firing: bool, start: nat, length: nat, index: nat, current: Option<A>, trace: seq<Call<F, A>>)

  function Empty<F, A>(): List<F, A> {
    List(Some([]), Some([]), Nothing, false, 0, 0, 0, None, [])
  }

  function Disable<F, A>(l: List<F, A>): List<F, A> {
    l.(list := None, stack := None, memory := Nothing)
  }

  function Lock<F, A>(l: List<F, A>): List<F, A> {
    if l.memory.Args? then l.(stack := None) else Disable(l)
  }

  /** The loop test: call the next function or leave the loop. */
  function Loop<F, A>(flags: Flags, l: List<F, A>, args: A): List<F, A>
    decreases if l.stack.Some? then |l.stack.value| else 0, 1
  {
    if l.list.Some? && l.index < l.length && l.index < |l.list.value| then
      l.(trace := l.trace + [Call(l.list.value[l.index], args)])
    else Finish(flags, l.(firing := false))
  }

  /** After the loop: a "once" list is emptied or disabled, any other takes the
      next fire that was put off. */
  function Finish<F, A>(flags: Flags, l: List<F, A>): List<F, A>
    decreases if l.stack.Some? then |l.stack.value| else 0, 0
  {
    if l.list.None? then l
    else if flags.once then
      if l.memory.Fired? then Disable(l) else l.(list := Some([]))
    else if l.stack.Some? && l.stack.value != [] then
      Begin(flags, l.(stack := Some(l.stack.value[1..])), l.stack.value[0])
    else l
  }

  /** The head of the firing loop. */
  function Begin<F, A>(flags: Flags, l: List<F, A>, args: A): List<F, A>
    decreases if l.stack.Some? then |l.stack.value| else 0, 2
  {
    var n := if l.list.Some? then |l.list.value| else 0;
    Loop(flags, l.(memory := if flags.memory then Args(args) else Fired, firing := true, index := l.start,
                   start := 0, length := n, current := Some(args)), args)
  }

  function Add<F, A>(flags: Flags, l: List<F, A>, fs: seq<F>): List<F, A> {
    if l.list.None? then l
    else
      var fs0 := l.list.value;
      var l1 := l.(list := Some(fs0 + fs));
      if l.firing then l1.(length := |fs0 + fs|)
      else if l.memory.Args? then Begin(flags, l1.(start := |fs0|), l.memory.args)
      else l1
  }

  function Fire<F, A>(flags: Flags, l: List<F, A>, args: A): List<F, A> {
    if l.stack.None? then l
    else if l.firing then
      if flags.once then l else l.(stack := Some(l.stack.value + [args]))
    else if !flags.once || l.memory.Nothing? then Begin(flags, l, args)
    else l
  }

  /** The running callback returns. */
  function Return<F, A>(flags: Flags, l: List<F, A>): List<F, A> {
    if l.firing && l.current.Some? then Loop(flags, l.(index := l.index + 1), l.current.value) else l
  }

  // ---------- runs ----------

  datatype Action<F, A> = Adds(fs: seq<F>) | Fires(args: A) | Returns | Locks | Disables

  function Step<F, A>(flags: Flags, l: List<F, A>, a: Action<F, A>): List<F, A> {
    match a
    case Adds(fs) => Add(flags, l, fs)
    case Fires(args) => Fire(flags, l, args)
    case Returns => Return(flags, l)
    case Locks => Lock(l)
    case Disables => Disable(l)
  }

  function RunList<F, A>(flags: Flags, l: List<F, A>, acts: seq<Action<F, A>>): List<F, A> {
    if acts == [] then l
    else Step(flags, RunList(flags, l, acts[..|acts| - 1]), acts[|acts| - 1])
  }

  // ---------- disabled and locked lists, whatever their flags ----------

  ghost predicate Off<F, A>(l: List<F, A>) {
    l.list.None? && l.stack.None?
  }

  lemma OffStep<F, A>(flags: Flags, l: List<F, A>, a: Action<F, A>)
    requires Off(l)
    ensures Off(Step(flags, l, a)) && Step(flags, l, a).trace == l.trace
  {
    if a.Returns? && l.firing && l.current.Some? {
      var l1 := l.(index := l.index + 1);
      assert Loop(flags, l1, l.current.value) == Finish(flags, l1.(firing := false)) == l1.(firing := false);
    }
  }

  /** A disabled list never calls anything again, whatever is done to it. */
  lemma {:induction false} DisabledForGood<F, A>(flags: Flags, l: List<F, A>, acts: seq<Action<F, A>>)
    requires Off(l)
    ensures Off(RunList(flags, l, acts)) && RunList(flags, l, acts).trace == l.trace
  {
    if acts != [] {
      DisabledForGood(flags, l, acts[..|acts| - 1]);
      OffStep(flags, RunList(flags, l, acts[..|acts| - 1]), acts[|acts| - 1]);
    }
  }

  lemma LoopStaysLocked<F, A>(flags: Flags, l: List<F, A>, args: A)
    requires l.stack.None?
    ensures Loop(flags, l, args).stack.None?
  {
    var l1 := l.(firing := false);
    assert Finish(flags, l1).stack.None?;
  }

  lemma BeginStaysLocked<F, A>(flags: Flags, l: List<F, A>, args: A)
    requires l.stack.None?
    ensures Begin(flags, l, args).stack.None?
  {
    var n := if l.list.Some? then |l.list.value| else 0;
    LoopStaysLocked(flags, l.(memory := if flags.memory then Args(args) else Fired, firing := true, index := l.start,
                              start := 0, length := n, current := Some(args)), args);
  }

  lemma LockedStep<F, A>(flags: Flags, l: List<F, A>, a: Action<F, A>)
    requires l.stack.None?
    ensures Step(flags, l, a).stack.None? && (a.Fires? ==> Step(flags, l, a) == l)
  {
    match a
    case Adds(fs) =>
      if l.list.Some? && !l.firing && l.memory.Args? {
        BeginStaysLocked(flags, l.(list := Some(l.list.value + fs), start := |l.list.value|), l.memory.args);
      }
    case Returns =>
      if l.firing && l.current.Some? { LoopStaysLocked(flags, l.(index := l.index + 1), l.current.value); }
    case _ =>
  }

  /** A run with all its fires left out. */
  function WithoutFires<F, A>(acts: seq<Action<F, A>>): seq<Action<F, A>> {
    if acts == [] then []
    else WithoutFires(acts[..|acts| - 1]) + if acts[|acts| - 1].Fires? then [] else [acts[|acts| - 1]]
  }

  lemma RunOneMore<F, A>(flags: Flags, l: List<F, A>, acts: seq<Action<F, A>>, a: Action<F, A>)
    ensures RunList(flags, l, acts + [a]) == Step(flags, RunList(flags, l, acts), a)
  {
    assert (acts + [a])[..|acts|] == acts;
  }

  /** No fire of a locked list has any effect, then or later. */
  lemma {:induction false} LockedIgnoresFires<F, A>(flags: Flags, l: List<F, A>, acts: seq<Action<F, A>>)
    requires l.stack.None?
    ensures RunList(flags, l, acts).stack.None?
    ensures RunList(flags, l, acts) == RunList(flags, l, WithoutFires(acts))
  {
    if acts != [] {
      var before, a := acts[..|acts| - 1], acts[|acts| - 1];
      LockedIgnoresFires(flags, l, before);
      LockedStep(flags, RunList(flags, l, before), a);
      if a.Fires? {
        assert WithoutFires(acts) == WithoutFires(before);
      } else {
        RunOneMore(flags, l, WithoutFires(before), a);
      }
    }
  }

  // ---------- exactly once, in order ----------

  const ONCE_MEMORY := Flags(true, true)

  /** Exactly the functions `added[..|trace|]` have been called, in order, with the
      arguments of the first fire. */
  ghost predicate CalledInOrder<F, A>(trace: seq<Call<F, A>>, added: seq<F>, args: A) {
    && |trace| <= |added|
    && forall k :: 0 <= k < |trace| ==> trace[k] == Call(added[k], args)
  }

  /** A "once memory" list before, during and after its only firing. */
  ghost predicate OnceList<F, A>(l: List<F, A>, added: seq<F>, first: Option<A>) {
    && l.list.Some? && l.start == 0
    && match first
       case None =>
         !l.firing && l.stack.Some? && l.memory.Nothing? && l.list.value == added && l.trace == []
       case Some(args) =>
         && l.memory == Args(args) && CalledInOrder(l.trace, added, args)
         && if l.firing then
              && l.current == Some(args)
              && l.length == |l.list.value| && l.index < l.length && l.index + 1 <= |l.trace|
              && l.list.value == added[|l.trace| - l.index - 1..]
            else l.list.value == [] && |l.trace| == |added|
  }

  /** One turn of the loop of a "once memory" list: the next call, or the end. */
  function Turn<F, A>(l: List<F, A>, args: A): List<F, A>
    requires l.list.Some?
  {
    if l.index < l.length && l.index < |l.list.value|
    then l.(trace := l.trace + [Call(l.list.value[l.index], args)])
    else l.(firing := false, list := Some([]))
  }

  /** The state in which the loop is entered. */
  function Entered<F, A>(l: List<F, A>, args: A): List<F, A>
    requires l.list.Some?
  {
    l.(memory := Args(args), firing := true, index := l.start, start := 0,
       length := |l.list.value|, current := Some(args))
  }

  lemma OnceLoop<F, A>(l: List<F, A>, args: A)
    requires l.list.Some? && l.memory.Args?
    ensures Loop(ONCE_MEMORY, l, args) == Turn(l, args)
  {
    if !(l.index < l.length && l.index < |l.list.value|) {
      assert Finish(ONCE_MEMORY, l.(firing := false)) == l.(firing := false, list := Some([]));
    }
  }

  lemma OnceBegin<F, A>(l: List<F, A>, args: A)
    requires l.list.Some?
    ensures Begin(ONCE_MEMORY, l, args) == Turn(Entered(l, args), args)
  {
    assert Begin(ONCE_MEMORY, l, args) == Loop(ONCE_MEMORY, Entered(l, args), args);
    OnceLoop(Entered(l, args), args);
  }

  /** What an add does to a "once memory" list. */
  lemma OnceAdd<F, A>(l: List<F, A>, fs: seq<F>)
    requires l.list.Some?
    ensures Add(ONCE_MEMORY, l, fs) ==
      var l1 := l.(list := Some(l.list.value + fs));
      if l.firing then l1.(length := |l.list.value + fs|)
      else if l.memory.Args? then Turn(Entered(l1.(start := |l.list.value|), l.memory.args), l.memory.args)
      else l1
  {
    if !l.firing && l.memory.Args? {
      OnceBegin(l.(list := Some(l.list.value + fs), start := |l.list.value|), l.memory.args);
    }
  }

  lemma AddKeepsOnce<F, A>(l: List<F, A>, added: seq<F>, first: Option<A>, fs: seq<F>)
    requires OnceList(l, added, first)
    ensures OnceList(Add(ONCE_MEMORY, l, fs), added + fs, first)
  {
    OnceAdd(l, fs);
    if first.Some? {
      if l.firing { AddWhileFiring(l, added, first.value, fs); } else { AddAfterFiring(l, added, first.value, fs); }
    }
  }

  lemma AddWhileFiring<F, A>(l: List<F, A>, added: seq<F>, args: A, fs: seq<F>)
    requires OnceList(l, added, Some(args)) && l.firing
    ensures OnceList(l.(list := Some(l.list.value + fs), length := |l.list.value + fs|), added + fs, Some(args))
  {
    var b := |l.trace| - l.index - 1;
    assert added[b..] + fs == (added + fs)[b..];
  }

  lemma AddAfterFiring<F, A>(l: List<F, A>, added: seq<F>, args: A, fs: seq<F>)
    requires OnceList(l, added, Some(args)) && !l.firing
    ensures OnceList(Turn(Entered(l.(list := Some(l.list.value + fs), start := |l.list.value|), args), args),
                     added + fs, Some(args))
  {
    assert l.list.value + fs == fs;
    ReplayTurn(l, added, args, fs);
  }

  /** The new functions are all there is to call. */
  lemma ReplayTurn<F, A>(l: List<F, A>, added: seq<F>, args: A, fs: seq<F>)
    requires OnceList(l, added, Some(args)) && !l.firing
    ensures OnceList(Turn(Entered(l.(list := Some(fs), start := 0), args), args), added + fs, Some(args))
  {
    var r := Turn(Entered(l.(list := Some(fs), start := 0), args), args);
    assert fs == (added + fs)[|added|..];
    if fs != [] { assert r.trace == l.trace + [Call(fs[0], args)]; }
  }

  lemma FireKeepsOnce<F, A>(l: List<F, A>, added: seq<F>, first: Option<A>, args: A)
    requires OnceList(l, added, first)
    ensures OnceList(Fire(ONCE_MEMORY, l, args), added, if first.None? then Some(args) else first)
  {
    if first.None? {
      OnceBegin(l, args);
      FirstTurn(l, added, args);
    }
  }

  lemma FirstTurn<F, A>(l: List<F, A>, added: seq<F>, args: A)
    requires OnceList(l, added, None)
    ensures OnceList(Turn(Entered(l, args), args), added, Some(args))
  {
  }

  lemma ReturnKeepsOnce<F, A>(l: List<F, A>, added: seq<F>, first: Option<A>)
    requires OnceList(l, added, first)
    ensures OnceList(Return(ONCE_MEMORY, l), added, first)
    ensures l.firing ==> |Return(ONCE_MEMORY, l).trace| - (if Return(ONCE_MEMORY, l).firing then 1 else 0) == |l.trace|
  {
    if l.firing {
      var l1 := l.(index := l.index + 1);
      OnceLoop(l1, first.value);
      assert Return(ONCE_MEMORY, l) == Turn(l1, first.value);
      NextTurn(l, added, first.value, Turn(l1, first.value));
    }
  }

  lemma NextTurn<F, A>(l: List<F, A>, added: seq<F>, args: A, r: List<F, A>)
    requires OnceList(l, added, Some(args)) && l.firing && r == Turn(l.(index := l.index + 1), args)
    ensures OnceList(r, added, Some(args)) && |r.trace| - (if r.firing then 1 else 0) == |l.trace|
  {
  }

  /** What has been done to a "once memory" list: the functions added and the arguments of
      the first fire, up to the moment it was closed. It is closed by being disabled, or by
      being locked before it has fired. */
  datatype Book<F, A> = Book(added: seq<F>, first: Option<A>, closed: bool)

  function Noted<F, A>(b: Book<F, A>, a: Action<F, A>): Book<F, A> {
    if b.closed then b
    else
      match a
      case Adds(fs) => b.(added := b.added + fs)
      case Fires(args) => if b.first.None? then b.(first := Some(args)) else b
      case Returns => b
      case Locks => b.(closed := b.first.None?)
      case Disables => b.(closed := true)
  }

  function Notes<F, A>(acts: seq<Action<F, A>>): Book<F, A> {
    if acts == [] then Book([], None, false) else Noted(Notes(acts[..|acts| - 1]), acts[|acts| - 1])
  }

  /** Nothing has been called before the first fire; after it, a prefix of the functions
      added, each once, in order, with its arguments; and all of them when the list is idle
      and has not been closed. */
  ghost predicate Delivered<F, A>(trace: seq<Call<F, A>>, firing: bool, b: Book<F, A>) {
    match b.first
    case None => trace == [] && !firing
    case Some(args) => CalledInOrder(trace, b.added, args) && (!firing && !b.closed ==> |trace| == |b.added|)
  }

  ghost predicate Kept<F, A>(l: List<F, A>, b: Book<F, A>) {
    if b.closed then Off(l) && Delivered(l.trace, l.firing, b) else OnceList(l, b.added, b.first)
  }

  lemma KeptIsDelivered<F, A>(l: List<F, A>, b: Book<F, A>)
    requires Kept(l, b)
    ensures Delivered(l.trace, l.firing, b)
  {
  }

  lemma StepKeeps<F, A>(l: List<F, A>, b: Book<F, A>, a: Action<F, A>)
    requires Kept(l, b)
    ensures Kept(Step(ONCE_MEMORY, l, a), Noted(b, a))
  {
    if b.closed {
      OffStep(ONCE_MEMORY, l, a);
    } else {
      match a
      case Adds(fs) => AddKeepsOnce(l, b.added, b.first, fs);
      case Fires(args) => FireKeepsOnce(l, b.added, b.first, args);
      case Returns => ReturnKeepsOnce(l, b.added, b.first);
      case Locks =>
      case Disables =>
    }
  }

  lemma {:induction false} RunKeeps<F, A>(acts: seq<Action<F, A>>)
    ensures Kept(RunList(ONCE_MEMORY, Empty<F, A>(), acts), Notes(acts))
  {
    if acts != [] {
      RunKeeps(acts[..|acts| - 1]);
      StepKeeps(RunList(ONCE_MEMORY, Empty<F, A>(), acts[..|acts| - 1]), Notes(acts[..|acts| - 1]), acts[|acts| - 1]);
    }
  }

  /** In any run of a "once memory" list, with adds, fires, locks and disables before,
      during and after firing, the calls made are a prefix of the functions added before
      the list was closed, each once, in the order added, with the first fire's arguments;
      nothing is called before the first fire, and when the list is idle after it and has
      not been closed, everything has been called. */
  lemma ExactlyOnce<F, A>(acts: seq<Action<F, A>>)
    ensures var l := RunList(ONCE_MEMORY, Empty<F, A>(), acts); Delivered(l.trace, l.firing, Notes(acts))
  {
    RunKeeps(acts);
    KeptIsDelivered(RunList(ONCE_MEMORY, Empty<F, A>(), acts), Notes(acts));
  }
}
