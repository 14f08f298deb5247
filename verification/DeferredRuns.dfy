/** A Deferred settles at most once, for good, and runs the callbacks of one
    side only. */
module DeferredRuns {
  import opened Wrappers
  import opened Callbacks
  import opened Deferred

  /** The Deferred's own three functions come first, user functions after them. */
  ghost predicate Starts(added: seq<Fn>, w: Which) {
    3 <= |added| && forall k :: 0 <= k < |added| ==> if k < 3 then added[k] == OwnAt(w, k) else added[k].User?
  }

  /** A settling list that has not fired. */
  ghost predicate Open<A>(l: List<Fn, A>, w: Which) {
    l.list.Some? && Starts(l.list.value, w) && OnceList(l, l.list.value, None)
  }

  /** A settling list that has been disabled without ever firing. */
  ghost predicate Dead<A>(l: List<Fn, A>) {
    l.list.None? && l.stack.None? && l.memory.Nothing? && !l.firing && l.trace == []
  }

  /** How many functions of a list have returned. */
  ghost function Completed<A>(l: List<Fn, A>): int {
    |l.trace| - if l.firing then 1 else 0
  }

  /** The running lists are the firing ones, each once; progress holds user functions only. */
  ghost predicate Common<A>(d: Deferred<A>) {
    && (forall w :: w in d.running <==> Get(d, w).firing)
    && (forall i, j :: 0 <= i < j < |d.running| ==> d.running[i] != d.running[j])
    && AllUser(d.progress)
  }

  ghost predicate AllUser<A>(l: List<Fn, A>) {
    l.list.Some? ==> forall k :: 0 <= k < |l.list.value| ==> l.list.value[k].User?
  }

  ghost predicate Undecided<A>(d: Deferred<A>) {
    Common(d) && d.status == Pending && Open(d.done, Done) && Open(d.fail, Fail)
  }

  /** List `w` has fired with `args`; what is settled depends on how many of its own
      functions have returned. */
  ghost predicate Won<A>(d: Deferred<A>, w: Which, added: seq<Fn>, args: A) {
    && w != Progress && Common(d) && Starts(added, w)
    && OnceList(Get(d, w), added, Some(args))
    && d.status == (if 1 <= Completed(Get(d, w)) then StatusOf(w) else Pending)
    && (if Completed(Get(d, w)) < 2 then Open(Get(d, Other(w)), Other(w)) else Dead(Get(d, Other(w))))
    && (Completed(Get(d, w)) < 3 ==> Get(d, w).firing && d.running != [] && d.running[|d.running| - 1] == w)
  }

  // ---------- the progress list ----------

  lemma {:induction false} LoopKeepsList<A>(l: List<Fn, A>, args: A)
    ensures Loop(FlagsOf(Progress), l, args).list == l.list
    decreases if l.stack.Some? then |l.stack.value| else 0
  {
    if !(l.list.Some? && l.index < l.length && l.index < |l.list.value|)
      && l.list.Some? && l.stack.Some? && l.stack.value != []
    {
      var l1 := l.(firing := false, stack := Some(l.stack.value[1..]));
      var l2 := l1.(memory := Args(l.stack.value[0]), firing := true, index := l1.start, start := 0,
                    length := |l.list.value|, current := Some(l.stack.value[0]));
      assert Begin(FlagsOf(Progress), l1, l.stack.value[0]) == Loop(FlagsOf(Progress), l2, l.stack.value[0]);
      LoopKeepsList(l2, l.stack.value[0]);
    }
  }

  lemma BeginKeepsList<A>(l: List<Fn, A>, args: A)
    ensures Begin(FlagsOf(Progress), l, args).list == l.list
  {
    var n := if l.list.Some? then |l.list.value| else 0;
    LoopKeepsList(l.(memory := Args(args), firing := true, index := l.start, start := 0,
                     length := n, current := Some(args)), args);
  }

  lemma AddStaysUser<A>(l: List<Fn, A>, fs: seq<nat>)
    requires AllUser(l)
    ensures AllUser(Add(FlagsOf(Progress), l, UserFns(fs)))
  {
    if l.list.Some? && !l.firing && l.memory.Args? {
      BeginKeepsList(l.(list := Some(l.list.value + UserFns(fs)), start := |l.list.value|), l.memory.args);
    }
  }

  lemma FireStaysUser<A>(l: List<Fn, A>, args: A)
    requires AllUser(l)
    ensures AllUser(Fire(FlagsOf(Progress), l, args))
  {
    BeginKeepsList(l, args);
  }

  lemma ReturnStaysUser<A>(l: List<Fn, A>)
    requires AllUser(l)
    ensures AllUser(Return(FlagsOf(Progress), l))
  {
    if l.current.Some? { LoopKeepsList(l.(index := l.index + 1), l.current.value); }
  }

  // ---------- steps ----------

  /** Stepping one list keeps the bookkeeping of the running ones, if a firing list
      does not stop by itself. */
  lemma SteppedCommon<A>(d: Deferred<A>, w: Which, l: List<Fn, A>)
    requires Common(d) && (Get(d, w).firing ==> l.firing) && (w == Progress ==> AllUser(l))
    ensures Common(Stepped(d, w, l))
  {
    var r := Stepped(d, w, l);
    forall v ensures v in r.running <==> Get(r, v).firing {
      assert v in d.running <==> Get(d, v).firing;
    }
  }

  lemma AddKeepsFiring<A>(flags: Flags, l: List<Fn, A>, fs: seq<Fn>)
    ensures l.firing ==> Add(flags, l, fs).firing
  {
  }

  lemma FireKeepsFiring<A>(flags: Flags, l: List<Fn, A>, args: A)
    ensures l.firing ==> Fire(flags, l, args).firing
  {
  }

  lemma FlagsOfSettling(w: Which)
    requires w != Progress
    ensures FlagsOf(w) == ONCE_MEMORY
  {
  }

  lemma OpenAdd<A>(l: List<Fn, A>, w: Which, fs: seq<nat>)
    requires Open(l, w) && w != Progress
    ensures Open(Add(FlagsOf(w), l, UserFns(fs)), w) && !Add(FlagsOf(w), l, UserFns(fs)).firing
  {
  }

  lemma UndecidedAdd<A>(d: Deferred<A>, w: Which, fs: seq<nat>)
    requires Undecided(d)
    ensures Undecided(Stepped(d, w, Add(FlagsOf(w), Get(d, w), UserFns(fs))))
  {
    var l := Add(FlagsOf(w), Get(d, w), UserFns(fs));
    AddKeepsFiring(FlagsOf(w), Get(d, w), UserFns(fs));
    if w == Progress {
      AddStaysUser(d.progress, fs);
    } else {
      OpenAdd(Get(d, w), w, fs);
    }
    SteppedCommon(d, w, l);
  }

  /** Notifying decides nothing. */
  lemma UndecidedNotify<A>(d: Deferred<A>, args: A)
    requires Undecided(d)
    ensures Undecided(Stepped(d, Progress, Fire(FlagsOf(Progress), d.progress, args)))
  {
    FireKeepsFiring(FlagsOf(Progress), d.progress, args);
    FireStaysUser(d.progress, args);
    SteppedCommon(d, Progress, Fire(FlagsOf(Progress), d.progress, args));
  }

  /** The first fire of a settling list decides. */
  lemma UndecidedFire<A>(d: Deferred<A>, w: Which, args: A)
    requires Undecided(d) && w != Progress
    ensures Won(Stepped(d, w, Fire(FlagsOf(w), Get(d, w), args)), w, Get(d, w).list.value, args)
  {
    var l := Fire(FlagsOf(w), Get(d, w), args);
    FlagsOfSettling(w);
    FireKeepsOnce(Get(d, w), Get(d, w).list.value, None, args);
    OpenFires(Get(d, w), w, args);
    SteppedCommon(d, w, l);
    SteppedFirst(d, w, l);
    JustFired(d, Stepped(d, w, l), w, args);
  }

  lemma SteppedFirst<A>(d: Deferred<A>, w: Which, l: List<Fn, A>)
    requires w != Progress && l.firing && !Get(d, w).firing
    ensures var r := Stepped(d, w, l);
      && Get(r, w) == l && Get(r, Other(w)) == Get(d, Other(w))
      && r.status == d.status && r.running == d.running + [w]
  {
    PutGet(d, w, l);
  }

  lemma JustFired<A>(d: Deferred<A>, r: Deferred<A>, w: Which, args: A)
    requires Undecided(d) && w != Progress && Common(r)
    requires OnceList(Get(r, w), Get(d, w).list.value, Some(args)) && Get(r, w).firing && |Get(r, w).trace| == 1
    requires Get(r, Other(w)) == Get(d, Other(w)) && r.status == d.status && r.running == d.running + [w]
    ensures Won(r, w, Get(d, w).list.value, args)
  {
  }

  lemma OpenFires<A>(l: List<Fn, A>, w: Which, args: A)
    requires Open(l, w)
    ensures Fire(ONCE_MEMORY, l, args).firing && |Fire(ONCE_MEMORY, l, args).trace| == 1
  {
    OnceBegin(l, args);
  }

  lemma UndecidedReturn<A>(d: Deferred<A>)
    requires Undecided(d) && d.running != []
    ensures Undecided(Finished(d))
  {
    var w := d.running[|d.running| - 1];
    assert w in d.running;
    assert w == Progress;
    ProgressReturn(d);
  }

  /** A progress callback returns: nothing but the progress list changes. */
  lemma ProgressReturn<A>(d: Deferred<A>)
    requires Common(d) && d.running != [] && d.running[|d.running| - 1] == Progress
    ensures var r := Finished(d);
      Common(r) && r.done == d.done && r.fail == d.fail && r.status == d.status
  {
    var r := Finished(d);
    ReturnStaysUser(d.progress);
    assert r.progress == Return(FlagsOf(Progress), d.progress);
    PoppedCommon(d, r);
  }

  /** The innermost list has been stepped, and is popped if it has stopped. */
  lemma PoppedCommon<A>(d: Deferred<A>, r: Deferred<A>)
    requires Common(d) && d.running != [] && AllUser(r.progress)
    requires var w := d.running[|d.running| - 1];
      && (forall v :: v != w ==> Get(r, v).firing == Get(d, v).firing)
      && r.running == if Get(r, w).firing then d.running else d.running[..|d.running| - 1]
    ensures Common(r)
  {
    var w := d.running[|d.running| - 1];
    assert d.running == d.running[..|d.running| - 1] + [w];
    forall v ensures v in r.running <==> Get(r, v).firing {
      assert v in d.running <==> Get(d, v).firing;
      if v == w { assert w !in d.running[..|d.running| - 1]; }
    }
  }

  // ---------- after the decision ----------

  /** The running callback of a "once memory" list is the last one called. */
  lemma RunningIsLastCalled<A>(l: List<Fn, A>, added: seq<Fn>, args: A)
    requires OnceList(l, added, Some(args)) && l.firing
    ensures l.list.value[l.index] == added[Completed(l)]
  {
  }

  /** While one of its own three functions runs, user code cannot. */
  lemma OwnFunctionRuns<A>(d: Deferred<A>, w: Which, added: seq<Fn>, args: A)
    requires Starts(added, w) && OnceList(Get(d, w), added, Some(args)) && Get(d, w).firing
    requires d.running != [] && d.running[|d.running| - 1] == w
    ensures RunningFn(d) == Some(added[Completed(Get(d, w))])
    ensures Completed(Get(d, w)) < 3 ==> !Quiet(d)
  {
    RunningIsLastCalled(Get(d, w), added, args);
  }

  lemma WonAdd<A>(d: Deferred<A>, w: Which, added: seq<Fn>, args: A, v: Which, fs: seq<nat>)
    requires Won(d, w, added, args) && 3 <= Completed(Get(d, w))
    ensures Won(Stepped(d, v, Add(FlagsOf(v), Get(d, v), UserFns(fs))), w,
                if v == w then added + UserFns(fs) else added, args)
  {
    if v == w {
      WonGrows(d, w, added, args, fs);
    } else if v == Progress {
      WonProgressAdd(d, w, added, args, fs);
    } else {
      SteppedSame(d, v);
    }
  }

  lemma WonProgressAdd<A>(d: Deferred<A>, w: Which, added: seq<Fn>, args: A, fs: seq<nat>)
    requires Won(d, w, added, args) && 3 <= Completed(Get(d, w))
    ensures Won(Stepped(d, Progress, Add(FlagsOf(Progress), d.progress, UserFns(fs))), w, added, args)
  {
    var l := Add(FlagsOf(Progress), d.progress, UserFns(fs));
    AddKeepsFiring(FlagsOf(Progress), d.progress, UserFns(fs));
    AddStaysUser(d.progress, fs);
    SteppedCommon(d, Progress, l);
    ProgressStep(d, l);
    LateStepKeepsWon(d, Stepped(d, Progress, l), w, added, args);
  }

  lemma WonGrows<A>(d: Deferred<A>, w: Which, added: seq<Fn>, args: A, fs: seq<nat>)
    requires Won(d, w, added, args) && 3 <= Completed(Get(d, w))
    ensures Won(Stepped(d, w, Add(FlagsOf(w), Get(d, w), UserFns(fs))), w, added + UserFns(fs), args)
  {
    var l := Add(FlagsOf(w), Get(d, w), UserFns(fs));
    FlagsOfSettling(w);
    AddKeepsFiring(FlagsOf(w), Get(d, w), UserFns(fs));
    SteppedCommon(d, w, l);
    AddKeepsOnce(Get(d, w), added, Some(args), UserFns(fs));
    AddKeepsCompleted(Get(d, w), added, args, UserFns(fs));
    LateGrowth(d, Stepped(d, w, l), w, added, added + UserFns(fs), args);
  }

  lemma LateGrowth<A>(d: Deferred<A>, r: Deferred<A>, w: Which, added: seq<Fn>, more: seq<Fn>, args: A)
    requires Won(d, w, added, args) && 3 <= Completed(Get(d, w)) && Common(r) && Starts(more, w)
    requires OnceList(Get(r, w), more, Some(args)) && 3 <= Completed(Get(r, w))
    requires Get(r, Other(w)) == Get(d, Other(w)) && r.status == d.status
    ensures Won(r, w, more, args)
  {
  }

  lemma AddKeepsCompleted<A>(l: List<Fn, A>, added: seq<Fn>, args: A, fs: seq<Fn>)
    requires OnceList(l, added, Some(args))
    ensures |l.trace| - (if l.firing then 1 else 0) <= Completed(Add(ONCE_MEMORY, l, fs))
  {
    OnceAdd(l, fs);
  }

  lemma SteppedSame<A>(d: Deferred<A>, v: Which)
    ensures Stepped(d, v, Get(d, v)) == d
  {
  }

  lemma WonFire<A>(d: Deferred<A>, w: Which, added: seq<Fn>, args: A, v: Which, again: A)
    requires Won(d, w, added, args) && 3 <= Completed(Get(d, w))
    ensures Won(Stepped(d, v, Fire(FlagsOf(v), Get(d, v), again)), w, added, args)
  {
    if v == Progress {
      WonNotify(d, w, added, args, again);
    } else {
      SteppedSame(d, v);
      FlagsOfSettling(v);
      if v == w { FireAgain(Get(d, w), added, args, again); }
    }
  }

  lemma WonNotify<A>(d: Deferred<A>, w: Which, added: seq<Fn>, args: A, note: A)
    requires Won(d, w, added, args) && 3 <= Completed(Get(d, w))
    ensures Won(Stepped(d, Progress, Fire(FlagsOf(Progress), d.progress, note)), w, added, args)
  {
    FireKeepsFiring(FlagsOf(Progress), d.progress, note);
    FireStaysUser(d.progress, note);
    SteppedCommon(d, Progress, Fire(FlagsOf(Progress), d.progress, note));
    ProgressStep(d, Fire(FlagsOf(Progress), d.progress, note));
    LateStepKeepsWon(d, Stepped(d, Progress, Fire(FlagsOf(Progress), d.progress, note)), w, added, args);
  }

  lemma ProgressStep<A>(d: Deferred<A>, l: List<Fn, A>)
    ensures var r := Stepped(d, Progress, l); r.done == d.done && r.fail == d.fail && r.status == d.status
  {
  }

  lemma LateStepKeepsWon<A>(d: Deferred<A>, r: Deferred<A>, w: Which, added: seq<Fn>, args: A)
    requires Won(d, w, added, args) && 3 <= Completed(Get(d, w)) && Common(r)
    requires r.done == d.done && r.fail == d.fail && r.status == d.status
    ensures Won(r, w, added, args)
  {
  }

  lemma WonReturn<A>(d: Deferred<A>, w: Which, added: seq<Fn>, args: A)
    requires Won(d, w, added, args) && d.running != []
    ensures Won(Finished(d), w, added, args)
  {
    var v := d.running[|d.running| - 1];
    assert v in d.running;
    if v == w {
      WonOwnReturn(d, w, added, args);
    } else {
      assert v == Progress;
      ProgressReturn(d);
    }
  }

  /** What the `k`-th function of the winning list does. */
  lemma PerformOwn<A>(d: Deferred<A>, w: Which, added: seq<Fn>, k: nat)
    requires w != Progress && Starts(added, w) && k < |added|
    ensures var r := Perform(d, added[k]);
      && Get(r, w) == Get(d, w) && r.running == d.running
      && r.status == (if k == 0 then StatusOf(w) else d.status)
      && Get(r, Other(w)) == (if k == 1 then Disable(Get(d, Other(w))) else Get(d, Other(w)))
      && r.progress == (if k == 2 then Lock(d.progress) else d.progress)
  {
  }

  lemma PutGet<A>(d: Deferred<A>, w: Which, l: List<Fn, A>)
    requires w != Progress
    ensures var r := Put(d, w, l);
      && Get(r, w) == l && Get(r, Other(w)) == Get(d, Other(w)) && r.progress == d.progress
      && r.status == d.status && r.running == d.running
  {
  }

  /** The effect of the `k`-th function of list `w`, followed by one step of the list. */
  ghost predicate OwnStep<A>(d: Deferred<A>, r: Deferred<A>, w: Which, k: int) {
    && Get(r, w) == Return(ONCE_MEMORY, Get(d, w))
    && r.status == (if k == 0 then StatusOf(w) else d.status)
    && Get(r, Other(w)) == (if k == 1 then Disable(Get(d, Other(w))) else Get(d, Other(w)))
    && r.progress == (if k == 2 then Lock(d.progress) else d.progress)
    && (d.running != [] ==> r.running == if Get(r, w).firing then d.running else d.running[..|d.running| - 1])
  }

  lemma FinishedOwn<A>(d: Deferred<A>, w: Which, added: seq<Fn>, args: A)
    requires w != Progress && Starts(added, w) && OnceList(Get(d, w), added, Some(args)) && Get(d, w).firing
    requires d.running != [] && d.running[|d.running| - 1] == w
    ensures OwnStep(d, Finished(d), w, Completed(Get(d, w)))
  {
    OwnFunctionRuns(d, w, added, args);
    PerformOwn(d, w, added, Completed(Get(d, w)));
    FlagsOfSettling(w);
    LeftAfter(d, Perform(d, added[Completed(Get(d, w))]), w, Return(ONCE_MEMORY, Get(d, w)), Completed(Get(d, w)));
  }

  lemma LeftAfter<A>(d: Deferred<A>, d1: Deferred<A>, w: Which, l: List<Fn, A>, k: int)
    requires w != Progress && l == Return(ONCE_MEMORY, Get(d, w)) && d1.running == d.running
    requires d1.status == (if k == 0 then StatusOf(w) else d.status)
    requires Get(d1, Other(w)) == (if k == 1 then Disable(Get(d, Other(w))) else Get(d, Other(w)))
    requires d1.progress == (if k == 2 then Lock(d.progress) else d.progress)
    ensures OwnStep(d, Left(d1, w, l), w, k)
  {
    PutGet(d1, w, l);
  }

  lemma OwnStepKeepsCommon<A>(d: Deferred<A>, r: Deferred<A>, w: Which, k: int)
    requires Common(d) && OwnStep(d, r, w, k) && w != Progress
    requires d.running != [] && d.running[|d.running| - 1] == w
    ensures Common(r)
  {
    forall v | v != w ensures Get(r, v).firing == Get(d, v).firing {
      assert v == Other(w) || v == Progress;
    }
    PoppedCommon(d, r);
  }

  lemma WonOwnReturn<A>(d: Deferred<A>, w: Which, added: seq<Fn>, args: A)
    requires Won(d, w, added, args) && d.running != [] && d.running[|d.running| - 1] == w
    ensures Won(Finished(d), w, added, args)
  {
    assert w in d.running;
    FinishedOwn(d, w, added, args);
    ReturnKeepsOnce(Get(d, w), added, Some(args));
    OwnStepKeepsCommon(d, Finished(d), w, Completed(Get(d, w)));
    OwnStepKeepsWon(d, Finished(d), w, added, args);
  }

  lemma OwnStepKeepsWon<A>(d: Deferred<A>, r: Deferred<A>, w: Which, added: seq<Fn>, args: A)
    requires Won(d, w, added, args) && OwnStep(d, r, w, Completed(Get(d, w))) && Common(r) && Get(d, w).firing
    requires d.running != [] && d.running[|d.running| - 1] == w
    requires OnceList(Get(r, w), added, Some(args)) && Completed(Get(r, w)) == Completed(Get(d, w)) + 1
    ensures Won(r, w, added, args)
  {
  }

  // ---------- runs ----------

  /** The functions one step adds to list `w`. */
  function Accepts<A>(d: Deferred<A>, op: Op<A>, w: Which): seq<Fn> {
    match op
    case AddTo(v, fs) => if Quiet(d) && v == w then UserFns(fs) else []
    case _ => []
  }

  /** All functions added to list `w` in a run, in order. */
  function Accepted<A>(d: Deferred<A>, ops: seq<Op<A>>, w: Which): seq<Fn>
    decreases |ops|
  {
    if ops == [] then [] else Accepts(d, ops[0], w) + Accepted(Next(d, ops[0]), ops[1..], w)
  }

  lemma AcceptedStep<A>(d: Deferred<A>, ops: seq<Op<A>>, w: Which, added: seq<Fn>)
    requires ops != []
    ensures added + Accepted(d, ops, w) == (added + Accepts(d, ops[0], w)) + Accepted(Next(d, ops[0]), ops[1..], w)
  {
    Regroup(added, Accepts(d, ops[0], w), Accepted(Next(d, ops[0]), ops[1..], w));
  }

  lemma Regroup(a: seq<Fn>, b: seq<Fn>, c: seq<Fn>)
    ensures a + (b + c) == (a + b) + c
  {
  }

  /** A decided Deferred stays decided the same way. */
  lemma WonStep<A>(d: Deferred<A>, w: Which, added: seq<Fn>, args: A, op: Op<A>)
    requires Won(d, w, added, args)
    ensures Won(Next(d, op), w, added + Accepts(d, op, w), args)
  {
    assert added + [] == added;
    if op.Returns? {
      if d.running != [] { WonReturn(d, w, added, args); }
    } else {
      if Completed(Get(d, w)) < 3 {
        OwnFunctionRuns(d, w, added, args);
      } else if Quiet(d) {
        match op
        case AddTo(v, fs) => WonAdd(d, w, added, args, v, fs);
        case FireOn(v, again) => WonFire(d, w, added, args, v, again);
      }
    }
  }

  lemma {:induction false} WonRun<A>(d: Deferred<A>, w: Which, added: seq<Fn>, args: A, ops: seq<Op<A>>)
    requires Won(d, w, added, args)
    ensures Won(Run(d, ops), w, added + Accepted(d, ops, w), args)
    ensures Completed(Get(d, w)) <= Completed(Get(Run(d, ops), w))
    decreases |ops|
  {
    if ops == [] {
      assert added + [] == added;
    } else {
      WonStep(d, w, added, args, ops[0]);
      StepCompletes(d, w, added, args, ops[0]);
      WonRun(Next(d, ops[0]), w, added + Accepts(d, ops[0], w), args, ops[1..]);
      AcceptedStep(d, ops, w, added);
    }
  }

  /** Before anything is decided a step only adds functions, or decides. */
  lemma UndecidedStep<A>(d: Deferred<A>, op: Op<A>)
    requires Undecided(d)
    ensures var r := Next(d, op);
      if op.FireOn? && op.w != Progress && Quiet(d)
      then Won(r, op.w, Get(d, op.w).list.value, op.args)
      else Undecided(r) && r.done.list.value == d.done.list.value + Accepts(d, op, Done)
                        && r.fail.list.value == d.fail.list.value + Accepts(d, op, Fail)
  {
    match op
    case AddTo(w, fs) => if Quiet(d) { UndecidedAdd(d, w, fs); }
    case FireOn(w, args) =>
      if Quiet(d) {
        if w == Progress { UndecidedNotify(d, args); } else { UndecidedFire(d, w, args); }
      }
    case Returns =>
      if d.running != [] {
        UndecidedReturn(d);
        assert d.running[|d.running| - 1] in d.running;
        ProgressReturn(d);
      }
  }

  /** What settles a Deferred: the first resolve or reject of the run. */
  function FirstSettling<A>(ops: seq<Op<A>>): (r: Option<Op<A>>)
    ensures r.Some? ==> r.value.FireOn? && r.value.w != Progress && r.value in ops
    decreases |ops|
  {
    if ops == [] then None
    else if ops[0].FireOn? && ops[0].w != Progress then Some(ops[0])
    else FirstSettling(ops[1..])
  }

  /** Until then nothing but users' functions runs. */
  lemma UndecidedIsQuiet<A>(d: Deferred<A>)
    requires Undecided(d)
    ensures Quiet(d)
  {
    if d.running != [] {
      var w := d.running[|d.running| - 1];
      assert w in d.running;
      assert w == Progress;
    }
  }

  /** After it, once the Deferred's own three functions have returned. */
  lemma WonIsQuietIff<A>(d: Deferred<A>, w: Which, added: seq<Fn>, args: A)
    requires Won(d, w, added, args)
    ensures Quiet(d) <==> 3 <= Completed(Get(d, w))
  {
    if Completed(Get(d, w)) < 3 {
      OwnFunctionRuns(d, w, added, args);
    } else if d.running != [] {
      var v := d.running[|d.running| - 1];
      assert v in d.running;
      if v == w { OwnFunctionRuns(d, w, added, args); } else { assert v == Progress; }
    }
  }

  /** The list `w` of an undecided Deferred with everything the run adds to it. */
  function AllFns<A>(d: Deferred<A>, ops: seq<Op<A>>, w: Which): seq<Fn>
    requires Get(d, w).list.Some?
  {
    Get(d, w).list.value + Accepted(d, ops, w)
  }

  /** Where a run ends, what has settled it, and all functions given to the winning side. */
  lemma {:induction false} EveryRun<A>(d: Deferred<A>, ops: seq<Op<A>>)
    returns (r: Deferred<A>, op: Option<Op<A>>, fns: seq<Fn>)
    requires Undecided(d)
    ensures r == Run(d, ops) && op == FirstSettling(ops)
    ensures op.None? ==> Undecided(r)
    ensures op.Some? ==> fns == AllFns(d, ops, op.value.w) && Won(r, op.value.w, fns, op.value.args)
    decreases |ops|
  {
    UndecidedIsQuiet(d);
    if ops == [] {
      r, op, fns := d, None, [];
    } else if ops[0].FireOn? && ops[0].w != Progress {
      r, op, fns := Run(d, ops), Some(ops[0]), AllFns(d, ops, ops[0].w);
      SettledRun(d, ops);
    } else {
      StillUndecided(d, ops);
      r, op, fns := EveryRun(Next(d, ops[0]), ops[1..]);
    }
  }

  lemma StillUndecided<A>(d: Deferred<A>, ops: seq<Op<A>>)
    requires Undecided(d) && ops != [] && !(ops[0].FireOn? && ops[0].w != Progress && Quiet(d))
    ensures Undecided(Next(d, ops[0]))
    ensures AllFns(d, ops, Done) == AllFns(Next(d, ops[0]), ops[1..], Done)
    ensures AllFns(d, ops, Fail) == AllFns(Next(d, ops[0]), ops[1..], Fail)
  {
    UndecidedStep(d, ops[0]);
    AllFnsStep(d, ops, Done);
    AllFnsStep(d, ops, Fail);
  }

  lemma AllFnsStep<A>(d: Deferred<A>, ops: seq<Op<A>>, w: Which)
    requires Undecided(d) && w != Progress && ops != [] && Get(Next(d, ops[0]), w).list.Some?
    requires Get(Next(d, ops[0]), w).list.value == Get(d, w).list.value + Accepts(d, ops[0], w)
    ensures AllFns(d, ops, w) == AllFns(Next(d, ops[0]), ops[1..], w)
  {
    AcceptedStep(d, ops, w, Get(d, w).list.value);
  }

  lemma SettledRun<A>(d: Deferred<A>, ops: seq<Op<A>>)
    requires Undecided(d) && ops != [] && ops[0].FireOn? && ops[0].w != Progress && Quiet(d)
    ensures Won(Run(d, ops), ops[0].w, AllFns(d, ops, ops[0].w), ops[0].args)
  {
    var op, fns := ops[0], Get(d, ops[0].w).list.value;
    UndecidedFire(d, op.w, op.args);
    WonRun(Next(d, op), op.w, fns, op.args, ops[1..]);
    AcceptedStep(d, ops, op.w, fns);
    assert fns + Accepts(d, op, op.w) == fns;
  }

  lemma NewIsUndecided<A>()
    ensures Undecided(New<A>()) && New<A>().done.list == Some(Own(Done)) && New<A>().fail.list == Some(Own(Fail))
  {
    assert [] + Own(Done) == Own(Done) && [] + Own(Fail) == Own(Fail);
  }

  /** Side `w` and no other has run: the given functions, each once and in order, with
      `args`, all of them and the state set by the time it is idle again. */
  ghost predicate SettledBy<A>(d: Deferred<A>, w: Which, fns: seq<Fn>, args: A) {
    var winner, loser, status := if w == Done then d.done else d.fail, if w == Done then d.fail else d.done,
                                 if w == Done then Resolved else Rejected;
    && loser.trace == [] && d.status in {Pending, status}
    && CalledInOrder(winner.trace, fns, args)
    && (!winner.firing ==> |winner.trace| == |fns| && d.status == status)
  }

  /** In every run of a new Deferred the first resolve or reject decides which side runs
      and with which arguments. That side runs its three own functions and then every
      function ever added to it, before or after settling, exactly once and in order; the
      other side never runs anything; and without a resolve or reject neither does. */
  lemma OneSideOnly<A>(ops: seq<Op<A>>)
    ensures var d := Run(New<A>(), ops);
      match FirstSettling(ops)
      case None => d.status == Pending && d.done.trace == d.fail.trace == []
      case Some(op) => SettledBy(d, op.w, Own(op.w) + Accepted(New<A>(), ops, op.w), op.args)
  {
    NewIsUndecided<A>();
    var d, op, fns := EveryRun(New<A>(), ops);
    if op.Some? { WonMeans(d, op.value.w, fns, op.value.args); }
  }

  /** A Deferred listens to its users at all times, but for the moment in which its own
      functions settle it: so no add, resolve, reject or notify is ever passed over. */
  lemma UsersHaveTheFloor<A>(ops: seq<Op<A>>)
    ensures var d := Run(New<A>(), ops);
      Quiet(d) <==>
        match FirstSettling(ops)
        case None => true
        case Some(op) => 3 <= Completed(if op.w == Done then d.done else d.fail)
  {
    NewIsUndecided<A>();
    var d, op, fns := EveryRun(New<A>(), ops);
    if op.Some? { WonIsQuietIff(d, op.value.w, fns, op.value.args); } else { UndecidedIsQuiet(d); }
  }

  lemma WonMeans<A>(d: Deferred<A>, w: Which, added: seq<Fn>, args: A)
    requires Won(d, w, added, args)
    ensures SettledBy(d, w, added, args)
  {
    assert CalledInOrder(Get(d, w).trace, added, args);
  }

  lemma {:induction false} RunTwice<A>(d: Deferred<A>, x: seq<Op<A>>, y: seq<Op<A>>)
    ensures Run(d, x + y) == Run(Run(d, x), y)
    decreases |x|
  {
    if x == [] {
      assert x + y == y;
    } else {
      assert (x + y)[1..] == x[1..] + y;
      RunTwice(Next(d, x[0]), x[1..], y);
    }
  }

  /** Once the state has left "pending" it never changes again. */
  lemma StatusIsFinal<A>(x: seq<Op<A>>, y: seq<Op<A>>)
    requires Run(New<A>(), x).status != Pending
    ensures Run(New<A>(), x + y).status == Run(New<A>(), x).status
  {
    NewIsUndecided<A>();
    var d, op, fns := EveryRun(New<A>(), x);
    RunTwice(New<A>(), x, y);
    WonStatusIsFinal(d, op.value.w, fns, op.value.args, y);
  }

  lemma {:induction false} WonStatusIsFinal<A>(d: Deferred<A>, w: Which, added: seq<Fn>, args: A, ops: seq<Op<A>>)
    requires Won(d, w, added, args) && d.status != Pending
    ensures Run(d, ops).status == d.status
  {
    WonRun(d, w, added, args, ops);
  }

  lemma StepCompletes<A>(d: Deferred<A>, w: Which, added: seq<Fn>, args: A, op: Op<A>)
    requires Won(d, w, added, args)
    ensures Completed(Get(d, w)) <= Completed(Get(Next(d, op), w))
  {
    match op
    case AddTo(v, fs) =>
      SteppedGet(d, v, Add(FlagsOf(v), Get(d, v), UserFns(fs)), w);
      if v == w {
        FlagsOfSettling(w);
        AddKeepsCompleted(Get(d, w), added, args, UserFns(fs));
      }
    case FireOn(v, again) =>
      SteppedGet(d, v, Fire(FlagsOf(v), Get(d, v), again), w);
      if v == w {
        FlagsOfSettling(w);
        FireAgain(Get(d, w), added, args, again);
      }
    case Returns => if d.running != [] { ReturnCompletes(d, w, added, args); }
  }

  lemma SteppedGet<A>(d: Deferred<A>, v: Which, l: List<Fn, A>, w: Which)
    ensures Get(Stepped(d, v, l), w) == if v == w then l else Get(d, w)
  {
  }

  lemma FireAgain<A>(l: List<Fn, A>, added: seq<Fn>, args: A, again: A)
    requires OnceList(l, added, Some(args))
    ensures Fire(ONCE_MEMORY, l, again) == l
  {
  }

  lemma ReturnCompletes<A>(d: Deferred<A>, w: Which, added: seq<Fn>, args: A)
    requires Won(d, w, added, args) && d.running != []
    ensures Completed(Get(d, w)) <= Completed(Get(Finished(d), w))
  {
    var v := d.running[|d.running| - 1];
    assert v in d.running;
    if v == w {
      FinishedOwn(d, w, added, args);
      ReturnKeepsOnce(Get(d, w), added, Some(args));
    } else {
      assert v == Progress;
      ProgressReturn(d);
    }
  }
}
