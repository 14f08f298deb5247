/** Notifications of a Deferred get through until it is settled. A settled one has locked
    its progress list: notifying it does nothing. */
module DeferredProgress {
  import opened Wrappers
  import opened Callbacks
  import opened Deferred
  import opened DeferredRuns
  import opened CallbackTurns
  import opened CallbackEnds

  // ---------- notifications before settling ----------

  /** What an operation other than a resolve or reject does to the progress list. */
  function ProgressAct<A>(op: Op<A>): seq<Action<Fn, A>> {
    match op
    case AddTo(Progress, fs) => [Adds(UserFns(fs))]
    case FireOn(Progress, args) => [Fires(args)]
    case Returns => [Action.Returns]
    case _ => []
  }

  function ProgressActs<A>(ops: seq<Op<A>>): seq<Action<Fn, A>> {
    if ops == [] then [] else ProgressActs(ops[..|ops| - 1]) + ProgressAct(ops[|ops| - 1])
  }

  /** The progress list after one step or none. */
  function SteppedBy<A>(l: List<Fn, A>, acts: seq<Action<Fn, A>>): List<Fn, A> {
    if acts == [] then l else Step(FlagsOf(Progress), l, acts[0])
  }

  lemma RunBy<A>(l: List<Fn, A>, acts: seq<Action<Fn, A>>, act: seq<Action<Fn, A>>, more: seq<Action<Fn, A>>)
    requires |act| <= 1 && more == acts + act
    ensures RunList(FlagsOf(Progress), l, more) == SteppedBy(RunList(FlagsOf(Progress), l, acts), act)
    ensures Added(more) == Added(acts) + if act != [] && act[0].Adds? then act[0].fs else []
  {
    if act == [] {
      assert more == acts && Added(acts) + [] == Added(acts);
    } else {
      assert more[..|more| - 1] == acts;
    }
  }

  lemma {:induction false} NoneSettles<A>(ops: seq<Op<A>>, more: seq<Op<A>>)
    requires FirstSettling(ops + more).None?
    ensures FirstSettling(ops).None? && FirstSettling(more).None?
    decreases |ops|
  {
    if ops == [] {
      assert ops + more == more;
    } else {
      assert (ops + more)[1..] == ops[1..] + more;
      NoneSettles(ops[1..], more);
    }
  }

  lemma UndecidedProgress<A>(d: Deferred<A>, op: Op<A>)
    requires Undecided(d) && !(op.FireOn? && op.w != Progress)
    ensures Next(d, op).progress == SteppedBy(d.progress, ProgressAct(op))
  {
    UndecidedIsQuiet(d);
    match op
    case AddTo(w, fs) => SteppedGet(d, w, Add(FlagsOf(w), Get(d, w), UserFns(fs)), Progress);
    case FireOn(w, args) => SteppedGet(d, w, Fire(FlagsOf(w), Get(d, w), args), Progress);
    case Returns =>
      if d.running == [] {
        assert Progress !in d.running;
      } else {
        assert d.running[|d.running| - 1] in d.running;
      }
  }

  /** One operation is one step of the progress list, or none. */
  lemma OneMoreOp<A>(d: Deferred<A>, op: Op<A>, acts: seq<Action<Fn, A>>, more: seq<Action<Fn, A>>)
    requires Undecided(d) && !(op.FireOn? && op.w != Progress)
    requires d.progress == RunList(FlagsOf(Progress), Empty<Fn, A>(), acts) && more == acts + ProgressAct(op)
    ensures Next(d, op).progress == RunList(FlagsOf(Progress), Empty<Fn, A>(), more)
  {
    UndecidedProgress(d, op);
    RunBy(Empty<Fn, A>(), acts, ProgressAct(op), more);
  }

  lemma {:induction false} UnsettledRun<A>(ops: seq<Op<A>>)
    requires FirstSettling(ops).None?
    ensures Undecided(Run(New<A>(), ops))
  {
    NewIsUndecided<A>();
    var _, _, _ := EveryRun(New<A>(), ops);
  }

  /** The progress list of a Deferred that has not been settled is a list of its own. */
  lemma {:induction false} ProgressIsAList<A>(ops: seq<Op<A>>)
    requires FirstSettling(ops).None?
    ensures Run(New<A>(), ops).progress == RunList(FlagsOf(Progress), Empty<Fn, A>(), ProgressActs(ops))
    decreases |ops|
  {
    if ops != [] {
      var before, op := ops[..|ops| - 1], ops[|ops| - 1];
      assert ops == before + [op];
      NoneSettles(before, [op]);
      ProgressIsAList(before);
      UnsettledRun(before);
      RunTwice(New<A>(), before, [op]);
      LastOp(Run(New<A>(), before), op);
      OneMoreOp(Run(New<A>(), before), op, ProgressActs(before), ProgressActs(ops));
    }
  }

  lemma LastOp<A>(d: Deferred<A>, op: Op<A>)
    ensures Run(d, [op]) == Next(d, op)
    ensures FirstSettling([op]).None? ==> !(op.FireOn? && op.w != Progress)
  {
  }

  lemma {:induction false} ActsArePlain<A>(ops: seq<Op<A>>, i: nat)
    requires i < |ProgressActs(ops)|
    ensures IsPlain(ProgressActs(ops)[i])
  {
    if i < |ProgressActs(ops[..|ops| - 1])| { ActsArePlain(ops[..|ops| - 1], i); }
  }

  /** Until a Deferred is settled no notification is lost: each reaches the progress
      functions in turn, with its own arguments, and functions added later get the latest. */
  lemma NotificationsGetThrough<A>(ops: seq<Op<A>>)
    requires FirstSettling(ops).None?
    ensures var acts := ProgressActs(ops);
      Served(Run(New<A>(), ops).progress, true, Added(acts), Shots(acts), Turns(true, acts))
  {
    ProgressIsAList(ops);
    forall i | 0 <= i < |ProgressActs(ops)| ensures IsPlain(ProgressActs(ops)[i]) { ActsArePlain(ops, i); }
    NoFireIsLost(true, ProgressActs(ops));
  }

  // ---------- notifications after settling ----------

  lemma {:induction false} AcceptedOneMore<A>(d: Deferred<A>, ops: seq<Op<A>>, op: Op<A>, w: Which)
    ensures Accepted(d, ops + [op], w) == Accepted(d, ops, w) + Accepts(Run(d, ops), op, w)
    decreases |ops|
  {
    if ops == [] {
      assert ops + [op] == [op];
      assert Accepted(d, [op], w) == Accepts(d, op, w) + [];
    } else {
      var next, rest := Next(d, ops[0]), ops[1..];
      assert (ops + [op])[1..] == rest + [op];
      AcceptedOneMore(next, rest, op, w);
      Regroup(Accepts(d, ops[0], w), Accepted(next, rest, w), Accepts(Run(next, rest), op, w));
    }
  }

  /** While its own functions settle a Deferred only the third of them touches the list. */
  lemma SettlingStep<A>(d: Deferred<A>, w: Which, added: seq<Fn>, args: A, op: Op<A>, r: Deferred<A>)
    requires Won(d, w, added, args) && Completed(Get(d, w)) < 3 && r == Next(d, op)
    ensures Accepts(d, op, Progress) == []
    ensures if Completed(Get(r, w)) < 3 then r.progress == d.progress else r.progress == Lock(d.progress)
  {
    OwnFunctionRuns(d, w, added, args);
    StepOfTheOwn(d, op);
    if op.Returns? {
      FinishedOwn(d, w, added, args);
      SettlingReturn(d, r, w, added, args);
    }
  }

  /** Only the return of the function that runs is possible when that is not a user's. */
  lemma StepOfTheOwn<A>(d: Deferred<A>, op: Op<A>)
    requires !Quiet(d) && d.running != []
    ensures Accepts(d, op, Progress) == [] && Next(d, op) == if op.Returns? then Finished(d) else d
  {
  }

  lemma SettlingReturn<A>(d: Deferred<A>, r: Deferred<A>, w: Which, added: seq<Fn>, args: A)
    requires OnceList(Get(d, w), added, Some(args)) && Get(d, w).firing && Completed(Get(d, w)) < 3
    requires OwnStep(d, r, w, Completed(Get(d, w)))
    ensures if Completed(Get(r, w)) < 3 then r.progress == d.progress else r.progress == Lock(d.progress)
  {
    ReturnKeepsOnce(Get(d, w), added, Some(args));
  }

  /** Afterwards it is stepped like a list of its own. */
  lemma SettledStep<A>(d: Deferred<A>, w: Which, added: seq<Fn>, args: A, op: Op<A>) returns (more: seq<Action<Fn, A>>)
    requires Won(d, w, added, args) && 3 <= Completed(Get(d, w))
    ensures |more| <= 1 && (more != [] ==> IsPlain(more[0]))
    ensures Accepts(d, op, Progress) == if more != [] && more[0].Adds? then more[0].fs else []
    ensures Next(d, op).progress == SteppedBy(d.progress, more)
  {
    WonIsQuietIff(d, w, added, args);
    more := [];
    match op
    case AddTo(v, fs) =>
      SteppedGet(d, v, Add(FlagsOf(v), Get(d, v), UserFns(fs)), Progress);
      if v == Progress { more := [Adds(UserFns(fs))]; }
    case FireOn(v, again) =>
      SteppedGet(d, v, Fire(FlagsOf(v), Get(d, v), again), Progress);
      if v == Progress { more := [Fires(again)]; }
    case Returns =>
      if d.running != [] {
        var v := d.running[|d.running| - 1];
        assert v in d.running;
        if v == w {
          FinishedOwn(d, w, added, args);
        } else {
          assert v == Progress;
          more := [Action.Returns];
        }
      }
  }

  /** From the settling call on: nothing happens to the progress list until it is locked,
      and then it is stepped like a locked list of its own. */
  lemma {:induction false} SettledProgress<A>(d: Deferred<A>, w: Which, added: seq<Fn>, args: A, ops: seq<Op<A>>)
    returns (later: seq<Action<Fn, A>>)
    requires Won(d, w, added, args) && Completed(Get(d, w)) < 3
    ensures forall i :: 0 <= i < |later| ==> IsPlain(later[i])
    ensures Added(later) == Accepted(d, ops, Progress)
    ensures var r := Run(d, ops);
      if Completed(Get(r, w)) < 3 then r.progress == d.progress && later == []
      else r.progress == RunList(FlagsOf(Progress), Lock(d.progress), later)
    decreases |ops|
  {
    later := [];
    if ops != [] {
      var before, op := ops[..|ops| - 1], ops[|ops| - 1];
      assert ops == before + [op];
      later := SettledProgress(d, w, added, args, before);
      WonRun(d, w, added, args, before);
      RunTwice(d, before, [op]);
      LastOp(Run(d, before), op);
      AcceptedOneMore(d, before, op, Progress);
      later := OneMoreSettled(d, Run(d, before), w, added + Accepted(d, before, w), args, op, later);
    }
  }

  lemma OneMoreSettled<A>(d: Deferred<A>, r: Deferred<A>, w: Which, added: seq<Fn>, args: A, op: Op<A>, later: seq<Action<Fn, A>>)
    returns (more: seq<Action<Fn, A>>)
    requires Won(r, w, added, args) && forall i :: 0 <= i < |later| ==> IsPlain(later[i])
    requires if Completed(Get(r, w)) < 3 then r.progress == d.progress && later == []
             else r.progress == RunList(FlagsOf(Progress), Lock(d.progress), later)
    ensures forall i :: 0 <= i < |more| ==> IsPlain(more[i])
    ensures Added(more) == Added(later) + Accepts(r, op, Progress)
    ensures var next := Next(r, op);
      if Completed(Get(next, w)) < 3 then next.progress == d.progress && more == []
      else next.progress == RunList(FlagsOf(Progress), Lock(d.progress), more)
  {
    if Completed(Get(r, w)) < 3 {
      SettlingStep(r, w, added, args, op, Next(r, op));
      more := [];
    } else {
      StepCompletes(r, w, added, args, op);
      var act := SettledStep(r, w, added, args, op);
      more := later + act;
      RunBy(Lock(d.progress), later, act, more);
    }
  }

  /** A run that settles, cut at the call that does it. */
  lemma {:induction false} CutAtSettling<A>(ops: seq<Op<A>>) returns (before: seq<Op<A>>, after: seq<Op<A>>)
    requires FirstSettling(ops).Some?
    ensures ops == before + [FirstSettling(ops).value] + after && FirstSettling(before).None?
    decreases |ops|
  {
    if ops[0].FireOn? && ops[0].w != Progress {
      before, after := [], ops[1..];
    } else {
      before, after := CutAtSettling(ops[1..]);
      before := [ops[0]] + before;
      assert before[1..] == ops[1..][..|before| - 1];
    }
  }

  /** What a settled Deferred still does with progress: the functions that the latest
      notification has not reached are called, then those added after settling, each once,
      in order and with its arguments. Later notifications, and earlier ones put off, are
      dropped. Without any before settling, nothing is called. */
  lemma ProgressAfterSettling<A>(ops: seq<Op<A>>) returns (before: seq<Op<A>>, after: seq<Op<A>>)
    requires FirstSettling(ops).Some?
    ensures ops == before + [FirstSettling(ops).value] + after && FirstSettling(before).None?
    ensures var op, acts, r := FirstSettling(ops).value, ProgressActs(before), Run(New<A>(), ops);
      var turns, base := Turns(true, acts), Run(New<A>(), before).progress.trace;
      3 <= Completed(Get(r, op.w)) ==>
        if turns == [] then r.progress.trace == base
        else
          var t := turns[|turns| - 1];
          && t.upto <= |Added(acts)| && t.shot < |Shots(acts)|
          && GoesOn(r.progress, base,
                    Added(acts)[t.upto..] + Accepted(Next(Run(New<A>(), before), op), after, Progress),
                    Shots(acts)[t.shot].args)
  {
    before, after := CutAtSettling(ops);
    var op, acts := FirstSettling(ops).value, ProgressActs(before);
    var later := AfterTheCut(before, op, after);
    forall i | 0 <= i < |acts| ensures IsPlain(acts[i]) { ActsArePlain(before, i); }
    ProgressIsAList(before);
    if Turns(true, acts) == [] {
      NeverNotified(acts, later);
    } else {
      LockFinishesTheTurn(acts, later);
    }
  }

  lemma AfterTheCut<A>(before: seq<Op<A>>, op: Op<A>, after: seq<Op<A>>) returns (later: seq<Action<Fn, A>>)
    requires FirstSettling(before).None? && op.FireOn? && op.w != Progress
    ensures forall i :: 0 <= i < |later| ==> IsPlain(later[i])
    ensures Added(later) == Accepted(Next(Run(New<A>(), before), op), after, Progress)
    ensures var r := Run(New<A>(), before + [op] + after);
      3 <= Completed(Get(r, op.w)) ==>
        r.progress == RunList(FlagsOf(Progress), Lock(Run(New<A>(), before).progress), later)
  {
    var d := Run(New<A>(), before);
    UnsettledRun(before);
    UndecidedIsQuiet(d);
    UndecidedFire(d, op.w, op.args);
    OpenFires(Get(d, op.w), op.w, op.args);
    FlagsOfSettling(op.w);
    SteppedGet(d, op.w, Fire(FlagsOf(op.w), Get(d, op.w), op.args), op.w);
    SteppedGet(d, op.w, Fire(FlagsOf(op.w), Get(d, op.w), op.args), Progress);
    later := SettledProgress(Next(d, op), op.w, Get(d, op.w).list.value, op.args, after);
    RunTwice(New<A>(), before + [op], after);
    RunTwice(New<A>(), before, [op]);
    LastOp(d, op);
  }

  lemma NeverNotified<A>(acts: seq<Action<Fn, A>>, later: seq<Action<Fn, A>>)
    requires Turns(true, acts) == [] && forall i :: 0 <= i < |acts| ==> IsPlain(acts[i])
    ensures var l := RunList(FlagsOf(Progress), Empty<Fn, A>(), acts);
      RunList(FlagsOf(Progress), Lock(l), later).trace == l.trace
  {
    RunTurns(true, acts);
    var l := RunList(FlagsOf(Progress), Empty<Fn, A>(), acts);
    assert Off(Lock(l));
    DisabledForGood(FlagsOf(Progress), Lock(l), later);
  }

  /** From the call that settles a new Deferred on, whatever happens after it, no
      notification gets through once the settling functions have returned. */
  lemma {:induction false} NotifyIsIgnored<A>(before: seq<Op<A>>, op: Op<A>, after: seq<Op<A>>, note: A)
    requires FirstSettling(before).None? && op.FireOn? && op.w != Progress
    ensures var r := Run(New<A>(), before + [op] + after);
      3 <= Completed(Get(r, op.w)) ==> Next(r, FireOn(Progress, note)) == r
  {
    var later := AfterTheCut(before, op, after);
    StaysLocked(Lock(Run(New<A>(), before).progress), later);
    LockedIgnores(Run(New<A>(), before + [op] + after), note);
  }

  lemma {:induction false} StaysLocked<A>(l: List<Fn, A>, acts: seq<Action<Fn, A>>)
    requires l.stack.None?
    ensures RunList(FlagsOf(Progress), l, acts).stack.None?
  {
    if acts != [] {
      StaysLocked(l, acts[..|acts| - 1]);
      LockedStep(FlagsOf(Progress), RunList(FlagsOf(Progress), l, acts[..|acts| - 1]), acts[|acts| - 1]);
    }
  }

  lemma LockedIgnores<A>(d: Deferred<A>, note: A)
    ensures d.progress.stack.None? ==> Next(d, FireOn(Progress, note)) == d
  {
  }
}
