/** A debounced function as a timed machine. Calls, the passing of time and the
    timer's firing may come in any order; the timer may be late but not early. */
module Debounce {
  import opened Wrappers

  datatype Timer<A> = Timer(due: nat, args: A)

  /** A call or an invocation, with the time it happened. */
  datatype Stamp<A> = Stamp(time: nat, args: A)

  datatype Setting = Setting(wait: nat, immediate: bool)

  datatype State<A> = State(now: nat, timeout: Option<Timer<A>>, calls: seq<Stamp<A>>, runs: seq<Stamp<A>>)

  datatype Action<A> = Calls(args: A) | Passes(time: nat) | Expires

  function Start<A>(): State<A> {
    State(0, None, [], [])
  }

  /** The debounced function is called. */
  function Called<A>(setting: Setting, s: State<A>, args: A): State<A> {
    var callNow := setting.immediate && s.timeout.None?;
    s.(timeout := Some(Timer(s.now + setting.wait, args)),
       calls := s.calls + [Stamp(s.now, args)],
       runs := if callNow then s.runs + [Stamp(s.now, args)] else s.runs)
  }

  /** The timer fires, if it is due. */
  function Expire<A>(setting: Setting, s: State<A>): State<A> {
    if s.timeout.Some? && s.timeout.value.due <= s.now then
      s.(timeout := None,
         runs := if setting.immediate then s.runs else s.runs + [Stamp(s.now, s.timeout.value.args)])
    else s
  }

  function Next<A>(setting: Setting, s: State<A>, a: Action<A>): State<A> {
    match a
    case Calls(args) => Called(setting, s, args)
    case Passes(time) => s.(now := s.now + time)
    case Expires => Expire(setting, s)
  }

  function Run<A>(setting: Setting, acts: seq<Action<A>>): State<A> {
    if acts == [] then Start()
    else Next(setting, Run(setting, acts[..|acts| - 1]), acts[|acts| - 1])
  }

  // ---------- the rate ----------

  ghost predicate Apart<A>(s: seq<Stamp<A>>, wait: nat) {
    forall i, j :: 0 <= i < j < |s| ==> s[i].time + wait <= s[j].time
  }

  /** The next invocation, whenever it comes, is far enough from the last. */
  ghost predicate Paced<A>(setting: Setting, s: State<A>) {
    && Apart(s.runs, setting.wait)
    && (forall i :: 0 <= i < |s.runs| ==> s.runs[i].time <= s.now)
    && (forall i :: 0 <= i < |s.runs| && s.timeout.Some? ==> s.runs[i].time + setting.wait <= s.timeout.value.due)
    && (forall i :: 0 <= i < |s.runs| && setting.immediate && s.timeout.None? ==> s.runs[i].time + setting.wait <= s.now)
  }

  lemma PacedStep<A>(setting: Setting, s: State<A>, a: Action<A>)
    requires Paced(setting, s)
    ensures Paced(setting, Next(setting, s, a))
  {
    assert forall i :: 0 <= i < |s.runs| ==> Next(setting, s, a).runs[i] == s.runs[i];
  }

  /** In every run and in both modes, invocations are at least `wait` apart. */
  lemma {:induction false} RateBound<A>(setting: Setting, acts: seq<Action<A>>)
    ensures Paced(setting, Run(setting, acts))
  {
    if acts != [] {
      RateBound(setting, acts[..|acts| - 1]);
      PacedStep(setting, Run(setting, acts[..|acts| - 1]), acts[|acts| - 1]);
    }
  }

  // ---------- trailing mode ----------

  /** Invocation `r` is for call `c`: same arguments, a quiet period of `wait` in
      between, and no call after it before the invocation. */
  ghost predicate Answers<A>(calls: seq<Stamp<A>>, c: int, r: Stamp<A>, wait: nat) {
    && 0 <= c < |calls| && calls[c].args == r.args && calls[c].time + wait <= r.time
    && forall k :: c < k < |calls| ==> r.time <= calls[k].time
  }

  ghost predicate Answered<A>(calls: seq<Stamp<A>>, r: Stamp<A>, wait: nat) {
    exists c :: Answers(calls, c, r, wait)
  }

  ghost predicate Trailing<A>(wait: nat, s: State<A>) {
    && (forall i :: 0 <= i < |s.calls| ==> s.calls[i].time <= s.now)
    && (forall i :: 0 <= i < |s.runs| ==> s.runs[i].time <= s.now && Answered(s.calls, s.runs[i], wait))
    && (s.timeout.Some? ==>
          s.calls != [] && var last := s.calls[|s.calls| - 1]; s.timeout.value == Timer(last.time + wait, last.args))
    && (s.timeout.None? && s.calls != [] ==> s.runs != [] && Answers(s.calls, |s.calls| - 1, s.runs[|s.runs| - 1], wait))
  }

  lemma TrailingCall<A>(wait: nat, s: State<A>, args: A)
    requires Trailing(wait, s)
    ensures Trailing(wait, Called(Setting(wait, false), s, args))
  {
    var r := Called(Setting(wait, false), s, args);
    forall i | 0 <= i < |r.runs|
      ensures r.runs[i].time <= r.now && Answered(r.calls, r.runs[i], wait)
    {
      assert Answered(s.calls, s.runs[i], wait);
      var c :| Answers(s.calls, c, s.runs[i], wait);
      assert Answers(r.calls, c, r.runs[i], wait);
    }
  }

  lemma TrailingExpire<A>(wait: nat, s: State<A>)
    requires Trailing(wait, s)
    ensures Trailing(wait, Expire(Setting(wait, false), s))
  {
    var r := Expire(Setting(wait, false), s);
    if r != s {
      assert Answers(r.calls, |r.calls| - 1, r.runs[|r.runs| - 1], wait);
      forall i | 0 <= i < |r.runs|
        ensures r.runs[i].time <= r.now && Answered(r.calls, r.runs[i], wait)
      {
        if i < |s.runs| { assert Answered(s.calls, s.runs[i], wait) && r.runs[i] == s.runs[i]; }
      }
    }
  }

  lemma TrailingPass<A>(wait: nat, s: State<A>, time: nat)
    requires Trailing(wait, s)
    ensures Trailing(wait, s.(now := s.now + time))
  {
  }

  lemma TrailingStep<A>(wait: nat, s: State<A>, a: Action<A>)
    requires Trailing(wait, s)
    ensures Trailing(wait, Next(Setting(wait, false), s, a))
  {
    match a
    case Calls(args) => TrailingCall(wait, s, args);
    case Passes(time) => TrailingPass(wait, s, time);
    case Expires => TrailingExpire(wait, s);
  }

  /** In trailing mode every invocation answers the latest call after a quiet period,
      and every call is either answered by a later invocation or still has its timer. */
  lemma {:induction false} TrailingRuns<A>(wait: nat, acts: seq<Action<A>>)
    ensures Trailing(wait, Run(Setting(wait, false), acts))
  {
    if acts != [] {
      TrailingRuns(wait, acts[..|acts| - 1]);
      TrailingStep(wait, Run(Setting(wait, false), acts[..|acts| - 1]), acts[|acts| - 1]);
    }
  }

  /** Left alone for `wait` after any run, the machine has answered its last call. */
  lemma {:induction false} EventuallyAnswered<A>(wait: nat, acts: seq<Action<A>>)
    requires Run(Setting(wait, false), acts).calls != []
    ensures var s := Run(Setting(wait, false), acts);
      var r := Next(Setting(wait, false), Next(Setting(wait, false), s, Passes(wait)), Expires);
      && r.calls == s.calls && r.timeout.None? && r.runs != []
      && Answers(r.calls, |r.calls| - 1, r.runs[|r.runs| - 1], wait)
  {
    var s := Run(Setting(wait, false), acts);
    TrailingRuns(wait, acts);
    LeftAlone(wait, s, Next(Setting(wait, false), Next(Setting(wait, false), s, Passes(wait)), Expires));
  }

  lemma LeftAlone<A>(wait: nat, s: State<A>, r: State<A>)
    requires Trailing(wait, s) && s.calls != [] && r == Expire(Setting(wait, false), s.(now := s.now + wait))
    ensures r.calls == s.calls && r.timeout.None? && r.runs != []
    ensures Answers(r.calls, |r.calls| - 1, r.runs[|r.runs| - 1], wait)
  {
    TrailingPass(wait, s, wait);
    TrailingExpire(wait, s.(now := s.now + wait));
  }

  // ---------- immediate mode ----------

  /** Invocation `r` is call `c` itself, and the call before it was `wait` earlier. */
  ghost predicate Leads<A>(calls: seq<Stamp<A>>, c: int, r: Stamp<A>, wait: nat) {
    0 <= c < |calls| && calls[c] == r && (0 < c ==> calls[c - 1].time + wait <= r.time)
  }

  ghost predicate Led<A>(calls: seq<Stamp<A>>, r: Stamp<A>, wait: nat) {
    exists c :: Leads(calls, c, r, wait)
  }

  ghost predicate Leading<A>(wait: nat, s: State<A>) {
    && (forall i :: 0 <= i < |s.runs| ==> Led(s.calls, s.runs[i], wait))
    && (s.timeout.Some? ==> s.calls != [] && s.timeout.value.due == s.calls[|s.calls| - 1].time + wait)
    && (s.timeout.None? && s.calls != [] ==> s.calls[|s.calls| - 1].time + wait <= s.now)
    && (s.calls != [] ==> s.runs != [] && s.runs[0] == s.calls[0])
  }

  lemma LeadingCall<A>(wait: nat, s: State<A>, args: A)
    requires Leading(wait, s)
    ensures Leading(wait, Called(Setting(wait, true), s, args))
  {
    var r := Called(Setting(wait, true), s, args);
    forall i | 0 <= i < |r.runs| ensures Led(r.calls, r.runs[i], wait) {
      if i < |s.runs| {
        assert Led(s.calls, s.runs[i], wait);
        var c :| Leads(s.calls, c, s.runs[i], wait);
        assert Leads(r.calls, c, r.runs[i], wait);
      } else {
        assert Leads(r.calls, |s.calls|, r.runs[i], wait);
      }
    }
  }

  lemma LeadingStep<A>(wait: nat, s: State<A>, a: Action<A>)
    requires Leading(wait, s)
    ensures Leading(wait, Next(Setting(wait, true), s, a))
  {
    if a.Calls? { LeadingCall(wait, s, a.args); }
  }

  /** In immediate mode the very first call is invoked at once, and every invocation
      is a call made after a quiet period of `wait`, with that call's arguments. */
  lemma {:induction false} LeadingRuns<A>(wait: nat, acts: seq<Action<A>>)
    ensures Leading(wait, Run(Setting(wait, true), acts))
  {
    if acts != [] {
      LeadingRuns(wait, acts[..|acts| - 1]);
      LeadingStep(wait, Run(Setting(wait, true), acts[..|acts| - 1]), acts[|acts| - 1]);
    }
  }

  /** Left alone for `wait` after any run, the machine invokes the next call at once. */
  lemma EventuallyLeads<A>(wait: nat, acts: seq<Action<A>>, args: A)
    ensures var s := Run(Setting(wait, true), acts);
      var quiet := Next(Setting(wait, true), Next(Setting(wait, true), s, Passes(wait)), Expires);
      var r := Next(Setting(wait, true), quiet, Calls(args));
      quiet.runs == s.runs && r.runs == s.runs + [Stamp(s.now + wait, args)]
  {
    var s := Run(Setting(wait, true), acts);
    DueInTime(wait, acts);
    QuietThenLeads(wait, s, args, Expire(Setting(wait, true), s.(now := s.now + wait)));
  }

  lemma QuietThenLeads<A>(wait: nat, s: State<A>, args: A, quiet: State<A>)
    requires quiet == Expire(Setting(wait, true), s.(now := s.now + wait))
    requires s.timeout.Some? ==> s.timeout.value.due <= s.now + wait
    ensures quiet.runs == s.runs
    ensures Called(Setting(wait, true), quiet, args).runs == s.runs + [Stamp(s.now + wait, args)]
  {
  }

  /** No timer is due later than `wait` from now. */
  lemma {:induction false} DueInTime<A>(wait: nat, acts: seq<Action<A>>)
    ensures var s := Run(Setting(wait, true), acts); s.timeout.Some? ==> s.timeout.value.due <= s.now + wait
  {
    if acts != [] { DueInTime(wait, acts[..|acts| - 1]); }
  }

  // ---------- the debounced function ----------

  /** Everything promised of a debounced function in its mode. */
  ghost predicate Debounces<A>(setting: Setting, s: State<A>) {
    Paced(setting, s) && if setting.immediate then Leading(setting.wait, s) else Trailing(setting.wait, s)
  }

  lemma DebouncesStep<A>(setting: Setting, s: State<A>, a: Action<A>)
    requires Debounces(setting, s)
    ensures Debounces(setting, Next(setting, s, a))
  {
    PacedStep(setting, s, a);
    if setting.immediate { LeadingStep(setting.wait, s, a); } else { TrailingStep(setting.wait, s, a); }
  }

  /** The closure: its variables are the pending timer, the latest result and the clock it
      reads. What the wrapped function returns may differ from one invocation to the next. */
  class Debounced<A, R> {
    const setting: Setting
    const func: (nat, A) -> R
    var now: nat
    var timeout: Option<Timer<A>>
    var result: Option<R>
    var invocations: nat
    ghost var calls: seq<Stamp<A>>
    ghost var runs: seq<Stamp<A>>

    ghost function Machine(): State<A>
      reads this
    {
      State(now, timeout, calls, runs)
    }

    /** What the latest invocation returned, if there has been one. */
    ghost function Latest(): Option<R>
      reads this
    {
      if runs == [] then None else Some(func(|runs| - 1, runs[|runs| - 1].args))
    }

    /** The promise holds of all calls and invocations so far. */
    ghost predicate Valid()
      reads this
    {
      Debounces(setting, Machine()) && invocations == |runs| && result == Latest()
    }

    constructor (setting: Setting, func: (nat, A) -> R)
      ensures this.setting == setting && this.func == func && Machine() == Start() && Valid()
    {
      this.setting, this.func := setting, func;
      now, timeout, result, invocations, calls, runs := 0, None, None, 0, [], [];
    }

    /** The wrapped function is invoked. */
    method Invoke(args: A)
      requires invocations == |runs|
      modifies this`result, this`invocations, this`runs
      ensures runs == old(runs) + [Stamp(now, args)] && invocations == |runs| && result == Latest()
    {
      result := Some(func(invocations, args));
      invocations := invocations + 1;
      runs := runs + [Stamp(now, args)];
    }

    /** Time passes. */
    method Elapse(time: nat)
      requires Valid()
      modifies this`now
      ensures Valid() && now == old(now) + time
    {
      DebouncesStep(setting, Machine(), Passes(time));
      now := now + time;
      assert Machine() == Next(setting, old(Machine()), Passes(time));
    }

    /** The debounced function: the timer is always restarted. In immediate mode the very
        first call goes through at once, and a later one only after `wait` without calls.
        Every call returns what the latest invocation has returned, its own included. */
    method Call(args: A) returns (invoked: bool, r: Option<R>)
      requires Valid()
      modifies this`timeout, this`result, this`invocations, this`calls, this`runs
      ensures Valid() && calls == old(calls) + [Stamp(now, args)]
      ensures runs == if invoked then old(runs) + [Stamp(now, args)] else old(runs)
      ensures timeout == Some(Timer(now + setting.wait, args))
      ensures invoked <==> setting.immediate && old(timeout).None?
      ensures r == Latest() && (setting.immediate ==> r.Some?)
      ensures setting.immediate && old(calls) == [] ==> invoked
      ensures invoked && old(calls) != [] ==> old(calls)[|old(calls)| - 1].time + setting.wait <= now
    {
      DebouncesStep(setting, Machine(), Calls(args));
      CallIsLed(setting, Machine());
      invoked := Restart(args);
      r := result;
    }

    method Restart(args: A) returns (invoked: bool)
      requires invocations == |runs| && result == Latest()
      modifies this`timeout, this`result, this`invocations, this`calls, this`runs
      ensures Machine() == Called(setting, old(Machine()), args)
      ensures invoked <==> setting.immediate && old(timeout).None?
      ensures invocations == |runs| && result == Latest()
    {
      invoked := setting.immediate && timeout.None?;
      timeout := Some(Timer(now + setting.wait, args));
      calls := calls + [Stamp(now, args)];
      if invoked { Invoke(args); }
    }

    /** The timer's callback. In trailing mode it answers the latest call, with that call's
        arguments, after `wait` without calls. */
    method Later() returns (invoked: bool)
      requires Valid() && timeout.Some? && timeout.value.due <= now
      modifies this`timeout, this`result, this`invocations, this`runs
      ensures Valid() && timeout.None? && (invoked <==> !setting.immediate)
      ensures invoked ==>
        && runs == old(runs) + [Stamp(now, calls[|calls| - 1].args)]
        && Answers(calls, |calls| - 1, runs[|runs| - 1], setting.wait)
      ensures !invoked ==> runs == old(runs)
    {
      DebouncesStep(setting, Machine(), Expires);
      AnswerIsLast(setting, Machine());
      invoked := TimeOut();
    }

    method TimeOut() returns (invoked: bool)
      requires timeout.Some? && timeout.value.due <= now && invocations == |runs| && result == Latest()
      modifies this`timeout, this`result, this`invocations, this`runs
      ensures Machine() == Expire(setting, old(Machine())) && (invoked <==> !setting.immediate)
      ensures invocations == |runs| && result == Latest()
    {
      var args := timeout.value.args;
      timeout := None;
      invoked := !setting.immediate;
      if invoked { Invoke(args); }
    }
  }

  /** In immediate mode a call without a timer is the first one or comes after a quiet period. */
  lemma CallIsLed<A>(setting: Setting, s: State<A>)
    requires Debounces(setting, s)
    ensures setting.immediate && s.calls == [] ==> s.timeout.None?
    ensures setting.immediate && s.timeout.Some? ==> s.runs != []
    ensures setting.immediate && s.timeout.None? && s.calls != [] ==> s.calls[|s.calls| - 1].time + setting.wait <= s.now
  {
  }

  /** What a timer that is due in trailing mode invokes. */
  lemma AnswerIsLast<A>(setting: Setting, s: State<A>)
    requires Debounces(setting, s) && s.timeout.Some? && s.timeout.value.due <= s.now
    ensures !setting.immediate ==>
      && s.calls != [] && s.timeout.value.args == s.calls[|s.calls| - 1].args
      && Answers(s.calls, |s.calls| - 1, Stamp(s.now, s.timeout.value.args), setting.wait)
  {
  }
}
