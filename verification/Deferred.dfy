/** A Deferred: a "done" and a "fail" list that fire once and remember, and a
    "progress" list that remembers. The first three functions of either settling
    list are the Deferred's own: they set the state, disable the other list and
    lock the progress list. User code runs only when none of these is running. */
module Deferred {
  import opened Wrappers
  import opened Callbacks

  datatype Which = Done | Fail | Progress

  datatype Status = Pending | Resolved | Rejected

  datatype Fn = User(id: nat) | Mark(status: Status) | Disables(other: Which) | Locks(other: Which)

  /** `running` lists the callback lists that are firing, the innermost last. */
  datatype Deferred<A> = Deferred(
    done: List<Fn, A>, fail: List<Fn, A>, progress: List<Fn, A>,
    status: Status, running: seq<Which>)

  function Other(w: Which): Which {
    if w == Done then Fail else Done
  }

  function StatusOf(w: Which): Status {
    if w == Done then Resolved else Rejected
  }

  /** The Deferred's own functions, at the head of list `w`. */
  function OwnAt(w: Which, k: nat): Fn {
    if k == 0 then Mark(StatusOf(w)) else if k == 1 then Fn.Disables(Other(w)) else Fn.Locks(Progress)
  }

  function Own(w: Which): seq<Fn> {
    [OwnAt(w, 0), OwnAt(w, 1), OwnAt(w, 2)]
  }

  function FlagsOf(w: Which): Flags {
    Flags(w != Progress, true)
  }

  function Get<A>(d: Deferred<A>, w: Which): List<Fn, A> {
    match w case Done => d.done case Fail => d.fail case Progress => d.progress
  }

  function Put<A>(d: Deferred<A>, w: Which, l: List<Fn, A>): Deferred<A> {
    match w
    case Done => d.(done := l)
    case Fail => d.(fail := l)
    case Progress => d.(progress := l)
  }

  function New<A>(): Deferred<A> {
    Deferred(Add(FlagsOf(Done), Empty(), Own(Done)), Add(FlagsOf(Fail), Empty(), Own(Fail)), Empty(), Pending, [])
  }

  /** The function now running, if any. */
  function RunningFn<A>(d: Deferred<A>): Option<Fn> {
    if d.running == [] then None
    else
      var l := Get(d, d.running[|d.running| - 1]);
      if l.list.Some? && l.index < |l.list.value| then Some(l.list.value[l.index]) else None
  }

  /** User code has the floor: nothing runs, or a user's callback does. */
  predicate Quiet<A>(d: Deferred<A>) {
    RunningFn(d).None? || RunningFn(d).value.User?
  }

  datatype Op<A> = AddTo(w: Which, fs: seq<nat>) | FireOn(w: Which, args: A) | Returns

  function UserFns(fs: seq<nat>): (r: seq<Fn>)
    ensures |r| == |fs| && forall k :: 0 <= k < |fs| ==> r[k] == User(fs[k])
  {
    seq(|fs|, k requires 0 <= k < |fs| => User(fs[k]))
  }

  /** A list has been stepped; it joins or leaves the running ones accordingly. */
  function Stepped<A>(d: Deferred<A>, w: Which, l: List<Fn, A>): Deferred<A> {
    var d1 := Put(d, w, l);
    if l.firing && !Get(d, w).firing then d1.(running := d.running + [w]) else d1
  }

  /** The effect of the Deferred's own functions. */
  function Perform<A>(d: Deferred<A>, f: Fn): Deferred<A> {
    match f
    case User(_) => d
    case Mark(s) => d.(status := s)
    case Disables(w) => Put(d, w, Disable(Get(d, w)))
    case Locks(w) => Put(d, w, Lock(Get(d, w)))
  }

  /** The innermost running function finishes. */
  function Finished<A>(d: Deferred<A>): Deferred<A>
    requires d.running != []
  {
    var w := d.running[|d.running| - 1];
    var d1 := if RunningFn(d).Some? then Perform(d, RunningFn(d).value) else d;
    Left(d1, w, Return(FlagsOf(w), Get(d1, w)))
  }

  /** The innermost list has been stepped to `l`; it is no longer running if it has stopped. */
  function Left<A>(d: Deferred<A>, w: Which, l: List<Fn, A>): Deferred<A> {
    var r := Put(d, w, l);
    if l.firing || d.running == [] then r else r.(running := d.running[..|d.running| - 1])
  }

  /** One step; steps that are not possible in a state change nothing. */
  function Next<A>(d: Deferred<A>, op: Op<A>): Deferred<A> {
    match op
    case AddTo(w, fs) => if Quiet(d) then Stepped(d, w, Add(FlagsOf(w), Get(d, w), UserFns(fs))) else d
    case FireOn(w, args) => if Quiet(d) then Stepped(d, w, Fire(FlagsOf(w), Get(d, w), args)) else d
    case Returns => if d.running != [] then Finished(d) else d
  }

  function Run<A>(d: Deferred<A>, ops: seq<Op<A>>): Deferred<A>
    decreases |ops|
  {
    if ops == [] then d else Run(Next(d, ops[0]), ops[1..])
  }
}
