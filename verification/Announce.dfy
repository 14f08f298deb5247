/** Announcements to screen readers. Every call queues a text and starts a timer of
    its own; a timer that fires reads out the whole queue. */
module Announce {

  const DELAY: nat := 200

  /** A text with its priority and the time it was handed in. */
  datatype Said = Said(text: string, assertive: bool, time: nat)

  /** What the live region is set to by one flush. */
  datatype Batch = Batch(time: nat, items: seq<Said>, texts: seq<string>, assertive: bool)

  /** `timers` holds the due times of the timers still running, oldest first; `said`
      and `read` are the history. */
  datatype State = State(now: nat, queue: seq<Said>, timers: seq<nat>, said: seq<Said>, read: seq<Batch>)

  datatype Action = Says(text: string, assertive: bool) | Passes(time: nat) | Fires

  function Start(): State {
    State(0, [], [], [], [])
  }

  function TextsOf(items: seq<Said>): (r: seq<string>)
    ensures |r| == |items| && forall i :: 0 <= i < |r| ==> r[i] == items[i].text
  {
    seq(|items|, i requires 0 <= i < |items| => items[i].text)
  }

  predicate AnyAssertive(items: seq<Said>) {
    exists i :: 0 <= i < |items| && items[i].assertive
  }

  function Spoken(s: State, text: string, assertive: bool): State {
    var a := Said(text, assertive, s.now);
    s.(queue := s.queue + [a], timers := s.timers + [s.now + DELAY], said := s.said + [a])
  }

  /** The oldest timer fires, if it is due. */
  function Fire(s: State): State {
    if s.timers != [] && s.timers[0] <= s.now then
      s.(timers := s.timers[1..], queue := [],
         read := if s.queue == [] then s.read
                 else s.read + [Batch(s.now, s.queue, TextsOf(s.queue), AnyAssertive(s.queue))])
    else s
  }

  /** Time does not pass a timer that is due. */
  function Pass(s: State, time: nat): State {
    if s.timers == [] || s.now + time <= s.timers[0] then s.(now := s.now + time) else s
  }

  function Next(s: State, a: Action): State {
    match a
    case Says(text, assertive) => Spoken(s, text, assertive)
    case Passes(time) => Pass(s, time)
    case Fires => Fire(s)
  }

  function Run(acts: seq<Action>): State {
    if acts == [] then Start() else Next(Run(acts[..|acts| - 1]), acts[|acts| - 1])
  }

  /** Everything read out so far, in order. */
  function ReadOut(batches: seq<Batch>): seq<Said> {
    if batches == [] then [] else ReadOut(batches[..|batches| - 1]) + batches[|batches| - 1].items
  }

  ghost predicate BatchOk(b: Batch) {
    && b.items != [] && b.texts == TextsOf(b.items)
    && (b.assertive <==> exists i :: 0 <= i < |b.items| && b.items[i].assertive)
    && (forall i :: 0 <= i < |b.items| ==> b.items[i].time <= b.time <= b.items[i].time + 200)
  }

  /** Nothing is lost, doubled or reordered, every batch is in time, and whatever is
      still queued has a running timer of its own. */
  ghost predicate Conserved(s: State) {
    && s.said == ReadOut(s.read) + s.queue
    && (forall i :: 0 <= i < |s.read| ==> BatchOk(s.read[i]))
    && |s.queue| <= |s.timers| <= |s.said|
    && (forall i :: 0 <= i < |s.timers| ==> TimerOk(s, i))
    && Ordered(s.said, s.now)
    && (s.timers != [] ==> s.now <= s.timers[0])
  }

  /** The timers belong to the last texts, one each. */
  ghost predicate TimerOk(s: State, i: nat)
    requires i < |s.timers| <= |s.said|
  {
    s.timers[i] == s.said[|s.said| - |s.timers| + i].time + DELAY
  }

  ghost predicate Ordered(said: seq<Said>, now: nat) {
    forall i, j :: 0 <= i <= j < |said| ==> said[i].time <= said[j].time <= now
  }

  lemma SayConserves(s: State, text: string, assertive: bool)
    requires Conserved(s)
    ensures Conserved(Spoken(s, text, assertive))
  {
    var r := Spoken(s, text, assertive);
    assert r.said == ReadOut(r.read) + r.queue;
    forall i | 0 <= i < |r.timers| ensures TimerOk(r, i) {
      if i < |s.timers| { assert TimerOk(s, i); }
    }
  }

  lemma FireConserves(s: State)
    requires Conserved(s)
    ensures Conserved(Fire(s))
  {
    if s.timers != [] && s.timers[0] <= s.now {
      FireKeepsTimers(s);
      FireKeepsTexts(s);
    }
  }

  lemma FireKeepsTimers(s: State)
    requires Conserved(s) && s.timers != [] && s.timers[0] <= s.now
    ensures var r := Fire(s);
      && (forall i :: 0 <= i < |r.timers| ==> TimerOk(r, i)) && (r.timers != [] ==> r.now <= r.timers[0])
  {
    var r := Fire(s);
    forall i | 0 <= i < |r.timers| ensures TimerOk(r, i) { assert TimerOk(s, i + 1); }
    if r.timers != [] {
      assert TimerOk(s, 0) && TimerOk(s, 1);
    }
  }

  lemma FireKeepsTexts(s: State)
    requires Conserved(s) && s.timers != [] && s.timers[0] <= s.now
    ensures var r := Fire(s);
      r.said == ReadOut(r.read) + r.queue && (forall i :: 0 <= i < |r.read| ==> BatchOk(r.read[i]))
  {
    var r := Fire(s);
    if s.queue != [] {
      var b := Batch(s.now, s.queue, TextsOf(s.queue), AnyAssertive(s.queue));
      FlushIsInTime(s, b);
      assert r.read == s.read + [b] && r.read[..|s.read|] == s.read;
      assert r.said == ReadOut(r.read) + [];
    }
  }

  /** The oldest running timer is not later than that of any queued text. */
  lemma FlushIsInTime(s: State, b: Batch)
    requires Conserved(s) && s.queue != [] && s.timers[0] <= s.now
    requires b == Batch(s.now, s.queue, TextsOf(s.queue), AnyAssertive(s.queue))
    ensures BatchOk(b)
  {
    var first := |s.said| - |s.timers|;
    assert TimerOk(s, 0);
    forall i | 0 <= i < |s.queue| ensures s.queue[i].time <= s.now <= s.queue[i].time + DELAY {
      var k := |s.said| - |s.queue| + i;
      assert s.queue[i] == s.said[k];
      assert s.said[first].time <= s.said[k].time;
    }
  }

  lemma PassConserves(s: State, time: nat)
    requires Conserved(s)
    ensures Conserved(Pass(s, time))
  {
    var r := Pass(s, time);
    forall i | 0 <= i < |r.timers| ensures TimerOk(r, i) { assert TimerOk(s, i); }
  }

  /** Over every timed run each text is read out exactly once, in call order, at most
      200 ms after its call, and a batch is assertive exactly when one of its members is. */
  lemma {:induction false} AnnouncementsAreConserved(acts: seq<Action>)
    ensures Conserved(Run(acts))
  {
    if acts != [] {
      AnnouncementsAreConserved(acts[..|acts| - 1]);
      var s := Run(acts[..|acts| - 1]);
      match acts[|acts| - 1]
      case Says(text, assertive) => SayConserves(s, text, assertive);
      case Passes(time) => PassConserves(s, time);
      case Fires => FireConserves(s);
    }
  }

  /** A text cannot be kept waiting: when its 200 ms are over it has been read out, or
      the timer that will read it is due and time stands still. */
  lemma WaitingIsBounded(acts: seq<Action>, i: nat)
    requires i < |Run(acts).queue|
    ensures var s := Run(acts); s.now <= s.queue[i].time + 200 && s.timers != []
  {
    AnnouncementsAreConserved(acts);
    var s := Run(acts);
    var k, first := |s.said| - |s.queue| + i, |s.said| - |s.timers|;
    assert s.queue[i] == s.said[k];
    assert TimerOk(s, 0);
    assert s.said[first].time <= s.said[k].time;
  }

  class Announcer {
    var now: nat
    var announcements: seq<Said>
    var timers: seq<nat>
    /** The live region: its priority and its lines. */
    var assertive: bool
    var lines: seq<string>
    ghost var said: seq<Said>
    ghost var read: seq<Batch>

    ghost function Machine(): State
      reads this
    {
      State(now, announcements, timers, said, read)
    }

    /** No text is lost, doubled, reordered or late, and the live region shows the last batch. */
    ghost predicate Valid()
      reads this
    {
      && Conserved(Machine())
      && if read == [] then lines == [] && !assertive
         else lines == read[|read| - 1].texts && assertive == read[|read| - 1].assertive
    }

    constructor ()
      ensures Valid() && Machine() == Start()
    {
      now, announcements, timers, assertive, lines, said, read := 0, [], [], false, [], [], [];
    }

    /** Time passes, up to the first timer that is due. */
    method Elapse(time: nat)
      requires Valid() && (timers == [] || now + time <= timers[0])
      modifies this`now
      ensures Valid() && now == old(now) + time
    {
      ghost var s := Machine();
      PassConserves(s, time);
      now := now + time;
      assert Machine() == Pass(s, time);
    }

    /** `Drupal.announce`: the text joins the others still to be read, behind them, and
        has a timer of its own that is due in 200 ms; nothing is read out yet. */
    method Say(text: string, priority: bool)
      requires Valid()
      modifies this`announcements, this`timers, this`said
      ensures Valid() && said == old(said) + [Said(text, priority, now)]
      ensures ReadOut(read) + announcements == said
      ensures timers == old(timers) + [now + DELAY]
    {
      SayConserves(Machine(), text, priority);
      Queue(text, priority);
    }

    method Queue(text: string, priority: bool)
      modifies this`announcements, this`timers, this`said
      ensures Machine() == Spoken(old(Machine()), text, priority)
    {
      announcements := announcements + [Said(text, priority, now)];
      timers := timers + [now + DELAY];
      said := said + [Said(text, priority, now)];
    }

    /** The flush loop: take the queue from its end and build the text from its front. */
    method TakeAll() returns (text: seq<string>, priority: bool)
      modifies this`announcements
      ensures announcements == []
      ensures text == TextsOf(old(announcements)) && priority == AnyAssertive(old(announcements))
    {
      text, priority := [], false;
      var il := |announcements|;
      for i := 0 to il
        invariant announcements == old(announcements)[..il - i]
        invariant text == TextsOf(old(announcements)[il - i..])
        invariant priority == AnyAssertive(old(announcements)[il - i..])
      {
        var a := announcements[|announcements| - 1];
        announcements := announcements[..|announcements| - 1];
        text := [a.text] + text;
        if a.assertive { priority := true; }
        OneMore(old(announcements), il - i - 1);
      }
      assert old(announcements)[0..] == old(announcements);
    }

    /** Set the live region, unless there is nothing to say. */
    method Publish(text: seq<string>, priority: bool, ghost s: State)
      requires Machine() == s.(queue := []) && timers != [] && timers[0] <= now
      requires text == TextsOf(s.queue) && priority == AnyAssertive(s.queue)
      modifies this`timers, this`assertive, this`lines, this`read
      ensures Machine() == Fire(s)
      ensures if s.queue == [] then lines == old(lines) && assertive == old(assertive)
              else lines == text && assertive == priority
    {
      if text != [] {
        assertive := priority;
        lines := text;
        read := read + [Batch(now, s.queue, text, priority)];
      }
      timers := timers[1..];
    }

    /** A timer's callback: set the live region to everything that was waiting, unless
        nothing was. Afterwards every text ever handed in has been read out. */
    method Flush()
      requires Valid() && timers != [] && timers[0] <= now
      modifies this`announcements, this`timers, this`assertive, this`lines, this`read
      ensures Valid() && ReadOut(read) == said && timers == old(timers)[1..]
      ensures old(announcements) != [] ==>
        lines == TextsOf(old(announcements)) && assertive == AnyAssertive(old(announcements))
      ensures old(announcements) == [] ==> lines == old(lines) && assertive == old(assertive) && read == old(read)
    {
      ghost var s := Machine();
      FireReadsAll(s);
      var text, priority := TakeAll();
      Publish(text, priority, s);
    }
  }

  lemma FireReadsAll(s: State)
    requires Conserved(s) && s.timers != [] && s.timers[0] <= s.now
    ensures Conserved(Fire(s)) && ReadOut(Fire(s).read) == s.said
  {
    FireConserves(s);
    assert Fire(s).said == ReadOut(Fire(s).read) + [];
  }

  lemma OneMore(items: seq<Said>, k: nat)
    requires k < |items|
    ensures TextsOf(items[k..]) == [items[k].text] + TextsOf(items[k + 1..])
    ensures AnyAssertive(items[k..]) <==> items[k].assertive || AnyAssertive(items[k + 1..])
  {
    var t, u := items[k..], items[k + 1..];
    assert t == [items[k]] + u;
    if AnyAssertive(u) {
      var i :| 0 <= i < |u| && u[i].assertive;
      assert t[i + 1].assertive;
    }
    if items[k].assertive { assert t[0].assertive; }
  }
}
