/** `when`: many inputs joined into one Deferred, with a counter of what is still
    missing, an array of values filled in as the inputs resolve and another one of
    their latest progress. */
module When {
  import opened Wrappers

  /** What an input holds once resolved: a lone argument, or the list of several. */
  datatype Held<V> = Nothing | One(value: V) | Many(values: seq<V>)

  /** All arguments are held, and can be told apart from any others. */
  ghost predicate Holds<V>(held: Held<V>, args: seq<V>) {
    match held
    case Nothing => args == []
    case One(v) => args == [v]
    case Many(vs) => args == vs && 1 < |vs|
  }

  function Hold<V>(args: seq<V>): (held: Held<V>)
    ensures Holds(held, args)
  {
    if args == [] then Nothing else if |args| == 1 then One(args[0]) else Many(args)
  }

  datatype State<V> = Waiting | Kept(args: seq<V>) | Broken(args: seq<V>)

  /** An argument of `when`: a plain value, or a promise in the state it has then, with the
      progress it remembers. */
  datatype Input<V> = Plain(value: V) | Promise(state: State<V>, noted: Option<seq<V>>)

  /** A progress notification of input `k`. */
  datatype Note<V> = Note(k: nat, held: Held<V>)

  /** The joined Deferred, which settles once and for good. */
  datatype Outcome<V> = Open | Resolved(values: seq<Held<V>>) | Rejected(args: seq<V>)

  function Settle<V>(o: Outcome<V>, next: Outcome<V>): Outcome<V> {
    if o.Open? then next else o
  }

  /** Something that happened to input `k`. */
  datatype Event<V> = Resolves(k: nat, held: Held<V>) | Rejects(k: nat, args: seq<V>)

  /** No input settles twice. */
  ghost predicate OnceEach<V>(events: seq<Event<V>>) {
    forall i, j :: 0 <= i < j < |events| ==> events[i].k != events[j].k
  }

  ghost predicate HasResolved<V>(events: seq<Event<V>>, k: nat) {
    exists i :: 0 <= i < |events| && events[i].Resolves? && events[i].k == k
  }

  ghost predicate HasRejection<V>(events: seq<Event<V>>) {
    exists i :: 0 <= i < |events| && events[i].Rejects?
  }

  /** What the join of `n` inputs must be after `events`: rejected with the first
      rejection, else resolved with all values in argument order once every input
      has resolved, else open. */
  ghost predicate Expected<V>(n: nat, events: seq<Event<V>>, o: Outcome<V>) {
    match o
    case Rejected(args) =>
      exists i: nat :: FirstRejection(events, i) && events[i].args == args
    case Resolved(values) =>
      && !HasRejection(events) && |values| == n
      && (forall k :: 0 <= k < n ==> HasResolved(events, k))
      && (forall i :: 0 <= i < |events| && events[i].Resolves? && events[i].k < n ==> values[events[i].k] == events[i].held)
    case Open =>
      !HasRejection(events) && exists k :: 0 <= k < n && !HasResolved(events, k)
  }

  ghost predicate FirstRejection<V>(events: seq<Event<V>>, i: nat) {
    i < |events| && events[i].Rejects? && forall j :: 0 <= j < i ==> events[j].Resolves?
  }

  /** The inputs among the first `n` that have not resolved. */
  ghost function Missing<V>(n: nat, events: seq<Event<V>>): set<nat> {
    set k | 0 <= k < n && !HasResolved(events, k)
  }

  /** There is exactly one outcome that can be expected. */
  lemma ExpectedIsUnique<V>(n: nat, events: seq<Event<V>>, a: Outcome<V>, b: Outcome<V>)
    requires OnceEach(events) && Expected(n, events, a) && Expected(n, events, b)
    ensures a == b
  {
    RejectedIff(n, events, a);
    RejectedIff(n, events, b);
    if a.Rejected? {
      var i: nat :| FirstRejection(events, i) && events[i].args == a.args;
      var j: nat :| FirstRejection(events, j) && events[j].args == b.args;
      assert i == j;
    } else if a.Resolved? && b.Resolved? {
      forall k | 0 <= k < n ensures a.values[k] == b.values[k] {
        assert HasResolved(events, k);
      }
    }
  }

  lemma RejectedIff<V>(n: nat, events: seq<Event<V>>, o: Outcome<V>)
    requires Expected(n, events, o)
    ensures o.Rejected? <==> HasRejection(events)
  {
    if o.Rejected? {
      var i: nat :| FirstRejection(events, i) && events[i].args == o.args;
    }
  }

  // ---------- one more event ----------

  lemma ResolvedAfter<V>(events: seq<Event<V>>, e: Event<V>, k: nat)
    ensures HasResolved(events + [e], k) <==> HasResolved(events, k) || (e.Resolves? && e.k == k)
  {
    var more := events + [e];
    assert more[|events|] == e;
    if HasResolved(events, k) {
      var i :| 0 <= i < |events| && events[i].Resolves? && events[i].k == k;
      assert more[i] == events[i];
    }
  }

  lemma RejectionAfter<V>(events: seq<Event<V>>, e: Event<V>)
    ensures HasRejection(events + [e]) <==> HasRejection(events) || e.Rejects?
  {
    var more := events + [e];
    assert more[|events|] == e;
    if HasRejection(events) {
      var i :| 0 <= i < |events| && events[i].Rejects?;
      assert more[i].Rejects?;
    }
  }

  lemma CountDown<V>(n: nat, events: seq<Event<V>>, k: nat, held: Held<V>)
    requires k < n && !HasResolved(events, k)
    ensures |Missing(n, events + [Resolves(k, held)])| == |Missing(n, events)| - 1
  {
    forall m: nat ensures HasResolved(events + [Resolves(k, held)], m) <==> HasResolved(events, m) || m == k {
      ResolvedAfter(events, Resolves(k, held), m);
    }
    assert Missing(n, events + [Resolves(k, held)]) == Missing(n, events) - {k};
  }

  lemma NoCountDown<V>(n: nat, events: seq<Event<V>>, k: nat, args: seq<V>)
    ensures Missing(n, events + [Rejects(k, args)]) == Missing(n, events)
  {
    forall m: nat ensures HasResolved(events + [Rejects(k, args)], m) <==> HasResolved(events, m) {
      ResolvedAfter(events, Rejects(k, args), m);
    }
  }

  /** A first rejection stays the first. */
  lemma RejectionStays<V>(n: nat, events: seq<Event<V>>, e: Event<V>, o: Outcome<V>)
    requires Expected(n, events, o) && o.Rejected?
    ensures Expected(n, events + [e], o)
  {
    var i: nat :| FirstRejection(events, i) && events[i].args == o.args;
    var more := events + [e];
    assert forall j :: 0 <= j <= i ==> more[j] == events[j];
    assert FirstRejection(more, i);
  }

  /** The join may be behind its inputs only while `when` itself is still running. */
  ghost predicate Behind<V>(n: nat, events: seq<Event<V>>, o: Outcome<V>) {
    if o.Open? then !HasRejection(events) else Expected(n, events, o)
  }

  ghost predicate Unsettled<V>(events: seq<Event<V>>, k: nat) {
    forall i :: 0 <= i < |events| ==> events[i].k != k
  }

  /** Every value so far is where it belongs. */
  ghost predicate Filled<V>(n: nat, events: seq<Event<V>>, values: seq<Held<V>>) {
    && |values| == n && OnceEach(events)
    && (forall i :: 0 <= i < |events| ==> events[i].k < n)
    && (forall i :: 0 <= i < |events| && events[i].Resolves? ==> values[events[i].k] == events[i].held)
  }

  lemma FillOne<V>(n: nat, events: seq<Event<V>>, values: seq<Held<V>>, k: nat, held: Held<V>)
    requires Filled(n, events, values) && k < n && Unsettled(events, k)
    ensures Filled(n, events + [Resolves(k, held)], values[k := held])
  {
  }

  /** When everything has resolved, the filled array is the expected result. */
  lemma AllResolved<V>(n: nat, events: seq<Event<V>>, values: seq<Held<V>>)
    requires Filled(n, events, values) && !HasRejection(events) && |Missing(n, events)| == 0
    ensures Expected(n, events, Resolved(values))
  {
    forall k | 0 <= k < n ensures HasResolved(events, k) {
      assert k !in Missing(n, events);
    }
  }

  lemma StillMissing<V>(n: nat, events: seq<Event<V>>)
    requires !HasRejection(events) && 0 < |Missing(n, events)|
    ensures Expected(n, events, Open)
  {
    assert Missing(n, events) != {};
    var k :| k in Missing(n, events);
  }

  /** A settled join stays right whatever else happens. */
  lemma SettledStays<V>(n: nat, events: seq<Event<V>>, e: Event<V>, o: Outcome<V>)
    requires Expected(n, events, o) && !o.Open? && e.k < n && Unsettled(events, e.k)
    ensures Expected(n, events + [e], o)
  {
    assert o.Resolved? ==> HasResolved(events, e.k);
    RejectionStays(n, events, e, o);
  }

  // ---------- progress ----------

  /** The latest progress of input `k`. */
  ghost function LatestOf<V>(notes: seq<Note<V>>, k: nat): Held<V> {
    if notes == [] then Nothing
    else if notes[|notes| - 1].k == k then notes[|notes| - 1].held
    else LatestOf(notes[..|notes| - 1], k)
  }

  /** The latest progress of every input, in argument order. */
  ghost predicate IsLatest<V>(progress: seq<Held<V>>, n: nat, notes: seq<Note<V>>) {
    |progress| == n && forall k :: 0 <= k < n ==> progress[k] == LatestOf(notes, k)
  }

  /** What the join has passed on: one notification for each of an input, as long as it is
      open and not afterwards, each with the latest progress of every input at the time. */
  ghost predicate Relayed<V>(n: nat, notes: seq<Note<V>>, told: seq<seq<Held<V>>>, open: bool) {
    && |told| <= |notes| && (open ==> |told| == |notes|)
    && forall i :: 0 <= i < |told| ==> IsLatest(told[i], n, notes[..i + 1])
  }

  lemma LatestAfter<V>(progress: seq<Held<V>>, n: nat, notes: seq<Note<V>>, note: Note<V>)
    requires IsLatest(progress, n, notes) && note.k < n
    ensures IsLatest(progress[note.k := note.held], n, notes + [note])
  {
    assert (notes + [note])[..|notes|] == notes;
  }

  lemma RelayedAfter<V>(n: nat, notes: seq<Note<V>>, told: seq<seq<Held<V>>>, open: bool, note: Note<V>, progress: seq<Held<V>>)
    requires Relayed(n, notes, told, open) && IsLatest(progress, n, notes + [note])
    ensures Relayed(n, notes + [note], if open then told + [progress] else told, open)
  {
    var more := notes + [note];
    assert more[..|notes| + 1] == more;
    forall i | 0 <= i < |told| ensures IsLatest(told[i], n, more[..i + 1]) {
      assert more[..i + 1] == notes[..i + 1];
    }
  }

  class Join<V> {
    const n: nat
    var remaining: int
    var values: seq<Held<V>>
    var progress: seq<Held<V>>
    var outcome: Outcome<V>
    ghost var events: seq<Event<V>>
    ghost var notes: seq<Note<V>>
    /** The notifications of the join itself. */
    ghost var told: seq<seq<Held<V>>>

    /** The counter counts the inputs that have not resolved, and the resolved ones
        have left their value; all progress is passed on as it comes. */
    ghost predicate Counting()
      reads this
    {
      && Filled(n, events, values) && remaining == |Missing(n, events)| && Behind(n, events, outcome)
      && IsLatest(progress, n, notes) && Relayed(n, notes, told, outcome.Open?)
    }

    ghost predicate Valid()
      reads this
    {
      Counting() && Expected(n, events, outcome)
    }

    constructor (n: nat)
      ensures Counting() && this.n == n && events == [] && notes == [] && outcome.Open?
    {
      this.n := n;
      remaining, values, progress := n, seq(n, _ => Nothing), seq(n, _ => Nothing);
      outcome, events, notes, told := Open, [], [], [];
      new;
      AllMissing<V>(n);
    }

    /** A plain value counts as resolved at once, without looking at the counter. */
    method Plain(k: nat, value: V)
      requires Counting() && k < n && Unsettled(events, k)
      modifies this`remaining, this`values, this`outcome, this`events
      ensures Counting() && events == old(events) + [Resolves(k, One(value))] && outcome == old(outcome)
    {
      if !outcome.Open? { SettledStays(n, events, Resolves(k, One(value)), outcome); }
      CountDown(n, events, k, One(value));
      RejectionAfter(events, Resolves(k, One(value)));
      FillOne(n, events, values, k, One(value));
      values := values[k := One(value)];
      remaining := remaining - 1;
      events := events + [Resolves(k, One(value))];
    }

    /** Input `k` resolves: fill in the value, count down, and resolve the join when
        nothing is missing. */
    method Resolve(k: nat, args: seq<V>)
      requires Counting() && k < n && Unsettled(events, k)
      modifies this`remaining, this`values, this`outcome, this`events
      ensures Valid() && events == old(events) + [Resolves(k, values[k])] && Holds(values[k], args)
      ensures forall j :: 0 <= j < n && j != k ==> values[j] == old(values)[j]
    {
      var held := Hold(args);
      ghost var e := Resolves(k, held);
      CountDown(n, events, k, held);
      RejectionAfter(events, e);
      FillOne(n, events, values, k, held);
      if !outcome.Open? { SettledStays(n, events, e, outcome); }
      values := values[k := held];
      remaining := remaining - 1;
      events := events + [e];
      if remaining == 0 { outcome := Settle(outcome, Resolved(values)); }
      if old(outcome).Open? {
        if remaining == 0 { AllResolved(n, events, values); } else { StillMissing(n, events); }
      }
    }

    /** Input `k` is rejected: so is the join, unless it has settled. */
    method Reject(k: nat, args: seq<V>)
      requires Counting() && k < n && Unsettled(events, k)
      modifies this`remaining, this`values, this`outcome, this`events
      ensures Valid() && events == old(events) + [Rejects(k, args)]
    {
      ghost var e := Rejects(k, args);
      NoCountDown(n, events, k, args);
      if !outcome.Open? { SettledStays(n, events, e, outcome); }
      events := events + [e];
      if outcome.Open? {
        assert FirstRejection(events, |events| - 1);
      }
      outcome := Settle(outcome, Rejected(args));
    }

    /** Input `k` reports progress: an open join passes on the latest progress of every
        input, a settled one nothing. */
    method Notify(k: nat, args: seq<V>) returns (passed: Option<seq<Held<V>>>)
      requires Counting() && k < n
      modifies this`progress, this`notes, this`told
      ensures Counting() && notes == old(notes) + [Note(k, progress[k])] && Holds(progress[k], args)
      ensures passed.Some? <==> outcome.Open?
      ensures passed.Some? ==> IsLatest(passed.value, n, notes) && told == old(told) + [passed.value]
      ensures passed.None? ==> told == old(told)
    {
      ghost var note := Note(k, Hold(args));
      LatestAfter(progress, n, notes, note);
      progress := progress[k := Hold(args)];
      RelayedAfter(n, notes, told, outcome.Open?, note, progress);
      notes := notes + [note];
      passed := None;
      if outcome.Open? {
        passed := Some(progress);
        told := told + [progress];
      }
    }

    /** The end of `when`: nothing to wait for resolves the join. */
    method Close()
      requires Counting()
      modifies this`remaining, this`values, this`outcome, this`events
      ensures Valid() && events == old(events)
    {
      if outcome.Open? {
        if remaining == 0 { AllResolved(n, events, values); } else { StillMissing(n, events); }
      }
      if remaining == 0 { outcome := Settle(outcome, Resolved(values)); }
    }
  }

  lemma {:induction false} AllMissing<V>(n: nat)
    ensures |Missing<V>(n, [])| == n
  {
    if 0 < n {
      AllMissing<V>(n - 1);
      assert Missing<V>(n, []) == Missing<V>(n - 1, []) + {n - 1};
    }
  }

  /** What has happened to argument `k` when `when` is called. */
  ghost function Settled<V>(k: nat, input: Input<V>): seq<Event<V>> {
    match input
    case Plain(v) => [Resolves(k, One(v))]
    case Promise(Kept(args), _) => [Resolves(k, Hold(args))]
    case Promise(Broken(args), _) => [Rejects(k, args)]
    case Promise(Waiting, _) => []
  }

  /** The progress that argument `k` remembers. */
  ghost function Noted<V>(k: nat, input: Input<V>): seq<Note<V>> {
    if input.Promise? && input.noted.Some? then [Note(k, Hold(input.noted.value))] else []
  }

  ghost function Already<V>(inputs: seq<Input<V>>): seq<Event<V>> {
    if inputs == [] then []
    else Already(inputs[..|inputs| - 1]) + Settled(|inputs| - 1, inputs[|inputs| - 1])
  }

  ghost function Remembered<V>(inputs: seq<Input<V>>): seq<Note<V>> {
    if inputs == [] then []
    else Remembered(inputs[..|inputs| - 1]) + Noted(|inputs| - 1, inputs[|inputs| - 1])
  }

  lemma OneMoreInput<V>(inputs: seq<Input<V>>, c: nat)
    requires c < |inputs|
    ensures Already(inputs[..c + 1]) == Already(inputs[..c]) + Settled(c, inputs[c])
    ensures Remembered(inputs[..c + 1]) == Remembered(inputs[..c]) + Noted(c, inputs[c])
  {
    assert inputs[..c + 1][..c] == inputs[..c];
  }

  /** The events are those of the inputs before `c`. */
  ghost predicate UpTo<V>(events: seq<Event<V>>, c: nat) {
    forall i :: 0 <= i < |events| ==> events[i].k < c
  }

  lemma UpToNext<V>(events: seq<Event<V>>, c: nat, input: Input<V>)
    requires UpTo(events, c)
    ensures Unsettled(events, c) && UpTo(events + Settled(c, input), c + 1)
  {
  }

  /** What `when` returns: its only argument itself, or a join. */
  datatype Returned<V> = TheArgument | Joined(join: Join<V>)

  /** One argument. The functions added to a promise are called at once with what has
      happened to it. */
  method Take<V>(join: Join<V>, k: nat, input: Input<V>)
    requires join.Counting() && k < join.n && Unsettled(join.events, k)
    modifies join
    ensures join.Counting()
    ensures join.events == old(join.events) + Settled(k, input)
    ensures join.notes == old(join.notes) + Noted(k, input)
  {
    TakeState(join, k, input);
    if input.Promise? && input.noted.Some? { var _ := join.Notify(k, input.noted.value); }
  }

  method TakeState<V>(join: Join<V>, k: nat, input: Input<V>)
    requires join.Counting() && k < join.n && Unsettled(join.events, k)
    modifies join`remaining, join`values, join`outcome, join`events
    ensures join.Counting() && join.events == old(join.events) + Settled(k, input)
  {
    match input
    case Plain(v) => join.Plain(k, v);
    case Promise(Kept(args), _) => join.Resolve(k, args);
    case Promise(Broken(args), _) => join.Reject(k, args);
    case Promise(Waiting, _) =>
  }

  /** `when`: a single promise is handed back as it is; anything else becomes a join. */
  method When<V>(inputs: seq<Input<V>>) returns (r: Returned<V>)
    ensures r.TheArgument? <==> |inputs| == 1 && inputs[0].Promise?
    ensures r.Joined? ==>
      && fresh(r.join) && r.join.n == |inputs| && r.join.Valid()
      && r.join.events == Already(inputs) && r.join.notes == Remembered(inputs)
  {
    if |inputs| == 1 && inputs[0].Promise? { return TheArgument; }
    var join := new Join<V>(|inputs|);
    for c := 0 to |inputs|
      invariant fresh(join) && join.n == |inputs| && join.Counting()
      invariant join.events == Already(inputs[..c]) && join.notes == Remembered(inputs[..c])
      invariant UpTo(join.events, c)
    {
      OneMoreInput(inputs, c);
      UpToNext(join.events, c, inputs[c]);
      Take(join, c, inputs[c]);
    }
    assert inputs[..|inputs|] == inputs;
    join.Close();
    r := Joined(join);
  }
}
