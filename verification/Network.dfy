/** A network of dependents wired to one another. A change is pushed through by
    synchronous, nested calls: `update` stores a value, `reevaluate` compares the
    verdict with the last one, and an event goes to every listener in turn. */
module Network {
  import opened Wrappers
  import opened Constraints
  import opened Dependents

  /** Who sends a value: an element of the page, or a dependent. */
  datatype Source = External(id: nat) | Internal(node: nat)

  /** A tracked value of one dependent. */
  datatype Slot = Slot(node: nat, at: Lookup)

  datatype Node = Node(constraints: Json, invert: bool, values: map<Lookup, Value>, oldValue: Tri)

  /** Listeners in the order they were bound, and for every slot the source it listens to. */
  datatype Wiring = Wiring(listeners: Source -> seq<Slot>, source: Slot -> Source, rank: seq<nat>)

  /** A dependent has a new verdict and sends `value` to its listeners. */
  datatype Event = Event(node: nat, verdict: Tri, value: Value)

  function Verdict(n: Node): Tri {
    Verify(Comparing(n.values), n.constraints, None).result
  }

  function TriValue(t: Tri): Value {
    match t case U => Undefined case T => IsBool(true) case F => IsBool(false)
  }

  /** What a dependent last told its listeners. */
  function Output(n: Node): Value {
    TriValue(Invert(n.oldValue, n.invert))
  }

  /** What a listener must be told of a verdict: nothing if there is none, else whether the
      state is on, which for an inverted state is when the constraints fail. */
  ghost predicate Tells(v: Value, verdict: Tri, invert: bool) {
    && (v == Undefined <==> verdict == U)
    && (v == IsBool(true) <==> verdict == if invert then F else T)
    && (v == IsBool(false) <==> verdict == if invert then T else F)
  }

  lemma OutputTells(n: Node)
    ensures Tells(Output(n), n.oldValue, n.invert)
  {
  }

  ghost function Current(nodes: seq<Node>, inputs: nat -> Value, src: Source): Value {
    match src
    case External(id) => inputs(id)
    case Internal(i) => if i < |nodes| then Output(nodes[i]) else Undefined
  }

  // ---------- wiring ----------

  ghost predicate IsSlot(w: Wiring, s: Slot) {
    s in w.listeners(w.source(s))
  }

  /** Slots exist, listen where they are listed, and dependencies are acyclic:
      a listener ranks above the dependent it listens to. */
  ghost predicate Wired(w: Wiring, nodes: seq<Node>) {
    && |w.rank| == |nodes|
    && (forall src, k :: 0 <= k < |w.listeners(src)| ==> SlotWired(w, nodes, src, w.listeners(src)[k]))
    && (forall i :: 0 <= i < |nodes| ==> Complete(nodes[i]))
  }

  ghost predicate SlotWired(w: Wiring, nodes: seq<Node>, src: Source, s: Slot) {
    && s.node < |nodes| && s.node < |w.rank| && s.at in nodes[s.node].values && w.source(s) == src
    && (src.Internal? && src.node < |w.rank| ==> w.rank[src.node] < w.rank[s.node])
  }

  ghost predicate Complete(n: Node) {
    Ready(Comparing(n.values), Leaves(n.constraints, None))
  }

  // ---------- consistency ----------

  ghost predicate Settled(nodes: seq<Node>) {
    forall i :: 0 <= i < |nodes| ==> NodeSettled(nodes[i])
  }

  ghost predicate NodeSettled(n: Node) {
    n.oldValue == Verdict(n)
  }

  ghost predicate SlotOk(nodes: seq<Node>, inputs: nat -> Value, w: Wiring, s: Slot) {
    && s.node < |nodes| && s.at in nodes[s.node].values
    && nodes[s.node].values[s.at] == Current(nodes, inputs, w.source(s))
  }

  /** Every slot outside `pending` holds what its source last said. */
  ghost predicate InSync(w: Wiring, nodes: seq<Node>, inputs: nat -> Value, pending: set<Slot>) {
    forall s :: IsSlot(w, s) && s !in pending ==> SlotOk(nodes, inputs, w, s)
  }

  /** The same dependents, with other values. */
  ghost predicate SameNet(a: seq<Node>, b: seq<Node>) {
    |a| == |b| && forall i :: 0 <= i < |a| ==> SameNode(a[i], b[i])
  }

  ghost predicate SameNode(a: Node, b: Node) {
    a.constraints == b.constraints && a.invert == b.invert && a.values.Keys == b.values.Keys
  }

  /** Dependents ranked `lo` or below are untouched. */
  ghost predicate Below(w: Wiring, a: seq<Node>, b: seq<Node>, lo: int) {
    |a| == |b| == |w.rank| && forall i :: 0 <= i < |a| && w.rank[i] <= lo ==> a[i] == b[i]
  }

  lemma WiredStays(w: Wiring, a: seq<Node>, b: seq<Node>)
    requires Wired(w, a) && SameNet(a, b)
    ensures Wired(w, b)
  {
    forall src, k | 0 <= k < |w.listeners(src)| ensures SlotWired(w, b, src, w.listeners(src)[k]) {
      var s := w.listeners(src)[k];
      assert SlotWired(w, a, src, s);
      assert SameNode(a[s.node], b[s.node]);
    }
    forall i | 0 <= i < |b| ensures Complete(b[i]) {
      assert Complete(a[i]) && SameNode(a[i], b[i]);
    }
  }

  // ---------- one event per change of verdict ----------

  /** In `evs` node `i` goes from verdict `a` to `b`, and each of its events differs
      from its verdict before. */
  ghost predicate Chain(evs: seq<Event>, i: nat, a: Tri, b: Tri) {
    if evs == [] then a == b
    else if evs[0].node == i then evs[0].verdict != a && Chain(evs[1..], i, evs[0].verdict, b)
    else Chain(evs[1..], i, a, b)
  }

  ghost predicate Emitted(before: seq<Node>, after: seq<Node>, evs: seq<Event>) {
    |before| == |after| && forall i :: 0 <= i < |before| ==> Chain(evs, i, before[i].oldValue, after[i].oldValue)
  }

  /** Every event has told the verdict as its dependent's state requires. */
  ghost predicate Truthful(nodes: seq<Node>, evs: seq<Event>) {
    forall k :: 0 <= k < |evs| ==> evs[k].node < |nodes| && Tells(evs[k].value, evs[k].verdict, nodes[evs[k].node].invert)
  }

  lemma TruthfulStays(a: seq<Node>, b: seq<Node>, x: seq<Event>, y: seq<Event>)
    requires SameNet(a, b) && Truthful(a, x) && Truthful(b, y)
    ensures Truthful(b, x + y)
  {
    forall k | 0 <= k < |x + y|
      ensures (x + y)[k].node < |b| && Tells((x + y)[k].value, (x + y)[k].verdict, b[(x + y)[k].node].invert)
    {
      if k < |x| { assert SameNode(a[x[k].node], b[x[k].node]); }
    }
  }

  lemma {:induction false} ChainTwice(x: seq<Event>, y: seq<Event>, i: nat, a: Tri, b: Tri, c: Tri)
    requires Chain(x, i, a, b) && Chain(y, i, b, c)
    ensures Chain(x + y, i, a, c)
    decreases |x|
  {
    if x == [] {
      assert x + y == y;
    } else {
      assert (x + y)[1..] == x[1..] + y;
      ChainTwice(x[1..], y, i, if x[0].node == i then x[0].verdict else a, b, c);
    }
  }

  lemma EmittedTwice(a: seq<Node>, b: seq<Node>, c: seq<Node>, x: seq<Event>, y: seq<Event>)
    requires Emitted(a, b, x) && Emitted(b, c, y)
    ensures Emitted(a, c, x + y)
  {
    forall i | 0 <= i < |a| ensures Chain(x + y, i, a[i].oldValue, c[i].oldValue) {
      ChainTwice(x, y, i, a[i].oldValue, b[i].oldValue, c[i].oldValue);
    }
  }

  /** What one call may do: change nodes ranked above `lo`, with one event for
      each change of verdict. */
  ghost predicate Progress(w: Wiring, a: seq<Node>, b: seq<Node>, x: seq<Event>, y: seq<Event>, lo: int) {
    SameNet(a, b) && Below(w, a, b, lo) && x <= y && Emitted(a, b, y[|x|..]) && Truthful(b, y[|x|..])
  }

  lemma ProgressTwice(w: Wiring, a: seq<Node>, b: seq<Node>, c: seq<Node>,
                      x: seq<Event>, y: seq<Event>, z: seq<Event>, lo: int)
    requires Progress(w, a, b, x, y, lo) && Progress(w, b, c, y, z, lo)
    ensures Progress(w, a, c, x, z, lo)
  {
    assert z[|x|..] == y[|x|..] + z[|y|..];
    EmittedTwice(a, b, c, y[|x|..], z[|y|..]);
    TruthfulStays(b, c, y[|x|..], z[|y|..]);
    forall i | 0 <= i < |a| ensures SameNode(a[i], c[i]) {
      assert SameNode(a[i], b[i]) && SameNode(b[i], c[i]);
    }
  }

  // ---------- what the steps do to consistency ----------

  /** Storing the value its source last said puts a slot in sync. */
  lemma StoreSyncs(w: Wiring, nodes: seq<Node>, inputs: nat -> Value, pending: set<Slot>, s: Slot, v: Value)
    requires Wired(w, nodes) && IsSlot(w, s) && SlotWired(w, nodes, w.source(s), s)
    requires InSync(w, nodes, inputs, pending + {s}) && v == Current(nodes, inputs, w.source(s))
    ensures InSync(w, Stored(nodes, s, v), inputs, pending)
  {
    var r := Stored(nodes, s, v);
    forall t | IsSlot(w, t) && t !in pending ensures SlotOk(r, inputs, w, t) {
      assert Current(r, inputs, w.source(t)) == Current(nodes, inputs, w.source(t));
      if t != s { assert SlotOk(nodes, inputs, w, t); }
    }
  }

  ghost function Stored(nodes: seq<Node>, s: Slot, v: Value): seq<Node>
    requires s.node < |nodes|
  {
    var n := nodes[s.node];
    nodes[s.node := n.(values := n.values[s.at := v])]
  }

  /** A new verdict leaves only the dependent's own listeners behind. */
  lemma VerdictUnsyncsListeners(w: Wiring, nodes: seq<Node>, inputs: nat -> Value, pending: set<Slot>, j: nat, t: Tri)
    requires j < |nodes| && InSync(w, nodes, inputs, pending)
    ensures InSync(w, nodes[j := nodes[j].(oldValue := t)], inputs, pending + Heard(w, Internal(j)))
  {
    var r := nodes[j := nodes[j].(oldValue := t)];
    forall s | IsSlot(w, s) && s !in pending + Heard(w, Internal(j)) ensures SlotOk(r, inputs, w, s) {
      assert SlotOk(nodes, inputs, w, s);
      assert w.source(s) != Internal(j);
    }
  }

  ghost function Heard(w: Wiring, src: Source): set<Slot> {
    SlotSet(w.listeners(src))
  }

  ghost function SlotSet(slots: seq<Slot>): set<Slot> {
    set s | s in slots
  }

  lemma SlotSetStep(slots: seq<Slot>, k: nat)
    requires k < |slots|
    ensures SlotSet(slots[k..]) == {slots[k]} + SlotSet(slots[k + 1..])
  {
    assert slots[k..] == [slots[k]] + slots[k + 1..];
  }

  class Net {
    const wiring: Wiring
    var nodes: seq<Node>
    var events: seq<Event>

    constructor (wiring: Wiring, nodes: seq<Node>)
      ensures this.wiring == wiring && this.nodes == nodes && events == []
    {
      this.wiring, this.nodes, events := wiring, nodes, [];
    }

    ghost predicate Rest(inputs: nat -> Value, pending: set<Slot>)
      reads this
    {
      Wired(wiring, nodes) && InSync(wiring, nodes, inputs, pending)
    }

    /** `trigger`: call every listener, in the order bound. */
    method Trigger(src: Source, value: Value, ghost inputs: nat -> Value, ghost pending: set<Slot>, ghost lo: int, ghost top: int)
      requires Rest(inputs, pending + Heard(wiring, src)) && Settled(nodes)
      requires value == Current(nodes, inputs, src)
      requires src.Internal? ==> src.node < |nodes| && wiring.rank[src.node] == lo
      requires src.External? ==> lo == -1
      requires lo <= top && forall i :: 0 <= i < |wiring.rank| ==> wiring.rank[i] <= top
      modifies this`nodes, this`events
      ensures Rest(inputs, pending) && Settled(nodes)
      ensures Progress(wiring, old(nodes), nodes, old(events), events, lo)
      decreases top - lo, 2
    {
      var slots := wiring.listeners(src);
      for k := 0 to |slots|
        invariant Rest(inputs, pending + SlotSet(slots[k..])) && Settled(nodes)
        invariant Progress(wiring, old(nodes), nodes, old(events), events, lo)
        invariant value == Current(nodes, inputs, src)
      {
        var s := slots[k];
        assert SlotWired(wiring, nodes, src, s);
        SlotSetStep(slots, k);
        ghost var rest := pending + SlotSet(slots[k + 1..]);
        assert pending + SlotSet(slots[k..]) == rest + {s};
        ghost var nodes0, events0 := nodes, events;
        Update(s, value, inputs, rest, lo, top);
        ProgressTwice(wiring, old(nodes), nodes0, nodes, old(events), events0, events, lo);
      }
      assert pending + SlotSet(slots[|slots|..]) == pending;
    }

    /** `update`: only a new value is stored and acted on. */
    method Update(s: Slot, value: Value, ghost inputs: nat -> Value, ghost pending: set<Slot>, ghost lo: int, ghost top: int)
      requires Rest(inputs, pending + {s}) && Settled(nodes)
      requires IsSlot(wiring, s) && SlotWired(wiring, nodes, wiring.source(s), s)
      requires value == Current(nodes, inputs, wiring.source(s))
      requires lo < wiring.rank[s.node] && forall i :: 0 <= i < |wiring.rank| ==> wiring.rank[i] <= top
      modifies this`nodes, this`events
      ensures Rest(inputs, pending) && Settled(nodes)
      ensures Progress(wiring, old(nodes), nodes, old(events), events, lo)
      decreases top - lo, 1
    {
      StoreSyncs(wiring, nodes, inputs, pending, s, value);
      var n := nodes[s.node];
      if value != n.values[s.at] {
        nodes := nodes[s.node := n.(values := n.values[s.at := value])];
        WiredStays(wiring, old(nodes), nodes);
        Reevaluate(s.node, inputs, pending, lo, top);
      } else {
        assert n.values[s.at := value] == n.values;
        assert Stored(nodes, s, value) == nodes;
      }
    }

    /** `reevaluate`: only a new verdict is stored and announced. */
    method Reevaluate(j: nat, ghost inputs: nat -> Value, ghost pending: set<Slot>, ghost lo: int, ghost top: int)
      requires Rest(inputs, pending) && j < |nodes|
      requires forall i :: 0 <= i < |nodes| && i != j ==> NodeSettled(nodes[i])
      requires lo < wiring.rank[j] && forall i :: 0 <= i < |wiring.rank| ==> wiring.rank[i] <= top
      modifies this`nodes, this`events
      ensures Rest(inputs, pending) && Settled(nodes)
      ensures Progress(wiring, old(nodes), nodes, old(events), events, lo)
      decreases top - lo, 0
    {
      var n := nodes[j];
      assert Complete(n);
      var o := VerifyConstraints(Comparing(n.values), n.constraints, None);
      var verdict := o.result;
      if verdict != n.oldValue {
        VerdictUnsyncsListeners(wiring, nodes, inputs, pending, j, verdict);
        nodes := nodes[j := n.(oldValue := verdict)];
        var value := Output(nodes[j]);
        var e := Event(j, verdict, value);
        events := events + [e];
        WiredStays(wiring, old(nodes), nodes);
        ghost var nodes0, events0 := nodes, events;
        OutputTells(nodes[j]);
        FirstEvent(wiring, old(nodes), nodes0, old(events), e, lo);
        Trigger(Internal(j), value, inputs, pending, wiring.rank[j], top);
        ProgressTwice(wiring, old(nodes), nodes0, nodes, old(events), events0, events, lo);
      }
    }

    /** One change on the page. It always terminates, with every dependent's stored
        verdict up to date, every listener holding what its source last said, and
        one event for each change of a verdict. */
    method Change(id: nat, value: Value, ghost inputs: nat -> Value)
      requires Rest(inputs, {}) && Settled(nodes)
      modifies this`nodes, this`events
      ensures Rest(With(inputs, id, value), {}) && Settled(nodes)
      ensures SameNet(old(nodes), nodes)
      ensures old(events) <= events && Emitted(old(nodes), nodes, events[|old(events)|..])
      ensures Truthful(nodes, events[|old(events)|..])
      ensures forall s, j: nat :: IsSlot(wiring, s) && wiring.source(s) == Internal(j) && j < |nodes| ==> Heeds(nodes, s, j)
      ensures forall s, k: nat :: IsSlot(wiring, s) && wiring.source(s) == External(k) ==>
        s.node < |nodes| && s.at in nodes[s.node].values &&
        nodes[s.node].values[s.at] == if k == id then value else inputs(k)
    {
      ghost var inputs' := With(inputs, id, value);
      NewInputUnsyncsListeners(wiring, nodes, inputs, id, value);
      assert {} + Heard(wiring, External(id)) == Heard(wiring, External(id));
      Trigger(External(id), value, inputs', {}, -1, MaxRank(wiring.rank));
      ListenersHeed(wiring, nodes, inputs');
    }
  }

  /** A verdict is the first event of the step that brings it. */
  lemma FirstEvent(w: Wiring, a: seq<Node>, b: seq<Node>, x: seq<Event>, e: Event, lo: int)
    requires e.node < |a| && |w.rank| == |a| && lo < w.rank[e.node]
    requires b == a[e.node := a[e.node].(oldValue := e.verdict)] && e.verdict != a[e.node].oldValue
    requires Tells(e.value, e.verdict, a[e.node].invert)
    ensures Progress(w, a, b, x, x + [e], lo)
  {
    assert (x + [e])[|x|..] == [e];
    assert Emitted(a, b, [e]);
  }

  /** The slot holds what the verdict of dependent `j` comes to for a listener. */
  ghost predicate Heeds(nodes: seq<Node>, s: Slot, j: nat) {
    && j < |nodes| && s.node < |nodes| && s.at in nodes[s.node].values
    && Tells(nodes[s.node].values[s.at], Verdict(nodes[j]), nodes[j].invert)
  }

  /** In a network at rest every listener has been told the present verdict. */
  lemma ListenersHeed(w: Wiring, nodes: seq<Node>, inputs: nat -> Value)
    requires InSync(w, nodes, inputs, {}) && Settled(nodes)
    ensures forall s, j: nat :: IsSlot(w, s) && w.source(s) == Internal(j) && j < |nodes| ==> Heeds(nodes, s, j)
    ensures forall s, k: nat :: IsSlot(w, s) && w.source(s) == External(k) ==>
      s.node < |nodes| && s.at in nodes[s.node].values && nodes[s.node].values[s.at] == inputs(k)
  {
    forall s, j: nat | IsSlot(w, s) && w.source(s) == Internal(j) && j < |nodes| ensures Heeds(nodes, s, j) {
      assert SlotOk(nodes, inputs, w, s) && NodeSettled(nodes[j]);
      OutputTells(nodes[j]);
    }
    forall s, k: nat | IsSlot(w, s) && w.source(s) == External(k)
      ensures s.node < |nodes| && s.at in nodes[s.node].values && nodes[s.node].values[s.at] == inputs(k)
    {
      assert SlotOk(nodes, inputs, w, s);
    }
  }

  ghost function With(inputs: nat -> Value, id: nat, value: Value): nat -> Value {
    (k: nat) => if k == id then value else inputs(k)
  }

  ghost function MaxRank(rank: seq<nat>): (r: nat)
    ensures forall i :: 0 <= i < |rank| ==> rank[i] <= r
  {
    if rank == [] then 0 else Max(rank[0], MaxRank(rank[1..]))
  }

  lemma NewInputUnsyncsListeners(w: Wiring, nodes: seq<Node>, inputs: nat -> Value, id: nat, value: Value)
    requires InSync(w, nodes, inputs, {})
    ensures InSync(w, nodes, With(inputs, id, value), Heard(w, External(id)))
  {
    var inputs' := With(inputs, id, value);
    forall s | IsSlot(w, s) && s !in Heard(w, External(id)) ensures SlotOk(nodes, inputs', w, s) {
      assert SlotOk(nodes, inputs, w, s);
      assert w.source(s) != External(id);
    }
  }

  // ---------- the outcome depends on the inputs alone ----------

  ghost predicate Agree(a: map<Lookup, Value>, b: map<Lookup, Value>, leaves: seq<Lookup>) {
    forall at :: at in leaves ==> at in a && at in b && a[at] == b[at]
  }

  lemma {:induction false} VerifyAgrees(a: map<Lookup, Value>, b: map<Lookup, Value>, c: Json, selector: Option<string>)
    requires Agree(a, b, Leaves(c, selector))
    ensures Verify(Comparing(a), c, selector) == Verify(Comparing(b), c, selector)
    decreases c, 0
  {
    match c
    case Arr(items) => ItemsAgree(a, b, items, selector, IsOr(items), U);
    case Obj(fields) => FieldsAgree(a, b, fields, selector, U);
    case _ =>
  }

  lemma {:induction false} ChildAgrees(a: map<Lookup, Value>, b: map<Lookup, Value>, value: Json,
                                       selector: Option<string>, key: Option<string>)
    requires Agree(a, b, ChildLeaves(value, selector, key))
    ensures Check(Comparing(a), value, selector, key) == Check(Comparing(b), value, selector, key)
    decreases value, 1
  {
    match Read(selector, key)
    case Leaf(at, _) => assert at in ChildLeaves(value, selector, key);
    case Group(sel) => VerifyAgrees(a, b, value, sel);
  }

  lemma {:induction false} ItemsAgree(a: map<Lookup, Value>, b: map<Lookup, Value>, items: seq<Json>,
                                      selector: Option<string>, isOr: bool, result: Tri)
    requires Agree(a, b, ItemLeaves(items, selector))
    ensures SomeOf(Comparing(a), items, selector, isOr, result) == SomeOf(Comparing(b), items, selector, isOr, result)
    decreases items
  {
    if items != [] {
      if items[0] == XOR {
        ItemsAgree(a, b, items[1..], selector, isOr, result);
      } else {
        ChildAgrees(a, b, items[0], selector, None);
        ItemsAgree(a, b, items[1..], selector, isOr, OrElse(result, Check(Comparing(a), items[0], selector, None).result));
      }
    }
  }

  lemma {:induction false} FieldsAgree(a: map<Lookup, Value>, b: map<Lookup, Value>, fields: seq<Field>,
                                       selector: Option<string>, result: Tri)
    requires Agree(a, b, FieldLeaves(fields, selector))
    ensures AllOf(Comparing(a), fields, selector, result) == AllOf(Comparing(b), fields, selector, result)
    decreases fields
  {
    if fields != [] {
      var key := Some(fields[0].key);
      ChildAgrees(a, b, fields[0].value, selector, key);
      FieldsAgree(a, b, fields[1..], selector, Ternary(result, Check(Comparing(a), fields[0].value, selector, key).result));
    }
  }

  /** Every leaf of every dependent is wired to a source. */
  ghost predicate FullyWired(w: Wiring, nodes: seq<Node>) {
    forall i, at :: 0 <= i < |nodes| && at in Leaves(nodes[i].constraints, None) ==> IsSlot(w, Slot(i, at))
  }

  ghost predicate AtRest(w: Wiring, nodes: seq<Node>, inputs: nat -> Value) {
    Wired(w, nodes) && InSync(w, nodes, inputs, {}) && Settled(nodes)
  }

  /** Two networks at rest with the same dependents and the same inputs agree on
      every verdict, so the outcome of a change does not depend on the order in
      which listeners were called. */
  lemma {:induction false} VerdictsAreDetermined(w: Wiring, a: seq<Node>, b: seq<Node>, inputs: nat -> Value, i: nat)
    requires AtRest(w, a, inputs) && AtRest(w, b, inputs) && SameNet(a, b) && FullyWired(w, a) && i < |a|
    ensures a[i].oldValue == b[i].oldValue
    decreases w.rank[i]
  {
    assert SameNode(a[i], b[i]);
    forall at | at in Leaves(a[i].constraints, None)
      ensures at in a[i].values && at in b[i].values && a[i].values[at] == b[i].values[at]
    {
      var s := Slot(i, at);
      assert IsSlot(w, s) && SlotOk(a, inputs, w, s) && SlotOk(b, inputs, w, s);
      var src := w.source(s);
      if src.Internal? && src.node < |a| {
        var k :| 0 <= k < |w.listeners(src)| && w.listeners(src)[k] == s;
        assert SlotWired(w, a, src, s);
        VerdictsAreDetermined(w, a, b, inputs, src.node);
        assert SameNode(a[src.node], b[src.node]);
      }
    }
    VerifyAgrees(a[i].values, b[i].values, a[i].constraints, None);
    assert NodeSettled(a[i]) && NodeSettled(b[i]);
  }
}
