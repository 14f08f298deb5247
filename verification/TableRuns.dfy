/** Whole sessions at the table: grab a row, move it by keyboard or mouse,
    release it, again and again. */
module TableRuns {
  import opened Wrappers
  import opened Forest
  import opened TableMoves
  import opened TableFields

  datatype Action =
    | Grab(row: nat)
    | Sideways(diff: int)
    | Up
    | Down
    | Point(hit: Option<Hit>, diff: int)
    | Release

  datatype Session = Idle(rows: seq<Row>) | Dragging(drag: Drag)

  function TableOf(s: Session): seq<Row> {
    match s
    case Idle(rows) => rows
    case Dragging(d) => Rows(d)
  }

  /** `dropRow`: nothing is written back unless the row object has changed. */
  function Dropped(d: Drag): seq<Row> {
    if d.changed then DropRow(Rows(d), d.at, |d.group|, d.indents) else Rows(d)
  }

  function Settle(s: Session): seq<Row> {
    match s
    case Idle(rows) => rows
    case Dragging(d) => Dropped(d)
  }

  function Moved(d: Drag, a: Action, maxDepth: nat): (r: Drag) {
    match a
    case Sideways(diff) => IndentBy(d, diff, maxDepth)
    case Up => KeyUp(d, maxDepth)
    case Down => KeyDown(d, maxDepth)
    case Point(hit, diff) => PointerMove(d, hit, diff, maxDepth)
    case _ => d
  }

  /** One event. Grabbing another row first drops the one being dragged. */
  function Next(s: Session, a: Action, maxDepth: nat): Session {
    match a
    case Grab(i) =>
      var rows := Settle(s);
      if i < |rows| then Dragging(GrabRow(rows, i)) else Idle(rows)
    case Release => Idle(Settle(s))
    case _ => if s.Idle? then s else Dragging(Moved(s.drag, a, maxDepth))
  }

  function Run(s: Session, acts: seq<Action>, maxDepth: nat): Session
    decreases |acts|
  {
    if acts == [] then s else Run(Next(s, acts[0], maxDepth), acts[1..], maxDepth)
  }

  // ---------- the depth limit, over every run ----------

  ghost predicate SessionLimited(s: Session, maxDepth: nat) {
    match s
    case Idle(rows) => InRange(rows, maxDepth)
    case Dragging(d) => Limited(d, maxDepth)
  }

  /** A vertical key leaves the group where it is, carries it past a block, or steps. */
  lemma VerticalKeepsLimit(d: Drag, r: Drag, p: nat, maxDepth: nat)
    requires Limited(d, maxDepth) && p <= |d.rest|
    requires r == d || r == MoveTo(d, p) || r == StepTo(d, p, maxDepth)
    ensures Limited(r, maxDepth) && Height(r) == Height(d)
  {
    if r == StepTo(d, p, maxDepth) {
      StepKeepsLimit(d, p, maxDepth);
    } else {
      ElsewhereKeepsLimit(d, r, maxDepth);
    }
  }

  /** Where the up and down keys lead. */
  lemma KeysLead(d: Drag, maxDepth: nat) returns (p: nat, q: nat)
    ensures p <= |d.rest| && q <= |d.rest|
    ensures var r := KeyUp(d, maxDepth); r == d || r == MoveTo(d, p) || r == StepTo(d, p, maxDepth)
    ensures var r := KeyDown(d, maxDepth); r == d || r == MoveTo(d, q) || r == StepTo(d, q, maxDepth)
  {
    var up := NearestShallower(d.rest, d.at, 1);
    p := if d.at == 0 || (Element(d).root && up < 0) then 0 else if Element(d).root then up else d.at - 1;
    q := if d.at == |d.rest| then 0
         else if Element(d).root then EndOf(d.rest, d.at + 1, d.rest[d.at].depth) else d.at + 1;
  }

  lemma MovedKeepsLimit(d: Drag, a: Action, maxDepth: nat)
    requires Limited(d, maxDepth)
    ensures Limited(Moved(d, a, maxDepth), maxDepth)
    ensures Height(Moved(d, a, maxDepth)) == Height(d)
  {
    var p, q := KeysLead(d, maxDepth);
    match a
    case Sideways(diff) => IndentKeepsLimit(d, diff, maxDepth);
    case Up => VerticalKeepsLimit(d, KeyUp(d, maxDepth), p, maxDepth);
    case Down => VerticalKeepsLimit(d, KeyDown(d, maxDepth), q, maxDepth);
    case Point(hit, diff) => PointerKeepsLimit(d, hit, diff, maxDepth);
    case _ =>
  }

  lemma SettleInRange(s: Session, maxDepth: nat)
    requires SessionLimited(s, maxDepth)
    ensures InRange(Settle(s), maxDepth)
  {
    if s.Dragging? {
      RowsInRange(s.drag, maxDepth);
      assert SameShape(Settle(s), Rows(s.drag));
    }
  }

  lemma NextKeepsLimit(s: Session, a: Action, maxDepth: nat)
    requires SessionLimited(s, maxDepth)
    ensures SessionLimited(Next(s, a, maxDepth), maxDepth)
  {
    SettleInRange(s, maxDepth);
    match a
    case Grab(i) => if i < |Settle(s)| { GrabIsLimited(Settle(s), i, maxDepth); }
    case Release =>
    case _ => if s.Dragging? { MovedKeepsLimit(s.drag, a, maxDepth); }
  }

  /** No run whatever, with rejected swaps and stale intervals included, takes
      any depth below zero or past the limit, and `groupDepth` stays true. */
  lemma {:induction false} DepthLimitHolds(s: Session, acts: seq<Action>, maxDepth: nat)
    requires SessionLimited(s, maxDepth)
    ensures InRange(TableOf(Run(s, acts, maxDepth)), maxDepth)
    ensures Run(s, acts, maxDepth).Dragging? ==> Tracked(Run(s, acts, maxDepth).drag)
    decreases |acts|
  {
    if acts != [] {
      NextKeepsLimit(s, acts[0], maxDepth);
      DepthLimitHolds(Next(s, acts[0], maxDepth), acts[1..], maxDepth);
    } else if s.Dragging? {
      RowsInRange(s.drag, maxDepth);
    }
  }

  // ---------- which steps are harmless ----------

  ghost predicate NonEmpty(iv: Interval) {
    iv.min <= iv.max
  }

  /** The table is a forest and the dragged group is one whole subtree of it. */
  ghost predicate Intact(d: Drag) {
    WellFormed(Rows(d)) && IsSubtree(Rows(d), d.at, |d.group|)
  }

  /** A depth that is legal for the group where it stands. */
  ghost predicate FitsHere(d: Drag, depth: int) {
    FitMin(d.rest, d.at) <= depth <= FitMax(d.rest, d.at, Element(d).root)
  }

  /** The mouse pointer is over a row that is not the dragged group's own. */
  ghost predicate Hits(d: Drag, hit: Option<Hit>) {
    hit.Some? && hit.value.row < |Rows(d)| && !(d.at <= hit.value.row < d.at + |d.group|)
  }

  /** The interval the next indent goes by: the cached one, stale or not, or else the one
      of the present place. */
  ghost function UsedInterval(d: Drag, maxDepth: nat): Interval {
    if d.interval.Some? then d.interval.value else IntervalAt(d, d.at, maxDepth)
  }

  /** An indent is harmless if that interval leads to a legal depth. */
  ghost predicate HarmlessIndent(d: Drag, diff: int, maxDepth: nat) {
    FitsHere(d, Clamp(d.indents + diff, UsedInterval(d, maxDepth)))
  }

  /** A swap that is permitted is harmless unless the pointer moves upward over the row
      right below the group, where the group's own last row was taken for the row above.
      A rejected one leaves an empty interval behind, whose upper end decides. */
  ghost predicate HarmlessHit(d: Drag, h: Hit, diff: int, maxDepth: nat) {
    var iv := SwapInterval(d, h, maxDepth);
    if NonEmpty(iv) then
      h.direction == Upward && h.row == d.at + |d.group| ==>
        Clamp(d.indents + diff, iv) <= FitMax(d.rest, d.at, Element(d).root)
    else FitsHere(d, iv.max)
  }

  ghost predicate Harmless(d: Drag, a: Action, maxDepth: nat) {
    match a
    case Sideways(diff) => HarmlessIndent(d, diff, maxDepth)
    case Up => d.at == 0 || Element(d).root || NonEmpty(IntervalAt(d, d.at - 1, maxDepth))
    case Down => d.at == |d.rest| || Element(d).root || NonEmpty(IntervalAt(d, d.at + 1, maxDepth))
    case Point(hit, diff) => if Hits(d, hit) then HarmlessHit(d, hit.value, diff, maxDepth) else HarmlessIndent(d, diff, maxDepth)
    case _ => true
  }

  /** The group stands where it may, and the row object knows its depth. */
  ghost predicate Placed(d: Drag) {
    Legal(d) && d.indents == d.group[0].depth
  }

  /** `r` is `d` with its group carried elsewhere and indented. */
  ghost predicate Carried(d: Drag, r: Drag) {
    r.rest == d.rest && r.group == Shift(d.group, r.indents - d.indents)
  }

  lemma IndentCarries(d: Drag, m: Drag, diff: int, maxDepth: nat)
    requires m.rest == d.rest && m.group == d.group && m.indents == d.indents
    ensures Carried(d, IndentBy(m, diff, maxDepth))
  {
  }

  lemma MovedKeepsParts(d: Drag, a: Action, maxDepth: nat)
    ensures Carried(d, Moved(d, a, maxDepth))
  {
    assert Shift(d.group, 0) == d.group;
    match a
    case Sideways(diff) => IndentCarries(d, d, diff, maxDepth);
    case Point(hit, diff) =>
      IndentCarries(d, if hit.Some? then HitRow(d, hit.value, maxDepth) else d, diff, maxDepth);
    case Up => if 0 < d.at { IndentCarries(d, MoveTo(d, d.at - 1).(interval := None), 0, maxDepth); }
    case Down => if d.at < |d.rest| { IndentCarries(d, MoveTo(d, d.at + 1).(interval := None), 0, maxDepth); }
    case _ =>
  }

  /** Wherever the group is carried, its depth there decides. */
  lemma CarriedGroupIff(d: Drag, r: Drag)
    requires WellFormed(d.rest) && IsGroup(d.group) && d.indents == d.group[0].depth && Carried(d, r)
    ensures Intact(r) <==> Legal(r)
    ensures Legal(r) <==> FitMin(d.rest, r.at) <= r.indents <= FitMax(d.rest, r.at, Element(d).root)
  {
    ShiftIsGroup(d.group, r.indents - d.indents);
    PlacementIff(r.rest, r.at, r.group);
  }

  /** A legal place is one whose plain interval holds the depth; the depth limit
      can only narrow it, and never past the depth of a row within the limit. */
  lemma IntervalHereIsNonEmpty(d: Drag, maxDepth: nat)
    requires Legal(d) && Limited(d, maxDepth)
    ensures var iv := IntervalAt(d, d.at, maxDepth); iv.min <= d.indents <= iv.max
  {
    var k :| 0 <= k < |d.group| && d.group[k].depth == d.groupDepth;
  }

  /** When both neighbours lie outside the group, the interval computed for a swap is
      the one of the place the group lands in. */
  lemma HitNeighbours(d: Drag, h: Hit, maxDepth: nat)
    requires h.row < |Rows(d)| && !OwnRow(d, h.row)
    requires (h.direction == Downward ==> h.row + 1 != d.at) && (h.direction == Upward ==> h.row != d.at + |d.group|)
    ensures Target(d, h) <= |d.rest|
    ensures SwapInterval(d, h, maxDepth) == IntervalAt(d, Target(d, h), maxDepth)
  {
    var i := if h.direction == Downward then h.row else h.row - 1;
    var p: int := Target(d, h);
    assert RowAt(Rows(d), i) == RowAt(d.rest, p - 1);
    assert RowAt(Rows(d), i + 1) == RowAt(d.rest, p);
  }

  /** From the row right above, moving down, the group stays and may only go deeper. */
  lemma HitFromAbove(d: Drag, h: Hit, maxDepth: nat)
    requires Placed(d)
    requires h.direction == Downward && h.row + 1 == d.at
    ensures Target(d, h) == d.at
    ensures SwapInterval(d, h, maxDepth) == Interval(d.indents, IntervalAt(d, d.at, maxDepth).max)
  {
    assert RowAt(Rows(d), h.row) == RowAt(d.rest, d.at - 1);
    assert RowAt(Rows(d), h.row + 1) == Some(d.group[0]);
  }

  /** From the row right below, moving up, the group stays and is measured against itself. */
  lemma HitFromBelow(d: Drag, h: Hit, maxDepth: nat)
    requires h.direction == Upward && h.row == d.at + |d.group| < |Rows(d)|
    ensures Target(d, h) == d.at
    ensures SwapInterval(d, h, maxDepth).min == FitMin(d.rest, d.at)
    ensures var last := d.group[|d.group| - 1];
      SwapInterval(d, h, maxDepth) ==
        ValidInterval(Some(last), Some(d.rest[d.at]), Element(d).root, maxDepth, Height(d))
  {
    assert RowAt(Rows(d), h.row) == RowAt(d.rest, d.at);
    assert RowAt(Rows(d), h.row - 1) == Some(d.group[|d.group| - 1]);
  }

  lemma IndentIff(d: Drag, diff: int, maxDepth: nat)
    requires Placed(d)
    ensures Intact(IndentBy(d, diff, maxDepth)) <==> HarmlessIndent(d, diff, maxDepth)
  {
    IndentCarries(d, d, diff, maxDepth);
    CarriedGroupIff(d, IndentBy(d, diff, maxDepth));
  }

  /** Moving a row past another keeps the forest, with the group still one subtree,
      exactly when the new place has a depth that is legal and within the limit. */
  lemma VerticalKeyIff(d: Drag, p: nat, maxDepth: nat)
    requires Placed(d) && p <= |d.rest|
    ensures Intact(StepTo(d, p, maxDepth)) <==> NonEmpty(IntervalAt(d, p, maxDepth))
  {
    var m := MoveTo(d, p).(interval := None);
    assert IntervalAt(m, p, maxDepth) == IntervalAt(d, p, maxDepth);
    IndentCarries(d, m, 0, maxDepth);
    CarriedGroupIff(d, StepTo(d, p, maxDepth));
  }

  /** Where a permitted swap puts the group, and how deep. */
  lemma PermittedHitLands(d: Drag, h: Hit, diff: int, maxDepth: nat)
    requires Hits(d, Some(h)) && NonEmpty(SwapInterval(d, h, maxDepth))
    ensures var r := PointerMove(d, Some(h), diff, maxDepth);
      r.at == Target(d, h) && r.indents == Clamp(d.indents + diff, SwapInterval(d, h, maxDepth))
  {
  }

  lemma PermittedHitIff(d: Drag, h: Hit, diff: int, maxDepth: nat)
    requires Placed(d) && Hits(d, Some(h)) && NonEmpty(SwapInterval(d, h, maxDepth))
    ensures Intact(PointerMove(d, Some(h), diff, maxDepth)) <==> HarmlessHit(d, h, diff, maxDepth)
  {
    MovedKeepsParts(d, Point(Some(h), diff), maxDepth);
    CarriedGroupIff(d, PointerMove(d, Some(h), diff, maxDepth));
    PermittedHitLands(d, h, diff, maxDepth);
    PermittedDepthIff(d, h, diff, maxDepth);
  }

  lemma PermittedDepthIff(d: Drag, h: Hit, diff: int, maxDepth: nat)
    requires Placed(d) && Hits(d, Some(h)) && NonEmpty(SwapInterval(d, h, maxDepth))
    ensures Target(d, h) <= |d.rest|
    ensures HarmlessHit(d, h, diff, maxDepth) <==>
      var depth := Clamp(d.indents + diff, SwapInterval(d, h, maxDepth));
      FitMin(d.rest, Target(d, h)) <= depth <= FitMax(d.rest, Target(d, h), Element(d).root)
  {
    if h.direction == Downward && h.row + 1 == d.at {
      HitFromAbove(d, h, maxDepth);
    } else if h.direction == Upward && h.row == d.at + |d.group| {
      HitFromBelow(d, h, maxDepth);
    } else {
      HitNeighbours(d, h, maxDepth);
    }
  }

  lemma RejectedHitIff(d: Drag, h: Hit, diff: int, maxDepth: nat)
    requires Placed(d) && Hits(d, Some(h)) && !NonEmpty(SwapInterval(d, h, maxDepth))
    ensures Intact(PointerMove(d, Some(h), diff, maxDepth)) <==> HarmlessHit(d, h, diff, maxDepth)
  {
    MovedKeepsParts(d, Point(Some(h), diff), maxDepth);
    CarriedGroupIff(d, PointerMove(d, Some(h), diff, maxDepth));
  }

  /** A mouse move from any legal state, with any cached interval, keeps the forest and
      the group one subtree exactly when, seen before the move: a permitted swap over the
      row right below the group does not make it deeper than the row above it allows; a
      rejected swap leaves a legal depth behind; and over no other row the cached interval
      leads to a legal depth. */
  lemma PointerMoveIff(d: Drag, hit: Option<Hit>, diff: int, maxDepth: nat)
    requires Placed(d)
    ensures Intact(PointerMove(d, hit, diff, maxDepth)) <==>
      if Hits(d, hit) then HarmlessHit(d, hit.value, diff, maxDepth) else HarmlessIndent(d, diff, maxDepth)
  {
    if Hits(d, hit) {
      if NonEmpty(SwapInterval(d, hit.value, maxDepth)) {
        PermittedHitIff(d, hit.value, diff, maxDepth);
      } else {
        RejectedHitIff(d, hit.value, diff, maxDepth);
      }
    } else {
      IndentIff(d, diff, maxDepth);
    }
  }

  /** A root row only ever stands between top-level blocks, at depth 0. */
  lemma RootMoveIsIntact(d: Drag, p: nat)
    requires Placed(d) && Element(d).root && p <= |d.rest|
    requires p < |d.rest| ==> d.rest[p].depth <= 0
    ensures d.indents == 0 && Intact(MoveTo(d, p))
  {
    if d.at < |d.rest| { assert RowOk(d.rest[d.at]); }
    assert Shift(d.group, 0) == d.group;
    CarriedGroupIff(d, MoveTo(d, p));
  }

  lemma RootUpIsIntact(d: Drag, maxDepth: nat)
    requires Placed(d) && Element(d).root
    ensures Intact(KeyUp(d, maxDepth))
  {
    PlacementIff(d.rest, d.at, d.group);
    if 0 < d.at {
      var p := NearestShallower(d.rest, d.at, 1);
      if 0 <= p { RootMoveIsIntact(d, p); }
    }
  }

  lemma RootDownIsIntact(d: Drag, maxDepth: nat)
    requires Placed(d) && Element(d).root
    ensures Intact(KeyDown(d, maxDepth))
  {
    PlacementIff(d.rest, d.at, d.group);
    if d.at < |d.rest| {
      RootMoveIsIntact(d, d.at);
      RootMoveIsIntact(d, EndOf(d.rest, d.at + 1, d.rest[d.at].depth));
    }
  }

  lemma UpIff(d: Drag, maxDepth: nat)
    requires Placed(d)
    ensures Intact(KeyUp(d, maxDepth)) <==> Harmless(d, Up, maxDepth)
  {
    if Element(d).root { RootUpIsIntact(d, maxDepth); }
    else if 0 < d.at { SteppedIff(d, d.at - 1, maxDepth, KeyUp(d, maxDepth)); }
    else { PlacementIff(d.rest, d.at, d.group); }
  }

  lemma SteppedIff(d: Drag, p: nat, maxDepth: nat, r: Drag)
    requires Placed(d) && p <= |d.rest| && r == StepTo(d, p, maxDepth)
    ensures Intact(r) <==> NonEmpty(IntervalAt(d, p, maxDepth))
  {
    VerticalKeyIff(d, p, maxDepth);
  }

  lemma DownIff(d: Drag, maxDepth: nat)
    requires Placed(d)
    ensures Intact(KeyDown(d, maxDepth)) <==> Harmless(d, Down, maxDepth)
  {
    if Element(d).root { RootDownIsIntact(d, maxDepth); }
    else if d.at < |d.rest| { SteppedIff(d, d.at + 1, maxDepth, KeyDown(d, maxDepth)); }
    else { PlacementIff(d.rest, d.at, d.group); }
  }

  /** From any legal state, within the depth limit or not, every step of every kind keeps
      the forest and the group one subtree if and only if it is harmless. */
  lemma MoveIff(d: Drag, a: Action, maxDepth: nat)
    requires Placed(d)
    ensures Intact(Moved(d, a, maxDepth)) <==> Harmless(d, a, maxDepth)
  {
    match a
    case Sideways(diff) => IndentIff(d, diff, maxDepth);
    case Point(hit, diff) => PointerMoveIff(d, hit, diff, maxDepth);
    case Up => UpIff(d, maxDepth);
    case Down => DownIff(d, maxDepth);
    case _ => PlacementIff(d.rest, d.at, d.group);
  }

  // ---------- forests, over every run of harmless steps ----------

  ghost predicate SessionPlaced(s: Session) {
    match s
    case Idle(rows) => WellFormed(rows)
    case Dragging(d) => Placed(d)
  }

  ghost predicate SessionIntact(s: Session) {
    match s
    case Idle(rows) => WellFormed(rows)
    case Dragging(d) => Intact(d)
  }

  lemma PlacedIsIntact(s: Session)
    requires SessionPlaced(s)
    ensures SessionIntact(s)
  {
    if s.Dragging? { PlacementIff(s.drag.rest, s.drag.at, s.drag.group); }
  }

  ghost predicate HarmlessStep(s: Session, a: Action, maxDepth: nat) {
    s.Dragging? ==> Harmless(s.drag, a, maxDepth)
  }

  lemma MovedIsPlaced(d: Drag, a: Action, maxDepth: nat)
    requires Placed(d) && Harmless(d, a, maxDepth)
    ensures Placed(Moved(d, a, maxDepth))
  {
    MoveIff(d, a, maxDepth);
    MovedKeepsParts(d, a, maxDepth);
    CarriedGroupIff(d, Moved(d, a, maxDepth));
  }

  lemma SettleKeepsTree(s: Session)
    requires SessionPlaced(s)
    ensures WellFormed(Settle(s))
  {
    PlacedIsIntact(s);
    if s.Dragging? { DropKeepsTree(s.drag); }
  }

  lemma GrabIsPlaced(rows: seq<Row>, i: nat)
    requires WellFormed(rows) && i < |rows|
    ensures Placed(GrabRow(rows, i))
  {
    GrabIsLegal(rows, i);
    GrabIsTracked(rows, i);
  }

  lemma NextIff(s: Session, a: Action, maxDepth: nat)
    requires SessionPlaced(s)
    ensures SessionIntact(Next(s, a, maxDepth)) <==> HarmlessStep(s, a, maxDepth)
    ensures HarmlessStep(s, a, maxDepth) ==> SessionPlaced(Next(s, a, maxDepth))
  {
    SettleKeepsTree(s);
    match a
    case Grab(i) =>
      if i < |Settle(s)| { GrabIsPlaced(Settle(s), i); }
      PlacedIsIntact(Next(s, a, maxDepth));
    case Release =>
    case _ =>
      if s.Dragging? {
        MoveIff(s.drag, a, maxDepth);
        if Harmless(s.drag, a, maxDepth) { MovedIsPlaced(s.drag, a, maxDepth); }
      }
  }

  /** Every step of the run is harmless where it is taken. */
  ghost predicate HarmlessRun(s: Session, acts: seq<Action>, maxDepth: nat)
    decreases |acts|
  {
    acts != [] ==> HarmlessStep(s, acts[0], maxDepth) && HarmlessRun(Next(s, acts[0], maxDepth), acts[1..], maxDepth)
  }

  /** At every moment of the run the table is a forest and a held group one subtree. */
  ghost predicate IntactThroughout(s: Session, acts: seq<Action>, maxDepth: nat)
    decreases |acts|
  {
    SessionIntact(s) && (acts != [] ==> IntactThroughout(Next(s, acts[0], maxDepth), acts[1..], maxDepth))
  }

  lemma {:induction false} RunIff(s: Session, acts: seq<Action>, maxDepth: nat)
    requires SessionPlaced(s)
    ensures IntactThroughout(s, acts, maxDepth) <==> HarmlessRun(s, acts, maxDepth)
    ensures HarmlessRun(s, acts, maxDepth) ==> SessionPlaced(Run(s, acts, maxDepth))
    decreases |acts|
  {
    PlacedIsIntact(s);
    if acts != [] {
      NextIff(s, acts[0], maxDepth);
      if HarmlessStep(s, acts[0], maxDepth) {
        RunIff(Next(s, acts[0], maxDepth), acts[1..], maxDepth);
      } else {
        assert !IntactThroughout(Next(s, acts[0], maxDepth), acts[1..], maxDepth);
      }
    }
  }

  /** From any well-formed table, whatever its fields and weights say, and over any run of
      grabs, keys, mouse moves and drops, the table is a forest with the held group one
      subtree at every moment if and only if every step is harmless; and it is still a
      forest when the row is let go. */
  lemma {:induction false} RunsKeepTheTree(rows: seq<Row>, acts: seq<Action>, maxDepth: nat)
    requires WellFormed(rows)
    ensures IntactThroughout(Idle(rows), acts, maxDepth) <==> HarmlessRun(Idle(rows), acts, maxDepth)
    ensures HarmlessRun(Idle(rows), acts, maxDepth) ==> WellFormed(Settle(Run(Idle(rows), acts, maxDepth)))
  {
    RunIff(Idle(rows), acts, maxDepth);
    if HarmlessRun(Idle(rows), acts, maxDepth) { SettleKeepsTree(Run(Idle(rows), acts, maxDepth)); }
  }

  // ---------- parent fields, over every run ----------

  lemma CarriedKeepsIds(d: Drag, r: Drag)
    requires UniqueIds(Rows(d)) && Carried(d, r)
    ensures UniqueIds(Rows(r))
  {
    UniqueAnywhere(d.rest, d.at, d.group, r.at, r.indents - d.indents);
  }

  lemma CarriedKeepsFields(d: Drag, r: Drag)
    requires FieldsBut(d) && Carried(d, r)
    ensures FieldsBut(r)
  {
    CarriedKeepsIds(d, r);
    forall k | 1 <= k < |r.group| ensures FieldOk(r.group, k) {
      assert FieldOk(d.group, k);
      ShiftKeepsParents(d.group, r.indents - d.indents, k);
    }
  }

  /** Nothing is marked as changed unless the group has moved, and the other way round. */
  ghost predicate Marks(d: Drag, r: Drag) {
    && (!r.changed ==> !d.changed && r.at == d.at && r.indents == d.indents)
    && (r.changed ==> d.changed || d.rest != [] || r.indents != d.indents)
  }

  lemma IndentMarks(d: Drag, m: Drag, diff: int, maxDepth: nat)
    requires m.rest == d.rest && m.indents == d.indents
    requires if m.changed then d.changed || d.rest != [] else !d.changed && m.at == d.at
    ensures Marks(d, IndentBy(m, diff, maxDepth))
  {
  }

  lemma UpMarks(d: Drag, maxDepth: nat)
    ensures Marks(d, KeyUp(d, maxDepth))
  {
    if !Element(d).root && 0 < d.at {
      IndentMarks(d, MoveTo(d, d.at - 1).(interval := None), 0, maxDepth);
    }
  }

  lemma DownMarks(d: Drag, maxDepth: nat)
    ensures Marks(d, KeyDown(d, maxDepth))
  {
    if !Element(d).root && d.at < |d.rest| {
      IndentMarks(d, MoveTo(d, d.at + 1).(interval := None), 0, maxDepth);
    }
  }

  lemma HitMarks(d: Drag, h: Hit, maxDepth: nat, m: Drag)
    requires m == HitRow(d, h, maxDepth)
    ensures m.rest == d.rest && m.indents == d.indents
    ensures if m.changed then d.changed || d.rest != [] else !d.changed && m.at == d.at
  {
    if h.row < |Rows(d)| && !OwnRow(d, h.row) { RestIsThere(d, h.row); }
  }

  lemma RestIsThere(d: Drag, row: nat)
    requires row < |Rows(d)| && !OwnRow(d, row)
    ensures d.rest != []
  {
    assert |Rows(d)| == |d.rest| + |d.group|;
  }

  lemma PointerMarks(d: Drag, hit: Option<Hit>, m: Drag, diff: int, maxDepth: nat)
    requires m == if hit.Some? then HitRow(d, hit.value, maxDepth) else d
    ensures Marks(d, IndentBy(m, diff, maxDepth))
  {
    if hit.Some? { HitMarks(d, hit.value, maxDepth, m); }
    IndentMarks(d, m, diff, maxDepth);
  }

  lemma MovedMarksChanges(d: Drag, a: Action, maxDepth: nat)
    ensures Marks(d, Moved(d, a, maxDepth))
  {
    match a
    case Sideways(diff) => IndentMarks(d, d, diff, maxDepth);
    case Point(hit, diff) =>
      PointerMarks(d, hit, if hit.Some? then HitRow(d, hit.value, maxDepth) else d, diff, maxDepth);
    case Up => UpMarks(d, maxDepth);
    case Down => DownMarks(d, maxDepth);
    case _ =>
  }

  lemma UnchangedRows(d: Drag, r: Drag)
    requires Carried(d, r) && r.at == d.at && r.indents == d.indents
    ensures Rows(r) == Rows(d)
  {
    assert Shift(d.group, 0) == d.group;
  }

  /** All parent fields are right, or will be once the held row is dropped. */
  ghost predicate SessionNamed(s: Session) {
    match s
    case Idle(rows) => UniqueIds(rows) && FieldsOk(rows, 0)
    case Dragging(d) =>
      FieldsBut(d) && (!d.changed ==> FieldsOk(Rows(d), 0)) && (d.changed ==> d.rest != [])
  }

  lemma MovedKeepsNames(d: Drag, a: Action, maxDepth: nat)
    requires Placed(d) && Harmless(d, a, maxDepth) && SessionNamed(Dragging(d))
    ensures SessionNamed(Dragging(Moved(d, a, maxDepth)))
  {
    var r := Moved(d, a, maxDepth);
    MovedIsPlaced(d, a, maxDepth);
    MovedKeepsParts(d, a, maxDepth);
    CarriedKeepsFields(d, r);
    MovedMarksChanges(d, a, maxDepth);
    if !r.changed { UnchangedRows(d, r); }
  }

  lemma SettleKeepsNames(s: Session)
    requires SessionPlaced(s) && SessionNamed(s)
    ensures UniqueIds(Settle(s)) && FieldsOk(Settle(s), 0)
  {
    if s.Dragging? && s.drag.changed { DropNamesParents(s.drag); }
  }

  lemma NextKeepsNames(s: Session, a: Action, maxDepth: nat)
    requires SessionPlaced(s) && SessionNamed(s) && HarmlessStep(s, a, maxDepth)
    ensures SessionNamed(Next(s, a, maxDepth))
  {
    SettleKeepsTree(s);
    SettleKeepsNames(s);
    match a
    case Grab(i) =>
      if i < |Settle(s)| {
        GrabKeepsFields(Settle(s), i);
        GrabTakesApart(Settle(s), i);
      }
    case Release =>
    case _ => if s.Dragging? { MovedKeepsNames(s.drag, a, maxDepth); }
  }

  lemma {:induction false} RunKeepsNames(s: Session, acts: seq<Action>, maxDepth: nat)
    requires SessionPlaced(s) && SessionNamed(s) && HarmlessRun(s, acts, maxDepth)
    ensures SessionNamed(Run(s, acts, maxDepth))
    decreases |acts|
  {
    if acts != [] {
      NextIff(s, acts[0], maxDepth);
      NextKeepsNames(s, acts[0], maxDepth);
      RunKeepsNames(Next(s, acts[0], maxDepth), acts[1..], maxDepth);
    }
  }

  /** Over any harmless run, if every parent field named the row's tree parent at the start,
      every one does whenever no row is held. */
  lemma {:induction false} RunsKeepParentFields(rows: seq<Row>, acts: seq<Action>, maxDepth: nat)
    requires WellFormed(rows) && UniqueIds(rows) && FieldsOk(rows, 0)
    requires HarmlessRun(Idle(rows), acts, maxDepth)
    ensures FieldsOk(Settle(Run(Idle(rows), acts, maxDepth)), 0)
  {
    RunIff(Idle(rows), acts, maxDepth);
    RunKeepsNames(Idle(rows), acts, maxDepth);
    SettleKeepsNames(Run(Idle(rows), acts, maxDepth));
  }

  // ---------- weights, over every run ----------

  lemma CarriedKeepsWeights(d: Drag, r: Drag, strict: iset<ParentField>)
    requires WeightsBut(d, strict) && Carried(d, r)
    ensures WeightsBut(r, strict)
  {
    CarriedKeepsIds(d, r);
    ShiftKeepsWeights(d.group, r.indents - d.indents, strict, r.group);
  }

  lemma ShiftKeepsWeights(g: seq<Row>, diff: int, strict: iset<ParentField>, r: seq<Row>)
    requires WeightsOk(g, 1, strict) && r == Shift(g, diff)
    ensures WeightsOk(r, 1, strict)
  {
    forall a, b | 1 <= a < b < |r| ensures OrderOk(r, a, b, strict) {
      assert OrderOk(g, a, b, strict);
      ShiftKeepsOrder(g, diff, a, b, strict);
    }
  }

  lemma ShiftKeepsOrder(g: seq<Row>, diff: int, a: nat, b: nat, strict: iset<ParentField>)
    requires a < |g| && b < |g| && OrderOk(g, a, b, strict)
    ensures OrderOk(Shift(g, diff), a, b, strict)
  {
    ShiftKeepsParents(g, diff, a);
    ShiftKeepsParents(g, diff, b);
  }

  /** The weights are in order, or will be once the held row is dropped. */
  ghost predicate SessionRanked(s: Session, strict: iset<ParentField>) {
    match s
    case Idle(rows) => UniqueIds(rows) && WeightsOk(rows, 0, strict)
    case Dragging(d) => WeightsBut(d, strict) && (!d.changed ==> WeightsOk(Rows(d), 0, strict))
  }

  /** The list of siblings a session drops its row into, if it holds one that has changed. */
  ghost function DropInto(s: Session): iset<ParentField> {
    if s.Dragging? && s.drag.changed then iset{ParentName(Rows(s.drag), s.drag.at)} else iset{}
  }

  /** All lists a row is dropped into during a run. */
  ghost function DroppedInto(s: Session, acts: seq<Action>, maxDepth: nat): iset<ParentField>
    decreases |acts|
  {
    if acts == [] then iset{}
    else
      (if acts[0].Grab? || acts[0].Release? then DropInto(s) else iset{})
      + DroppedInto(Next(s, acts[0], maxDepth), acts[1..], maxDepth)
  }

  lemma MovedKeepsRanks(d: Drag, a: Action, maxDepth: nat, strict: iset<ParentField>)
    requires SessionRanked(Dragging(d), strict)
    ensures SessionRanked(Dragging(Moved(d, a, maxDepth)), strict)
  {
    var r := Moved(d, a, maxDepth);
    MovedKeepsParts(d, a, maxDepth);
    CarriedKeepsWeights(d, r, strict);
    MovedMarksChanges(d, a, maxDepth);
    if !r.changed { UnchangedRows(d, r); }
  }

  lemma SettleKeepsRanks(s: Session, strict: iset<ParentField>)
    requires SessionPlaced(s) && SessionRanked(s, strict)
    ensures UniqueIds(Settle(s)) && WeightsOk(Settle(s), 0, strict + DropInto(s))
  {
    if s.Dragging? && s.drag.changed {
      DropOrdersWeights(s.drag, strict);
    } else {
      assert strict + iset{} == strict;
    }
  }

  lemma NextKeepsRanks(s: Session, a: Action, maxDepth: nat, strict: iset<ParentField>)
    requires SessionPlaced(s) && SessionRanked(s, strict)
    ensures SessionRanked(Next(s, a, maxDepth), strict + if a.Grab? || a.Release? then DropInto(s) else iset{})
  {
    if a.Grab? || a.Release? {
      SettleKeepsTree(s);
      SettleKeepsRanks(s, strict);
      if a.Grab? && a.row < |Settle(s)| {
        GrabKeepsWeights(Settle(s), a.row, strict + DropInto(s));
        GrabTakesApart(Settle(s), a.row);
      }
    } else {
      assert strict + iset{} == strict;
      if s.Dragging? { MovedKeepsRanks(s.drag, a, maxDepth, strict); }
    }
  }

  lemma {:induction false} RunKeepsRanks(s: Session, acts: seq<Action>, maxDepth: nat, strict: iset<ParentField>)
    requires SessionPlaced(s) && SessionRanked(s, strict) && HarmlessRun(s, acts, maxDepth)
    ensures SessionRanked(Run(s, acts, maxDepth), strict + DroppedInto(s, acts, maxDepth))
    decreases |acts|
  {
    if acts == [] {
      assert strict + iset{} == strict;
    } else {
      var now := if acts[0].Grab? || acts[0].Release? then DropInto(s) else iset{};
      var later := DroppedInto(Next(s, acts[0], maxDepth), acts[1..], maxDepth);
      NextIff(s, acts[0], maxDepth);
      NextKeepsRanks(s, acts[0], maxDepth, strict);
      RunKeepsRanks(Next(s, acts[0], maxDepth), acts[1..], maxDepth, strict + now);
      UnionIsAssociative(strict, now, later);
      assert Run(s, acts, maxDepth) == Run(Next(s, acts[0], maxDepth), acts[1..], maxDepth);
    }
  }

  lemma UnionIsAssociative(a: iset<ParentField>, b: iset<ParentField>, c: iset<ParentField>)
    ensures a + (b + c) == (a + b) + c
  {
  }

  /** Over any harmless run, weights that do not decrease along any list of siblings never
      come to decrease, lists that strictly increase keep doing so, and every list a row has
      been dropped into strictly increases from then on. */
  lemma {:induction false} RunsKeepWeights(rows: seq<Row>, acts: seq<Action>, maxDepth: nat, strict: iset<ParentField>)
    requires WellFormed(rows) && UniqueIds(rows) && WeightsOk(rows, 0, strict)
    requires HarmlessRun(Idle(rows), acts, maxDepth)
    ensures var s := Run(Idle(rows), acts, maxDepth);
      WeightsOk(Settle(s), 0, strict + DroppedInto(Idle(rows), acts, maxDepth) + DropInto(s))
  {
    RunIff(Idle(rows), acts, maxDepth);
    RunKeepsRanks(Idle(rows), acts, maxDepth, strict);
    SettleKeepsRanks(Run(Idle(rows), acts, maxDepth), strict + DroppedInto(Idle(rows), acts, maxDepth));
  }

  /** Every parent field names the row's tree parent, and weights strictly increase along
      every list of siblings. */
  ghost predicate Consistent(rows: seq<Row>) {
    WellFormed(rows) && UniqueIds(rows) && FieldsOk(rows, 0) && WeightsOk(rows, 0, EVERY_LIST)
  }

  /** A consistent table is consistent again after any harmless run. */
  lemma {:induction false} RunsKeepConsistency(rows: seq<Row>, acts: seq<Action>, maxDepth: nat)
    requires Consistent(rows) && HarmlessRun(Idle(rows), acts, maxDepth)
    ensures Consistent(Settle(Run(Idle(rows), acts, maxDepth)))
  {
    var s := Run(Idle(rows), acts, maxDepth);
    RunsKeepTheTree(rows, acts, maxDepth);
    RunsKeepParentFields(rows, acts, maxDepth);
    RunsKeepWeights(rows, acts, maxDepth, EVERY_LIST);
    assert EVERY_LIST + DroppedInto(Idle(rows), acts, maxDepth) + DropInto(s) == EVERY_LIST by {
      forall p: ParentField ensures p in EVERY_LIST { assert IsList(p); }
    }
    RunIff(Idle(rows), acts, maxDepth);
    RunKeepsNames(Idle(rows), acts, maxDepth);
    SettleKeepsNames(s);
  }

  // ---------- one drag leaves everybody else alone ----------

  ghost predicate IsMove(a: Action) {
    a.Sideways? || a.Up? || a.Down? || a.Point?
  }

  lemma CarriedTwice(d: Drag, m: Drag, r: Drag)
    requires Carried(d, m) && Carried(m, r)
    ensures Carried(d, r)
  {
    ShiftTwice(d.group, m.indents - d.indents, r.indents - m.indents);
  }

  lemma {:induction false} DragKeepsParts(d: Drag, moves: seq<Action>, maxDepth: nat)
    requires forall i :: 0 <= i < |moves| ==> IsMove(moves[i])
    ensures Run(Dragging(d), moves, maxDepth).Dragging?
    ensures Carried(d, Run(Dragging(d), moves, maxDepth).drag)
    decreases |moves|
  {
    if moves == [] {
      assert Shift(d.group, 0) == d.group;
    } else {
      assert IsMove(moves[0]);
      var m := Moved(d, moves[0], maxDepth);
      assert Next(Dragging(d), moves[0], maxDepth) == Dragging(m);
      MovedKeepsParts(d, moves[0], maxDepth);
      DragKeepsParts(m, moves[1..], maxDepth);
      CarriedTwice(d, m, Run(Dragging(m), moves[1..], maxDepth).drag);
    }
  }

  lemma ShiftTwice(g: seq<Row>, a: int, b: int)
    ensures Shift(Shift(g, a), b) == Shift(g, a + b)
  {
  }

  lemma CarriedGroupIsFramed(d: Drag, r: Drag)
    requires Legal(d) && UniqueIds(Rows(d)) && Legal(r)
    requires Carried(d, r)
    ensures Intact(r) && Framed(Rows(d), Rows(r), Element(d).id, IdSet(d.rest))
  {
    var diff := r.indents - d.indents;
    assert Rows(r) == Place(d.rest, r.at, Shift(d.group, diff));
    FrameTheorem(d.rest, d.at, d.group, r.at, diff);
  }

  /** From grab to drop, however the group is carried about by harmless moves, the
      table is a well-formed permutation, every row outside the group keeps its
      depth, every row but the dragged one keeps its parent, and the group is
      still exactly the dragged row's subtree. */
  lemma DragIsFramed(d: Drag, moves: seq<Action>, maxDepth: nat)
    requires Placed(d) && UniqueIds(Rows(d)) && HarmlessRun(Dragging(d), moves, maxDepth)
    requires forall i :: 0 <= i < |moves| ==> IsMove(moves[i])
    ensures var s := Run(Dragging(d), moves, maxDepth);
      && s.Dragging? && Intact(s.drag) && |s.drag.group| == |d.group|
      && Framed(Rows(d), Rows(s.drag), Element(d).id, IdSet(d.rest))
  {
    DragKeepsParts(d, moves, maxDepth);
    RunIff(Dragging(d), moves, maxDepth);
    CarriedGroupIsFramed(d, Run(Dragging(d), moves, maxDepth).drag);
  }

  // ---------- runs that need no condition: the keyboard, and root rows ----------

  /** The cached interval, if any, is the one of the present place. */
  ghost predicate Current(d: Drag, maxDepth: nat) {
    d.interval.None? || d.interval.value == IntervalAt(d, d.at, maxDepth)
  }

  /** Between any two rows of a forest some depth is legal, unless the limit
      forbids it; and the limit never forbids it to a row without children. */
  lemma IntervalOfChildlessRow(d: Drag, p: nat, maxDepth: nat)
    requires Legal(d) && Limited(d, maxDepth) && p <= |d.rest| && !Element(d).root
    requires maxDepth == 0 || |d.group| == 1
    ensures NonEmpty(IntervalAt(d, p, maxDepth))
  {
    if 0 < p < |d.rest| { assert StepOk(d.rest, p); }
    if 0 < p { assert RowOk(d.rest[p - 1]); }
  }

  /** With no depth limit, or for a row without children, every arrow key is harmless. */
  lemma KeyIsHarmless(d: Drag, a: Action, maxDepth: nat)
    requires Legal(d) && Limited(d, maxDepth) && Current(d, maxDepth) && (a.Sideways? || a.Up? || a.Down?)
    requires maxDepth == 0 || |d.group| == 1
    ensures Harmless(d, a, maxDepth)
  {
    IntervalHereIsNonEmpty(d, maxDepth);
    if !Element(d).root {
      if 0 < d.at { IntervalOfChildlessRow(d, d.at - 1, maxDepth); }
      if d.at < |d.rest| { IntervalOfChildlessRow(d, d.at + 1, maxDepth); }
    }
  }

  lemma IndentStaysCurrent(d: Drag, diff: int, maxDepth: nat)
    requires Current(d, maxDepth)
    ensures Current(IndentBy(d, diff, maxDepth), maxDepth)
  {
  }

  lemma RootMoveStaysCurrent(d: Drag, p: nat, maxDepth: nat)
    requires Placed(d) && Current(d, maxDepth) && Element(d).root && p <= |d.rest|
    requires p < |d.rest| ==> d.rest[p].depth <= 0
    ensures Current(MoveTo(d, p), maxDepth)
  {
    RootMoveIsIntact(d, p);
    if d.at < |d.rest| { assert RowOk(d.rest[d.at]); }
    if p < |d.rest| { assert RowOk(d.rest[p]); }
    assert IntervalAt(d, d.at, maxDepth) == Interval(0, 0);
  }

  lemma VerticalStaysCurrent(d: Drag, r: Drag, p: nat, maxDepth: nat)
    requires Placed(d) && Current(d, maxDepth) && p <= |d.rest|
    requires r == d || r == StepTo(d, p, maxDepth)
      || (r == MoveTo(d, p) && Element(d).root && (p < |d.rest| ==> d.rest[p].depth <= 0))
    ensures Current(r, maxDepth)
  {
    if r == StepTo(d, p, maxDepth) {
      IndentStaysCurrent(MoveTo(d, p).(interval := None), 0, maxDepth);
    } else if r == MoveTo(d, p) && Element(d).root && (p < |d.rest| ==> d.rest[p].depth <= 0) {
      RootMoveStaysCurrent(d, p, maxDepth);
    }
  }

  lemma UpStaysCurrent(d: Drag, maxDepth: nat)
    requires Placed(d) && Current(d, maxDepth)
    ensures Current(KeyUp(d, maxDepth), maxDepth)
  {
    var p := NearestShallower(d.rest, d.at, 1);
    if 0 < d.at && !Element(d).root {
      VerticalStaysCurrent(d, KeyUp(d, maxDepth), d.at - 1, maxDepth);
    } else if 0 <= p {
      VerticalStaysCurrent(d, KeyUp(d, maxDepth), p, maxDepth);
    }
  }

  lemma DownStaysCurrent(d: Drag, maxDepth: nat)
    requires Placed(d) && Current(d, maxDepth)
    ensures Current(KeyDown(d, maxDepth), maxDepth)
  {
    if d.at < |d.rest| {
      if Element(d).root {
        RootDownStaysCurrent(d, maxDepth);
      } else {
        VerticalStaysCurrent(d, KeyDown(d, maxDepth), d.at + 1, maxDepth);
      }
    }
  }

  lemma RootDownStaysCurrent(d: Drag, maxDepth: nat)
    requires Placed(d) && Current(d, maxDepth) && d.at < |d.rest| && Element(d).root
    ensures Current(KeyDown(d, maxDepth), maxDepth)
  {
    RootMoveIsIntact(d, d.at);
    VerticalStaysCurrent(d, KeyDown(d, maxDepth), EndOf(d.rest, d.at + 1, d.rest[d.at].depth), maxDepth);
  }

  lemma KeyStaysCurrent(d: Drag, a: Action, maxDepth: nat)
    requires Placed(d) && Current(d, maxDepth) && (a.Sideways? || a.Up? || a.Down?)
    ensures Current(Moved(d, a, maxDepth), maxDepth)
  {
    match a
    case Sideways(diff) => IndentStaysCurrent(d, diff, maxDepth);
    case Up => UpStaysCurrent(d, maxDepth);
    case Down => DownStaysCurrent(d, maxDepth);
  }

  /** So every sequence of arrow keys keeps the forest, and the cached interval
      is the one of the current place. */
  lemma {:induction false} KeyboardKeepsTheForest(d: Drag, keys: seq<Action>, maxDepth: nat)
    requires Legal(d) && Limited(d, maxDepth) && Current(d, maxDepth) && (maxDepth == 0 || |d.group| == 1)
    requires forall i :: 0 <= i < |keys| ==> keys[i].Sideways? || keys[i].Up? || keys[i].Down?
    ensures IntactThroughout(Dragging(d), keys, maxDepth)
    ensures var s := Run(Dragging(d), keys, maxDepth); s.Dragging? && Current(s.drag, maxDepth)
    decreases |keys|
  {
    PlacedIsIntact(Dragging(d));
    if keys != [] {
      var m := Moved(d, keys[0], maxDepth);
      assert Next(Dragging(d), keys[0], maxDepth) == Dragging(m);
      KeyIsHarmless(d, keys[0], maxDepth);
      MovedIsPlaced(d, keys[0], maxDepth);
      MovedKeepsLimit(d, keys[0], maxDepth);
      MovedKeepsParts(d, keys[0], maxDepth);
      KeyStaysCurrent(d, keys[0], maxDepth);
      KeyboardKeepsTheForest(m, keys[1..], maxDepth);
    }
  }

  /** Any interval ever computed for a root row of a forest ends at 0. */
  ghost predicate EndsAtZero(iv: Option<Interval>) {
    iv.Some? ==> 0 <= iv.value.min && iv.value.max == 0
  }

  lemma RootIntervals(d: Drag, h: Hit, maxDepth: nat)
    requires Placed(d) && Element(d).root
    ensures EndsAtZero(Some(SwapInterval(d, h, maxDepth))) && EndsAtZero(Some(IntervalAt(d, d.at, maxDepth)))
  {
    PlacementIff(d.rest, d.at, d.group);
    if d.at < |d.rest| { assert RowOk(d.rest[d.at]); }
    var i := if h.direction == Downward then h.row else h.row - 1;
    if 0 <= i + 1 < |Rows(d)| { assert RowOk(Rows(d)[i + 1]); }
  }

  lemma RootMoveIsHarmless(d: Drag, a: Action, maxDepth: nat)
    requires Placed(d) && Element(d).root && EndsAtZero(d.interval)
    ensures Harmless(d, a, maxDepth) && EndsAtZero(Moved(d, a, maxDepth).interval)
  {
    if d.at < |d.rest| { assert RowOk(d.rest[d.at]); }
    RootIntervals(d, if a.Point? && a.hit.Some? then a.hit.value else Hit(Upward, 0), maxDepth);
  }

  /** A root row may be moved about in any way whatever, by keyboard or mouse, with
      rejected swaps and stale intervals: the forest is never broken. */
  lemma {:induction false} RootRowsAreSafe(d: Drag, moves: seq<Action>, maxDepth: nat)
    requires Placed(d) && Element(d).root && EndsAtZero(d.interval)
    requires forall i :: 0 <= i < |moves| ==> IsMove(moves[i])
    ensures IntactThroughout(Dragging(d), moves, maxDepth)
    decreases |moves|
  {
    PlacedIsIntact(Dragging(d));
    if moves != [] {
      assert IsMove(moves[0]);
      var m := Moved(d, moves[0], maxDepth);
      assert Next(Dragging(d), moves[0], maxDepth) == Dragging(m);
      RootMoveIsHarmless(d, moves[0], maxDepth);
      MovedIsPlaced(d, moves[0], maxDepth);
      MovedKeepsParts(d, moves[0], maxDepth);
      RootRowsAreSafe(m, moves[1..], maxDepth);
    }
  }

  /** For a root row, up and down pass exactly one top-level block and undo each other. */
  lemma RootUpThenDown(d: Drag, maxDepth: nat)
    requires Placed(d) && Element(d).root && 0 < d.at
    ensures var u := KeyUp(d, maxDepth);
      && u.at < d.at && IsSubtree(d.rest, u.at, d.at - u.at) && d.rest[u.at].depth == 0
      && Rows(KeyDown(u, maxDepth)) == Rows(d)
  {
    var p := NearestShallower(d.rest, d.at, 1);
    assert d.rest[0].depth < 1;
    assert RowOk(d.rest[p]);
    if d.at < |d.rest| { assert RowOk(d.rest[d.at]); }
    assert EndOf(d.rest, p + 1, 0) == d.at;
    assert KeyUp(d, maxDepth) == MoveTo(d, p);
    assert KeyDown(MoveTo(d, p), maxDepth) == MoveTo(MoveTo(d, p), d.at);
  }

  lemma RootDownThenUp(d: Drag, maxDepth: nat)
    requires Placed(d) && Element(d).root && d.at < |d.rest|
    ensures var w := KeyDown(d, maxDepth);
      && d.at < w.at && IsSubtree(d.rest, d.at, w.at - d.at) && d.rest[d.at].depth == 0
      && Rows(KeyUp(w, maxDepth)) == Rows(d)
  {
    RootMoveIsIntact(d, d.at);
    assert RowOk(d.rest[d.at]);
    var e := EndOf(d.rest, d.at + 1, 0);
    NearestShallowerIs(d.rest, e, 1, d.at);
    assert KeyDown(d, maxDepth) == MoveTo(d, e);
    assert KeyUp(MoveTo(d, e), maxDepth) == MoveTo(MoveTo(d, e), d.at);
  }

  // ---------- what harmful moves do ----------

  function A(): Row { Row(1, 0, false, false, Top, 0) }
  function A1(): Row { Row(2, 1, false, false, Of(1), 0) }
  function B(): Row { Row(3, 0, false, false, Top, 1) }
  function B1(): Row { Row(4, 1, false, false, Of(3), 0) }
  function C(): Row { Row(5, 0, false, false, Top, 2) }

  /** B with its child B1, held at `at` beside the rows `rest`. */
  function HoldB(rest: seq<Row>, at: nat): Drag
    requires at <= |rest|
  {
    Drag(rest, at, [B(), B1()], 0, 1, None, false)
  }

  lemma GrabB(rows: seq<Row>, i: nat)
    requires i + 2 <= |rows| && rows[i] == B() && rows[i + 1] == B1()
    requires i + 2 < |rows| ==> rows[i + 2].depth == 0
    ensures GrabRow(rows, i) == HoldB(rows[..i] + rows[i + 2..], i)
  {
    assert EndOf(rows, i + 1, 0) == i + 2;
    assert rows[i..i + 2] == [B(), B1()];
    assert MaxDepth([B(), B1()], 0) == 1;
  }

  lemma FirstTwo(a: Row, rest: seq<Row>, g: seq<Row>)
    requires g != []
    ensures Place([a] + rest, 1, g)[0] == a && Place([a] + rest, 1, g)[1] == g[0]
  {
  }

  /** Dragging upwards over the row right below the group measures the interval
      against the group's own last row, and the indent then breaks the forest. */
  lemma PointerCanBreakTheForest()
    ensures WellFormed([A(), B(), B1(), C()])
    ensures !WellFormed(Rows(PointerMove(GrabRow([A(), B(), B1(), C()], 1), Some(Hit(Upward, 3)), 2, 0)))
  {
    var rows := [A(), B(), B1(), C()];
    GrabB(rows, 1);
    var d := HoldB([A(), C()], 1);
    assert rows[..1] + rows[3..] == d.rest;
    assert Rows(d) == rows;
    assert HitRow(d, Hit(Upward, 3), 0) == MoveTo(d, 1).(interval := Some(Interval(0, 2)));
    JumpBreaksTheForest(PointerMove(d, Some(Hit(Upward, 3)), 2, 0));
  }

  lemma JumpBreaksTheForest(r: Drag)
    requires r.rest == [A(), C()] && r.at == 1 && r.group[0].depth == 2
    ensures !WellFormed(Rows(r))
  {
    FirstTwo(A(), [C()], r.group);
    assert [A()] + [C()] == r.rest;
    assert Rows(r)[1].depth == 2 && Rows(r)[0].depth == 0;
    assert !StepOk(Rows(r), 1);
  }

  /** Under a depth limit of 1, one press of the up key pushes B, which has a
      child, in front of A1, and A1 changes hands from A to B. */
  lemma DepthLimitCanCaptureARow()
    ensures Rows(KeyUp(GrabRow([A(), A1(), B(), B1()], 2), 1)) == [A(), B(), B1(), A1()]
    ensures ParentName([A(), A1(), B(), B1()], 1) == Of(1) && ParentName([A(), B(), B1(), A1()], 3) == Of(3)
  {
    GrabLastB();
    HeldBGoesUp();
    A1ChangesHands();
  }

  lemma GrabLastB()
    ensures GrabRow([A(), A1(), B(), B1()], 2) == HoldB([A(), A1()], 2)
  {
    var rows := [A(), A1(), B(), B1()];
    GrabB(rows, 2);
    assert rows[..2] + rows[4..] == [A(), A1()];
  }

  lemma A1ChangesHands()
    ensures ParentName([A(), A1(), B(), B1()], 1) == Of(1) && ParentName([A(), B(), B1(), A1()], 3) == Of(3)
  {
    NearestShallowerIs([A(), B(), B1(), A1()], 3, 1, 1);
    NearestShallowerIs([A(), A1(), B(), B1()], 1, 1, 0);
  }

  lemma HeldBGoesUp()
    ensures Rows(KeyUp(HoldB([A(), A1()], 2), 1)) == [A(), B(), B1(), A1()]
  {
    var d := HoldB([A(), A1()], 2);
    assert IntervalAt(d, 1, 1) == Interval(1, 0);
    assert Shift(d.group, 0) == d.group;
    assert KeyUp(d, 1) == d.(at := 1, interval := Some(Interval(1, 0)), changed := true);
  }
}
