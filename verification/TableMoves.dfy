/** Dragging one group of rows, by keyboard and by mouse, as a state machine.
    While a group is dragged the rest of the table never changes, so the state
    keeps the two apart: the table is `rest` with `group` in front of `at`. */
module TableMoves {
  import opened Wrappers
  import opened Forest

  datatype Interval = Interval(min: int, max: int)

  datatype RawDrag = Drag(
    rest: seq<Row>, at: nat, group: seq<Row>,
    indents: int, groupDepth: int, interval: Option<Interval>, changed: bool)

  type Drag = d: RawDrag | d.at <= |d.rest| && d.group != []
    witness Drag([], 0, [Row(0, 0, false, false, Top, 0)], 0, 0, None, false)

  function Rows(d: Drag): seq<Row> {
    Place(d.rest, d.at, d.group)
  }

  function Element(d: Drag): Row {
    d.group[0]
  }

  /** How far the group's deepest row lies below the dragged row. */
  function Height(d: Drag): int {
    d.groupDepth - d.indents
  }

  // ---------- the operations ----------

  function RowAt(rows: seq<Row>, i: int): Option<Row> {
    if 0 <= i < |rows| then Some(rows[i]) else None
  }

  /** `validIndentInterval`: the depths allowed between two neighbours. */
  function ValidInterval(prev: Option<Row>, next: Option<Row>, root: bool, maxDepth: nat, height: int): Interval {
    var min := if next.Some? then next.value.depth else 0;
    var max :=
      if prev.None? || root then 0
      else if 0 < maxDepth then Min(ChildLimit(prev.value), maxDepth - height)
      else ChildLimit(prev.value);
    Interval(min, max)
  }

  /** The interval between the rows that really surround position `p`. */
  function IntervalAt(d: Drag, p: nat, maxDepth: nat): Interval {
    ValidInterval(RowAt(d.rest, p - 1), RowAt(d.rest, p), Element(d).root, maxDepth, Height(d))
  }

  /** `indent`: shift the group to the allowed depth nearest to the proposal. */
  function Clamp(depth: int, iv: Interval): int {
    Min(Max(depth, iv.min), iv.max)
  }

  function IndentBy(d: Drag, diff: int, maxDepth: nat): (r: Drag) {
    var iv := if d.interval.Some? then d.interval.value else IntervalAt(d, d.at, maxDepth);
    var shift := Clamp(d.indents + diff, iv) - d.indents;
    Drag(d.rest, d.at, Shift(d.group, shift), d.indents + shift, d.groupDepth + shift, Some(iv), d.changed || shift != 0)
  }

  function Distance(a: int, b: int): nat {
    if a < b then b - a else a - b
  }

  /** The allowed depth nearest to the proposal; where none is allowed, the upper end. */
  ghost predicate NearestIn(depth: int, proposal: int, iv: Interval) {
    if iv.min <= iv.max then
      && iv.min <= depth <= iv.max
      && forall x :: iv.min <= x <= iv.max ==> Distance(depth, proposal) <= Distance(x, proposal)
    else depth == iv.max
  }

  /** An indent goes by the cached interval, or else by that of the present place. Only the
      depth of the group changes, and that is marked exactly when it does. */
  lemma IndentGoesNearest(d: Drag, diff: int, maxDepth: nat)
    ensures var r := IndentBy(d, diff, maxDepth);
      var iv := if d.interval.Some? then d.interval.value else IntervalAt(d, d.at, maxDepth);
      && NearestIn(r.indents, d.indents + diff, iv)
      && r == Drag(d.rest, d.at, Shift(d.group, r.indents - d.indents), r.indents,
                   d.groupDepth + r.indents - d.indents, Some(iv), d.changed || r.indents != d.indents)
  {
  }

  /** `swap`: the group now stands in front of row `p` of the rest. */
  function MoveTo(d: Drag, p: nat): (r: Drag)
    requires p <= |d.rest|
  {
    d.(at := p, changed := true)
  }

  /** The arrow keys move a non-root row past one row and fix its depth there. */
  function StepTo(d: Drag, p: nat, maxDepth: nat): (r: Drag)
    requires p <= |d.rest|
  {
    IndentBy(MoveTo(d, p).(interval := None), 0, maxDepth)
  }

  function KeyUp(d: Drag, maxDepth: nat): (r: Drag) {
    if d.at == 0 then d
    else if !Element(d).root then StepTo(d, d.at - 1, maxDepth)
    else
      var p := NearestShallower(d.rest, d.at, 1);
      if p < 0 then d else MoveTo(d, p)
  }

  function KeyDown(d: Drag, maxDepth: nat): (r: Drag) {
    if d.at == |d.rest| then d
    else if !Element(d).root then StepTo(d, d.at + 1, maxDepth)
    else MoveTo(d, EndOf(d.rest, d.at + 1, d.rest[d.at].depth))
  }

  datatype Direction = Upward | Downward

  /** The mouse pointer is over row `row` of the table, moving in `direction`. */
  datatype Hit = Hit(direction: Direction, row: nat)

  predicate OwnRow(d: Drag, row: nat) {
    d.at <= row < d.at + |d.group|
  }

  /** The interval `isValidSwap` computes, from the neighbours as they stand in
      the table, which may belong to the dragged group itself. */
  function SwapInterval(d: Drag, h: Hit, maxDepth: nat): Interval {
    var i := if h.direction == Downward then h.row else h.row - 1;
    ValidInterval(RowAt(Rows(d), i), RowAt(Rows(d), i + 1), Element(d).root, maxDepth, Height(d))
  }

  /** Where the group lands when it is put after or before the row under the mouse pointer. */
  function Target(d: Drag, h: Hit): nat
    requires h.row < |Rows(d)| && !OwnRow(d, h.row)
  {
    (if h.row < d.at then h.row else h.row - |d.group|) + if h.direction == Downward then 1 else 0
  }

  /** `findDropTargetRow` and the swap in `dragRow`. A rejected swap still
      overwrites the cached interval. */
  function HitRow(d: Drag, h: Hit, maxDepth: nat): (r: Drag) {
    if |Rows(d)| <= h.row || OwnRow(d, h.row) then d
    else
      var iv := SwapInterval(d, h, maxDepth);
      if iv.max < iv.min then d.(interval := Some(iv))
      else MoveTo(d, Target(d, h)).(interval := Some(iv))
  }

  function PointerMove(d: Drag, hit: Option<Hit>, diff: int, maxDepth: nat): (r: Drag) {
    IndentBy(if hit.Some? then HitRow(d, hit.value, maxDepth) else d, diff, maxDepth)
  }

  /** The greatest depth in a group, at least `floor`. */
  function MaxDepth(g: seq<Row>, floor: int): (r: int)
    ensures floor <= r
    ensures forall k :: 0 <= k < |g| ==> g[k].depth <= r
    ensures r == floor || exists k :: 0 <= k < |g| && g[k].depth == r
  {
    if g == [] then floor else
      var m := MaxDepth(g[..|g| - 1], floor);
      assert forall k :: 0 <= k < |g| - 1 ==> g[..|g| - 1][k] == g[k];
      Max(m, g[|g| - 1].depth)
  }

  /** The row object: a row with its descendants. */
  function GrabRow(rows: seq<Row>, i: nat): (r: Drag)
    requires i < |rows|
  {
    var end := EndOf(rows, i + 1, rows[i].depth);
    Drag(rows[..i] + rows[end..], i, rows[i..end], rows[i].depth,
         MaxDepth(rows[i..end], rows[i].depth), None, false)
  }

  // ---------- the depth limit ----------

  ghost predicate InRange(rows: seq<Row>, maxDepth: nat) {
    forall i :: 0 <= i < |rows| ==> 0 <= rows[i].depth && (0 < maxDepth ==> rows[i].depth <= maxDepth)
  }

  /** `groupDepth` is the group's true greatest depth and no row of the group
      is shallower than the dragged row. */
  ghost predicate Tracked(d: Drag) {
    && d.indents == d.group[0].depth
    && (forall k :: 0 <= k < |d.group| ==> d.indents <= d.group[k].depth <= d.groupDepth)
    && (exists k :: 0 <= k < |d.group| && d.group[k].depth == d.groupDepth)
  }

  ghost predicate Limited(d: Drag, maxDepth: nat) {
    && Tracked(d) && InRange(d.rest, maxDepth) && InRange(d.group, maxDepth)
    && (d.interval.Some? ==> IntervalSafe(d.interval.value, maxDepth, Height(d)))
  }

  ghost predicate IntervalSafe(iv: Interval, maxDepth: nat, height: int) {
    0 <= iv.min && 0 <= iv.max && (0 < maxDepth ==> iv.max + height <= maxDepth)
  }

  lemma ValidIntervalIsSafe(rows: seq<Row>, i: int, d: Drag, maxDepth: nat)
    requires Limited(d, maxDepth) && InRange(rows, maxDepth)
    ensures IntervalSafe(ValidInterval(RowAt(rows, i), RowAt(rows, i + 1), Element(d).root, maxDepth, Height(d)),
                         maxDepth, Height(d))
  {
    var k :| 0 <= k < |d.group| && d.group[k].depth == d.groupDepth;
  }

  lemma IndentKeepsLimit(d: Drag, diff: int, maxDepth: nat)
    requires Limited(d, maxDepth)
    ensures Limited(IndentBy(d, diff, maxDepth), maxDepth)
    ensures Height(IndentBy(d, diff, maxDepth)) == Height(d)
  {
    ValidIntervalIsSafe(d.rest, d.at - 1, d, maxDepth);
    var r := IndentBy(d, diff, maxDepth);
    var k :| 0 <= k < |d.group| && d.group[k].depth == d.groupDepth;
    assert r.group[k].depth == r.groupDepth;
  }

  lemma RowsInRange(d: Drag, maxDepth: nat)
    requires InRange(d.rest, maxDepth) && InRange(d.group, maxDepth)
    ensures InRange(Rows(d), maxDepth)
  {
    forall i | 0 <= i < |Rows(d)|
      ensures 0 <= Rows(d)[i].depth && (0 < maxDepth ==> Rows(d)[i].depth <= maxDepth)
    {
      var inGroup, k := Origin(d.rest, d.at, d.group, i);
    }
  }

  lemma StepKeepsLimit(d: Drag, p: nat, maxDepth: nat)
    requires Limited(d, maxDepth) && p <= |d.rest|
    ensures Limited(StepTo(d, p, maxDepth), maxDepth) && Height(StepTo(d, p, maxDepth)) == Height(d)
  {
    IndentKeepsLimit(MoveTo(d, p).(interval := None), 0, maxDepth);
  }

  lemma HitKeepsLimit(d: Drag, h: Hit, maxDepth: nat)
    requires Limited(d, maxDepth)
    ensures Limited(HitRow(d, h, maxDepth), maxDepth) && Height(HitRow(d, h, maxDepth)) == Height(d)
  {
    RowsInRange(d, maxDepth);
    ValidIntervalIsSafe(Rows(d), if h.direction == Downward then h.row else h.row - 1, d, maxDepth);
    ElsewhereKeepsLimit(d, HitRow(d, h, maxDepth), maxDepth);
  }

  /** The limit does not depend on where the group stands. */
  lemma ElsewhereKeepsLimit(d: Drag, r: Drag, maxDepth: nat)
    requires Limited(d, maxDepth) && r.rest == d.rest && r.group == d.group
    requires r.indents == d.indents && r.groupDepth == d.groupDepth
    requires r.interval.Some? ==> IntervalSafe(r.interval.value, maxDepth, Height(d))
    ensures Limited(r, maxDepth) && Height(r) == Height(d)
  {
  }

  /** Any mouse-pointer move, accepted or rejected, from any state. */
  lemma PointerKeepsLimit(d: Drag, hit: Option<Hit>, diff: int, maxDepth: nat)
    requires Limited(d, maxDepth)
    ensures Limited(PointerMove(d, hit, diff, maxDepth), maxDepth)
    ensures Height(PointerMove(d, hit, diff, maxDepth)) == Height(d)
  {
    if hit.Some? {
      HitKeepsLimit(d, hit.value, maxDepth);
      IndentKeepsLimit(HitRow(d, hit.value, maxDepth), diff, maxDepth);
    } else {
      IndentKeepsLimit(d, diff, maxDepth);
    }
  }

  lemma GrabTakesApart(rows: seq<Row>, i: nat)
    requires i < |rows|
    ensures var d := GrabRow(rows, i);
      && Rows(d) == rows && d.at == i && d.group[0] == rows[i] && i + |d.group| == EndOf(rows, i + 1, rows[i].depth)
      && d.indents == rows[i].depth && d.interval.None? && !d.changed
      && (forall k :: 0 <= k < |d.group| ==> d.group[k] == rows[i + k])
      && (forall k :: 0 <= k < |d.rest| ==> d.rest[k] == rows[Beside(i, |d.group|, k)])
  {
    TakenApart(rows, i, EndOf(rows, i + 1, rows[i].depth));
  }

  lemma TakenApart(rows: seq<Row>, i: nat, end: nat)
    requires i < end <= |rows|
    ensures var rest, g := rows[..i] + rows[end..], rows[i..end];
      && Place(rest, i, g) == rows && (forall k :: 0 <= k < |g| ==> g[k] == rows[i + k])
      && (forall k :: 0 <= k < |rest| ==> rest[k] == rows[Beside(i, |g|, k)])
  {
    var rest := rows[..i] + rows[end..];
    assert rest[..i] == rows[..i] && rest[i..] == rows[end..];
    assert rows[..i] + rows[i..end] + rows[end..] == rows;
  }

  lemma GrabIsTracked(rows: seq<Row>, i: nat)
    requires i < |rows|
    ensures Tracked(GrabRow(rows, i))
  {
    var d := GrabRow(rows, i);
    var end := EndOf(rows, i + 1, rows[i].depth);
    assert d.group == rows[i..end];
    forall k | 0 <= k < |d.group| ensures d.indents <= d.group[k].depth {
      assert d.group[k] == rows[i + k];
    }
    assert d.group[0].depth == d.indents;
  }

  lemma GrabIsLimited(rows: seq<Row>, i: nat, maxDepth: nat)
    requires i < |rows| && InRange(rows, maxDepth)
    ensures Limited(GrabRow(rows, i), maxDepth)
  {
    var d := GrabRow(rows, i);
    GrabIsTracked(rows, i);
    GrabTakesApart(rows, i);
    assert InRange(d.rest, maxDepth) by {
      forall k | 0 <= k < |d.rest| ensures d.rest[k] in rows { }
    }
    assert InRange(d.group, maxDepth) by {
      forall k | 0 <= k < |d.group| ensures d.group[k] in rows { }
    }
  }
}
