/** What the operations on a table come to, said without their own definitions. */
module TableMeaning {
  import opened Wrappers
  import opened Forest
  import opened TableMoves
  import opened TableFields
  import opened TableRuns

  // ---------- intervals ----------

  /** Every row of the group is within the limit. */
  ghost predicate WithinLimit(g: seq<Row>, maxDepth: nat) {
    0 < maxDepth ==> forall k :: 0 <= k < |g| ==> g[k].depth <= maxDepth
  }

  lemma ShiftWithinLimit(d: Drag, depth: int, maxDepth: nat)
    requires Tracked(d)
    ensures WithinLimit(Shift(d.group, depth - d.indents), maxDepth) <==> (0 < maxDepth ==> depth + Height(d) <= maxDepth)
  {
    var g := Shift(d.group, depth - d.indents);
    var k :| 0 <= k < |d.group| && d.group[k].depth == d.groupDepth;
    assert g[k].depth == depth + Height(d);
  }

  /** The interval of a place holds exactly the depths at which the group may stand there:
      the table is a forest with the group one subtree, and the limit is kept. */
  lemma IntervalIsExact(d: Drag, p: nat, depth: int, maxDepth: nat)
    requires WellFormed(d.rest) && IsGroup(d.group) && Tracked(d) && p <= |d.rest|
    requires 0 < maxDepth ==> Height(d) <= maxDepth
    ensures var g, iv := Shift(d.group, depth - d.indents), IntervalAt(d, p, maxDepth);
      iv.min <= depth <= iv.max <==>
        && WellFormed(Place(d.rest, p, g)) && IsSubtree(Place(d.rest, p, g), p, |g|)
        && WithinLimit(g, maxDepth)
  {
    var g := Shift(d.group, depth - d.indents);
    ShiftIsGroup(d.group, depth - d.indents);
    PlacementIff(d.rest, p, g);
    ShiftWithinLimit(d, depth, maxDepth);
    assert g[0].depth == depth && g[0].root == Element(d).root;
  }

  // ---------- arrow keys ----------

  /** The group has gone to place `p`, and to the allowed depth there nearest to its own. */
  ghost predicate SteppedTo(d: Drag, r: Drag, p: nat, maxDepth: nat) {
    && r.rest == d.rest && r.at == p <= |d.rest| && r.group == Shift(d.group, r.indents - d.indents)
    && NearestIn(r.indents, d.indents, IntervalAt(d, p, maxDepth))
    && r.interval == Some(IntervalAt(d, p, maxDepth)) && r.changed
  }

  lemma StepGoesNearest(d: Drag, p: nat, maxDepth: nat)
    requires p <= |d.rest|
    ensures SteppedTo(d, StepTo(d, p, maxDepth), p, maxDepth)
  {
    var m := MoveTo(d, p).(interval := None);
    assert IntervalAt(m, p, maxDepth) == IntervalAt(d, p, maxDepth);
    IndentGoesNearest(m, 0, maxDepth);
  }

  /** One press of an arrow key takes a row that is not a root row past exactly one row. */
  lemma ArrowsTakeOneRow(d: Drag, maxDepth: nat)
    requires !Element(d).root
    ensures 0 < d.at ==> SteppedTo(d, KeyUp(d, maxDepth), d.at - 1, maxDepth)
    ensures d.at < |d.rest| ==> SteppedTo(d, KeyDown(d, maxDepth), d.at + 1, maxDepth)
  {
    if 0 < d.at { StepGoesNearest(d, d.at - 1, maxDepth); }
    if d.at < |d.rest| { StepGoesNearest(d, d.at + 1, maxDepth); }
  }

  /** At either end of the table the key towards it does nothing. */
  lemma ArrowsStopAtTheEnds(d: Drag, maxDepth: nat)
    ensures d.at == 0 ==> KeyUp(d, maxDepth) == d
    ensures d.at == |d.rest| ==> KeyDown(d, maxDepth) == d
  {
  }

  /** A root row goes past a whole block: nothing but its place changes. */
  lemma RootRowsKeepTheirDepth(d: Drag, maxDepth: nat)
    requires Element(d).root
    ensures var r := KeyUp(d, maxDepth); r == d || r == Drag(d.rest, r.at, d.group, d.indents, d.groupDepth, d.interval, true)
    ensures var r := KeyDown(d, maxDepth); r == d || r == Drag(d.rest, r.at, d.group, d.indents, d.groupDepth, d.interval, true)
  {
  }

  // ---------- the mouse ----------

  /** Right after the row under the pointer when it moves down, right before it when it moves up. */
  ghost predicate LandsBeside(d: Drag, r: Drag, h: Hit)
    requires h.row < |Rows(d)|
  {
    if h.direction == Downward
    then 0 < r.at && Rows(r)[r.at - 1] == Rows(d)[h.row]
    else r.at < |r.rest| && Rows(r)[r.at + |r.group|] == Rows(d)[h.row]
  }

  lemma TargetIsBeside(d: Drag, h: Hit, r: Drag)
    requires Hits(d, Some(h)) && r.rest == d.rest && r.at == Target(d, h)
    ensures LandsBeside(d, r, h)
  {
    if h.row < d.at { assert Rows(d)[h.row] == d.rest[h.row]; }
    else { assert Rows(d)[h.row] == d.rest[h.row - |d.group|]; }
  }

  /** A mouse move over another row: a permitted swap puts the group beside that row, a
      rejected one leaves it where it is; either way the interval computed for the swap
      decides the depth. */
  lemma PointerLands(d: Drag, h: Hit, diff: int, maxDepth: nat)
    requires Hits(d, Some(h))
    ensures var r, iv := PointerMove(d, Some(h), diff, maxDepth), SwapInterval(d, h, maxDepth);
      && r.rest == d.rest && r.group == Shift(d.group, r.indents - d.indents) && r.interval == Some(iv)
      && NearestIn(r.indents, d.indents + diff, iv)
      && (if iv.min <= iv.max then LandsBeside(d, r, h) && r.changed
          else r.at == d.at && (r.changed <==> d.changed || r.indents != d.indents))
  {
    var m := HitRow(d, h, maxDepth);
    IndentGoesNearest(m, diff, maxDepth);
    if NonEmpty(SwapInterval(d, h, maxDepth)) {
      PermittedHitLands(d, h, diff, maxDepth);
      TargetIsBeside(d, h, PointerMove(d, Some(h), diff, maxDepth));
    }
  }

  /** Over no row, or over one of its own, the group only changes its depth. */
  lemma PointerIndents(d: Drag, hit: Option<Hit>, diff: int, maxDepth: nat)
    requires !Hits(d, hit)
    ensures PointerMove(d, hit, diff, maxDepth) == IndentBy(d, diff, maxDepth)
  {
  }

  // ---------- drops ----------

  /** Picking a row up and putting it down writes nothing. */
  lemma PutDownAgain(rows: seq<Row>, i: nat, maxDepth: nat)
    ensures Run(Idle(rows), [Grab(i), Release], maxDepth) == Idle(rows)
  {
    assert [Grab(i), Release][1..] == [Release] && [Release][1..] == [];
    assert Run(Idle(rows), [Grab(i), Release], maxDepth) == Next(Next(Idle(rows), Grab(i), maxDepth), Release, maxDepth);
    if i < |rows| { GrabTakesApart(rows, i); }
  }

  /** Nor does anything that leaves the row object unchanged. */
  lemma UnchangedWritesNothing(s: Session, maxDepth: nat)
    requires s.Dragging? && !s.drag.changed
    ensures Next(s, Release, maxDepth) == Idle(TableOf(s))
  {
  }

  /** What the drop writes into the parent field: the id of the nearest shallower row above,
      and for a top-level row what the first row outside the group says. */
  lemma ParentValueIs(d: Drag)
    requires Placed(d) && d.rest != []
    ensures var p := ParentIndex(Rows(d), d.at);
      ParentSource(Rows(d), d.at, |d.group|, d.indents) == if 0 <= p then Of(Rows(d)[p].id) else d.rest[0].parent
  {
    assert Rows(d)[d.at] == d.group[0];
    if d.at == 0 { assert Rows(d)[|d.group|] == d.rest[0]; } else { assert Rows(d)[0] == d.rest[0]; }
  }

  // ---------- weights ----------

  /** No sibling of `pos` stands in `rows[a..b]`. */
  ghost predicate NoSibling(rows: seq<Row>, pos: nat, a: nat, b: nat)
    requires pos < |rows| && b <= |rows|
  {
    forall k :: a <= k < b ==> !Sibling(rows, pos, k)
  }

  /** The first sibling of a dropped row keeps its own weight. */
  lemma FirstKeepsItsWeight(rows: seq<Row>, pos: nat, len: nat, i: nat)
    requires pos < |rows| && i < |rows| && WellFormed(rows)
    requires Sibling(rows, pos, i) && NoSibling(rows, pos, 0, i)
    ensures DropRow(rows, pos, len, rows[pos].depth)[i].weight == rows[i].weight
  {
    var s, m := DropsAlongSiblings(rows, pos, len, i);
    assert Sibling(rows, pos, s[0]);
  }

  /** And each of the others is one heavier than the sibling before it. */
  lemma NextIsOneHeavier(rows: seq<Row>, pos: nat, len: nat, i: nat, j: nat)
    requires pos < |rows| && i < j < |rows| && WellFormed(rows)
    requires Sibling(rows, pos, i) && Sibling(rows, pos, j) && NoSibling(rows, pos, i + 1, j)
    ensures var r := DropRow(rows, pos, len, rows[pos].depth); r[j].weight == r[i].weight + 1
  {
    var s, m := DropsAlongSiblings(rows, pos, len, i);
    assert j in s;
    var n :| 0 <= n < |s| && s[n] == j;
    assert m + 1 < |s| ==> Sibling(rows, pos, s[m + 1]);
    NoneBetween(s, m, n);
  }

  lemma NoneBetween(s: seq<nat>, m: nat, n: nat)
    requires Increasing(s) && m < |s| && n < |s| && s[m] < s[n]
    requires m + 1 < |s| ==> !(s[m] < s[m + 1] < s[n])
    ensures n == m + 1
  {
  }
}
