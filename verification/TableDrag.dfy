/** The table and its row object as they are updated in place, each method
    proved against the pure operations. */
module TableDrag {
  import opened Wrappers
  import opened Forest
  import opened TableMoves
  import opened TableFields
  import opened TableRuns

  /** The descendants of row `i` end where the first row not deeper begins. */
  method FindChildren(rows: seq<Row>, i: nat) returns (end: nat)
    requires i < |rows|
    ensures i < end && IsSubtree(rows, i, end - i)
    ensures end == EndOf(rows, i + 1, rows[i].depth)
  {
    end := i + 1;
    while end < |rows| && rows[i].depth < rows[end].depth
      invariant i < end <= |rows|
      invariant forall k :: i < k < end ==> rows[i].depth < rows[k].depth
      invariant EndOf(rows, end, rows[i].depth) == EndOf(rows, i + 1, rows[i].depth)
    {
      end := end + 1;
    }
  }

  /** The greatest depth of a group. */
  method FindGroupDepth(group: seq<Row>) returns (depth: int)
    requires group != []
    ensures forall k :: 0 <= k < |group| ==> group[k].depth <= depth
    ensures depth == MaxDepth(group, group[0].depth)
  {
    depth := group[0].depth;
    for n := 0 to |group|
      invariant depth == MaxDepth(group[..n], group[0].depth)
    {
      assert group[..n + 1][..n] == group[..n];
      depth := Max(group[n].depth, depth);
    }
    assert group[..|group|] == group;
  }

  /** The end of a row's group and the group's greatest depth. */
  method FindGroup(rows: seq<Row>, i: nat) returns (end: nat, depth: int)
    requires i < |rows|
    ensures i < end == EndOf(rows, i + 1, rows[i].depth) <= |rows|
    ensures depth == MaxDepth(rows[i..end], rows[i].depth)
  {
    end := FindChildren(rows, i);
    depth := FindGroupDepth(rows[i..end]);
  }

  function Reversed(s: seq<nat>): (r: seq<nat>) {
    if s == [] then [] else [s[|s| - 1]] + Reversed(s[..|s| - 1])
  }

  lemma ReversedOneMore(s: seq<nat>, j: nat, before: seq<nat>)
    ensures (before + [j]) + Reversed(s) == before + Reversed(s + [j])
  {
    assert (s + [j])[..|s|] == s;
  }

  /** The upward walk, which meets the siblings in reverse order. */
  method WalkUp(rows: seq<Row>, pos: nat, indents: int) returns (above: seq<nat>)
    requires pos < |rows|
    ensures Reversed(above) == SiblingsAbove(rows, pos, indents)
  {
    above := [];
    var j: nat := pos;
    while 0 < j && indents <= rows[j - 1].depth
      invariant j <= pos
      invariant SiblingsAbove(rows, pos, indents) == SiblingsAbove(rows, j, indents) + Reversed(above)
    {
      j := j - 1;
      if rows[j].depth == indents {
        ReversedOneMore(above, j, SiblingsAbove(rows, j, indents));
        above := above + [j];
      }
    }
  }

  lemma Regrouped(a: seq<nat>, j: nat, b: seq<nat>)
    ensures a + ([j] + b) == (a + [j]) + b
  {
  }

  /** The downward walk. */
  method WalkDown(rows: seq<Row>, pos: nat, indents: int) returns (below: seq<nat>)
    requires pos < |rows|
    ensures below == SiblingsBelow(rows, pos + 1, indents)
  {
    below := [];
    var j: nat := pos + 1;
    while j < |rows| && indents <= rows[j].depth
      invariant pos < j <= |rows|
      invariant below + SiblingsBelow(rows, j, indents) == SiblingsBelow(rows, pos + 1, indents)
    {
      if rows[j].depth == indents {
        Regrouped(below, j, SiblingsBelow(rows, j + 1, indents));
        below := below + [j];
      }
      j := j + 1;
    }
  }

  /** The rows with the same depth as row `pos`, up to the nearest shallower row
      in either direction: exactly the rows with the same parent, in order. */
  method FindSiblings(rows: seq<Row>, pos: nat, indents: int) returns (siblings: seq<nat>)
    requires pos < |rows|
    ensures siblings == Siblings(rows, pos, indents)
    ensures WellFormed(rows) && indents == rows[pos].depth ==> SiblingList(rows, pos, siblings)
  {
    var above := WalkUp(rows, pos, indents);
    var below := WalkDown(rows, pos, indents);
    siblings := Reversed(above) + [pos] + below;
    if WellFormed(rows) && indents == rows[pos].depth { SiblingsAreTheList(rows, pos); }
  }

  ghost predicate SiblingList(rows: seq<Row>, pos: nat, s: seq<nat>)
    requires pos < |rows|
  {
    && Increasing(s)
    && forall m :: 0 <= m < |rows| ==> (m in s <==> ParentIndex(rows, m) == ParentIndex(rows, pos))
  }

  lemma SiblingsAreTheList(rows: seq<Row>, pos: nat)
    requires WellFormed(rows) && pos < |rows|
    ensures SiblingList(rows, pos, Siblings(rows, pos, rows[pos].depth))
  {
    SiblingsIncrease(rows, pos);
    forall m | 0 <= m < |rows|
      ensures m in Siblings(rows, pos, rows[pos].depth) <==> ParentIndex(rows, m) == ParentIndex(rows, pos)
    {
      SiblingsShareTheParent(rows, pos, m);
    }
  }

  /** The value for the parent field of the row at `pos`. */
  method FindParentValue(rows: seq<Row>, pos: nat, len: nat, indents: int) returns (value: ParentField)
    requires pos < |rows|
    ensures value == ParentSource(rows, pos, len, indents)
  {
    var p := pos - 1;
    while 0 <= p && indents <= rows[p].depth
      invariant -1 <= p < pos
      invariant NearestShallower(rows, p + 1, indents) == NearestShallower(rows, pos, indents)
    {
      p := p - 1;
    }
    if 0 <= p {
      value := Of(rows[p].id);
    } else {
      var source := 0;
      if source == pos && len < |rows| { source := len; }
      value := rows[source].parent;
    }
  }

  lemma PlaceSlices(rest: seq<Row>, p: nat, g: seq<Row>)
    requires p <= |rest|
    ensures var rows := Place(rest, p, g);
      rows[..p] + rows[p + |g|..] == rest && rows[p..p + |g|] == g && |rows| == |rest| + |g|
  {
    var rows := Place(rest, p, g);
    assert rows[..p] == rest[..p] && rows[p + |g|..] == rest[p..];
  }

  /** The group shifted, with its count of indentations. */
  function Indented(d: Drag, diff: int): (r: Drag) {
    d.(group := Shift(d.group, diff), indents := d.indents + diff)
  }

  lemma IndentByParts(d: Drag, diff: int, maxDepth: nat, iv: Interval)
    requires iv == if d.interval.Some? then d.interval.value else IntervalAt(d, d.at, maxDepth)
    ensures var shift := Clamp(d.indents + diff, iv) - d.indents;
      IndentBy(d, diff, maxDepth) == Indented(d.(interval := Some(iv)), shift).(
        changed := d.changed || shift != 0, groupDepth := d.groupDepth + shift)
  {
  }

  class Table {
    var rows: seq<Row>

    constructor (rows: seq<Row>)
      ensures this.rows == rows
    {
      this.rows := rows;
    }
  }

  class RowObject {
    const table: Table
    const maxDepth: nat
    /** The group is the `len` rows from `pos` on; the dragged row is the first. */
    var pos: nat
    var len: nat
    var indents: int
    var groupDepth: int
    var interval: Option<Interval>
    var changed: bool

    ghost predicate Valid()
      reads this, table
    {
      0 < len && pos + len <= |table.rows|
    }

    ghost function State(): (d: Drag)
      reads this, table
      requires Valid()
    {
      var rows := table.rows;
      Drag(rows[..pos] + rows[pos + len..], pos, rows[pos..pos + len], indents, groupDepth, interval, changed)
    }

    lemma StateIsTheTable()
      requires Valid()
      ensures Rows(State()) == table.rows
    {
    }

    constructor (table: Table, i: nat, maxDepth: nat)
      requires i < |table.rows|
      ensures Valid() && this.table == table && this.maxDepth == maxDepth
      ensures State() == GrabRow(table.rows, i)
    {
      var end, depth := FindGroup(table.rows, i);
      this.table, this.maxDepth := table, maxDepth;
      pos, len := i, end - i;
      indents, groupDepth, interval, changed := table.rows[i].depth, depth, None, false;
      new;
      assert pos + len == end;
    }

    /** One indentation more or less on every row of the group. */
    method IndentOnce(one: int)
      requires Valid()
      modifies this`indents, table
      ensures Valid()
      ensures State() == Indented(old(State()), one)
    {
      var rows := table.rows;
      var rest, group := rows[..pos] + rows[pos + len..], rows[pos..pos + len];
      table.rows := Place(rest, pos, Shift(group, one));
      PlaceSlices(rest, pos, Shift(group, one));
      indents := indents + one;
    }

    /** Add or remove indentations, one at a time, on every row of the group. */
    method ShiftGroup(diff: int)
      requires Valid()
      modifies this`indents, table
      ensures Valid()
      ensures State() == Indented(old(State()), diff)
    {
      ghost var d := State();
      var one := if diff < 0 then -1 else 1;
      var done := 0;
      assert Shift(d.group, 0) == d.group;
      while done != diff
        invariant if diff < 0 then diff <= done <= 0 else 0 <= done <= diff
        invariant Valid() && State() == Indented(d, done)
        decreases if diff < 0 then done - diff else diff - done
      {
        ShiftTwice(d.group, done, one);
        IndentOnce(one);
        done := done + one;
      }
    }

    /** The interval of the group's present place, computed unless it is known. */
    method FindInterval() returns (iv: Interval)
      requires Valid()
      modifies this`interval
      ensures Valid() && State() == old(State()).(interval := Some(iv))
      ensures iv == if old(interval).Some? then old(interval).value else IntervalAt(old(State()), pos, maxDepth)
    {
      if interval.None? {
        var prev, next := RowAt(table.rows, pos - 1), RowAt(table.rows, pos + len);
        assert prev == RowAt(State().rest, pos - 1) && next == RowAt(State().rest, pos);
        interval := Some(ValidInterval(prev, next, table.rows[pos].root, maxDepth, groupDepth - indents));
      }
      iv := interval.value;
    }

    /** `indent`: move to the allowed depth nearest to the proposal. */
    method Indent(diff: int) returns (applied: int)
      requires Valid()
      modifies this, table
      ensures Valid() && State() == IndentBy(old(State()), diff, maxDepth)
      ensures applied == indents - old(indents) && pos == old(pos) && len == old(len)
      ensures NearestIn(indents, old(indents) + diff,
                        if old(interval).Some? then old(interval).value else IntervalAt(old(State()), old(pos), maxDepth))
      ensures changed <==> old(changed) || indents != old(indents)
    {
      IndentGoesNearest(State(), diff, maxDepth);
      applied := ClampAndShift(diff);
    }

    method ClampAndShift(diff: int) returns (applied: int)
      requires Valid()
      modifies this, table
      ensures Valid() && State() == IndentBy(old(State()), diff, maxDepth)
      ensures applied == indents - old(indents) && pos == old(pos) && len == old(len)
    {
      ghost var d := State();
      var iv := FindInterval();
      applied := Clamp(indents + diff, iv) - indents;
      ShiftGroup(applied);
      MarkShift(applied);
      IndentByParts(d, diff, maxDepth, iv);
    }

    method MarkShift(applied: int)
      requires Valid()
      modifies this`changed, this`groupDepth
      ensures Valid()
      ensures State() == old(State()).(changed := old(changed) || applied != 0, groupDepth := old(groupDepth) + applied)
    {
      if applied != 0 {
        changed := true;
        groupDepth := groupDepth + applied;
      }
    }

    /** `swap`: take the group out and put it back in front of position `p` of the rest. */
    method Swap(p: nat)
      requires Valid() && p + len <= |table.rows|
      modifies this, table
      ensures Valid() && State() == MoveTo(old(State()), p)
      ensures pos == p && len == old(len)
    {
      var rows := table.rows;
      var rest, group := rows[..pos] + rows[pos + len..], rows[pos..pos + len];
      table.rows := Place(rest, p, group);
      PlaceSlices(rest, p, group);
      pos := p;
      changed := true;
    }

    /** An arrow key moves a non-root row and fixes its depth at the new place. */
    method StepTo(p: nat)
      requires Valid() && p + len <= |table.rows|
      modifies this, table
      ensures Valid() && State() == TableMoves.StepTo(old(State()), p, maxDepth)
      ensures pos == p && len == old(len)
    {
      ghost var d := State();
      Swap(p);
      interval := None;
      assert State() == MoveTo(d, p).(interval := None);
      var _ := Indent(0);
    }

    /** The up arrow. A root row passes the whole top-level block above it. */
    method KeyUp()
      requires Valid()
      modifies this, table
      ensures Valid() && State() == TableMoves.KeyUp(old(State()), maxDepth)
      ensures !old(table.rows[pos].root) ==> pos == if 0 < old(pos) then old(pos) - 1 else 0
      ensures old(pos) == 0 ==> table.rows == old(table.rows) && changed == old(changed)
    {
      ghost var d := State();
      if 0 < pos {
        if table.rows[pos].root {
          var p := pos - 1;
          while 0 <= p && 0 < table.rows[p].depth
            invariant -1 <= p < pos
            invariant State() == d
            invariant NearestShallower(d.rest, p + 1, 1) == NearestShallower(d.rest, pos, 1)
          {
            assert table.rows[p] == d.rest[p];
            p := p - 1;
          }
          if 0 <= p {
            assert table.rows[p] == d.rest[p];
            Swap(p);
          }
        } else {
          StepTo(pos - 1);
        }
      }
    }

    /** Where the group of the next row ends, counted without the dragged group. */
    method NextGroupEnd() returns (p: nat)
      requires Valid() && pos + len < |table.rows|
      ensures State().rest[pos] == table.rows[pos + len]
      ensures p == EndOf(State().rest, pos + 1, State().rest[pos].depth)
    {
      var end := FindChildren(table.rows, pos + len);
      StateIsTheTable();
      EndOfRest(State(), pos + 1, table.rows[pos + len].depth);
      p := end - len;
    }

    /** The down arrow. A root row passes the group of the next row. */
    method KeyDown()
      requires Valid()
      modifies this, table
      ensures Valid() && State() == TableMoves.KeyDown(old(State()), maxDepth)
      ensures !old(table.rows[pos].root) ==>
        pos == if old(pos) + old(len) < |old(table.rows)| then old(pos) + 1 else old(pos)
      ensures old(pos) + old(len) == |old(table.rows)| ==> table.rows == old(table.rows) && changed == old(changed)
    {
      if pos + len < |table.rows| {
        if table.rows[pos].root {
          var p := NextGroupEnd();
          Swap(p);
        } else {
          StepTo(pos + 1);
        }
      }
    }

    /** The swap and indent parts of `dragRow`, with the row under the mouse pointer given. */
    method DragRow(hit: Option<Hit>, diff: int) returns (applied: int)
      requires Valid()
      modifies this, table
      ensures Valid() && State() == PointerMove(old(State()), hit, diff, maxDepth)
    {
      if hit.Some? { TrySwap(hit.value); }
      applied := Indent(diff);
    }

    /** `isValidSwap`: the interval is stored even when the answer is no. */
    method IsValidSwap(h: Hit) returns (ok: bool)
      requires Valid() && h.row < |table.rows|
      modifies this`interval
      ensures Valid() && State() == old(State()).(interval := Some(SwapInterval(old(State()), h, maxDepth)))
      ensures ok <==> NonEmpty(interval.value)
    {
      var i := if h.direction == Downward then h.row else h.row - 1;
      var prev, next := RowAt(table.rows, i), RowAt(table.rows, i + 1);
      var iv := ValidInterval(prev, next, table.rows[pos].root, maxDepth, groupDepth - indents);
      StateIsTheTable();
      interval := Some(iv);
      ok := iv.min <= iv.max;
    }

    /** `findDropTargetRow` and the swap it permits. */
    method TrySwap(h: Hit)
      requires Valid()
      modifies this, table
      ensures Valid() && State() == HitRow(old(State()), h, maxDepth)
    {
      ghost var d := State();
      StateIsTheTable();
      if h.row < |table.rows| && !(pos <= h.row < pos + len) {
        var p := (if h.row < pos then h.row else h.row - len) + if h.direction == Downward then 1 else 0;
        assert p == Target(d, h);
        var ok := IsValidSwap(h);
        if ok { Swap(p); }
      }
    }

    /** `dropRow`: if anything has changed, write the parent field of the dropped
        row and the weights of its siblings. */
    method Drop()
      requires Valid()
      modifies table
      ensures table.rows == Dropped(old(State()))
      ensures !changed ==> table.rows == old(table.rows)
    {
      StateIsTheTable();
      if changed {
        var value := FindParentValue(table.rows, pos, len, indents);
        table.rows := table.rows[pos := table.rows[pos].(parent := value)];
        var siblings := FindSiblings(table.rows, pos, indents);
        var weight := table.rows[siblings[0]].weight;
        ghost var rows := table.rows;
        for k := 0 to |siblings|
          invariant |table.rows| == |rows|
          invariant AssignWeights(table.rows, siblings[k..], weight) ==
                    AssignWeights(rows, siblings, rows[siblings[0]].weight)
        {
          var m := siblings[k];
          table.rows := table.rows[m := table.rows[m].(weight := weight)];
          weight := weight + 1;
          assert siblings[k..][1..] == siblings[k + 1..];
        }
      }
    }
  }

  /** A block outside the group ends at the same row with and without the group in the table. */
  lemma EndOfRest(d: Drag, j: nat, depth: int)
    requires d.at <= j <= |d.rest|
    ensures EndOf(Rows(d), j + |d.group|, depth) == EndOf(d.rest, j, depth) + |d.group|
    decreases |d.rest| - j
  {
    if j < |d.rest| {
      assert Rows(d)[j + |d.group|] == d.rest[j];
      EndOfRest(d, j + 1, depth);
    }
  }
}
