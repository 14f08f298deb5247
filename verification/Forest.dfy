/** A draggable table read as a forest: rows in preorder, each with an
    indentation depth. The parent of a row is its nearest shallower
    predecessor, and the subtree of a row is the run of deeper rows after it. */
module Forest {

  /** The value of a row's hidden parent field: the top level, or a row id. */
  datatype ParentField = Top | Of(id: nat)

  datatype Row = Row(id: nat, depth: int, leaf: bool, root: bool, parent: ParentField, weight: int)

  /** The deepest indentation a row directly below `r` may take. */
  function ChildLimit(r: Row): int {
    r.depth + if r.leaf then 0 else 1
  }

  ghost predicate WellFormed(rows: seq<Row>) {
    && (rows != [] ==> rows[0].depth == 0)
    && (forall i :: 0 <= i < |rows| ==> RowOk(rows[i]))
    && (forall i :: 0 < i < |rows| ==> StepOk(rows, i))
  }

  /** Row `i` is no deeper than the row above it allows. */
  ghost predicate StepOk(rows: seq<Row>, i: nat)
    requires 0 < i < |rows|
  {
    rows[i].depth <= rows[i - 1].depth + if rows[i - 1].leaf then 0 else 1
  }

  ghost predicate RowOk(r: Row) {
    0 <= r.depth && (r.root ==> r.depth == 0)
  }

  /** The rows `pos .. pos + len` are a row and exactly its descendants. */
  ghost predicate IsSubtree(rows: seq<Row>, pos: nat, len: nat) {
    && 0 < len && pos + len <= |rows|
    && (forall k :: pos < k < pos + len ==> rows[pos].depth < rows[k].depth)
    && (pos + len < |rows| ==> rows[pos + len].depth <= rows[pos].depth)
  }

  /** The first index from `j` on whose row is not deeper than `d`. */
  function EndOf(rows: seq<Row>, j: nat, d: int): (r: nat)
    requires j <= |rows|
    ensures j <= r <= |rows|
    ensures forall k :: j <= k < r ==> d < rows[k].depth
    ensures r < |rows| ==> rows[r].depth <= d
    decreases |rows| - j
  {
    if j == |rows| || rows[j].depth <= d then j else EndOf(rows, j + 1, d)
  }

  /** The last index below `j` whose row is shallower than `d`, or -1. */
  function NearestShallower(rows: seq<Row>, j: nat, d: int): (r: int)
    requires j <= |rows|
    ensures -1 <= r < j
    ensures 0 <= r ==> rows[r].depth < d
    ensures forall k :: r < k < j ==> d <= rows[k].depth
  {
    if j == 0 then -1
    else if rows[j - 1].depth < d then j - 1
    else NearestShallower(rows, j - 1, d)
  }

  function ParentIndex(rows: seq<Row>, i: nat): (r: int)
    requires i < |rows|
  {
    NearestShallower(rows, i, rows[i].depth)
  }

  /** The parent of row `i`, as its parent field should name it. */
  function ParentName(rows: seq<Row>, i: nat): ParentField
    requires i < |rows|
  {
    var p := ParentIndex(rows, i);
    if p < 0 then Top else Of(rows[p].id)
  }

  ghost predicate UniqueIds(rows: seq<Row>) {
    forall i, j :: 0 <= i < |rows| && 0 <= j < |rows| && i != j ==> Apart(rows, i, j)
  }

  ghost predicate Apart(rows: seq<Row>, i: nat, j: nat)
    requires i < |rows| && j < |rows|
  {
    rows[i].id != rows[j].id
  }

  /** `p` is the only index with the properties of the nearest shallower row. */
  lemma NearestShallowerIs(rows: seq<Row>, j: nat, d: int, p: int)
    requires j <= |rows| && -1 <= p < j
    requires 0 <= p ==> rows[p].depth < d
    requires forall k :: p < k < j ==> d <= rows[k].depth
    ensures NearestShallower(rows, j, d) == p
  {
    var r := NearestShallower(rows, j, d);
    assert 0 <= r ==> rows[r].depth < d;
  }

  /** In a well-formed table a parent is exactly one level up, and only
      top-level rows have none. */
  lemma ParentOneLevelUp(rows: seq<Row>, i: nat)
    requires WellFormed(rows) && i < |rows|
    ensures ParentIndex(rows, i) < 0 <==> rows[i].depth == 0
    ensures 0 <= ParentIndex(rows, i) ==> rows[ParentIndex(rows, i)].depth == rows[i].depth - 1
  {
    var p := ParentIndex(rows, i);
    assert RowOk(rows[i]);
    if p < 0 {
      if 0 < i { assert rows[i].depth <= rows[0].depth; }
    } else {
      assert RowOk(rows[p]);
      assert StepOk(rows, p + 1);
      if p + 1 < i { assert rows[i].depth <= rows[p + 1].depth; }
    }
  }

  /** A row marked as a leaf has no children. */
  lemma LeavesHaveNoChildren(rows: seq<Row>, p: nat, i: nat)
    requires WellFormed(rows) && p < |rows| && i < |rows| && rows[p].leaf
    ensures ParentIndex(rows, i) != p
  {
    var q := ParentIndex(rows, i);
    if 0 <= q {
      ParentOneLevelUp(rows, i);
      assert StepOk(rows, q + 1);
      if q + 1 < i { assert rows[i].depth <= rows[q + 1].depth; }
      assert !rows[q].leaf;
    }
  }

  // ---------- taking a group out of a table and putting one in ----------

  /** The table with `g` standing in front of position `at` of `rest`. */
  function Place(rest: seq<Row>, at: nat, g: seq<Row>): seq<Row>
    requires at <= |rest|
  {
    rest[..at] + g + rest[at..]
  }

  /** The group with every row indented by `diff`. */
  function Shift(g: seq<Row>, diff: int): (r: seq<Row>)
    ensures |r| == |g|
    ensures forall k :: 0 <= k < |g| ==> r[k] == g[k].(depth := g[k].depth + diff)
  {
    seq(|g|, k requires 0 <= k < |g| => g[k].(depth := g[k].depth + diff))
  }

  /** A row followed by its descendants, taken by themselves. */
  ghost predicate IsGroup(g: seq<Row>) {
    && g != []
    && (forall k :: 0 < k < |g| ==> g[0].depth < g[k].depth && !g[k].root)
    && (forall i :: 0 < i < |g| ==> StepOk(g, i))
  }

  /** The interval of depths a row may take in front of position `at` of
      `rest`: the row below must not be captured, the row above bounds the depth. */
  function FitMin(rest: seq<Row>, at: nat): int
    requires at <= |rest|
  {
    if at < |rest| then rest[at].depth else 0
  }

  function FitMax(rest: seq<Row>, at: nat, root: bool): int
    requires at <= |rest|
  {
    if at == 0 || root then 0 else ChildLimit(rest[at - 1])
  }

  ghost predicate Fits(rest: seq<Row>, at: nat, head: Row) {
    at <= |rest| && FitMin(rest, at) <= head.depth <= FitMax(rest, at, head.root)
  }

  /** A group put into a well-formed table yields a well-formed table in which
      it is still exactly one subtree if and only if its depth is in the interval. */
  lemma PlacementIff(rest: seq<Row>, at: nat, g: seq<Row>)
    requires WellFormed(rest) && IsGroup(g) && at <= |rest|
    ensures WellFormed(Place(rest, at, g)) && IsSubtree(Place(rest, at, g), at, |g|) <==> Fits(rest, at, g[0])
  {
    var rows := Place(rest, at, g);
    if Fits(rest, at, g[0]) {
      PlacementIsWellFormed(rest, at, g);
    }
    if WellFormed(rows) && IsSubtree(rows, at, |g|) {
      assert rows[at] == g[0];
      assert RowOk(rows[at]);
      if at < |rest| { assert rows[at + |g|] == rest[at]; }
      if 0 < at {
        assert rows[at - 1] == rest[at - 1];
        assert StepOk(rows, at);
      }
    }
  }

  lemma PlacementIsWellFormed(rest: seq<Row>, at: nat, g: seq<Row>)
    requires WellFormed(rest) && IsGroup(g) && Fits(rest, at, g[0])
    ensures WellFormed(Place(rest, at, g)) && IsSubtree(Place(rest, at, g), at, |g|)
  {
    var rows := Place(rest, at, g);
    assert 0 <= g[0].depth by { if at < |rest| { assert RowOk(rest[at]); } }
    forall i | 0 <= i < |rows| ensures RowOk(rows[i]) {
      if i < at { assert rows[i] == rest[i]; }
      else if i < at + |g| { assert rows[i] == g[i - at]; }
      else { assert rows[i] == rest[i - |g|]; }
    }
    forall j | 0 < j < |rows| ensures StepOk(rows, j) {
      if j < at {
        assert StepOk(rest, j) && rows[j - 1] == rest[j - 1] && rows[j] == rest[j];
      } else if j == at {
        assert rows[j - 1] == rest[j - 1] && rows[j] == g[0];
      } else if j < at + |g| {
        assert StepOk(g, j - at) && rows[j - 1] == g[j - at - 1] && rows[j] == g[j - at];
      } else if j == at + |g| {
        assert rows[j - 1] == g[|g| - 1] && rows[j] == rest[at];
      } else {
        assert StepOk(rest, j - |g|) && rows[j - 1] == rest[j - |g| - 1] && rows[j] == rest[j - |g|];
      }
    }
  }

  lemma SubtreeIsGroup(rows: seq<Row>, pos: nat, len: nat)
    requires WellFormed(rows) && IsSubtree(rows, pos, len)
    ensures IsGroup(rows[pos..pos + len])
  {
    var g := rows[pos..pos + len];
    assert RowOk(rows[pos]);
    forall k | 0 < k < |g| ensures g[0].depth < g[k].depth && !g[k].root {
      assert g[k] == rows[pos + k] && RowOk(rows[pos + k]);
    }
    forall i | 0 < i < |g| ensures StepOk(g, i) {
      assert StepOk(rows, pos + i) && g[i - 1] == rows[pos + i - 1] && g[i] == rows[pos + i];
    }
  }

  lemma RestIsWellFormed(rows: seq<Row>, pos: nat, len: nat)
    requires WellFormed(rows) && IsSubtree(rows, pos, len)
    ensures WellFormed(rows[..pos] + rows[pos + len..])
  {
    var rest := rows[..pos] + rows[pos + len..];
    assert RowOk(rows[pos]);
    forall i | 0 <= i < |rest| ensures RowOk(rest[i]) {
      assert rest[i] == if i < pos then rows[i] else rows[i + len];
    }
    if 0 < pos { assert StepOk(rows, pos); }
    forall j | 0 < j < |rest| ensures StepOk(rest, j) {
      if j < pos { assert StepOk(rows, j) && rest[j - 1] == rows[j - 1] && rest[j] == rows[j]; }
      else if j == pos { assert rest[j - 1] == rows[pos - 1] && rest[j] == rows[pos + len]; }
      else { assert StepOk(rows, j + len) && rest[j - 1] == rows[j + len - 1] && rest[j] == rows[j + len]; }
    }
  }

  /** Taking a whole subtree out of a well-formed table leaves a well-formed
      table, into which the subtree fits where it was. */
  lemma SubtreeComesOut(rows: seq<Row>, pos: nat, len: nat)
    requires WellFormed(rows) && IsSubtree(rows, pos, len)
    ensures var rest, g := rows[..pos] + rows[pos + len..], rows[pos..pos + len];
      WellFormed(rest) && IsGroup(g) && Fits(rest, pos, g[0]) && rows == Place(rest, pos, g)
  {
    SubtreeIsGroup(rows, pos, len);
    RestIsWellFormed(rows, pos, len);
    FitsWhereItWas(rows, pos, len);
  }

  lemma FitsWhereItWas(rows: seq<Row>, pos: nat, len: nat)
    requires WellFormed(rows) && IsSubtree(rows, pos, len)
    ensures var rest, g := rows[..pos] + rows[pos + len..], rows[pos..pos + len];
      Fits(rest, pos, g[0]) && rows == Place(rest, pos, g)
  {
    assert RowOk(rows[pos]);
    if 0 < pos { assert StepOk(rows, pos); }
  }

  // ---------- nobody else's parent changes ----------

  /** Where row `k` of `rest` stands once `n` rows are put in front of `at`. */
  function Beside(at: nat, n: nat, k: nat): nat {
    if k < at then k else k + n
  }

  lemma ParentOutside(rest: seq<Row>, at: nat, g: seq<Row>, k: nat)
    requires WellFormed(rest) && IsGroup(g) && Fits(rest, at, g[0]) && k < |rest|
    ensures ParentName(Place(rest, at, g), Beside(at, |g|, k)) == ParentName(rest, k)
  {
    var rows, n, d, p := Place(rest, at, g), |g|, rest[k].depth, ParentIndex(rest, k);
    var i := Beside(at, n, k);
    var q := if p < 0 then p else Beside(at, n, p);
    assert rows[i] == rest[k];
    if 0 <= p { assert rows[q] == rest[p]; }
    forall m | q < m < i ensures d <= rows[m].depth {
      if m < at { assert rows[m] == rest[m]; }
      else if m < at + n {
        assert rows[m] == g[m - at];
        assert d <= rest[at].depth;
      } else { assert rows[m] == rest[m - n]; }
    }
    NearestShallowerIs(rows, i, d, q);
  }

  lemma ParentInside(rest: seq<Row>, at: nat, g: seq<Row>, k: nat)
    requires at <= |rest| && IsGroup(g) && 0 < k < |g|
    ensures 0 <= ParentIndex(g, k)
    ensures ParentName(Place(rest, at, g), at + k) == ParentName(g, k)
  {
    var rows, p := Place(rest, at, g), ParentIndex(g, k);
    assert rows[at + k] == g[k];
    assert 0 <= p;
    assert rows[at + p] == g[p];
    forall m | at + p < m < at + k ensures g[k].depth <= rows[m].depth {
      assert rows[m] == g[m - at];
    }
    NearestShallowerIs(rows, at + k, g[k].depth, at + p);
  }

  lemma ShiftKeepsParents(g: seq<Row>, diff: int, k: nat)
    requires k < |g|
    ensures ParentName(Shift(g, diff), k) == ParentName(g, k)
  {
    NearestShallowerIs(Shift(g, diff), k, g[k].depth + diff, ParentIndex(g, k));
  }

  lemma ShiftIsGroup(g: seq<Row>, diff: int)
    requires IsGroup(g)
    ensures IsGroup(Shift(g, diff))
  {
    var s := Shift(g, diff);
    forall i | 0 < i < |s| ensures StepOk(s, i) {
      assert StepOk(g, i);
    }
  }

  /** What a subtree move must leave alone. Row `moved` is the dragged row and
      `others` are the rows outside its group. */
  ghost predicate Framed(before: seq<Row>, after: seq<Row>, moved: nat, others: set<nat>) {
    && multiset(Ids(after)) == multiset(Ids(before))
    && (forall i, j :: 0 <= i < |before| && 0 <= j < |after| ==> RowFramed(before, i, after, j, moved, others))
  }

  ghost predicate RowFramed(before: seq<Row>, i: nat, after: seq<Row>, j: nat, moved: nat, others: set<nat>)
    requires i < |before| && j < |after|
  {
    before[i].id == after[j].id ==>
      && after[j] == before[i].(depth := after[j].depth)
      && (before[i].id in others ==> after[j].depth == before[i].depth)
      && (before[i].id != moved ==> ParentName(after, j) == ParentName(before, i))
  }

  function Ids(rows: seq<Row>): (r: seq<nat>)
    ensures |r| == |rows|
    ensures forall i :: 0 <= i < |rows| ==> r[i] == rows[i].id
  {
    seq(|rows|, i requires 0 <= i < |rows| => rows[i].id)
  }

  function IdSet(rows: seq<Row>): set<nat> {
    set i | 0 <= i < |rows| :: rows[i].id
  }

  lemma IdsOfPlace(rest: seq<Row>, at: nat, g: seq<Row>)
    requires at <= |rest|
    ensures multiset(Ids(Place(rest, at, g))) == multiset(Ids(rest)) + multiset(Ids(g))
  {
    assert Ids(Place(rest, at, g)) == Ids(rest)[..at] + Ids(g) + Ids(rest)[at..];
    assert Ids(rest) == Ids(rest)[..at] + Ids(rest)[at..];
  }

  lemma UniqueById(rows: seq<Row>, i: nat, j: nat)
    requires UniqueIds(rows) && i < |rows| && j < |rows| && rows[i].id == rows[j].id
    ensures i == j
  {
    assert i == j || Apart(rows, i, j);
  }

  /** Where each row of a placed table comes from. */
  lemma Origin(rest: seq<Row>, at: nat, g: seq<Row>, i: nat) returns (inGroup: bool, k: nat)
    requires at <= |rest| && i < |rest| + |g|
    ensures inGroup ==> k < |g| && i == at + k && Place(rest, at, g)[i] == g[k]
    ensures !inGroup ==> k < |rest| && i == Beside(at, |g|, k) && Place(rest, at, g)[i] == rest[k]
  {
    if i < at { return false, i; }
    if i < at + |g| { return true, i - at; }
    return false, i - |g|;
  }

  /** Uniqueness of ids does not depend on where the group stands or its depth. */
  lemma UniqueAnywhere(rest: seq<Row>, at: nat, g: seq<Row>, at': nat, diff: int)
    requires at <= |rest| && at' <= |rest| && UniqueIds(Place(rest, at, g))
    ensures UniqueIds(Place(rest, at', Shift(g, diff)))
  {
    var rows, rows' := Place(rest, at, g), Place(rest, at', Shift(g, diff));
    forall i, j | 0 <= i < |rows'| && 0 <= j < |rows'| && i != j ensures Apart(rows', i, j) {
      CameFrom(rest, at, g, at', diff, i);
      CameFrom(rest, at, g, at', diff, j);
      assert Apart(rows, Former(at, at', |g|, i), Former(at, at', |g|, j));
    }
  }

  /** Where the row now at `i` stood when the group of `n` rows stood at `at`. */
  function Former(at: nat, at': nat, n: nat, i: nat): nat {
    if at' <= i < at' + n then at + (i - at') else Beside(at, n, if i < at' then i else i - n)
  }

  lemma CameFrom(rest: seq<Row>, at: nat, g: seq<Row>, at': nat, diff: int, i: nat)
    requires at <= |rest| && at' <= |rest| && i < |rest| + |g|
    ensures Former(at, at', |g|, i) < |rest| + |g|
    ensures Place(rest, at, g)[Former(at, at', |g|, i)].id == Place(rest, at', Shift(g, diff))[i].id
  {
  }

  /** The frame theorem for a row outside the group. */
  lemma FrameOutside(rest: seq<Row>, at: nat, g: seq<Row>, at': nat, h: seq<Row>, i: nat, k: nat)
    requires WellFormed(rest) && IsGroup(g) && Fits(rest, at, g[0]) && UniqueIds(Place(rest, at, g))
    requires IsGroup(h) && Fits(rest, at', h[0]) && |h| == |g|
    requires i < |rest| + |g| && k < |rest|
    ensures RowFramed(Place(rest, at, g), i, Place(rest, at', h), Beside(at', |g|, k), g[0].id, IdSet(rest))
  {
    var before, after, j := Place(rest, at, g), Place(rest, at', h), Beside(at', |g|, k);
    assert after[j] == rest[k] && before[Beside(at, |g|, k)] == rest[k];
    if before[i].id == rest[k].id {
      UniqueById(before, i, Beside(at, |g|, k));
      ParentOutside(rest, at, g, k);
      ParentOutside(rest, at', h, k);
    }
  }

  /** The frame theorem for a row of the group. */
  lemma FrameInside(rest: seq<Row>, at: nat, g: seq<Row>, at': nat, diff: int, i: nat, k: nat)
    requires at <= |rest| && at' <= |rest| && IsGroup(g) && UniqueIds(Place(rest, at, g))
    requires i < |rest| + |g| && k < |g|
    ensures RowFramed(Place(rest, at, g), i, Place(rest, at', Shift(g, diff)), at' + k, g[0].id, IdSet(rest))
  {
    var h := Shift(g, diff);
    var before, after := Place(rest, at, g), Place(rest, at', h);
    assert after[at' + k] == h[k] && before[at + k] == g[k];
    if before[i].id == g[k].id {
      UniqueById(before, i, at + k);
      GroupIdIsNotOutside(rest, at, g, k);
      if 0 < k {
        ShiftIsGroup(g, diff);
        ParentInside(rest, at, g, k);
        ParentInside(rest, at', h, k);
        ShiftKeepsParents(g, diff, k);
      }
    }
  }

  lemma GroupIdIsNotOutside(rest: seq<Row>, at: nat, g: seq<Row>, k: nat)
    requires at <= |rest| && k < |g| && UniqueIds(Place(rest, at, g))
    ensures g[k].id !in IdSet(rest)
  {
    var rows := Place(rest, at, g);
    assert rows[at + k] == g[k];
    forall m | 0 <= m < |rest| ensures rest[m].id != g[k].id {
      var i := Beside(at, |g|, m);
      assert rows[i] == rest[m];
      assert Apart(rows, i, at + k);
    }
  }

  /** The frame theorem for every row. */
  lemma FrameOfRows(rest: seq<Row>, at: nat, g: seq<Row>, at': nat, diff: int, i: nat, j: nat)
    requires WellFormed(rest) && IsGroup(g) && Fits(rest, at, g[0]) && UniqueIds(Place(rest, at, g))
    requires Fits(rest, at', Shift(g, diff)[0])
    requires i < |rest| + |g| && j < |rest| + |g|
    ensures RowFramed(Place(rest, at, g), i, Place(rest, at', Shift(g, diff)), j, g[0].id, IdSet(rest))
  {
    var inGroup, k := Origin(rest, at', Shift(g, diff), j);
    if inGroup {
      FrameInside(rest, at, g, at', diff, i, k);
    } else {
      ShiftIsGroup(g, diff);
      FrameOutside(rest, at, g, at', Shift(g, diff), i, k);
    }
  }

  lemma MovedIds(rest: seq<Row>, at: nat, g: seq<Row>, at': nat, diff: int)
    requires at <= |rest| && at' <= |rest|
    ensures multiset(Ids(Place(rest, at', Shift(g, diff)))) == multiset(Ids(Place(rest, at, g)))
  {
    IdsOfPlace(rest, at, g);
    IdsOfPlace(rest, at', Shift(g, diff));
    assert Ids(Shift(g, diff)) == Ids(g);
  }

  /** The frame theorem: wherever a subtree is legally put and however it is
      indented there, the table stays well-formed and a permutation, the group
      stays one subtree, and only the dragged row itself gets a new parent. */
  lemma FrameTheorem(rest: seq<Row>, at: nat, g: seq<Row>, at': nat, diff: int)
    requires WellFormed(rest) && IsGroup(g) && Fits(rest, at, g[0]) && UniqueIds(Place(rest, at, g))
    requires Fits(rest, at', Shift(g, diff)[0])
    ensures WellFormed(Place(rest, at', Shift(g, diff)))
    ensures IsSubtree(Place(rest, at', Shift(g, diff)), at', |g|)
    ensures Framed(Place(rest, at, g), Place(rest, at', Shift(g, diff)), g[0].id, IdSet(rest))
  {
    var h := Shift(g, diff);
    assert WellFormed(Place(rest, at', h)) && IsSubtree(Place(rest, at', h), at', |g|) by {
      ShiftIsGroup(g, diff);
      PlacementIsWellFormed(rest, at', h);
    }
    MovedIds(rest, at, g, at', diff);
    var before, after := Place(rest, at, g), Place(rest, at', h);
    forall i, j | 0 <= i < |before| && 0 <= j < |after|
      ensures RowFramed(before, i, after, j, g[0].id, IdSet(rest))
    {
      FrameOfRows(rest, at, g, at', diff, i, j);
    }
  }
}
