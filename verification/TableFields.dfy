/** What a drop writes back: the dropped row's parent field, and the weights
    of its siblings. */
module TableFields {
  import opened Forest
  import opened TableMoves

  // ---------- findSiblings ----------

  /** The upward half of the walk: rows at depth `d` until a shallower row. */
  function SiblingsAbove(rows: seq<Row>, j: nat, d: int): (r: seq<nat>)
    requires j <= |rows|
    ensures forall m :: m in r <==> NearestShallower(rows, j, d) < m < j && rows[m].depth == d
    ensures Increasing(r)
  {
    if j == 0 || rows[j - 1].depth < d then []
    else if rows[j - 1].depth == d then
      var r := SiblingsAbove(rows, j - 1, d);
      assert forall a :: 0 <= a < |r| ==> r[a] in r;
      r + [j - 1]
    else SiblingsAbove(rows, j - 1, d)
  }

  /** The downward half. */
  function SiblingsBelow(rows: seq<Row>, j: nat, d: int): (r: seq<nat>)
    requires j <= |rows|
    ensures forall m :: m in r <==> j <= m < EndOf(rows, j, d - 1) && rows[m].depth == d
    ensures Increasing(r)
    decreases |rows| - j
  {
    if j == |rows| || rows[j].depth < d then []
    else if rows[j].depth == d then
      var r := SiblingsBelow(rows, j + 1, d);
      assert forall a :: 0 <= a < |r| ==> r[a] in r;
      [j] + r
    else SiblingsBelow(rows, j + 1, d)
  }

  function Siblings(rows: seq<Row>, pos: nat, indents: int): (r: seq<nat>)
    requires pos < |rows|
    ensures r != []
    ensures InBounds(r, |rows|)
  {
    var a, b := SiblingsAbove(rows, pos, indents), SiblingsBelow(rows, pos + 1, indents);
    assert forall m :: 0 <= m < |a| ==> a[m] in a;
    assert forall m :: 0 <= m < |b| ==> b[m] in b;
    a + [pos] + b
  }

  ghost predicate InBounds(s: seq<nat>, n: nat) {
    forall a :: 0 <= a < |s| ==> s[a] < n
  }

  ghost predicate Increasing(s: seq<nat>) {
    forall a, b :: 0 <= a < b < |s| ==> s[a] < s[b]
  }

  lemma SiblingsIncrease(rows: seq<Row>, pos: nat)
    requires pos < |rows|
    ensures Increasing(Siblings(rows, pos, rows[pos].depth))
  {
    var d := rows[pos].depth;
    var a, b := SiblingsAbove(rows, pos, d), SiblingsBelow(rows, pos + 1, d);
    assert forall m :: 0 <= m < |a| ==> a[m] in a;
    assert forall m :: 0 <= m < |b| ==> b[m] in b;
  }

  /** Which rows the walk collects: those at the same depth, from the nearest
      shallower row above to the next shallower row below. */
  lemma {:induction false} SiblingsRange(rows: seq<Row>, pos: nat, m: nat)
    requires pos < |rows| && m < |rows|
    ensures m in Siblings(rows, pos, rows[pos].depth) <==>
      rows[m].depth == rows[pos].depth
      && ParentIndex(rows, pos) < m < EndOf(rows, pos + 1, rows[pos].depth - 1)
  {
    var d := rows[pos].depth;
    var a, b := SiblingsAbove(rows, pos, d), SiblingsBelow(rows, pos + 1, d);
    assert m in a + [pos] + b <==> m in a || m == pos || m in b;
  }

  /** The walk finds exactly the rows with the same parent, in table order. */
  lemma SiblingsShareTheParent(rows: seq<Row>, pos: nat, m: nat)
    requires WellFormed(rows) && pos < |rows| && m < |rows|
    ensures m in Siblings(rows, pos, rows[pos].depth) <==> ParentIndex(rows, m) == ParentIndex(rows, pos)
  {
    var d, p, e := rows[pos].depth, ParentIndex(rows, pos), EndOf(rows, pos + 1, rows[pos].depth - 1);
    SiblingsRange(rows, pos, m);
    if rows[m].depth == d && p < m < e {
      NearestShallowerIs(rows, m, d, p);
    }
    if ParentIndex(rows, m) == p {
      ParentOneLevelUp(rows, pos);
      ParentOneLevelUp(rows, m);
      assert rows[m].depth == d;
      assert m < e;
    }
  }

  // ---------- updateField ----------

  /** The `parent` relationship: the nearest shallower row above, or else what
      the first top-level row outside the group says. */
  function ParentSource(rows: seq<Row>, pos: nat, len: nat, indents: int): ParentField
    requires pos < |rows|
  {
    var p := NearestShallower(rows, pos, indents);
    if 0 <= p then Of(rows[p].id)
    else if pos == 0 && len < |rows| then rows[len].parent
    else rows[0].parent
  }

  /** The `order` action: consecutive weights from the first sibling's own. */
  function AssignWeights(rows: seq<Row>, s: seq<nat>, w: int): (r: seq<Row>)
    requires InBounds(s, |rows|)
    ensures |r| == |rows| && forall i :: 0 <= i < |r| ==> r[i] == rows[i].(weight := r[i].weight)
    decreases |s|
  {
    if s == [] then rows
    else AssignWeights(rows[s[0] := rows[s[0]].(weight := w)], s[1..], w + 1)
  }

  lemma {:induction false} WeightsAssigned(rows: seq<Row>, s: seq<nat>, w: int, i: nat)
    requires Increasing(s) && InBounds(s, |rows|) && i < |rows|
    ensures i !in s ==> AssignWeights(rows, s, w)[i] == rows[i]
    ensures forall m :: 0 <= m < |s| && s[m] == i ==> AssignWeights(rows, s, w)[i] == rows[i].(weight := w + m)
    decreases |s|
  {
    if s != [] {
      var rows' := rows[s[0] := rows[s[0]].(weight := w)];
      WeightsAssigned(rows', s[1..], w + 1, i);
      if i in s[1..] { assert i != s[0]; }
      forall m | 0 <= m < |s| && s[m] == i
        ensures AssignWeights(rows, s, w)[i] == rows[i].(weight := w + m)
      {
        if 0 < m { assert s[1..][m - 1] == i; } else { assert i !in s[1..]; }
      }
    }
  }

  /** `dropRow` for a row object that has changed. */
  function DropRow(rows: seq<Row>, pos: nat, len: nat, indents: int): (r: seq<Row>)
    requires pos < |rows|
    ensures SameShape(r, rows)
  {
    var t := rows[pos := rows[pos].(parent := ParentSource(rows, pos, len, indents))];
    var s := Siblings(t, pos, indents);
    AssignWeights(t, s, t[s[0]].weight)
  }

  // ---------- the fields of a whole table ----------

  ghost predicate FieldsOk(rows: seq<Row>, from: nat) {
    forall i :: from <= i < |rows| ==> FieldOk(rows, i)
  }

  ghost predicate FieldOk(rows: seq<Row>, i: nat)
    requires i < |rows|
  {
    rows[i].parent == ParentName(rows, i)
  }

  /** Weights do not decrease along any list of siblings, and strictly increase along the
      lists in `strict`, which are named by their parent. */
  ghost predicate WeightsOk(rows: seq<Row>, from: nat, strict: iset<ParentField>) {
    forall i, j :: from <= i < j < |rows| ==> OrderOk(rows, i, j, strict)
  }

  ghost predicate OrderOk(rows: seq<Row>, i: nat, j: nat, strict: iset<ParentField>)
    requires i < |rows| && j < |rows|
  {
    ParentName(rows, i) == ParentName(rows, j) ==>
      && rows[i].weight <= rows[j].weight
      && (ParentName(rows, i) in strict ==> rows[i].weight < rows[j].weight)
  }

  ghost predicate IsList(p: ParentField) { true }

  ghost const EVERY_LIST := iset p: ParentField | IsList(p)

  /** Every parent field but the dragged row's names the row's tree parent. */
  ghost predicate FieldsBut(d: Drag) {
    UniqueIds(Rows(d)) && FieldsOk(d.rest, 0) && FieldsOk(d.group, 1)
  }

  /** The weights are in order, leaving the dragged row out. */
  ghost predicate WeightsBut(d: Drag, strict: iset<ParentField>) {
    UniqueIds(Rows(d)) && WeightsOk(d.rest, 0, strict) && WeightsOk(d.group, 1, strict)
  }

  ghost predicate Legal(d: Drag) {
    WellFormed(d.rest) && IsGroup(d.group) && Fits(d.rest, d.at, d.group[0])
  }

  lemma GrabIsLegal(rows: seq<Row>, i: nat)
    requires WellFormed(rows) && i < |rows|
    ensures Legal(GrabRow(rows, i))
  {
    var end := EndOf(rows, i + 1, rows[i].depth);
    SubtreeComesOut(rows, i, end - i);
  }

  lemma RowOutside(d: Drag, k: nat)
    requires Legal(d) && k < |d.rest|
    ensures Beside(d.at, |d.group|, k) < |Rows(d)| && Rows(d)[Beside(d.at, |d.group|, k)] == d.rest[k]
    ensures ParentName(Rows(d), Beside(d.at, |d.group|, k)) == ParentName(d.rest, k)
  {
    ParentOutside(d.rest, d.at, d.group, k);
  }

  lemma GroupRow(d: Drag, k: nat)
    requires IsGroup(d.group) && 0 < k < |d.group|
    ensures Rows(d)[d.at + k] == d.group[k] && ParentName(Rows(d), d.at + k) == ParentName(d.group, k)
  {
    ParentInside(d.rest, d.at, d.group, k);
  }

  lemma FieldsOutside(d: Drag)
    requires Legal(d) && FieldsOk(Rows(d), 0)
    ensures FieldsOk(d.rest, 0)
  {
    forall k | 0 <= k < |d.rest| ensures FieldOk(d.rest, k) {
      RowOutside(d, k);
      assert FieldOk(Rows(d), Beside(d.at, |d.group|, k));
    }
  }

  lemma FieldsInside(d: Drag)
    requires IsGroup(d.group) && FieldsOk(Rows(d), 0)
    ensures FieldsOk(d.group, 1)
  {
    forall k | 1 <= k < |d.group| ensures FieldOk(d.group, k) {
      assert FieldOk(Rows(d), d.at + k);
      GroupRow(d, k);
    }
  }

  lemma GrabKeepsFields(rows: seq<Row>, i: nat)
    requires WellFormed(rows) && UniqueIds(rows) && FieldsOk(rows, 0) && i < |rows|
    ensures FieldsBut(GrabRow(rows, i))
  {
    GrabTakesApart(rows, i);
    GrabIsLegal(rows, i);
    FieldsOutside(GrabRow(rows, i));
    FieldsInside(GrabRow(rows, i));
  }

  lemma WeightsOutside(d: Drag, strict: iset<ParentField>)
    requires Legal(d) && WeightsOk(Rows(d), 0, strict)
    ensures WeightsOk(d.rest, 0, strict)
  {
    forall a, b | 0 <= a < b < |d.rest| ensures OrderOk(d.rest, a, b, strict) {
      assert OrderOk(Rows(d), Beside(d.at, |d.group|, a), Beside(d.at, |d.group|, b), strict);
      OrderOutside(d, a, b, strict);
    }
  }

  lemma WeightsInside(d: Drag, strict: iset<ParentField>)
    requires IsGroup(d.group) && WeightsOk(Rows(d), 0, strict)
    ensures WeightsOk(d.group, 1, strict)
  {
    forall a, b | 1 <= a < b < |d.group| ensures OrderOk(d.group, a, b, strict) {
      assert OrderOk(Rows(d), d.at + a, d.at + b, strict);
      SameOrder(d, a, b, strict);
    }
  }

  lemma GrabKeepsWeights(rows: seq<Row>, i: nat, strict: iset<ParentField>)
    requires WellFormed(rows) && UniqueIds(rows) && WeightsOk(rows, 0, strict) && i < |rows|
    ensures WeightsBut(GrabRow(rows, i), strict)
  {
    GrabTakesApart(rows, i);
    GrabIsLegal(rows, i);
    WeightsOutside(GrabRow(rows, i), strict);
    WeightsInside(GrabRow(rows, i), strict);
  }

  // ---------- a drop repairs the dragged row ----------

  lemma OthersKeepTheirField(d: Drag, i: nat)
    requires Legal(d) && FieldsBut(d) && i < |Rows(d)| && i != d.at
    ensures FieldOk(Rows(d), i)
  {
    var inGroup, k := Origin(d.rest, d.at, d.group, i);
    if inGroup {
      assert FieldOk(d.group, k);
      ParentInside(d.rest, d.at, d.group, k);
    } else {
      assert FieldOk(d.rest, k);
      ParentOutside(d.rest, d.at, d.group, k);
    }
  }

  /** The row of the rest that stands at `i`, with the same parent there. */
  lemma RestRow(d: Drag, i: nat) returns (k: nat)
    requires Legal(d) && i < |Rows(d)| && !OwnRow(d, i)
    ensures k == if i < d.at then i else i - |d.group|
    ensures Rows(d)[i] == d.rest[k] && ParentName(Rows(d), i) == ParentName(d.rest, k)
  {
    k := if i < d.at then i else i - |d.group|;
    ParentOutside(d.rest, d.at, d.group, k);
  }

  /** A row of the group and a row outside never have the same parent. */
  lemma GroupAndRestDiffer(d: Drag, i: nat, j: nat)
    requires Legal(d) && UniqueIds(Rows(d)) && i < |Rows(d)| && j < |Rows(d)|
    requires OwnRow(d, i) && i != d.at && !OwnRow(d, j)
    ensures ParentName(Rows(d), i) != ParentName(Rows(d), j)
  {
    var k := i - d.at;
    GroupRow(d, k);
    ParentInside(d.rest, d.at, d.group, k);
    var m := RestRow(d, j);
    var p, q := ParentIndex(d.group, k), ParentIndex(d.rest, m);
    GroupIdIsNotOutside(d.rest, d.at, d.group, p);
    if 0 <= q { assert d.rest[q].id in IdSet(d.rest); }
  }

  /** Two rows are in order wherever they have the same parents and weights. */
  lemma OrderCarriesOver(a: seq<Row>, i: nat, j: nat, b: seq<Row>, k: nat, m: nat, strict: iset<ParentField>)
    requires i < |a| && j < |a| && k < |b| && m < |b| && OrderOk(a, i, j, strict)
    requires ParentName(a, i) == ParentName(b, k) && ParentName(a, j) == ParentName(b, m)
    requires a[i].weight == b[k].weight && a[j].weight == b[m].weight
    ensures OrderOk(b, k, m, strict)
  {
  }

  lemma SameOrder(d: Drag, k: nat, m: nat, strict: iset<ParentField>)
    requires IsGroup(d.group) && 0 < k < |d.group| && 0 < m < |d.group|
    ensures OrderOk(Rows(d), d.at + k, d.at + m, strict) <==> OrderOk(d.group, k, m, strict)
  {
    GroupRow(d, k);
    GroupRow(d, m);
  }

  lemma OrderInside(d: Drag, k: nat, m: nat, strict: iset<ParentField>)
    requires IsGroup(d.group) && 0 < k < |d.group| && 0 < m < |d.group| && OrderOk(d.group, k, m, strict)
    ensures OrderOk(Rows(d), d.at + k, d.at + m, strict)
  {
    SameOrder(d, k, m, strict);
  }

  lemma OrderOutside(d: Drag, a: nat, b: nat, strict: iset<ParentField>)
    requires Legal(d) && a < |d.rest| && b < |d.rest|
    requires var i, j := Beside(d.at, |d.group|, a), Beside(d.at, |d.group|, b);
      i < |Rows(d)| && j < |Rows(d)| && OrderOk(Rows(d), i, j, strict)
    ensures OrderOk(d.rest, a, b, strict)
  {
    RowOutside(d, a);
    RowOutside(d, b);
  }

  lemma GroupKeepsItsOrder(d: Drag, i: nat, j: nat, strict: iset<ParentField>)
    requires IsGroup(d.group) && WeightsOk(d.group, 1, strict)
    requires OwnRow(d, i) && OwnRow(d, j) && d.at < i < j < |Rows(d)|
    ensures OrderOk(Rows(d), i, j, strict)
  {
    var a: nat, b: nat := i - d.at, j - d.at;
    OrderedPair(d.group, 1, a, b, strict);
    OrderInside(d, a, b, strict);
  }

  lemma OrderedPair(rows: seq<Row>, from: nat, i: nat, j: nat, strict: iset<ParentField>)
    requires WeightsOk(rows, from, strict) && from <= i < j < |rows|
    ensures OrderOk(rows, i, j, strict)
  {
  }

  lemma RestKeepsItsOrder(d: Drag, i: nat, j: nat, strict: iset<ParentField>)
    requires Legal(d) && WeightsOk(d.rest, 0, strict)
    requires !OwnRow(d, i) && !OwnRow(d, j) && i < j < |Rows(d)|
    ensures OrderOk(Rows(d), i, j, strict)
  {
    var k := RestRow(d, i);
    var m := RestRow(d, j);
    assert OrderOk(d.rest, k, m, strict);
    OrderCarriesOver(d.rest, k, m, Rows(d), i, j, strict);
  }

  lemma OthersKeepTheirOrder(d: Drag, i: nat, j: nat, strict: iset<ParentField>)
    requires Legal(d) && WeightsBut(d, strict) && i < j < |Rows(d)| && i != d.at && j != d.at
    ensures OrderOk(Rows(d), i, j, strict)
  {
    if OwnRow(d, i) && OwnRow(d, j) {
      GroupKeepsItsOrder(d, i, j, strict);
    } else if OwnRow(d, i) {
      GroupAndRestDiffer(d, i, j);
    } else if OwnRow(d, j) {
      GroupAndRestDiffer(d, j, i);
    } else {
      RestKeepsItsOrder(d, i, j, strict);
    }
  }

  /** Copying from another top-level row is right: its field says `Top`. */
  lemma ParentSourceIsTheParent(d: Drag)
    requires Legal(d) && FieldsBut(d) && d.rest != []
    ensures ParentSource(Rows(d), d.at, |d.group|, d.group[0].depth) == ParentName(Rows(d), d.at)
  {
    assert Rows(d)[d.at] == d.group[0];
    assert FieldOk(d.rest, 0);
    assert d.rest[0].parent == Top;
    if d.at == 0 {
      assert Rows(d)[|d.group|] == d.rest[0];
    } else {
      assert Rows(d)[0] == d.rest[0];
    }
  }

  /** Two tables with the same ids and depths, row by row. */
  ghost predicate SameShape(a: seq<Row>, b: seq<Row>) {
    && |a| == |b|
    && forall i {:trigger a[i]} {:trigger b[i]} :: 0 <= i < |a| ==>
         a[i] == b[i].(parent := a[i].parent, weight := a[i].weight)
  }

  lemma SameShapeSameTree(a: seq<Row>, b: seq<Row>)
    requires SameShape(a, b) && WellFormed(b)
    ensures WellFormed(a)
    ensures forall i :: 0 <= i < |a| ==> ParentName(a, i) == ParentName(b, i)
  {
    forall i | 0 < i < |a| ensures StepOk(a, i) { assert StepOk(b, i); }
    forall i | 0 <= i < |a| ensures RowOk(a[i]) { assert RowOk(b[i]); }
    forall i | 0 <= i < |a| ensures ParentName(a, i) == ParentName(b, i) {
      NearestShallowerIs(a, i, a[i].depth, ParentIndex(b, i));
    }
  }

  lemma SameShapeSameIds(a: seq<Row>, b: seq<Row>)
    requires SameShape(a, b) && UniqueIds(b)
    ensures UniqueIds(a)
  {
    forall i, j | 0 <= i < |a| && 0 <= j < |a| && i != j ensures Apart(a, i, j) { assert Apart(b, i, j); }
  }

  /** The exact effect of a drop on each row. */
  lemma DroppedRow(rows: seq<Row>, pos: nat, len: nat, i: nat)
    requires pos < |rows| && i < |rows| && WellFormed(rows)
    ensures var r := DropRow(rows, pos, len, rows[pos].depth);
      && (i != pos ==> r[i].parent == rows[i].parent)
      && (i == pos ==> r[i].parent == ParentSource(rows, pos, len, rows[pos].depth))
      && r[i] == rows[i].(parent := r[i].parent, weight := r[i].weight)
      && (ParentIndex(rows, i) != ParentIndex(rows, pos) ==> r[i].weight == rows[i].weight)
  {
    var d := rows[pos].depth;
    var t := rows[pos := rows[pos].(parent := ParentSource(rows, pos, len, d))];
    var s := Siblings(t, pos, d);
    ShapeOfUpdate(rows, pos, t[pos]);
    SiblingsIncrease(t, pos);
    WeightsAssigned(t, s, t[s[0]].weight, i);
    SiblingsShareTheParent(t, pos, i);
    if i in s { var m :| 0 <= m < |s| && s[m] == i; }
  }

  lemma ShapeOfUpdate(rows: seq<Row>, pos: nat, r: Row)
    requires WellFormed(rows) && pos < |rows|
    requires r == rows[pos].(parent := r.parent, weight := r.weight)
    ensures WellFormed(rows[pos := r])
    ensures forall i :: 0 <= i < |rows| ==> ParentIndex(rows[pos := r], i) == ParentIndex(rows, i)
  {
    var t := rows[pos := r];
    forall i | 0 < i < |t| ensures StepOk(t, i) { assert StepOk(rows, i); }
    forall i | 0 <= i < |t| ensures RowOk(t[i]) { assert RowOk(rows[i]); }
    forall i | 0 <= i < |rows| ensures ParentIndex(t, i) == ParentIndex(rows, i) {
      NearestShallowerIs(t, i, t[i].depth, ParentIndex(rows, i));
    }
  }

  ghost predicate Sibling(rows: seq<Row>, pos: nat, i: nat)
    requires pos < |rows| && i < |rows|
  {
    ParentIndex(rows, i) == ParentIndex(rows, pos)
  }

  /** The siblings of a dropped row, as the list the drop works with. */
  lemma DropsAlongSiblings(rows: seq<Row>, pos: nat, len: nat, i: nat) returns (s: seq<nat>, m: nat)
    requires pos < |rows| && i < |rows| && WellFormed(rows) && Sibling(rows, pos, i)
    ensures Increasing(s) && InBounds(s, |rows|) && m < |s| && s[m] == i
    ensures forall k :: 0 <= k < |s| ==> Sibling(rows, pos, s[k])
    ensures forall k :: 0 <= k < |rows| && Sibling(rows, pos, k) ==> k in s
    ensures forall k :: 0 <= k < |s| ==>
      DropRow(rows, pos, len, rows[pos].depth)[s[k]].weight == rows[s[0]].weight + k
  {
    var d := rows[pos].depth;
    var t := rows[pos := rows[pos].(parent := ParentSource(rows, pos, len, d))];
    s := Siblings(t, pos, d);
    ShapeOfUpdate(rows, pos, t[pos]);
    SiblingsIncrease(t, pos);
    forall k | 0 <= k < |rows| ensures k in s <==> Sibling(rows, pos, k) {
      SiblingsShareTheParent(t, pos, k);
    }
    forall k | 0 <= k < |s|
      ensures Sibling(rows, pos, s[k])
      ensures DropRow(rows, pos, len, d)[s[k]].weight == rows[s[0]].weight + k
    {
      assert s[k] in s;
      WeightsAssigned(t, s, t[s[0]].weight, s[k]);
    }
    m :| 0 <= m < |s| && s[m] == i;
  }

  /** Two siblings of the dropped row come out in order. */
  lemma DroppedSiblings(rows: seq<Row>, pos: nat, len: nat, i: nat, j: nat)
    requires pos < |rows| && i < j < |rows| && WellFormed(rows)
    requires ParentIndex(rows, i) == ParentIndex(rows, pos) == ParentIndex(rows, j)
    ensures var r := DropRow(rows, pos, len, rows[pos].depth); r[i].weight < r[j].weight
  {
    var s, m := DropsAlongSiblings(rows, pos, len, i);
    assert Sibling(rows, pos, j);
    var n :| 0 <= n < |s| && s[n] == j;
    LaterIndex(s, m, n);
  }

  lemma LaterIndex(s: seq<nat>, m: nat, n: nat)
    requires Increasing(s) && m < |s| && n < |s| && s[m] < s[n]
    ensures m < n
  {
  }

  lemma SameParentIndex(rows: seq<Row>, i: nat, j: nat)
    requires UniqueIds(rows) && i < |rows| && j < |rows|
    ensures ParentName(rows, i) == ParentName(rows, j) <==> ParentIndex(rows, i) == ParentIndex(rows, j)
  {
    var p, q := ParentIndex(rows, i), ParentIndex(rows, j);
    if 0 <= p && 0 <= q && rows[p].id == rows[q].id { UniqueById(rows, p, q); }
  }

  /** A drop never touches the tree. */
  lemma DropKeepsTree(d: Drag)
    requires Legal(d)
    ensures var r := DropRow(Rows(d), d.at, |d.group|, d.indents);
      && WellFormed(r) && SameShape(r, Rows(d))
      && forall i :: 0 <= i < |r| ==> ParentName(r, i) == ParentName(Rows(d), i)
  {
    PlacementIsWellFormed(d.rest, d.at, d.group);
    SameShapeSameTree(DropRow(Rows(d), d.at, |d.group|, d.indents), Rows(d));
  }

  /** Writing back the dropped row's parent field is enough: if all others named their tree
      parent before, every one does afterwards. */
  lemma DropNamesParents(d: Drag)
    requires Legal(d) && FieldsBut(d) && d.rest != [] && d.indents == d.group[0].depth
    ensures var r := DropRow(Rows(d), d.at, |d.group|, d.indents); UniqueIds(r) && FieldsOk(r, 0)
  {
    var rows, r := Rows(d), DropRow(Rows(d), d.at, |d.group|, d.indents);
    PlacementIsWellFormed(d.rest, d.at, d.group);
    DropKeepsTree(d);
    SameShapeSameIds(r, rows);
    assert rows[d.at] == d.group[0];
    forall i | 0 <= i < |r| ensures FieldOk(r, i) {
      DroppedRow(rows, d.at, |d.group|, i);
      if i == d.at { ParentSourceIsTheParent(d); } else { OthersKeepTheirField(d, i); }
    }
  }

  /** So is writing back its siblings' weights: every other list keeps its order, tied or
      strict, and the list the row is dropped into strictly increases. */
  lemma DropOrdersWeights(d: Drag, strict: iset<ParentField>)
    requires Legal(d) && WeightsBut(d, strict) && d.indents == d.group[0].depth
    ensures var r := DropRow(Rows(d), d.at, |d.group|, d.indents);
      UniqueIds(r) && WeightsOk(r, 0, strict + iset{ParentName(Rows(d), d.at)})
  {
    var rows, r := Rows(d), DropRow(Rows(d), d.at, |d.group|, d.indents);
    PlacementIsWellFormed(d.rest, d.at, d.group);
    DropKeepsTree(d);
    SameShapeSameIds(r, rows);
    forall i, j | 0 <= i < j < |r| ensures OrderOk(r, i, j, strict + iset{ParentName(rows, d.at)}) {
      DroppedPair(d, i, j, strict, r);
    }
  }

  lemma DroppedPair(d: Drag, i: nat, j: nat, strict: iset<ParentField>, r: seq<Row>)
    requires Legal(d) && WeightsBut(d, strict) && d.indents == d.group[0].depth && i < j < |Rows(d)|
    requires WellFormed(Rows(d)) && r == DropRow(Rows(d), d.at, |d.group|, d.indents)
    requires ParentName(r, i) == ParentName(Rows(d), i) && ParentName(r, j) == ParentName(Rows(d), j)
    ensures OrderOk(r, i, j, strict + iset{ParentName(Rows(d), d.at)})
  {
    if ParentName(Rows(d), i) == ParentName(Rows(d), j) { DroppedOrder(d, i, j, strict); }
  }

  lemma DroppedOrder(d: Drag, i: nat, j: nat, strict: iset<ParentField>)
    requires Legal(d) && WeightsBut(d, strict) && d.indents == d.group[0].depth && i < j < |Rows(d)|
    requires WellFormed(Rows(d)) && ParentName(Rows(d), i) == ParentName(Rows(d), j)
    ensures var r := DropRow(Rows(d), d.at, |d.group|, d.indents); r[i].weight <= r[j].weight
    ensures var r := DropRow(Rows(d), d.at, |d.group|, d.indents);
      ParentName(Rows(d), i) in strict || ParentName(Rows(d), i) == ParentName(Rows(d), d.at) ==> r[i].weight < r[j].weight
  {
    var rows := Rows(d);
    assert rows[d.at] == d.group[0];
    SameParentIndex(rows, i, j);
    SameParentIndex(rows, i, d.at);
    if ParentIndex(rows, i) == ParentIndex(rows, d.at) {
      DroppedSiblings(rows, d.at, |d.group|, i, j);
    } else {
      OthersKeepTheirOrder(d, i, j, strict);
      DroppedRow(rows, d.at, |d.group|, i);
      DroppedRow(rows, d.at, |d.group|, j);
    }
  }
}
