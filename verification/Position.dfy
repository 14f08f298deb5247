/** Keeping a positioned element inside its container. The horizontal and the vertical
    handlers are the same code, each on its own coordinate; lengths are real numbers. */
module Position {

  /** Left or top, the middle, right or bottom. */
  datatype Side = Start | Center | End

  /** Everything a handler is given about one axis: which side of the element (`my`) is
      put at which side of the target (`at`), with what offsets, the element with its
      margin and the size that counts for collisions, and the container. */
  datatype Axis = Axis(
    my: Side, at: Side, myOffset: real, atOffset: real,
    targetStart: real, targetSize: real, elemSize: real, margin: real, collisionSize: real,
    isWindow: bool, offset: real, scroll: real, size: real)

  function Max(a: real, b: real): real { if a < b then b else a }

  function Min(a: real, b: real): real { if a < b then a else b }

  /** How far a side lies from the start of something of the given size. */
  function SideOf(side: Side, size: real): real {
    match side case Start => 0.0 case Center => size / 2.0 case End => size
  }

  /** Where the element is put to begin with. */
  function Aligned(x: Axis): real {
    x.targetStart + SideOf(x.at, x.targetSize) + x.atOffset - SideOf(x.my, x.elemSize) + x.myOffset
  }

  /** Where the container begins. */
  function Edge(x: Axis): real {
    if x.isWindow then x.scroll else x.offset
  }

  /** Where the element with its margin begins and ends, measured from the container's edge. */
  function From(x: Axis, pos: real): real {
    pos - x.margin - Edge(x)
  }

  function To(x: Axis, pos: real): real {
    From(x, pos) + x.collisionSize
  }

  /** The element with its margin lies in the container, which for a window begins where it
      has been scrolled to. */
  ghost predicate Inside(x: Axis, pos: real) {
    var start := if x.isWindow then x.scroll else x.offset;
    start <= pos - x.margin && pos - x.margin + x.collisionSize <= start + x.size
  }

  /** How much of the element can be seen. */
  function Visible(x: Axis, pos: real): real {
    Max(0.0, Min(To(x, pos), x.size) - Max(From(x, pos), 0.0))
  }

  /** The chosen side of the element meets the chosen side of the target, but for the
      offsets. */
  lemma AlignedSidesMeet(x: Axis)
    ensures var mine := Aligned(x) - x.myOffset +
        (if x.my == Start then 0.0 else if x.my == Center then x.elemSize / 2.0 else x.elemSize);
      var theirs := x.targetStart + x.atOffset +
        (if x.at == Start then 0.0 else if x.at == Center then x.targetSize / 2.0 else x.targetSize);
      mine == theirs
  {
  }

  // ---------- fit ----------

  /** What `fit` amounts to: an element too large is put flush with one edge, one that
      sticks out is moved to the edge it sticks out of, and one inside is left alone
      unless it lies before the origin of the page. */
  function Fitted(x: Axis, pos: real): real {
    if x.size < x.collisionSize then
      if To(x, pos) - x.size < -From(x, pos) then Edge(x) + x.size - x.collisionSize else Edge(x)
    else if From(x, pos) < 0.0 then x.margin + Edge(x)
    else if x.size < To(x, pos) then x.margin + Edge(x) + x.size - x.collisionSize
    else Max(pos, x.margin)
  }

  /** Inside the container already, but before the origin of the page, where moving to the
      origin takes it out at the other end. */
  ghost predicate PushedOut(x: Axis, pos: real) {
    Inside(x, pos) && pos < x.margin && Edge(x) + x.size < x.collisionSize
  }

  /** `fit` brings the element inside if and only if it is no larger than the container
      and is not pushed out by the last branch. */
  lemma FitContainsIff(x: Axis, pos: real)
    ensures Inside(x, Fitted(x, pos)) <==> x.collisionSize <= x.size && !PushedOut(x, pos)
  {
  }

  /** In a container that does not begin before the origin of the page, `fit` contains the
      element, moves it no further than needed, and moves it only once. */
  lemma FitIsNearest(x: Axis, pos: real)
    requires 0.0 <= Edge(x) && x.collisionSize <= x.size
    ensures Inside(x, Fitted(x, pos)) && Fitted(x, Fitted(x, pos)) == Fitted(x, pos)
    ensures forall q :: Inside(x, q) ==>
      (pos <= q ==> pos <= Fitted(x, pos) <= q) && (q <= pos ==> q <= Fitted(x, pos) <= pos)
  {
  }

  /** What becomes of an element no larger than its container: one that sticks out at the
      start is put flush with it, else one that sticks out at the end flush with that, and
      one inside is moved to the origin of the page if it lies before it. */
  lemma FitPutsFlush(x: Axis, pos: real)
    requires x.collisionSize <= x.size
    ensures From(x, pos) < 0.0 ==> From(x, Fitted(x, pos)) == 0.0
    ensures 0.0 <= From(x, pos) && x.size < To(x, pos) ==> To(x, Fitted(x, pos)) == x.size
    ensures Inside(x, pos) ==> pos <= Fitted(x, pos) && x.margin <= Fitted(x, pos) && Fitted(x, pos) in {pos, x.margin}
  {
  }

  /** An element larger than its container is put flush with one end of it, the one nearer
      to where it begins with its margin; the margin is left out then. */
  lemma FitOfTooLarge(x: Axis, pos: real)
    requires x.size < x.collisionSize
    ensures var first, last, begins := Edge(x), Edge(x) + x.size - x.collisionSize, pos - x.margin;
      if Abs(begins - last) < Abs(begins - first) then Fitted(x, pos) == last else Fitted(x, pos) == first
  {
  }

  /** When a second `fit` changes nothing: an element flush with an edge must not be taken
      for one that leans to the other side because of its margin; one moved to an edge must
      not be moved on to the origin; and one inside must not be pushed out. */
  lemma FitTwiceIff(x: Axis, pos: real)
    ensures Fitted(x, Fitted(x, pos)) == Fitted(x, pos) <==>
      var spare := x.size - x.collisionSize;
      if spare < 0.0 then
        if To(x, pos) - x.size < -From(x, pos) then spare < 2.0 * x.margin else 2.0 * x.margin <= -spare
      else if From(x, pos) < 0.0 then 0.0 <= Edge(x)
      else if x.size < To(x, pos) then 0.0 <= Edge(x) + spare
      else !PushedOut(x, pos)
  {
  }

  /** A container before the origin: fitting takes the element out of it. */
  lemma FitCanPushOut()
    ensures var x := Axis(Start, Start, 0.0, 0.0, -8.0, 0.0, 5.0, 0.0, 5.0, false, -10.0, 0.0, 10.0);
      Inside(x, Aligned(x)) && !Inside(x, Fitted(x, Aligned(x)))
  {
  }

  // ---------- flip ----------

  /** How far a flip moves the element. */
  function Turn(x: Axis): real {
    (match x.my case Start => -x.elemSize case Center => 0.0 case End => x.elemSize)
    + (match x.at case Start => x.targetSize case Center => 0.0 case End => -x.targetSize)
    - 2.0 * (x.atOffset + x.myOffset)
  }

  /** The place of the element reflected in the middle of the target. */
  function Mirrored(x: Axis, pos: real): real {
    2.0 * (x.targetStart + x.targetSize / 2.0) - (pos + x.elemSize)
  }

  /** For all nine pairs of sides and any offsets, a flip lands on the exact mirror image,
      and flipping twice leads back. */
  lemma FlipMirrors(x: Axis)
    ensures Aligned(x) + Turn(x) == Mirrored(x, Aligned(x))
    ensures Mirrored(x, Mirrored(x, Aligned(x))) == Aligned(x)
  {
  }

  /** When the handler flips: the element sticks out at the start by more than it would at
      the end afterwards, as the handler reckons it, or it sticks out at the end only, by
      more than it would at the start. */
  predicate Flips(x: Axis, pos: real) {
    if From(x, pos) < 0.0
    then pos + Turn(x) + x.collisionSize - x.size - (x.offset + x.scroll) < -From(x, pos)
    else 0.0 < To(x, pos) - x.size && -(To(x, pos) - x.size) < From(x, pos + Turn(x))
  }

  function Flipped(x: Axis, pos: real): real {
    if Flips(x, pos) then pos + Turn(x) else pos
  }

  /** How far the element sticks out of the container at the start and at the end. */
  function OverStart(x: Axis, pos: real): real {
    (if x.isWindow then x.scroll else x.offset) - (pos - x.margin)
  }

  function OverEnd(x: Axis, pos: real): real {
    pos - x.margin + x.collisionSize - x.size - if x.isWindow then x.scroll else x.offset
  }

  /** An element that sticks out at the start is flipped exactly when it would then stick
      out less at the end, which the handler reckons without the margin and from the sum of
      offset and scroll position; one that sticks out at the end only, exactly when it would
      then stick out less at the start. Any other stays. */
  lemma FlipTakenIff(x: Axis, pos: real)
    requires Turn(x) != 0.0
    ensures Flipped(x, pos) in {pos, pos + Turn(x)}
    ensures 0.0 < OverStart(x, pos) ==>
      var slip := x.margin + (if x.isWindow then -x.offset else -x.scroll);
      (Flipped(x, pos) != pos <==> OverEnd(x, pos + Turn(x)) + slip < OverStart(x, pos))
    ensures OverStart(x, pos) <= 0.0 < OverEnd(x, pos) ==>
      (Flipped(x, pos) != pos <==> OverStart(x, pos + Turn(x)) < OverEnd(x, pos))
    ensures OverStart(x, pos) <= 0.0 && OverEnd(x, pos) <= 0.0 ==> Flipped(x, pos) == pos
  {
  }

  /** Flipping hides more of the element if and only if it moves away from the container:
      off the start, it is turned further off while it has nothing to gain at the end, or
      is turned across and sticks out there by more than it did, which the handler cannot
      see without a margin or a scrolled container; off the end, it is turned further off. */
  lemma FlipHidesMoreIff(x: Axis, pos: real)
    ensures Visible(x, Flipped(x, pos)) < Visible(x, pos) <==>
      var from, to, over := From(x, pos), To(x, pos), To(x, pos + Turn(x)) - x.size;
      if from < 0.0 then
        && 0.0 < to && 0.0 < x.size && Flips(x, pos)
        && ((Turn(x) < 0.0 && over < 0.0) || (-from < Turn(x) && -from < over))
      else x.size < to && from < x.size && 0.0 < Turn(x)
  {
  }

  /** An element beside a target that is itself off the start is flipped out of sight. */
  lemma FlipCanHideMore()
    ensures var x := Axis(Start, End, 0.0, 0.0, -15.0, 10.0, 20.0, 0.0, 20.0, true, 0.0, 0.0, 100.0);
      Visible(x, Aligned(x)) == 15.0 && Visible(x, Flipped(x, Aligned(x))) == 0.0
  {
  }

  /** One coordinate of the element's position, updated in place. */
  class Coordinate {
    var pos: real

    /** The base position on the target, then the alignment of the element. */
    constructor (x: Axis)
      ensures pos == Aligned(x)
    {
      var p := x.targetStart;
      if x.at == End { p := p + x.targetSize; } else if x.at == Center { p := p + x.targetSize / 2.0; }
      p := p + x.atOffset;
      if x.my == End { p := p - x.elemSize; } else if x.my == Center { p := p - x.elemSize / 2.0; }
      pos := p + x.myOffset;
    }

    /** `fit`. */
    method Fit(x: Axis)
      modifies this
      ensures pos == Fitted(x, old(pos))
      ensures Inside(x, pos) <==> x.collisionSize <= x.size && !PushedOut(x, old(pos))
    {
      FitContainsIff(x, pos);
      var withinOffset := if x.isWindow then x.scroll else x.offset;
      var collisionPos := pos - x.margin;
      var overStart := withinOffset - collisionPos;
      var overEnd := collisionPos + x.collisionSize - x.size - withinOffset;
      if x.size < x.collisionSize {
        if 0.0 < overStart && overEnd <= 0.0 {
          var newOverEnd := pos + overStart + x.collisionSize - x.size - withinOffset;
          pos := pos + (overStart - newOverEnd);
        } else if 0.0 < overEnd && overStart <= 0.0 {
          pos := withinOffset;
        } else if overEnd < overStart {
          pos := withinOffset + x.size - x.collisionSize;
        } else {
          pos := withinOffset;
        }
      } else if 0.0 < overStart {
        pos := pos + overStart;
      } else if 0.0 < overEnd {
        pos := pos - overEnd;
      } else {
        pos := Max(pos - collisionPos, pos);
      }
    }

    /** `flip`: an aligned element stays or goes to its exact mirror image. */
    method Flip(x: Axis)
      modifies this
      ensures pos == Flipped(x, old(pos))
      ensures old(pos) == Aligned(x) ==> pos == if Flips(x, old(pos)) then Mirrored(x, old(pos)) else old(pos)
    {
      FlipMirrors(x);
      var withinOffset := x.offset + x.scroll;
      var edge := if x.isWindow then x.scroll else x.offset;
      var collisionPos := pos - x.margin;
      var overStart := collisionPos - edge;
      var overEnd := collisionPos + x.collisionSize - x.size - edge;
      var myOffset := match x.my case Start => -x.elemSize case Center => 0.0 case End => x.elemSize;
      var atOffset := match x.at case Start => x.targetSize case Center => 0.0 case End => -x.targetSize;
      var offset := -2.0 * (x.atOffset + x.myOffset);
      if overStart < 0.0 {
        var newOverEnd := pos + myOffset + atOffset + offset + x.collisionSize - x.size - withinOffset;
        if newOverEnd < 0.0 || newOverEnd < Abs(overStart) {
          pos := pos + (myOffset + atOffset + offset);
        }
      } else if 0.0 < overEnd {
        var newOverStart := pos - x.margin + myOffset + atOffset + offset - edge;
        if 0.0 < newOverStart || Abs(newOverStart) < overEnd {
          pos := pos + (myOffset + atOffset + offset);
        }
      }
    }

    /** `flipfit`: first the one, then the other. */
    method FlipFit(x: Axis)
      modifies this
      ensures pos == Fitted(x, Flipped(x, old(pos)))
      ensures Inside(x, pos) <==> x.collisionSize <= x.size && !PushedOut(x, Flipped(x, old(pos)))
    {
      Flip(x);
      Fit(x);
    }
  }

  function Abs(a: real): real { if a < 0.0 then -a else a }
}
