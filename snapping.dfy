/**
 * The alignment snapping of `vectra-engine/src/lib.rs` (calculate_snapping).
 *
 * The moving rectangle is shifted by the drag delta and then, axis by axis, aligned
 * to the first sibling point it comes close to: siblings are scanned in the order the
 * caller gives them and, for each sibling, nine (target point, sibling point) pairs
 * are tested in a fixed order. Coordinates are `real`, so "the gap closes exactly"
 * is a statement about exact arithmetic.
 *
 * `Snap` states the outcome in closed form (first hit on each axis, then the guides);
 * the method `CalculateSnapping` is the source's loop and is proved to compute it.
 */
module Snapping {
  import opened Wrappers

  datatype Rect = Rect(x: real, y: real, w: real, h: real)

  datatype Guide = Guide(orientation: string, pos: real, start: real, end: real, guideType: string)

  datatype SnapResult = SnapResult(x: real, y: real, guides: seq<Guide>)

  datatype Axis = X | Y

  function Abs(d: real): real {
    if d < 0.0 then -d else d
  }

  function Min(a: real, b: real): real {
    if a <= b then a else b
  }

  function Max(a: real, b: real): real {
    if a >= b then a else b
  }

  /** The three alignment points of a span: its low edge, its centre and its high edge. */
  function Anchors(lo: real, size: real): seq<real> {
    [lo, lo + size / 2.0, lo + size]
  }

  /**
   * The nine (target point, sibling point) pairs in the order they are tested:
   * target low edge, centre, high edge, each against sibling low edge, centre, high edge.
   */
  function Pairs(t: real, tw: real, s: real, sw: real): (r: seq<(real, real)>)
    ensures |r| == 9
  {
    [ (t, s), (t, s + sw / 2.0), (t, s + sw),
      (t + tw / 2.0, s), (t + tw / 2.0, s + sw / 2.0), (t + tw / 2.0, s + sw),
      (t + tw, s), (t + tw, s + sw / 2.0), (t + tw, s + sw) ]
  }

  /** A sibling's start and size along an axis. */
  function Lo(r: Rect, axis: Axis): real {
    match axis
    case X => r.x
    case Y => r.y
  }

  function Size(r: Rect, axis: Axis): real {
    match axis
    case X => r.w
    case Y => r.h
  }

  /** The nine pairs for a target span `[t, t + tw]` against one sibling on one axis. */
  function SiblingPairs(t: real, tw: real, sib: Rect, axis: Axis): seq<(real, real)> {
    Pairs(t, tw, Lo(sib, axis), Size(sib, axis))
  }

  /** A pair is close when its two points are strictly less than `threshold` apart (`|t - s| < threshold`). */
  predicate Close(p: (real, real), threshold: real) {
    p.0 - p.1 < threshold && p.1 - p.0 < threshold
  }

  /** The position of the first close pair, if any. */
  function FirstClose(pairs: seq<(real, real)>, threshold: real): (r: Option<nat>)
    ensures r.Some? ==> r.value < |pairs|
  {
    if pairs == [] then None
    else if Close(pairs[0], threshold) then Some(0)
    else
      match FirstClose(pairs[1..], threshold)
      case None => None
      case Some(k) => Some(k + 1)
  }

  /** `FirstClose` finds a close pair exactly when there is one, and no earlier pair is close. */
  lemma {:induction false} FirstCloseIsFirst(pairs: seq<(real, real)>, threshold: real)
    ensures var r := FirstClose(pairs, threshold);
            (r.Some? ==> r.value < |pairs| && Close(pairs[r.value], threshold)) &&
            (r.Some? ==> forall j :: 0 <= j < r.value ==> !Close(pairs[j], threshold)) &&
            (r.None? ==> forall j :: 0 <= j < |pairs| ==> !Close(pairs[j], threshold))
  {
    if pairs != [] && !Close(pairs[0], threshold) {
      FirstCloseIsFirst(pairs[1..], threshold);
      var r := FirstClose(pairs[1..], threshold);
      forall j | 1 <= j < |pairs| ensures pairs[j] == pairs[1..][j - 1] { }
    }
  }

  /** What an axis settled on: nothing, or the sibling it snapped to, the snapped coordinate and the guide position. */
  datatype AxisSnap = Missed | Snapped(sibling: nat, coord: real, pos: real, sib: Rect)

  /**
   * Testing sibling number `i` on one axis: at its first close pair the coordinate
   * is shifted by the pair's signed gap and the guide sits at the sibling's point.
   */
  function SiblingSnap(t: real, tw: real, sib: Rect, axis: Axis, threshold: real, i: nat): (r: AxisSnap)
    ensures r.Snapped? ==> r.sibling == i && r.sib == sib
  {
    var pairs := SiblingPairs(t, tw, sib, axis);
    match FirstClose(pairs, threshold)
    case None => Missed
    case Some(k) => Snapped(i, t + (pairs[k].1 - pairs[k].0), pairs[k].1, sib)
  }

  /**
   * The outcome on one axis over the siblings from position `i` on: the first of
   * them, in list order, that has a close pair decides; later ones are not looked at.
   */
  function AxisFrom(t: real, tw: real, sibs: seq<Rect>, axis: Axis, threshold: real, i: nat): (r: AxisSnap)
    ensures r.Snapped? ==> i <= r.sibling < |sibs| && r.sib == sibs[r.sibling]
    decreases |sibs| - i
  {
    if i >= |sibs| then Missed
    else
      var here := SiblingSnap(t, tw, sibs[i], axis, threshold, i);
      if here.Snapped? then here else AxisFrom(t, tw, sibs, axis, threshold, i + 1)
  }

  /** The outcome on one axis over the whole sibling list. */
  function AxisOutcome(t: real, tw: real, sibs: seq<Rect>, axis: Axis, threshold: real): AxisSnap {
    AxisFrom(t, tw, sibs, axis, threshold, 0)
  }

  /**
   * From position `i` on, the axis snaps to sibling `k` exactly when no sibling
   * between `i` and `k` has a close pair and sibling `k` has one; it does not snap
   * exactly when none of them has one.
   */
  lemma {:induction false} AxisFromIsFirst(t: real, tw: real, sibs: seq<Rect>, axis: Axis, threshold: real, i: nat)
    ensures var r := AxisFrom(t, tw, sibs, axis, threshold, i);
            (r.Snapped? ==> r == SiblingSnap(t, tw, sibs[r.sibling], axis, threshold, r.sibling)) &&
            (r.Snapped? ==> forall j :: i <= j < r.sibling ==>
                              SiblingSnap(t, tw, sibs[j], axis, threshold, j).Missed?) &&
            (r.Missed? ==> forall j :: i <= j < |sibs| ==>
                             SiblingSnap(t, tw, sibs[j], axis, threshold, j).Missed?)
    decreases |sibs| - i
  {
    if i < |sibs| && SiblingSnap(t, tw, sibs[i], axis, threshold, i).Missed? {
      AxisFromIsFirst(t, tw, sibs, axis, threshold, i + 1);
    }
  }

  function Coord(o: AxisSnap, t: real): real {
    if o.Snapped? then o.coord else t
  }

  /** The guide for a snap on the X axis, spanning both rectangles along Y at the current `y`. */
  function VerticalGuide(pos: real, y: real, th: real, sib: Rect): Guide {
    Guide("vertical", pos, Min(y, sib.y), Max(y + th, sib.y + sib.h), "align")
  }

  /** The guide for a snap on the Y axis, spanning both rectangles along X at the current `x`. */
  function HorizontalGuide(pos: real, x: real, tw: real, sib: Rect): Guide {
    Guide("horizontal", pos, Min(x, sib.x), Max(x + tw, sib.x + sib.w), "align")
  }

  /**
   * The result assembled from the two axis outcomes. The X axis is handled before
   * the Y axis for the same sibling, so the vertical guide sees the snapped `y` only
   * when `y` snapped at an earlier sibling, and the horizontal guide sees the snapped
   * `x` when `x` snapped at the same or an earlier sibling. The guides come in the
   * order they were made.
   */
  function Assemble(target: Rect, tx: real, ty: real, ox: AxisSnap, oy: AxisSnap): SnapResult {
    var yFirst := ox.Snapped? && oy.Snapped? && oy.sibling < ox.sibling;
    var gx := if ox.Snapped? then [VerticalGuide(ox.pos, if yFirst then oy.coord else ty, target.h, ox.sib)] else [];
    var gy := if oy.Snapped? then [HorizontalGuide(oy.pos, if ox.Snapped? && !yFirst then ox.coord else tx, target.w, oy.sib)] else [];
    SnapResult(Coord(ox, tx), Coord(oy, ty), if yFirst then gy + gx else gx + gy)
  }

  /** The snapping outcome in closed form: each axis snaps to its own first hit. */
  function Snap(target: Rect, sibs: seq<Rect>, dx: real, dy: real, threshold: real): (r: SnapResult)
    ensures |r.guides| <= 2
    ensures forall g :: g in r.guides ==> g.guideType == "align"
  {
    var tx := target.x + dx;
    var ty := target.y + dy;
    Assemble(target, tx, ty, AxisOutcome(tx, target.w, sibs, X, threshold), AxisOutcome(ty, target.h, sibs, Y, threshold))
  }

  /** The position of the first close pair, by a scan in order (the source's inner loop). */
  method FindClosePair(pairs: seq<(real, real)>, threshold: real) returns (hit: Option<nat>)
    ensures hit == FirstClose(pairs, threshold)
  {
    var k := 0;
    while k < |pairs|
      invariant k <= |pairs|
      invariant forall j :: 0 <= j < k ==> !Close(pairs[j], threshold)
    {
      if Close(pairs[k], threshold) {
        FirstCloseIsFirst(pairs, threshold);
        return Some(k);
      }
      k := k + 1;
    }
    FirstCloseIsFirst(pairs, threshold);
    return None;
  }

  /** One axis against one sibling: the nine pairs built and scanned, and the shift they call for. */
  method SnapToSibling(t: real, tw: real, sib: Rect, axis: Axis, threshold: real, i: nat) returns (o: AxisSnap)
    ensures o == SiblingSnap(t, tw, sib, axis, threshold, i)
  {
    var pairs := Pairs(t, tw, Lo(sib, axis), Size(sib, axis));
    var k := FindClosePair(pairs, threshold);
    if k.Some? {
      var (p, s) := pairs[k.value];
      o := Snapped(i, t + (s - p), s, sib);
    } else {
      o := Missed;
    }
  }

  /** The loop state of the snapping scan: both coordinates, the guides so far and which axes have snapped. */
  datatype Progress = Progress(newX: real, newY: real, guides: seq<Guide>, snappedX: bool, snappedY: bool)

  /** `p` is what the scan holds when the axes have settled on `ox` and `oy` so far. */
  ghost predicate Tracks(target: Rect, tx: real, ty: real, ox: AxisSnap, oy: AxisSnap, p: Progress) {
    && p.snappedX == ox.Snapped? && p.snappedY == oy.Snapped?
    && p.newX == Coord(ox, tx) && p.newY == Coord(oy, ty)
    && p.guides == Assemble(target, tx, ty, ox, oy).guides
  }

  /**
   * One turn of the scan, for sibling number `i`: an axis that has not snapped yet
   * is tested against the sibling, X before Y.
   */
  method VisitSibling(target: Rect, sib: Rect, i: nat, threshold: real, p: Progress,
                      ghost tx: real, ghost ty: real, ghost ox: AxisSnap, ghost oy: AxisSnap)
    returns (q: Progress, ghost ox': AxisSnap, ghost oy': AxisSnap)
    requires Tracks(target, tx, ty, ox, oy, p)
    requires ox.Snapped? ==> ox.sibling < i
    requires oy.Snapped? ==> oy.sibling < i
    ensures Tracks(target, tx, ty, ox', oy', q)
    ensures ox' == if ox.Snapped? then ox else SiblingSnap(tx, target.w, sib, X, threshold, i)
    ensures oy' == if oy.Snapped? then oy else SiblingSnap(ty, target.h, sib, Y, threshold, i)
  {
    var newX, newY, guides, snappedX, snappedY := p.newX, p.newY, p.guides, p.snappedX, p.snappedY;
    ox', oy' := ox, oy;
    if !snappedX {
      var o := SnapToSibling(newX, target.w, sib, X, threshold, i);
      if o.Snapped? {
        newX := o.coord;
        snappedX := true;
        AssembleAddsVertical(target, tx, ty, ox, oy, o);
        guides := guides + [Guide("vertical", o.pos, Min(newY, sib.y), Max(newY + target.h, sib.y + sib.h), "align")];
      }
      ox' := o;
    }
    if !snappedY {
      var o := SnapToSibling(newY, target.h, sib, Y, threshold, i);
      if o.Snapped? {
        newY := o.coord;
        snappedY := true;
        AssembleAddsHorizontal(target, tx, ty, ox', oy, o);
        guides := guides + [Guide("horizontal", o.pos, Min(newX, sib.x), Max(newX + target.w, sib.x + sib.w), "align")];
      }
      oy' := o;
    }
    q := Progress(newX, newY, guides, snappedX, snappedY);
  }

  /** The source's snapping loop over the siblings, with its early exit once both axes have snapped. */
  method CalculateSnapping(target: Rect, siblings: seq<Rect>, deltaX: real, deltaY: real, threshold: real)
    returns (r: SnapResult)
    ensures r == Snap(target, siblings, deltaX, deltaY, threshold)
  {
    ghost var tx, ty := target.x + deltaX, target.y + deltaY;
    ghost var fullX := AxisOutcome(tx, target.w, siblings, X, threshold);
    ghost var fullY := AxisOutcome(ty, target.h, siblings, Y, threshold);
    var p := Progress(target.x + deltaX, target.y + deltaY, [], false, false);
    ghost var ox, oy := Missed, Missed;
    var i := 0;
    while i < |siblings|
      invariant 0 <= i <= |siblings|
      invariant Tracks(target, tx, ty, ox, oy, p)
      invariant ox.Snapped? ==> ox == fullX && ox.sibling < i
      invariant ox.Missed? ==> fullX == AxisFrom(tx, target.w, siblings, X, threshold, i)
      invariant oy.Snapped? ==> oy == fullY && oy.sibling < i
      invariant oy.Missed? ==> fullY == AxisFrom(ty, target.h, siblings, Y, threshold, i)
    {
      p, ox, oy := VisitSibling(target, siblings[i], i, threshold, p, tx, ty, ox, oy);
      i := i + 1;
      if p.snappedX && p.snappedY {
        break;
      }
    }
    AxisScanned(tx, target.w, siblings, X, threshold, ox, i);
    AxisScanned(ty, target.h, siblings, Y, threshold, oy, i);
    TracksSnap(target, siblings, deltaX, deltaY, threshold, p);
    r := SnapResult(p.newX, p.newY, p.guides);
  }

  /** An axis whose scan snapped, or ran through every sibling, holds the whole list's outcome. */
  lemma AxisScanned(t: real, tw: real, sibs: seq<Rect>, axis: Axis, threshold: real, o: AxisSnap, i: nat)
    requires i <= |sibs| && (o.Snapped? || i == |sibs|)
    requires o.Snapped? ==> o == AxisOutcome(t, tw, sibs, axis, threshold)
    requires o.Missed? ==> AxisOutcome(t, tw, sibs, axis, threshold) == AxisFrom(t, tw, sibs, axis, threshold, i)
    ensures o == AxisOutcome(t, tw, sibs, axis, threshold)
  {
  }

  /** Loop state that tracks both whole-list outcomes is the closed-form result. */
  lemma TracksSnap(target: Rect, sibs: seq<Rect>, dx: real, dy: real, threshold: real, p: Progress)
    requires Tracks(target, target.x + dx, target.y + dy,
                    AxisOutcome(target.x + dx, target.w, sibs, X, threshold),
                    AxisOutcome(target.y + dy, target.h, sibs, Y, threshold), p)
    ensures SnapResult(p.newX, p.newY, p.guides) == Snap(target, sibs, dx, dy, threshold)
  {
  }

  /** A snap on the X axis adds its vertical guide after those already made. */
  lemma AssembleAddsVertical(target: Rect, tx: real, ty: real, ox: AxisSnap, oy: AxisSnap, ox': AxisSnap)
    requires !ox.Snapped? && ox'.Snapped?
    requires oy.Snapped? ==> oy.sibling < ox'.sibling
    ensures Assemble(target, tx, ty, ox', oy).guides ==
              Assemble(target, tx, ty, ox, oy).guides + [VerticalGuide(ox'.pos, Coord(oy, ty), target.h, ox'.sib)]
  {
  }

  /** A snap on the Y axis adds its horizontal guide after those already made. */
  lemma AssembleAddsHorizontal(target: Rect, tx: real, ty: real, ox: AxisSnap, oy: AxisSnap, oy': AxisSnap)
    requires !oy.Snapped? && oy'.Snapped?
    requires ox.Snapped? ==> ox.sibling <= oy'.sibling
    ensures Assemble(target, tx, ty, ox, oy').guides ==
              Assemble(target, tx, ty, ox, oy).guides + [HorizontalGuide(oy'.pos, Coord(ox, tx), target.w, oy'.sib)]
  {
  }

  /** The nine pairs are the target's anchor `k / 3` against the sibling's anchor `k % 3`. */
  lemma PairsFromAnchors(t: real, tw: real, s: real, sw: real, k: nat)
    requires k < 9
    ensures Pairs(t, tw, s, sw)[k] == (Anchors(t, tw)[k / 3], Anchors(s, sw)[k % 3])
  {
    if k == 0 { } else if k == 1 { } else if k == 2 { } else if k == 3 { } else if k == 4 { }
    else if k == 5 { } else if k == 6 { } else if k == 7 { } else { assert k == 8; }
  }

  /** A single sibling is missed exactly when none of its nine pairs is close. */
  lemma {:induction false} SiblingMissIffNoClosePair(t: real, tw: real, sib: Rect, axis: Axis, threshold: real, i: nat)
    ensures SiblingSnap(t, tw, sib, axis, threshold, i).Missed? <==>
            forall k :: 0 <= k < 9 ==> !Close(SiblingPairs(t, tw, sib, axis)[k], threshold)
  {
    FirstCloseIsFirst(SiblingPairs(t, tw, sib, axis), threshold);
  }

  /**
   * A snap to a sibling moves the span by less than `threshold`, and afterwards the
   * guide position is the sibling's anchor of the winning pair `k` and, at the same
   * time, the moved span's anchor of that pair: the gap is closed exactly.
   */
  lemma {:induction false} SiblingSnapCloses(t: real, tw: real, sib: Rect, axis: Axis, threshold: real, i: nat)
    ensures var o := SiblingSnap(t, tw, sib, axis, threshold, i);
            var hit := FirstClose(SiblingPairs(t, tw, sib, axis), threshold);
            o.Snapped? ==>
              && hit.Some?
              && Abs(o.coord - t) < threshold
              && o.pos == Anchors(Lo(sib, axis), Size(sib, axis))[hit.value % 3]
              && o.pos == Anchors(o.coord, tw)[hit.value / 3]
  {
    var pairs := SiblingPairs(t, tw, sib, axis);
    FirstCloseIsFirst(pairs, threshold);
    var o := SiblingSnap(t, tw, sib, axis, threshold, i);
    if o.Snapped? {
      var k := FirstClose(pairs, threshold).value;
      PairsFromAnchors(t, tw, Lo(sib, axis), Size(sib, axis), k);
      var a, b := k / 3, k % 3;
      assert o.pos == Anchors(Lo(sib, axis), Size(sib, axis))[b];
      assert Anchors(o.coord, tw)[a] == Anchors(t, tw)[a] + (o.coord - t);
    }
  }

  /**
   * Over the whole sibling list: an axis that snaps closes its gap exactly, moved by
   * less than `threshold`; an axis misses exactly when no sibling has a close pair.
   */
  lemma {:induction false} AxisOutcomeCloses(t: real, tw: real, sibs: seq<Rect>, axis: Axis, threshold: real)
    ensures var o := AxisOutcome(t, tw, sibs, axis, threshold);
            (o.Snapped? ==>
              var hit := FirstClose(SiblingPairs(t, tw, o.sib, axis), threshold);
              && o.sibling < |sibs| && o.sib == sibs[o.sibling]
              && hit.Some?
              && Abs(o.coord - t) < threshold
              && o.pos == Anchors(Lo(o.sib, axis), Size(o.sib, axis))[hit.value % 3]
              && o.pos == Anchors(o.coord, tw)[hit.value / 3]) &&
            (o.Missed? <==> forall j, k :: 0 <= j < |sibs| && 0 <= k < 9 ==>
                              !Close(SiblingPairs(t, tw, sibs[j], axis)[k], threshold))
  {
    var o := AxisOutcome(t, tw, sibs, axis, threshold);
    AxisFromIsFirst(t, tw, sibs, axis, threshold, 0);
    if o.Snapped? {
      SiblingSnapCloses(t, tw, sibs[o.sibling], axis, threshold, o.sibling);
      SiblingMissIffNoClosePair(t, tw, sibs[o.sibling], axis, threshold, o.sibling);
    } else {
      forall j | 0 <= j < |sibs|
        ensures forall k :: 0 <= k < 9 ==> !Close(SiblingPairs(t, tw, sibs[j], axis)[k], threshold)
      {
        SiblingMissIffNoClosePair(t, tw, sibs[j], axis, threshold, j);
      }
    }
  }

  /**
   * The snapped `x`: when the X axis snaps, the result is less than `threshold` from
   * `target.x + dx` and the guide position is the winning pair's anchor of both the
   * sibling and the moved target; when it does not, the result is `target.x + dx`.
   */
  lemma {:induction false} SnapClosesGapX(target: Rect, sibs: seq<Rect>, dx: real, dy: real, threshold: real)
    ensures var r := Snap(target, sibs, dx, dy, threshold);
            var ox := AxisOutcome(target.x + dx, target.w, sibs, X, threshold);
            (ox.Snapped? ==>
                             var hit := FirstClose(SiblingPairs(target.x + dx, target.w, ox.sib, X), threshold);
                             hit.Some? && Abs(r.x - (target.x + dx)) < threshold &&
                             ox.pos == Anchors(ox.sib.x, ox.sib.w)[hit.value % 3] &&
                             ox.pos == Anchors(r.x, target.w)[hit.value / 3]) &&
            (ox.Missed? ==> r.x == target.x + dx)
  {
    var tx := target.x + dx;
    var ox := AxisOutcome(tx, target.w, sibs, X, threshold);
    assert Snap(target, sibs, dx, dy, threshold).x == Coord(ox, tx);
    AxisOutcomeCloses(tx, target.w, sibs, X, threshold);
  }

  /** The snapped `y`, as `SnapClosesGapX` states it for `x`. */
  lemma {:induction false} SnapClosesGapY(target: Rect, sibs: seq<Rect>, dx: real, dy: real, threshold: real)
    ensures var r := Snap(target, sibs, dx, dy, threshold);
            var oy := AxisOutcome(target.y + dy, target.h, sibs, Y, threshold);
            (oy.Snapped? ==>
                             var hit := FirstClose(SiblingPairs(target.y + dy, target.h, oy.sib, Y), threshold);
                             hit.Some? && Abs(r.y - (target.y + dy)) < threshold &&
                             oy.pos == Anchors(oy.sib.y, oy.sib.h)[hit.value % 3] &&
                             oy.pos == Anchors(r.y, target.h)[hit.value / 3]) &&
            (oy.Missed? ==> r.y == target.y + dy)
  {
    var ty := target.y + dy;
    var oy := AxisOutcome(ty, target.h, sibs, Y, threshold);
    assert Snap(target, sibs, dx, dy, threshold).y == Coord(oy, ty);
    AxisOutcomeCloses(ty, target.h, sibs, Y, threshold);
  }

  /**
   * The guides of an assembled result: one "vertical" guide exactly when X snapped and
   * one "horizontal" guide exactly when Y snapped, so at most two; each sits at its
   * sibling's point and spans both rectangles along the other axis, taken at the
   * moment of the snap; the guide of the axis that snapped at the earlier sibling (X
   * on a tie) comes first.
   */
  lemma AssembleGuides(target: Rect, tx: real, ty: real, ox: AxisSnap, oy: AxisSnap)
    ensures var r := Assemble(target, tx, ty, ox, oy);
            var yAt := if oy.Snapped? && ox.Snapped? && oy.sibling < ox.sibling then r.y else ty;
            var xAt := if ox.Snapped? && oy.Snapped? && ox.sibling <= oy.sibling then r.x else tx;
            && |r.guides| == (if ox.Snapped? then 1 else 0) + (if oy.Snapped? then 1 else 0)
            && (forall g :: g in r.guides ==> g.guideType == "align")
            && ((exists g :: g in r.guides && g.orientation == "vertical") <==> ox.Snapped?)
            && ((exists g :: g in r.guides && g.orientation == "horizontal") <==> oy.Snapped?)
            && (forall g :: g in r.guides && g.orientation == "vertical" ==>
                  g.pos == ox.pos && g.start == Min(yAt, ox.sib.y) && g.end == Max(yAt + target.h, ox.sib.y + ox.sib.h))
            && (forall g :: g in r.guides && g.orientation == "horizontal" ==>
                  g.pos == oy.pos && g.start == Min(xAt, oy.sib.x) && g.end == Max(xAt + target.w, oy.sib.x + oy.sib.w))
            && (|r.guides| == 2 ==> (r.guides[0].orientation == "vertical" <==> ox.sibling <= oy.sibling))
  {
  }

  /** The guides of a snap: one "vertical" guide exactly when X snapped and one "horizontal" guide exactly when Y snapped. */
  lemma {:induction false} SnapGuideKinds(target: Rect, sibs: seq<Rect>, dx: real, dy: real, threshold: real)
    ensures var r := Snap(target, sibs, dx, dy, threshold);
            var ox := AxisOutcome(target.x + dx, target.w, sibs, X, threshold);
            var oy := AxisOutcome(target.y + dy, target.h, sibs, Y, threshold);
            && ((exists g :: g in r.guides && g.orientation == "vertical") <==> ox.Snapped?)
            && ((exists g :: g in r.guides && g.orientation == "horizontal") <==> oy.Snapped?)
  {
    var tx, ty := target.x + dx, target.y + dy;
    var ox := AxisOutcome(tx, target.w, sibs, X, threshold);
    var oy := AxisOutcome(ty, target.h, sibs, Y, threshold);
    assert Snap(target, sibs, dx, dy, threshold) == Assemble(target, tx, ty, ox, oy);
    AssembleGuides(target, tx, ty, ox, oy);
  }

  /** The siblings of the drag scenario below: three 100 x 100 squares in a row at y = 0. */
  function RowOfThree(): seq<Rect> {
    [Rect(0.0, 0.0, 100.0, 100.0), Rect(200.0, 0.0, 100.0, 100.0), Rect(400.0, 0.0, 100.0, 100.0)]
  }

  lemma {:induction false} RowOfThreeX()
    ensures AxisOutcome(198.0, 100.0, RowOfThree(), X, 5.0) == Snapped(1, 200.0, 200.0, RowOfThree()[1])
  {
    var sibs := RowOfThree();
    assert FirstClose(SiblingPairs(198.0, 100.0, sibs[0], X), 5.0) == None;
    assert SiblingSnap(198.0, 100.0, sibs[0], X, 5.0, 0) == Missed;
    assert SiblingPairs(198.0, 100.0, sibs[1], X)[0] == (198.0, 200.0);
    assert SiblingSnap(198.0, 100.0, sibs[1], X, 5.0, 1) == Snapped(1, 200.0, 200.0, sibs[1]);
    assert AxisFrom(198.0, 100.0, sibs, X, 5.0, 1) == Snapped(1, 200.0, 200.0, sibs[1]);
  }

  lemma {:induction false} RowOfThreeY()
    ensures AxisOutcome(0.0, 100.0, RowOfThree(), Y, 5.0) == Snapped(0, 0.0, 0.0, RowOfThree()[0])
  {
    var sibs := RowOfThree();
    assert SiblingSnap(0.0, 100.0, sibs[0], Y, 5.0, 0) == Snapped(0, 0.0, 0.0, sibs[0]);
  }

  /**
   * Dragging a 100 x 100 rectangle to (198, 0) among siblings at x = 0, 200 and 400,
   * all at y = 0, with threshold 5: the Y axis already snaps at the first sibling (top
   * edges at 0) and the X axis at the second (left edges at 200), so the result is
   * (200, 0) with a horizontal guide at 0 followed by a vertical guide at 200.
   */
  lemma {:induction false} DragBesideSiblings()
    ensures Snap(Rect(0.0, 0.0, 100.0, 100.0), RowOfThree(), 198.0, 0.0, 5.0)
            == SnapResult(200.0, 0.0, [Guide("horizontal", 0.0, 0.0, 298.0, "align"),
                                       Guide("vertical", 200.0, 0.0, 100.0, "align")])
  {
    var target := Rect(0.0, 0.0, 100.0, 100.0);
    RowOfThreeX();
    RowOfThreeY();
    var ox := Snapped(1, 200.0, 200.0, RowOfThree()[1]);
    var oy := Snapped(0, 0.0, 0.0, RowOfThree()[0]);
    assert Snap(target, RowOfThree(), 198.0, 0.0, 5.0) == Assemble(target, 198.0, 0.0, ox, oy);
  }

  /** The siblings of the scenario below: two 10 x 10 squares far below the target, at x = 20 and x = 14. */
  function DriftPair(): seq<Rect> {
    [Rect(20.0, 1000.0, 10.0, 10.0), Rect(14.0, 1000.0, 10.0, 10.0)]
  }

  lemma {:induction false} DriftFirstQuery()
    ensures AxisOutcome(13.0, 10.0, DriftPair(), X, 1.5) == Snapped(1, 14.0, 14.0, DriftPair()[1])
  {
    var sibs := DriftPair();
    assert FirstClose(SiblingPairs(13.0, 10.0, sibs[0], X), 1.5) == None;
    assert SiblingSnap(13.0, 10.0, sibs[0], X, 1.5, 0) == Missed;
    assert SiblingPairs(13.0, 10.0, sibs[1], X)[0] == (13.0, 14.0);
    assert SiblingSnap(13.0, 10.0, sibs[1], X, 1.5, 1) == Snapped(1, 14.0, 14.0, sibs[1]);
    assert AxisFrom(13.0, 10.0, sibs, X, 1.5, 1) == Snapped(1, 14.0, 14.0, sibs[1]);
  }

  lemma {:induction false} DriftSecondQuery()
    ensures AxisOutcome(14.0, 10.0, DriftPair(), X, 1.5) == Snapped(0, 15.0, 20.0, DriftPair()[0])
  {
    var sibs := DriftPair();
    var pairs := SiblingPairs(14.0, 10.0, sibs[0], X);
    assert pairs[0] == (14.0, 20.0) && pairs[1] == (14.0, 25.0) && pairs[2] == (14.0, 30.0);
    assert pairs[3] == (19.0, 20.0);
    assert FirstClose(pairs, 1.5) == Some(3);
    assert SiblingSnap(14.0, 10.0, sibs[0], X, 1.5, 0) == Snapped(0, 15.0, 20.0, sibs[0]);
  }

  /**
   * Snapping is not idempotent: a 10 x 10 rectangle dragged to x = 13 snaps to the
   * sibling at x = 14 (the second in the list), but queried again from x = 14 it
   * snaps on to x = 15, because its centre now comes within 1.5 of the first
   * sibling's left edge at 20.
   */
  lemma {:induction false} SnapNotIdempotent()
    ensures var target := Rect(0.0, 0.0, 10.0, 10.0);
            var first := Snap(target, DriftPair(), 13.0, 0.0, 1.5);
            first.x == 14.0 && Snap(target, DriftPair(), first.x, first.y, 1.5).x == 15.0
  {
    var target := Rect(0.0, 0.0, 10.0, 10.0);
    DriftFirstQuery();
    DriftSecondQuery();
    var first := Snap(target, DriftPair(), 13.0, 0.0, 1.5);
    assert first.x == Coord(AxisOutcome(13.0, 10.0, DriftPair(), X, 1.5), 13.0);
    assert Snap(target, DriftPair(), first.x, first.y, 1.5).x == Coord(AxisOutcome(14.0, 10.0, DriftPair(), X, 1.5), 14.0);
  }
}
