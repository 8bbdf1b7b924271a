/**
  The placement solver: where a piece of floating content of a given length
  goes on one axis, relative to a base range (the anchor's extent, or the
  outlet's when there is no anchor) and inside a bounds range (the outlet's
  extent), and the two-axis position built from it.
*/
module Placement {
  import opened Wrappers
  import opened Geometry

  datatype Alignment = Start | Center | End
  datatype Spread = Inside | Outside
  datatype OverflowPolicy = Ignore | Shrink | Clamp | Flip

  /** Placement parameters of one axis. */
  datatype AxisParam = AxisParam(alignment: Alignment, spread: Spread, offset: real, overflowPolicy: OverflowPolicy)

  /**
    The range the content would like to occupy, before the overflow policy
    looks at the bounds. Center puts the content's midpoint on the base's
    midpoint moved by the offset, whatever the spread; Inside keeps the
    content on the base's side of the chosen edge, Outside puts it beyond.
  */
  function Desired(length: real, param: AxisParam, base: Range): (r: Range)
    ensures Length(r) == length
    ensures param.alignment == Center ==>
              r.start + r.end == base.start + base.end + 2.0 * param.offset
    ensures param.alignment == Start && param.spread == Inside ==> r.start == base.start + param.offset
    ensures param.alignment == Start && param.spread == Outside ==> r.end == base.start - param.offset
    ensures param.alignment == End && param.spread == Inside ==> r.end == base.end - param.offset
    ensures param.alignment == End && param.spread == Outside ==> r.start == base.end + param.offset
  {
    match (param.alignment, param.spread)
    case (Center, _) =>
      var basePoint := (base.start + base.end) * 0.5 + param.offset;
      Range(basePoint - length * 0.5, basePoint + length * 0.5)
    case (Start, Inside) =>
      var basePoint := base.start + param.offset;
      Range(basePoint, basePoint + length)
    case (Start, Outside) =>
      var basePoint := base.start - param.offset;
      Range(basePoint - length, basePoint)
    case (End, Inside) =>
      var basePoint := base.end - param.offset;
      Range(basePoint - length, basePoint)
    case (End, Outside) =>
      var basePoint := base.end + param.offset;
      Range(basePoint, basePoint + length)
  }

  /** The alignment a Flip falls back to: Start becomes End, anything else Start. */
  function Flipped(a: Alignment): Alignment {
    if a == Start then End else Start
  }

  /**
    The range the content finally occupies on one axis. Every policy except
    Shrink keeps the content's length; Flip re-enters once, with the
    opposite alignment and Clamp.
  */
  function ContentRange(length: real, param: AxisParam, base: Range, bounds: Range): (r: Range)
    ensures param.overflowPolicy != Shrink ==> Length(r) == length
    decreases param.overflowPolicy == Flip
  {
    var desired := Desired(length, param, base);
    match (param.overflowPolicy, param.alignment)
    case (Ignore, _) => desired
    case (Shrink, _) => Range(Max(desired.start, bounds.start), Min(desired.end, bounds.end))
    case (Clamp, Center) => desired
    case (Clamp, Start) =>
      if bounds.end < desired.end then Range(bounds.end - length, bounds.end) else desired
    case (Clamp, End) =>
      if desired.start < bounds.start then Range(bounds.start, bounds.start + length) else desired
    case (Flip, Center) => desired
    case (Flip, _) =>
      if bounds.start <= desired.start && desired.end <= bounds.end then desired
      else
        var flippedParam := AxisParam(Flipped(param.alignment), param.spread, param.offset, Clamp);
        ContentRange(length, flippedParam, base, bounds)
  }

  /** Ignore returns the desired range whatever the bounds are. */
  lemma IgnoreKeepsDesired(length: real, param: AxisParam, base: Range, bounds: Range, otherBounds: Range)
    requires param.overflowPolicy == Ignore
    ensures ContentRange(length, param, base, bounds) == Desired(length, param, base)
    ensures ContentRange(length, param, base, bounds) == ContentRange(length, param, base, otherBounds)
  {
  }

  /**
    Shrink cuts each end of the desired range into the bounds independently:
    the result lies within both the bounds and the desired range, is the
    bounds when the desired range covers them and the desired range when it
    already fits. The result may be inverted when the two do not overlap.
  */
  lemma ShrinkClampsEndpoints(length: real, param: AxisParam, base: Range, bounds: Range)
    requires param.overflowPolicy == Shrink
    ensures var d, r := Desired(length, param, base), ContentRange(length, param, base, bounds);
      && r.start == Max(d.start, bounds.start) && r.end == Min(d.end, bounds.end)
      && bounds.start <= r.start && r.end <= bounds.end
      && d.start <= r.start && r.end <= d.end
      && (Within(bounds, d) ==> r == bounds)
      && (Within(d, bounds) ==> r == d)
  {
  }

  /** Clamp never moves centred content: it stays where Ignore would put it. */
  lemma ClampCenterNeverMoves(length: real, param: AxisParam, base: Range, bounds: Range)
    requires param.overflowPolicy == Clamp && param.alignment == Center
    ensures ContentRange(length, param, base, bounds) == Desired(length, param, base)
    ensures ContentRange(length, param, base, bounds) == ContentRange(length, param.(overflowPolicy := Ignore), base, bounds)
  {
  }

  /**
    Clamp with Start alignment slides the content back so that it ends no
    later than the bounds: its end is the smaller of the desired end and the
    bounds' end, its length is kept, and it is the desired range when that
    does not overrun the end.
  */
  lemma ClampStartPinsEnd(length: real, param: AxisParam, base: Range, bounds: Range)
    requires param.overflowPolicy == Clamp && param.alignment == Start
    ensures var d, r := Desired(length, param, base), ContentRange(length, param, base, bounds);
      && r.end == Min(d.end, bounds.end)
      && Length(r) == length
      && r.end <= bounds.end
      && (d.end <= bounds.end ==> r == d)
  {
  }

  /**
    Clamp with End alignment slides the content forward so that it starts no
    earlier than the bounds: its start is the larger of the desired start and
    the bounds' start, its length is kept, and it is the desired range when
    that does not start before the bounds.
  */
  lemma ClampEndPinsStart(length: real, param: AxisParam, base: Range, bounds: Range)
    requires param.overflowPolicy == Clamp && param.alignment == End
    ensures var d, r := Desired(length, param, base), ContentRange(length, param, base, bounds);
      && r.start == Max(d.start, bounds.start)
      && Length(r) == length
      && bounds.start <= r.start
      && (bounds.start <= d.start ==> r == d)
  {
  }

  /** Flip keeps a desired range that fits, and never flips centred content. */
  lemma FlipKeepsFitting(length: real, param: AxisParam, base: Range, bounds: Range)
    requires param.overflowPolicy == Flip
    requires param.alignment == Center || Within(Desired(length, param, base), bounds)
    ensures ContentRange(length, param, base, bounds) == Desired(length, param, base)
  {
  }

  /**
    When the desired range does not fit, Flip gives exactly what Clamp gives
    with the opposite alignment, the same spread and offset; that second
    computation does not flip again.
  */
  lemma FlipFallsBackToClamp(length: real, param: AxisParam, base: Range, bounds: Range)
    requires param.overflowPolicy == Flip && param.alignment != Center
    requires !Within(Desired(length, param, base), bounds)
    ensures ContentRange(length, param, base, bounds)
         == ContentRange(length, param.(alignment := Flipped(param.alignment), overflowPolicy := Clamp), base, bounds)
  {
  }

  /**
    Whatever happens, Flip with Start alignment never starts before the
    bounds, and Flip with End alignment never ends after them: either the
    desired range fits, or the clamp of the opposite side holds that edge.
  */
  lemma FlipHoldsAlignedEdge(length: real, param: AxisParam, base: Range, bounds: Range)
    requires param.overflowPolicy == Flip
    ensures var r := ContentRange(length, param, base, bounds);
      && (param.alignment == Start ==> bounds.start <= r.start)
      && (param.alignment == End ==> r.end <= bounds.end)
  {
    var d := Desired(length, param, base);
    if param.alignment != Center && !Within(d, bounds) {
      var flippedParam := AxisParam(Flipped(param.alignment), param.spread, param.offset, Clamp);
      if param.alignment == Start {
        ClampEndPinsStart(length, flippedParam, base, bounds);
      } else {
        ClampStartPinsEnd(length, flippedParam, base, bounds);
      }
    }
  }

  /**
    The solver only depends on relative geometry: moving the base and the
    bounds together moves the result by the same amount.
  */
  lemma {:induction false} ContentRangeTranslation(length: real, param: AxisParam, base: Range, bounds: Range, t: real)
    ensures ContentRange(length, param, Shift(base, t), Shift(bounds, t))
         == Shift(ContentRange(length, param, base, bounds), t)
    decreases param.overflowPolicy == Flip
  {
    var d := Desired(length, param, base);
    assert Desired(length, param, Shift(base, t)) == Shift(d, t);
    if param.overflowPolicy == Flip && param.alignment != Center && !Within(d, bounds) {
      var flippedParam := AxisParam(Flipped(param.alignment), param.spread, param.offset, Clamp);
      ContentRangeTranslation(length, flippedParam, base, bounds, t);
    }
  }

  /**
    The mirror image of a parameter: Start and End trade places, and a
    centred offset points the other way.
  */
  function Mirror(param: AxisParam): AxisParam {
    match param.alignment
    case Start => param.(alignment := End)
    case End => param.(alignment := Start)
    case Center => param.(offset := -param.offset)
  }

  /**
    Start and End are handled as exact mirror images: reflecting the base
    and the bounds and mirroring the parameter reflects the result, for
    every spread and every overflow policy, Flip's fallback included.
  */
  lemma {:induction false} ContentRangeMirror(length: real, param: AxisParam, base: Range, bounds: Range)
    ensures ContentRange(length, Mirror(param), Negate(base), Negate(bounds))
         == Negate(ContentRange(length, param, base, bounds))
    decreases param.overflowPolicy == Flip
  {
    var d := Desired(length, param, base);
    assert Desired(length, Mirror(param), Negate(base)) == Negate(d);
    if param.overflowPolicy == Flip && param.alignment != Center && !Within(d, bounds) {
      var flippedParam := AxisParam(Flipped(param.alignment), param.spread, param.offset, Clamp);
      ContentRangeMirror(length, flippedParam, base, bounds);
      assert Mirror(flippedParam) == AxisParam(Flipped(Mirror(param).alignment), param.spread, param.offset, Clamp);
    }
  }

  /** The policies that keep the content from starting before the bounds. */
  predicate GuardsStart(param: AxisParam) {
    || param.overflowPolicy == Shrink
    || (param.overflowPolicy == Clamp && param.alignment == End)
    || (param.overflowPolicy == Flip && param.alignment == Start)
  }

  /** The policies that keep the content, at its full length, from ending after the bounds. */
  predicate GuardsEnd(param: AxisParam) {
    || (param.overflowPolicy == Clamp && param.alignment == Start)
    || (param.overflowPolicy == Flip && param.alignment == End)
  }

  /**
    What the overflow policies promise about the bounds: the guarded start
    is never before the bounds' start, and content of the full length with
    a guarded end never ends after the bounds' end.
  */
  lemma PolicyGuardsEdges(length: real, param: AxisParam, base: Range, bounds: Range)
    ensures var r := ContentRange(length, param, base, bounds);
      && (GuardsStart(param) ==> bounds.start <= r.start)
      && (GuardsEnd(param) ==> r.start + length <= bounds.end)
  {
    match (param.overflowPolicy, param.alignment)
    case (Shrink, _) => ShrinkClampsEndpoints(length, param, base, bounds);
    case (Clamp, Start) => ClampStartPinsEnd(length, param, base, bounds);
    case (Clamp, End) => ClampEndPinsStart(length, param, base, bounds);
    case (Flip, _) => FlipHoldsAlignedEdge(length, param, base, bounds);
    case (_, _) =>
  }

  /**
    The top-left corner of the content. With an anchor each axis is solved
    against the anchor's extent inside the outlet's extent; without one the
    spread is forced to Inside and the outlet's extent is both base and bounds.
    The result is in the same (viewport) coordinates as the rectangles.
  */
  function ContentPosition(vertical: AxisParam, horizontal: AxisParam, contentSize: Size,
                           anchor: Option<Rect>, bounds: Rect): (p: Point)
    ensures GuardsStart(horizontal) ==> MinX(bounds) <= p.x
    ensures GuardsEnd(horizontal) ==> p.x + contentSize.width <= MaxX(bounds)
    ensures GuardsStart(vertical) ==> MinY(bounds) <= p.y
    ensures GuardsEnd(vertical) ==> p.y + contentSize.height <= MaxY(bounds)
  {
    var boundsV := VerticalExtent(bounds);
    var boundsH := HorizontalExtent(bounds);
    match anchor
    case Some(a) =>
      var rangeV := ContentRange(contentSize.height, vertical, VerticalExtent(a), boundsV);
      var rangeH := ContentRange(contentSize.width, horizontal, HorizontalExtent(a), boundsH);
      PolicyGuardsEdges(contentSize.height, vertical, VerticalExtent(a), boundsV);
      PolicyGuardsEdges(contentSize.width, horizontal, HorizontalExtent(a), boundsH);
      Point(rangeH.start, rangeV.start)
    case None =>
      var paramV := vertical.(spread := Inside);
      var paramH := horizontal.(spread := Inside);
      var rangeV := ContentRange(contentSize.height, paramV, boundsV, boundsV);
      var rangeH := ContentRange(contentSize.width, paramH, boundsH, boundsH);
      PolicyGuardsEdges(contentSize.height, paramV, boundsV, boundsV);
      PolicyGuardsEdges(contentSize.width, paramH, boundsH, boundsH);
      Point(rangeH.start, rangeV.start)
  }

  /**
    With an anchor, each coordinate is the start of its own axis's range:
    the horizontal one is decided only by the horizontal parameter, the
    content's width and the horizontal extents, and likewise vertically.
  */
  lemma AnchoredAxesIndependent(vertical: AxisParam, horizontal: AxisParam, contentSize: Size, a: Rect, bounds: Rect,
                                otherVertical: AxisParam, otherHeight: real, otherA: Rect, otherBounds: Rect)
    requires HorizontalExtent(otherA) == HorizontalExtent(a) && HorizontalExtent(otherBounds) == HorizontalExtent(bounds)
    ensures var p := ContentPosition(vertical, horizontal, contentSize, Some(a), bounds);
      && p.x == ContentRange(contentSize.width, horizontal, HorizontalExtent(a), HorizontalExtent(bounds)).start
      && p.y == ContentRange(contentSize.height, vertical, VerticalExtent(a), VerticalExtent(bounds)).start
      && ContentPosition(otherVertical, horizontal, Size(contentSize.width, otherHeight), Some(otherA), otherBounds).x == p.x
  {
  }

  /**
    Without an anchor the outlet itself is the anchor, and the spread the
    caller chose makes no difference.
  */
  lemma UnanchoredUsesOutletAsAnchor(vertical: AxisParam, horizontal: AxisParam, contentSize: Size, bounds: Rect,
                                     spreadV: Spread, spreadH: Spread)
    ensures ContentPosition(vertical, horizontal, contentSize, None, bounds)
         == ContentPosition(vertical.(spread := Inside), horizontal.(spread := Inside), contentSize, Some(bounds), bounds)
    ensures ContentPosition(vertical, horizontal, contentSize, None, bounds)
         == ContentPosition(vertical.(spread := spreadV), horizontal.(spread := spreadH), contentSize, None, bounds)
  {
  }

  /** Moves an optional anchor by `(dx, dy)`. */
  function TranslateAnchor(anchor: Option<Rect>, dx: real, dy: real): Option<Rect> {
    match anchor
    case Some(a) => Some(Translate(a, dx, dy))
    case None => None
  }

  /** Moving the anchor and the outlet together moves the content with them. */
  lemma PositionTranslation(vertical: AxisParam, horizontal: AxisParam, contentSize: Size,
                            anchor: Option<Rect>, bounds: Rect, dx: real, dy: real)
    ensures var p := ContentPosition(vertical, horizontal, contentSize, anchor, bounds);
      ContentPosition(vertical, horizontal, contentSize, TranslateAnchor(anchor, dx, dy), Translate(bounds, dx, dy))
        == Point(p.x + dx, p.y + dy)
  {
    var paramV := if anchor.Some? then vertical else vertical.(spread := Inside);
    var paramH := if anchor.Some? then horizontal else horizontal.(spread := Inside);
    var a := if anchor.Some? then anchor.value else bounds;
    ContentRangeTranslation(contentSize.height, paramV, VerticalExtent(a), VerticalExtent(bounds), dy);
    ContentRangeTranslation(contentSize.width, paramH, HorizontalExtent(a), HorizontalExtent(bounds), dx);
    assert VerticalExtent(Translate(a, dx, dy)) == Shift(VerticalExtent(a), dy);
    assert HorizontalExtent(Translate(a, dx, dy)) == Shift(HorizontalExtent(a), dx);
    assert VerticalExtent(Translate(bounds, dx, dy)) == Shift(VerticalExtent(bounds), dy);
    assert HorizontalExtent(Translate(bounds, dx, dy)) == Shift(HorizontalExtent(bounds), dx);
  }

  /**
    Without an anchor, centred content that is not shrunk sits in the middle
    of the outlet, moved by the offsets.
  */
  lemma UnanchoredCenterIsOutletMiddle(vertical: AxisParam, horizontal: AxisParam, contentSize: Size, bounds: Rect)
    requires vertical.alignment == Center && horizontal.alignment == Center
    requires vertical.overflowPolicy != Shrink && horizontal.overflowPolicy != Shrink
    ensures ContentPosition(vertical, horizontal, contentSize, None, bounds)
         == Point(bounds.origin.x + (bounds.size.width - contentSize.width) * 0.5 + horizontal.offset,
                  bounds.origin.y + (bounds.size.height - contentSize.height) * 0.5 + vertical.offset)
  {
  }

  /** An 800×600 outlet at the origin centres 200×100 content at (300, 250). */
  lemma CenteredModalExample()
    ensures var centred := AxisParam(Center, Inside, 0.0, Clamp);
      ContentPosition(centred, centred, Size(200.0, 100.0), None, Rect(Point(0.0, 0.0), Size(800.0, 600.0)))
        == Point(300.0, 250.0)
  {
  }

  /**
    Content 30 high below a 20-high anchor at y = 100 (End, Outside, Clamp)
    wants 120..150. In a 150-high outlet it fits; in a 130-high outlet it
    overruns the end, but End clamping only reacts to the start, so the top
    stays at 120 either way.
  */
  lemma BelowAnchorClampExamples()
    ensures var below := AxisParam(End, Outside, 0.0, Clamp);
      var centred := AxisParam(Center, Inside, 0.0, Clamp);
      var anchor := Rect(Point(100.0, 100.0), Size(50.0, 20.0));
      && ContentPosition(below, centred, Size(80.0, 30.0), Some(anchor), Rect(Point(0.0, 0.0), Size(800.0, 150.0))).y == 120.0
      && ContentPosition(below, centred, Size(80.0, 30.0), Some(anchor), Rect(Point(0.0, 0.0), Size(800.0, 130.0))).y == 120.0
  {
  }
}
