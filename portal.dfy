/**
  The portal registry: one record per mounted portal, keyed by its id, and
  the in-place updates the portal, anchor, content and overlay components
  make to it when they mount, render and unmount.
*/
module Portal {
  import opened Wrappers
  import opened Geometry
  import opened Placement

  /** A portal's identity, allocated from a counter starting at 1. */
  datatype PortalId = PortalId(n: nat)

  /** What a content registration carries; only its style text is kept here. */
  datatype ContentProps = ContentProps(style: string)

  /** What an overlay registration carries; only its style text is kept here. */
  datatype OverlayProps = OverlayProps(style: string)

  /** The registry record of one portal. */
  datatype Entry = Entry(
    id: PortalId,
    open: bool,
    layer: int,
    hasAnchorComponent: bool,
    measuredAnchorRect: Option<Rect>,
    customAnchorRect: Option<Rect>,
    verticalParam: AxisParam,
    horizontalParam: AxisParam,
    content: Option<ContentProps>,
    overlay: Option<OverlayProps>)

  /** The properties a portal is declared with. */
  datatype PortalProps = PortalProps(
    open: bool,
    layer: int,
    anchorRect: Option<Rect>,
    verticalParam: AxisParam,
    horizontalParam: AxisParam)

  /**
    The defaults of an undeclared property: closed, layer 0, no anchor
    rectangle, content below the anchor (End, Outside) and centred across it,
    both axes clamped, no offsets.
  */
  function DefaultProps(): (p: PortalProps)
    ensures !p.open && p.layer == 0 && p.anchorRect.None?
    ensures p.verticalParam == AxisParam(End, Outside, 0.0, Clamp)
    ensures p.horizontalParam == AxisParam(Center, Inside, 0.0, Clamp)
  {
    PortalProps(false, 0, None, AxisParam(End, Outside, 0.0, Clamp), AxisParam(Center, Inside, 0.0, Clamp))
  }

  /**
    With the default properties, content whose desired top is not above the
    outlet sits right under the anchor and is centred across it.
  */
  lemma DefaultsPlaceBelowAndCentred(contentSize: Size, a: Rect, bounds: Rect)
    requires MinY(bounds) <= MaxY(a)
    ensures var p := ContentPosition(DefaultProps().verticalParam, DefaultProps().horizontalParam, contentSize, Some(a), bounds);
      p == Point(MinX(a) + (a.size.width - contentSize.width) * 0.5, MaxY(a))
  {
  }

  /** Every record is filed under its own id. */
  ghost predicate KeyedById(entries: map<PortalId, Entry>) {
    forall k :: k in entries ==> entries[k].id == k
  }

  /** A record holds an anchor measurement only while its anchor component is mounted. */
  predicate MeasuredOnlyWithAnchor(e: Entry) {
    e.measuredAnchorRect.Some? ==> e.hasAnchorComponent
  }

  /**
    The registry's invariant: every record is filed under its own id, every
    id was allocated, and no record keeps a measurement without an anchor.
  */
  ghost predicate WellKeyed(entries: map<PortalId, Entry>, nextId: nat) {
    && KeyedById(entries)
    && forall k :: k in entries ==> 1 <= k.n <= nextId && MeasuredOnlyWithAnchor(entries[k])
  }

  /**
    The registry the portal provider shares with every portal: the map of
    records and the id counter.
  */
  class Registry {
    var entries: map<PortalId, Entry>
    var nextId: nat

    ghost predicate Valid()
      reads this
    {
      WellKeyed(entries, nextId)
    }

    /** A provider starts with no records and no ids handed out. */
    constructor ()
      ensures Valid()
      ensures entries == map[] && nextId == 0
    {
      entries := map[];
      nextId := 0;
    }

    /** Hands out the next id; it names no record yet. */
    method AllocId() returns (id: PortalId)
      requires Valid()
      modifies this
      ensures Valid()
      ensures nextId == old(nextId) + 1 && id == PortalId(nextId)
      ensures id !in entries && entries == old(entries)
    {
      nextId := nextId + 1;
      id := PortalId(nextId);
    }

    /**
      A portal renders: its record is (re)inserted from its properties, with
      no anchor component, measurement, content or overlay yet.
    */
    method Mount(id: PortalId, props: PortalProps)
      requires Valid() && 1 <= id.n <= nextId
      modifies this
      ensures Valid()
      ensures entries == old(entries)[id := Entry(id, props.open, props.layer, false, None, props.anchorRect,
                                                  props.verticalParam, props.horizontalParam, None, None)]
      ensures nextId == old(nextId)
    {
      var entry := Entry(id, props.open, props.layer, false, None, props.anchorRect,
                         props.verticalParam, props.horizontalParam, None, None);
      entries := entries[id := entry];
    }

    /** A portal unmounts: its record is removed, whether or not it was there. */
    method Unmount(id: PortalId)
      requires Valid()
      modifies this
      ensures Valid()
      ensures entries == old(entries) - {id} && nextId == old(nextId)
    {
      entries := entries - {id};
    }

    /**
      An anchor renders: the portal now has an anchor component, and its
      measured rectangle is the anchor's latest report (none before the first).
    */
    method AttachAnchor(id: PortalId, measured: Option<Rect>)
      requires Valid() && id in entries
      modifies this
      ensures Valid()
      ensures entries == old(entries)[id := old(entries)[id].(hasAnchorComponent := true, measuredAnchorRect := measured)]
      ensures nextId == old(nextId)
    {
      var entry := entries[id];
      entries := entries[id := entry.(hasAnchorComponent := true, measuredAnchorRect := measured)];
    }

    /** An anchor unmounts: the portal has no anchor component and no measurement. */
    method DetachAnchor(id: PortalId)
      requires Valid() && id in entries
      modifies this
      ensures Valid()
      ensures entries == old(entries)[id := old(entries)[id].(hasAnchorComponent := false, measuredAnchorRect := None)]
      ensures nextId == old(nextId)
    {
      var entry := entries[id];
      entries := entries[id := entry.(hasAnchorComponent := false, measuredAnchorRect := None)];
    }

    /** Content renders: it replaces the portal's content registration. */
    method SetContent(id: PortalId, content: ContentProps)
      requires Valid() && id in entries
      modifies this
      ensures Valid()
      ensures entries == old(entries)[id := old(entries)[id].(content := Some(content))]
      ensures nextId == old(nextId)
    {
      var entry := entries[id];
      entries := entries[id := entry.(content := Some(content))];
    }

    /** Content unmounts: the portal has no content. */
    method DropContent(id: PortalId)
      requires Valid() && id in entries
      modifies this
      ensures Valid()
      ensures entries == old(entries)[id := old(entries)[id].(content := None)]
      ensures nextId == old(nextId)
    {
      var entry := entries[id];
      entries := entries[id := entry.(content := None)];
    }

    /** An overlay renders: it replaces the portal's overlay registration. */
    method SetOverlay(id: PortalId, overlay: OverlayProps)
      requires Valid() && id in entries
      modifies this
      ensures Valid()
      ensures entries == old(entries)[id := old(entries)[id].(overlay := Some(overlay))]
      ensures nextId == old(nextId)
    {
      var entry := entries[id];
      entries := entries[id := entry.(overlay := Some(overlay))];
    }

    /**
      An overlay unmounts, as the library does it: the portal's CONTENT is
      cleared and its overlay registration stays.
    */
    method DropOverlay(id: PortalId)
      requires Valid() && id in entries
      modifies this
      ensures Valid()
      ensures entries == old(entries)[id := old(entries)[id].(content := None)]
      ensures entries[id].overlay == old(entries)[id].overlay
      ensures nextId == old(nextId)
    {
      var entry := entries[id];
      entries := entries[id := entry.(content := None)];
    }

    /**
      An overlay unmounts, as evidently intended: the portal's overlay is
      cleared and its content stays.
    */
    method DropOverlayIntended(id: PortalId)
      requires Valid() && id in entries
      modifies this
      ensures Valid()
      ensures entries == old(entries)[id := old(entries)[id].(overlay := None)]
      ensures entries[id].content == old(entries)[id].content
      ensures nextId == old(nextId)
    {
      var entry := entries[id];
      entries := entries[id := entry.(overlay := None)];
    }
  }
}
