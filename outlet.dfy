/**
  The outlet: it reads the registry, orders the open portals by layer,
  picks the one portal whose overlay is drawn, assigns stacking indices, and
  decides per portal whether and where its content is drawn.
*/
module Outlet {
  import opened Wrappers
  import opened Geometry
  import opened Placement
  import opened Portal

  /** The ids of the open records. */
  function OpenIds(entries: map<PortalId, Entry>): set<PortalId> {
    set k | k in entries && entries[k].open
  }

  /** The ids of a sequence of (id, layer) pairs, in order. */
  function Firsts(pairs: seq<(PortalId, int)>): (ids: seq<PortalId>)
    ensures |ids| == |pairs|
  {
    seq(|pairs|, i requires 0 <= i < |pairs| => pairs[i].0)
  }

  lemma FirstsConcat(u: seq<(PortalId, int)>, v: seq<(PortalId, int)>)
    ensures Firsts(u + v) == Firsts(u) + Firsts(v)
  {
  }

  /** Rearranging the pairs rearranges their ids the same way. */
  lemma {:induction false} FirstsMultiset(s: seq<(PortalId, int)>, t: seq<(PortalId, int)>)
    requires multiset(s) == multiset(t)
    ensures multiset(Firsts(s)) == multiset(Firsts(t))
    decreases |s|
  {
    if s == [] {
      assert |multiset(t)| == 0;
      assert t == [];
    } else {
      var x := s[0];
      assert x in multiset(t);
      var i :| 0 <= i < |t| && t[i] == x;
      var rest := t[..i] + t[i + 1..];
      assert t == t[..i] + [x] + t[i + 1..];
      assert multiset(t) == multiset(t[..i]) + multiset{x} + multiset(t[i + 1..]);
      assert multiset(rest) == multiset(t[..i]) + multiset(t[i + 1..]);
      assert s == [x] + s[1..];
      assert multiset(s) == multiset{x} + multiset(s[1..]);
      assert multiset(s[1..]) == multiset(s) - multiset{x};
      assert multiset(rest) == multiset(t) - multiset{x};
      FirstsMultiset(s[1..], rest);
      FirstsConcat([x], s[1..]);
      FirstsConcat(t[..i], [x]);
      FirstsConcat(t[..i] + [x], t[i + 1..]);
      FirstsConcat(t[..i], t[i + 1..]);
    }
  }

  /**
    Collects (id, layer) of every open record, in the map's iteration order,
    which is arbitrary: each open id exactly once, with its record's layer.
  */
  method CollectOpen(entries: map<PortalId, Entry>) returns (pairs: seq<(PortalId, int)>)
    requires KeyedById(entries)
    ensures multiset(Firsts(pairs)) == multiset(OpenIds(entries))
    ensures forall p :: p in pairs ==> p.0 in entries && p.1 == entries[p.0].layer
  {
    pairs := [];
    var rest := entries.Keys;
    while rest != {}
      invariant rest <= entries.Keys
      invariant multiset(Firsts(pairs)) == multiset(OpenIds(entries) - rest)
      invariant forall p :: p in pairs ==> p.0 in entries && p.1 == entries[p.0].layer
      decreases |rest|
    {
      var k :| k in rest;
      var data := entries[k];
      if data.open {
        FirstsConcat(pairs, [(data.id, data.layer)]);
        assert OpenIds(entries) - (rest - {k}) == (OpenIds(entries) - rest) + {k};
        pairs := pairs + [(data.id, data.layer)];
      } else {
        assert OpenIds(entries) - (rest - {k}) == OpenIds(entries) - rest;
      }
      rest := rest - {k};
    }
  }

  /** Sorts (id, layer) pairs in place by layer, keeping the same pairs. */
  method SortByLayer(a: array<(PortalId, int)>)
    modifies a
    ensures forall i, j :: 0 <= i < j < a.Length ==> a[i].1 <= a[j].1
    ensures multiset(a[..]) == old(multiset(a[..]))
  {
    if a.Length == 0 {
      return;
    }
    var i := 1;
    while i < a.Length
      invariant 1 <= i <= a.Length
      invariant forall p, q :: 0 <= p < q < i ==> a[p].1 <= a[q].1
      invariant multiset(a[..]) == old(multiset(a[..]))
    {
      var j := i;
      while j > 0 && a[j - 1].1 > a[j].1
        invariant 0 <= j <= i
        invariant forall p, q :: 0 <= p < q <= i && q != j ==> a[p].1 <= a[q].1
        invariant multiset(a[..]) == old(multiset(a[..]))
      {
        a[j - 1], a[j] := a[j], a[j - 1];
        j := j - 1;
      }
      i := i + 1;
    }
  }

  /**
    The outlet's `sorted_ids`: every open id exactly once, in non-decreasing
    layer order. Equal layers come out in an order the map decides.
  */
  method OpenIdsByLayer(entries: map<PortalId, Entry>) returns (ids: seq<PortalId>)
    requires KeyedById(entries)
    ensures multiset(ids) == multiset(OpenIds(entries))
    ensures forall i :: 0 <= i < |ids| ==> ids[i] in entries
    ensures forall i, j :: 0 <= i < j < |ids| ==> entries[ids[i]].layer <= entries[ids[j]].layer
  {
    var pairs := CollectOpen(entries);
    var a := new (PortalId, int)[|pairs|](i requires 0 <= i < |pairs| => pairs[i]);
    assert a[..] == pairs;
    SortByLayer(a);
    ids := Firsts(a[..]);
    FirstsMultiset(pairs, a[..]);
    forall i | 0 <= i < a.Length
      ensures a[i].0 in entries && a[i].1 == entries[a[i].0].layer
    {
      assert a[i] in multiset(a[..]);
    }
  }

  /** A value at two positions of a sequence occurs in it at least twice. */
  lemma RepeatCountsTwice(s: seq<PortalId>, i: nat, j: nat)
    requires i < j < |s|
    ensures s[i] == s[j] ==> multiset(s)[s[i]] >= 2
  {
    assert s == s[..i] + [s[i]] + s[i + 1..j] + [s[j]] + s[j + 1..];
    assert multiset(s) == multiset(s[..i]) + multiset{s[i]} + multiset(s[i + 1..j]) + multiset{s[j]} + multiset(s[j + 1..]);
  }

  /** The sorted ids are exactly the open records' ids, none repeated. */
  lemma OpenIdsExactlyOnce(entries: map<PortalId, Entry>, ids: seq<PortalId>)
    requires multiset(ids) == multiset(OpenIds(entries))
    ensures forall k :: k in ids <==> k in entries && entries[k].open
    ensures forall i, j :: 0 <= i < j < |ids| ==> ids[i] != ids[j]
  {
    forall k ensures k in ids <==> k in entries && entries[k].open {
      assert k in ids <==> k in multiset(ids);
    }
    forall i, j | 0 <= i < j < |ids| ensures ids[i] != ids[j] {
      RepeatCountsTwice(ids, i, j);
      assert ids[i] in multiset(ids);
    }
  }

  /** The last id in `ids` whose record has an overlay. */
  function LastWithOverlay(entries: map<PortalId, Entry>, ids: seq<PortalId>): (r: Option<PortalId>)
    requires forall i :: 0 <= i < |ids| ==> ids[i] in entries
    ensures r.Some? ==> r.value in ids && entries[r.value].overlay.Some?
    decreases |ids|
  {
    if ids == [] then None
    else if entries[ids[|ids| - 1]].overlay.Some? then Some(ids[|ids| - 1])
    else LastWithOverlay(entries, ids[..|ids| - 1])
  }

  /**
    The chosen overlay belongs to a record that has one, and no record after
    it in the order has one; there is none exactly when no record has one.
  */
  lemma {:induction false} LastWithOverlayIsTopmost(entries: map<PortalId, Entry>, ids: seq<PortalId>)
    requires forall i :: 0 <= i < |ids| ==> ids[i] in entries
    ensures LastWithOverlay(entries, ids).None? <==> forall i :: 0 <= i < |ids| ==> entries[ids[i]].overlay.None?
    ensures LastWithOverlay(entries, ids).Some? ==>
              exists k :: 0 <= k < |ids| && ids[k] == LastWithOverlay(entries, ids).value
                          && entries[ids[k]].overlay.Some?
                          && forall j :: k < j < |ids| ==> entries[ids[j]].overlay.None?
    decreases |ids|
  {
    if ids != [] {
      var n := |ids| - 1;
      if entries[ids[n]].overlay.None? {
        var front := ids[..n];
        LastWithOverlayIsTopmost(entries, front);
        assert forall i :: 0 <= i < n ==> front[i] == ids[i];
        if LastWithOverlay(entries, front).Some? {
          var k :| 0 <= k < |front| && front[k] == LastWithOverlay(entries, front).value
                   && entries[front[k]].overlay.Some?
                   && forall j :: k < j < |front| ==> entries[front[j]].overlay.None?;
          assert ids[k] == front[k];
        }
      }
    }
  }

  /** The outlet's `rfind`: scans the ordered ids from the top down. */
  method TopmostWithOverlay(entries: map<PortalId, Entry>, ids: seq<PortalId>) returns (r: Option<PortalId>)
    requires forall i :: 0 <= i < |ids| ==> ids[i] in entries
    ensures r == LastWithOverlay(entries, ids)
  {
    var i := |ids|;
    assert ids[..i] == ids;
    while i > 0
      invariant 0 <= i <= |ids|
      invariant LastWithOverlay(entries, ids) == LastWithOverlay(entries, ids[..i])
    {
      assert ids[..i][..i - 1] == ids[..i - 1];
      if entries[ids[i - 1]].overlay.Some? {
        return Some(ids[i - 1]);
      }
      i := i - 1;
    }
    assert ids[..0] == [];
    return None;
  }

  /**
    Three open portals a, b, c with layers 1, 2 and 3, overlays on a and c:
    any result the outlet's ordering may give is [a, b, c], and c's overlay
    is the one drawn.
  */
  lemma OverlayExample(entries: map<PortalId, Entry>, a: PortalId, b: PortalId, c: PortalId, ids: seq<PortalId>)
    requires entries.Keys == {a, b, c} && KeyedById(entries)
    requires entries[a].open && entries[b].open && entries[c].open
    requires entries[a].layer == 1 && entries[b].layer == 2 && entries[c].layer == 3
    requires entries[a].overlay.Some? && entries[b].overlay.None? && entries[c].overlay.Some?
    requires multiset(ids) == multiset(OpenIds(entries))
    requires forall i :: 0 <= i < |ids| ==> ids[i] in entries
    requires forall i, j :: 0 <= i < j < |ids| ==> entries[ids[i]].layer <= entries[ids[j]].layer
    ensures ids == [a, b, c]
    ensures LastWithOverlay(entries, ids) == Some(c)
  {
    OpenIdsExactlyOnce(entries, ids);
    assert OpenIds(entries) == {a, b, c};
    assert |ids| == |multiset(ids)| == |multiset(OpenIds(entries))| == 3;
    assert entries[ids[0]].layer <= entries[ids[1]].layer <= entries[ids[2]].layer;
    assert ids[0] == a && ids[1] == b && ids[2] == c;
    assert ids[..2] == [a, b];
  }

  /** One element the outlet draws, with its stacking index. */
  datatype StackItem = EntrySlot(id: PortalId, zIndex: nat) | Backdrop(id: PortalId, zIndex: nat)

  /**
    What the outlet draws from position `i` of the ordered ids on: the
    content of the portal at position `i` at index 2i+1, followed by its
    overlay at index 2i when it is the chosen one.
  */
  function StackFrom(ids: seq<PortalId>, overlayId: Option<PortalId>, i: nat): (s: seq<StackItem>)
    requires i <= |ids|
    ensures |ids| - i <= |s|
    ensures forall l :: l in s ==> 2 * i <= l.zIndex < 2 * |ids|
    decreases |ids| - i
  {
    if i == |ids| then []
    else
      [EntrySlot(ids[i], 2 * i + 1)]
      + (if overlayId == Some(ids[i]) then [Backdrop(ids[i], 2 * i)] else [])
      + StackFrom(ids, overlayId, i + 1)
  }

  /** The stack item for position `k`: its content, or its overlay when chosen. */
  predicate DrawnAt(ids: seq<PortalId>, overlayId: Option<PortalId>, k: nat, l: StackItem)
    requires k < |ids|
  {
    l == EntrySlot(ids[k], 2 * k + 1) || (overlayId == Some(ids[k]) && l == Backdrop(ids[k], 2 * k))
  }

  /**
    Exactly the items of positions `i` onwards are drawn: each position's
    content at 2k+1 and the chosen overlay at 2k, and nothing else.
  */
  lemma {:induction false} StackMembership(ids: seq<PortalId>, overlayId: Option<PortalId>, i: nat, l: StackItem)
    requires i <= |ids|
    ensures l in StackFrom(ids, overlayId, i) <==> exists k :: i <= k < |ids| && DrawnAt(ids, overlayId, k, l)
    decreases |ids| - i
  {
    if i < |ids| {
      StackMembership(ids, overlayId, i + 1, l);
      var head := [EntrySlot(ids[i], 2 * i + 1)]
                  + (if overlayId == Some(ids[i]) then [Backdrop(ids[i], 2 * i)] else []);
      assert StackFrom(ids, overlayId, i) == head + StackFrom(ids, overlayId, i + 1);
      assert l in head <==> DrawnAt(ids, overlayId, i, l);
    }
  }

  /**
    Every open portal's content is drawn, at index 2k+1 for its position k,
    and the chosen overlay, when its portal is among them, at index 2k.
  */
  lemma StackDrawsEveryContent(ids: seq<PortalId>, overlayId: Option<PortalId>)
    ensures var stack := StackFrom(ids, overlayId, 0);
      && (forall k :: 0 <= k < |ids| ==> EntrySlot(ids[k], 2 * k + 1) in stack)
      && (forall k :: 0 <= k < |ids| && overlayId == Some(ids[k]) ==> Backdrop(ids[k], 2 * k) in stack)
  {
    forall k | 0 <= k < |ids|
      ensures EntrySlot(ids[k], 2 * k + 1) in StackFrom(ids, overlayId, 0)
      ensures overlayId == Some(ids[k]) ==> Backdrop(ids[k], 2 * k) in StackFrom(ids, overlayId, 0)
    {
      StackMembership(ids, overlayId, 0, EntrySlot(ids[k], 2 * k + 1));
      StackMembership(ids, overlayId, 0, Backdrop(ids[k], 2 * k));
      assert DrawnAt(ids, overlayId, k, EntrySlot(ids[k], 2 * k + 1));
      if overlayId == Some(ids[k]) {
        assert DrawnAt(ids, overlayId, k, Backdrop(ids[k], 2 * k));
      }
    }
  }

  /**
    For distinct ordered ids, each stack item belongs to one of them and
    sits at the index its position gives: its content at 2k+1, its overlay,
    which must be the chosen one, at 2k, right below that content and above
    the content of every earlier position.
  */
  lemma StackLayerPositions(ids: seq<PortalId>, overlayId: Option<PortalId>)
    requires forall i, j :: 0 <= i < j < |ids| ==> ids[i] != ids[j]
    ensures var stack := StackFrom(ids, overlayId, 0);
      && (forall l :: l in stack ==> l.id in ids && (l.Backdrop? ==> overlayId == Some(l.id)))
      && (forall l, k :: l in stack && 0 <= k < |ids| && ids[k] == l.id ==>
            l.zIndex == if l.EntrySlot? then 2 * k + 1 else 2 * k)
  {
    var stack := StackFrom(ids, overlayId, 0);
    forall l | l in stack
      ensures l.id in ids && (l.Backdrop? ==> overlayId == Some(l.id))
      ensures forall k :: 0 <= k < |ids| && ids[k] == l.id ==>
                l.zIndex == if l.EntrySlot? then 2 * k + 1 else 2 * k
    {
      StackMembership(ids, overlayId, 0, l);
      var k' :| 0 <= k' < |ids| && DrawnAt(ids, overlayId, k', l);
      assert l.id == ids[k'];
    }
  }

  /** No two items of the outlet's stack share a stacking index. */
  lemma StackIndicesDistinct(ids: seq<PortalId>, overlayId: Option<PortalId>)
    ensures var stack := StackFrom(ids, overlayId, 0);
      forall l, m :: l in stack && m in stack && l.zIndex == m.zIndex ==> l == m
  {
    var stack := StackFrom(ids, overlayId, 0);
    forall l, m | l in stack && m in stack && l.zIndex == m.zIndex
      ensures l == m
    {
      StackMembership(ids, overlayId, 0, l);
      StackMembership(ids, overlayId, 0, m);
      var kl :| 0 <= kl < |ids| && DrawnAt(ids, overlayId, kl, l);
      var km :| 0 <= km < |ids| && DrawnAt(ids, overlayId, km, m);
      assert kl == km;
    }
  }

  /**
    The outlet's ordering and stacking in one pass over a snapshot of the
    registry: the open ids by layer, the portal whose overlay is drawn, and
    the stack items, of which there are none until the outlet itself has
    been measured.
  */
  method Render(entries: map<PortalId, Entry>, outletRect: Option<Rect>)
    returns (ids: seq<PortalId>, overlayId: Option<PortalId>, stack: seq<StackItem>)
    requires KeyedById(entries)
    ensures multiset(ids) == multiset(OpenIds(entries))
    ensures forall i :: 0 <= i < |ids| ==> ids[i] in entries
    ensures forall i, j :: 0 <= i < j < |ids| ==> entries[ids[i]].layer <= entries[ids[j]].layer
    ensures overlayId == LastWithOverlay(entries, ids)
    ensures outletRect.None? ==> stack == []
    ensures outletRect.Some? ==> stack == StackFrom(ids, overlayId, 0)
  {
    ids := OpenIdsByLayer(entries);
    overlayId := TopmostWithOverlay(entries, ids);
    if outletRect.Some? {
      stack := StackFrom(ids, overlayId, 0);
    } else {
      stack := [];
    }
  }

  /**
    The drawn backdrop lies above the content of every portal of a lower
    layer and below the content of every portal of a higher layer: a content
    layer under it has a layer no higher than the backdrop's portal, and one
    over it a layer no lower.
  */
  lemma BackdropSeparatesLayers(entries: map<PortalId, Entry>, ids: seq<PortalId>, overlayId: Option<PortalId>)
    requires forall i :: 0 <= i < |ids| ==> ids[i] in entries
    requires forall i, j :: 0 <= i < j < |ids| ==> ids[i] != ids[j]
    requires forall i, j :: 0 <= i < j < |ids| ==> entries[ids[i]].layer <= entries[ids[j]].layer
    ensures var stack := StackFrom(ids, overlayId, 0);
      forall l, m :: l in stack && m in stack && l.Backdrop? && m.EntrySlot? ==>
        l.id in entries && m.id in entries &&
        (m.zIndex < l.zIndex ==> entries[m.id].layer <= entries[l.id].layer) &&
        (l.zIndex < m.zIndex ==> entries[l.id].layer <= entries[m.id].layer)
  {
    var stack := StackFrom(ids, overlayId, 0);
    StackLayerPositions(ids, overlayId);
    forall l, m | l in stack && m in stack && l.Backdrop? && m.EntrySlot?
      ensures l.id in entries && m.id in entries
      ensures m.zIndex < l.zIndex ==> entries[m.id].layer <= entries[l.id].layer
      ensures l.zIndex < m.zIndex ==> entries[l.id].layer <= entries[m.id].layer
    {
      var k :| 0 <= k < |ids| && ids[k] == l.id;
      var j :| 0 <= j < |ids| && ids[j] == m.id;
      assert l.zIndex == 2 * k && m.zIndex == 2 * j + 1;
    }
  }

  /**
    Whether a portal is drawn and against which anchor: not at all without
    content, nor while it has an anchor component that has not been measured
    and no custom anchor; otherwise the custom anchor if there is one, else
    the measured one (none for a portal without an anchor).
  */
  function AnchorFor(e: Entry): (r: Option<Option<Rect>>)
    ensures r.None? <==> e.content.None? ||
                         (e.customAnchorRect.None? && e.hasAnchorComponent && e.measuredAnchorRect.None?)
    ensures r.Some? && e.customAnchorRect.Some? ==> r.value == e.customAnchorRect
    ensures r.Some? && e.customAnchorRect.None? ==> r.value == e.measuredAnchorRect
    ensures r.Some? && e.hasAnchorComponent ==> r.value.Some?
    ensures r.Some? && r.value.None? ==> e.customAnchorRect.None? && e.measuredAnchorRect.None?
  {
    var useCustomAnchor := e.customAnchorRect.Some?;
    var anchorPreparing := !useCustomAnchor && e.hasAnchorComponent && e.measuredAnchorRect.None?;
    if anchorPreparing || e.content.None? then None
    else if useCustomAnchor then Some(e.customAnchorRect)
    else Some(e.measuredAnchorRect)
  }

  /** How one portal's content is drawn. */
  datatype View =
    | Hidden                                      // nothing is drawn
    | Measuring(zIndex: nat)                      // drawn invisible, to measure its size
    | Shown(left: real, top: real, zIndex: nat)   // drawn at (left, top) relative to the outlet

  /**
    One portal's content: hidden when it is not ready, invisible until its
    own size is known, then placed by the solver and expressed relative to
    the outlet's origin.
  */
  function EntryView(e: Entry, zIndex: nat, size: Option<Size>, outlet: Rect): (v: View)
    ensures v.Hidden? <==> AnchorFor(e).None?
    ensures v.Measuring? <==> AnchorFor(e).Some? && size.None?
    ensures !v.Hidden? ==> v.zIndex == zIndex
  {
    match AnchorFor(e)
    case None => Hidden
    case Some(anchor) =>
      match size
      case None => Measuring(zIndex)
      case Some(s) =>
        var pos := ContentPosition(e.verticalParam, e.horizontalParam, s, anchor, outlet);
        Shown(pos.x - outlet.origin.x, pos.y - outlet.origin.y, zIndex)
  }

  /**
    Where content is drawn inside the outlet does not change when the outlet
    and the portal's anchors move together, as they do when the page scrolls.
  */
  lemma EntryViewTranslation(e: Entry, zIndex: nat, size: Option<Size>, outlet: Rect, dx: real, dy: real)
    ensures var moved := e.(measuredAnchorRect := TranslateAnchor(e.measuredAnchorRect, dx, dy),
                            customAnchorRect := TranslateAnchor(e.customAnchorRect, dx, dy));
      EntryView(moved, zIndex, size, Translate(outlet, dx, dy)) == EntryView(e, zIndex, size, outlet)
  {
    var moved := e.(measuredAnchorRect := TranslateAnchor(e.measuredAnchorRect, dx, dy),
                    customAnchorRect := TranslateAnchor(e.customAnchorRect, dx, dy));
    if AnchorFor(e).Some? && size.Some? {
      assert AnchorFor(moved) == Some(TranslateAnchor(AnchorFor(e).value, dx, dy));
      PositionTranslation(e.verticalParam, e.horizontalParam, size.value, AnchorFor(e).value, outlet, dx, dy);
    }
  }

  /**
    A portal without any anchor (so, by the registry's invariant, without a
    measurement either) whose content is centred on both axes, and
    not shrunk, is drawn in the middle of the outlet, moved by its offsets,
    wherever the outlet is.
  */
  lemma UnanchoredCentredView(e: Entry, zIndex: nat, s: Size, outlet: Rect)
    requires e.content.Some? && !e.hasAnchorComponent && e.customAnchorRect.None?
    requires MeasuredOnlyWithAnchor(e)
    requires e.verticalParam.alignment == Center && e.horizontalParam.alignment == Center
    requires e.verticalParam.overflowPolicy != Shrink && e.horizontalParam.overflowPolicy != Shrink
    ensures EntryView(e, zIndex, Some(s), outlet)
         == Shown((outlet.size.width - s.width) * 0.5 + e.horizontalParam.offset,
                  (outlet.size.height - s.height) * 0.5 + e.verticalParam.offset, zIndex)
  {
    assert AnchorFor(e) == Some(None);
    UnanchoredCenterIsOutletMiddle(e.verticalParam, e.horizontalParam, s, outlet);
  }

  /** Which overlay is drawn depends only on the overlay registrations. */
  lemma {:induction false} OverlayChoiceIgnoresContent(entries: map<PortalId, Entry>, ids: seq<PortalId>,
                                                       id: PortalId, content: Option<ContentProps>)
    requires forall i :: 0 <= i < |ids| ==> ids[i] in entries
    requires id in entries
    ensures LastWithOverlay(entries[id := entries[id].(content := content)], ids) == LastWithOverlay(entries, ids)
    decreases |ids|
  {
    if ids != [] {
      OverlayChoiceIgnoresContent(entries, ids[..|ids| - 1], id, content);
    }
  }

  /**
    The overlay unmount hook as written: after it runs on the portal whose
    backdrop is drawn, that backdrop is still the one drawn, while the
    portal's content, which did not unmount, is no longer drawn.
  */
  lemma OverlayDropKeepsBackdrop(entries: map<PortalId, Entry>, ids: seq<PortalId>, id: PortalId)
    requires forall i :: 0 <= i < |ids| ==> ids[i] in entries
    requires id in entries && LastWithOverlay(entries, ids) == Some(id)
    ensures var after := entries[id := entries[id].(content := None)];
      && LastWithOverlay(after, ids) == Some(id)
      && AnchorFor(after[id]).None?
  {
    OverlayChoiceIgnoresContent(entries, ids, id, None);
  }

  /**
    The overlay unmount hook as intended: afterwards the portal's backdrop
    is never the one drawn, and whether and against what its content is
    drawn is unchanged.
  */
  lemma IntendedOverlayDropRemovesBackdrop(entries: map<PortalId, Entry>, ids: seq<PortalId>, id: PortalId)
    requires forall i :: 0 <= i < |ids| ==> ids[i] in entries
    requires id in entries
    ensures var after := entries[id := entries[id].(overlay := None)];
      && LastWithOverlay(after, ids) != Some(id)
      && AnchorFor(after[id]) == AnchorFor(entries[id])
  {
    var after := entries[id := entries[id].(overlay := None)];
    LastWithOverlayIsTopmost(after, ids);
  }
}
