# dioxus-portal: placement solver, portal registry and outlet ordering in Dafny

This project models the core of the `dioxus-portal` library. The library renders floating content
(dropdowns, tooltips, modals) into one *outlet* that covers the application.
Each floating unit is a *portal*. A portal has an optional *anchor* element, a *content*
element and an optional *overlay* (backdrop). Its content is placed relative to the anchor, or
relative to the outlet when there is no anchor, by an alignment, a spread, an offset and an
overflow policy per axis.

Modules, one per concern of `src/lib.rs`:

- `Wrappers` (`wrappers.dfy`): `Option`.
- `Geometry` (`geometry.dfy`): points, sizes and rectangles as `euclid` defines them
  (origin plus size; `min_x` is the origin, `max_x` the origin plus the width), and 1-D ranges.
- `Placement` (`placement.dfy`): `calc_content_range` as `ContentRange`, with its desired-range
  step as `Desired`, and `calc_content_position` as `ContentPosition`. These are pure functions
  with lemmas per overflow policy, plus translation and mirror symmetry.
- `Portal` (`portal.dfy`): the registry record `Entry` and the portal properties with their
  defaults. The class `Registry` holds the `map` of records and the id counter. Its methods are
  the in-place updates that the portal, anchor, content and overlay components make on mount,
  render and unmount.
- `Outlet` (`outlet.dfy`): the outlet component. It collects the open records in the map's
  (arbitrary) order, sorts them by layer in place on an array, and scans for the topmost portal
  with an overlay. It assigns stacking indices 2i+1 (content) and 2i (overlay). It also covers
  the per-portal decision of whether and where content is drawn.

Three facts about the code shape the model:

- Every registry update looks its id up with `unwrap()` (src/lib.rs:130,138,164,170,186,192),
  so an update to an id that is not registered panics. The model makes the id's presence a
  precondition of those updates.
- `sorted_ids` is built from the values of a `HashMap`, whose iteration order is arbitrary, and
  then sorted by layer. Portals with equal layers therefore come out in an arbitrary order, and
  the model leaves that order open (`CollectOpen` picks keys with `:|`).
- `Shrink` cuts each end of the desired range into the bounds separately, so it returns an
  inverted range when the two do not overlap. `ShrinkClampsEndpoints` states exactly what it
  returns.

Rectangle reports, the content's measured size and the outlet's measured rectangle are
parameters of the operations that use them.

## Model

| member | source | states |
|---|---|---|
| `Placement.Desired` | src/lib.rs:496-532 | The desired range has exactly the content's length. Center puts its midpoint at the base midpoint plus the offset. Start/Inside starts at base.start+offset. Start/Outside ends at base.start−offset. End/Inside ends at base.end−offset. End/Outside starts at base.end+offset. |
| `Placement.ContentRange` | src/lib.rs:490-583 | Every overflow policy except Shrink keeps the content's length, including Flip through its one re-entry. |
| `Placement.IgnoreKeepsDesired` | src/lib.rs:534-535 | Ignore returns the desired range and does not depend on the bounds. |
| `Placement.ShrinkClampsEndpoints` | src/lib.rs:537-540 | Shrink gives [max(desired.start, bounds.start), min(desired.end, bounds.end)]. That range lies within both the bounds and the desired range. It equals the bounds when the desired range covers them, and the desired range when that fits. |
| `Placement.ClampCenterNeverMoves` | src/lib.rs:542 | Clamp never moves centred content: the result is what Ignore gives. |
| `Placement.ClampStartPinsEnd` | src/lib.rs:543-552 | Clamp/Start ends at min(desired.end, bounds.end), never past the bounds. It keeps the length and equals the desired range when that does not overrun the end. |
| `Placement.ClampEndPinsStart` | src/lib.rs:553-562 | Clamp/End starts at max(desired.start, bounds.start), never before the bounds. It keeps the length and equals the desired range when that does not start before the bounds. |
| `Placement.FlipKeepsFitting` | src/lib.rs:564-567 | Flip returns the desired range for centred content, or when that range fits in the bounds. |
| `Placement.FlipFallsBackToClamp` | src/lib.rs:568-581 | When the desired range does not fit, Flip equals Clamp with the opposite alignment and the same spread and offset. That second computation does not flip again. |
| `Placement.FlipHoldsAlignedEdge` | src/lib.rs:564-581 | Flip/Start never starts before the bounds, and Flip/End never ends after them. |
| `Placement.ContentRangeTranslation` | src/lib.rs:490-583 | Moving the base and the bounds by t moves the result by t, for every policy. |
| `Placement.ContentRangeMirror` | src/lib.rs:496-581 | Reflecting base and bounds, swapping Start and End and negating a centred offset reflects the result. Start and End rules, Flip included, are exact mirror images. |
| `Placement.PolicyGuardsEdges` | src/lib.rs:537-581 | Shrink, Clamp/End and Flip/Start never start before the bounds. Clamp/Start and Flip/End, at the content's full length, never end after them. |
| `Placement.ContentPosition` | src/lib.rs:585-644 | In each axis, with or without an anchor, a policy that guards the start keeps the content's top-left corner inside the outlet's start edge, and one that guards the end keeps its far edge inside the outlet. AnchoredAxesIndependent and UnanchoredUsesOutletAsAnchor give each coordinate exactly. |
| `Placement.AnchoredAxesIndependent` | src/lib.rs:600-625 | With an anchor, x is the start of the horizontal range solved against the anchor's and outlet's horizontal extents, and y likewise. x does not depend on anything vertical. |
| `Placement.UnanchoredUsesOutletAsAnchor` | src/lib.rs:626-642 | Without an anchor, the position is the anchored one with both spreads forced to Inside and the outlet as anchor. The chosen spreads make no difference. |
| `Placement.PositionTranslation` | src/lib.rs:585-644 | Moving the anchor and the outlet by (dx, dy) moves the content by (dx, dy). |
| `Placement.UnanchoredCenterIsOutletMiddle` | src/lib.rs:626-642 | Without an anchor, centred and non-shrunk content sits in the middle of the outlet, moved by the offsets. |
| `Placement.CenteredModalExample` | src/lib.rs:626-642 | An 800×600 outlet at the origin with 200×100 centred content gives position (300, 250). |
| `Placement.BelowAnchorClampExamples` | src/lib.rs:553-562 | Content 30 high below the anchor {100,100,50,20} (End/Outside/Clamp) has top 120, both in a 150-high and in a 130-high outlet: End clamping reacts only to the start. |
| `Portal.DefaultProps` | src/lib.rs:57-84 | A portal by default is closed, has layer 0 and no custom anchor rectangle. Vertically it is End/Outside, horizontally Center/Inside, both with offset 0 and policy Clamp. |
| `Portal.DefaultsPlaceBelowAndCentred` | src/lib.rs:68-84 | With the default properties, the content sits right under the anchor and is centred across it, unless its top would be above the outlet. |
| `Portal.Registry.constructor` | src/lib.rs:255 | A provider starts with an empty registry. |
| `Portal.Registry.AllocId` | src/lib.rs:286-294 | Increments the counter and returns it. The id names no existing record, and the invariant is kept. |
| `Portal.Registry.Mount` | src/lib.rs:208-241 | (Re)inserts the record built from the properties, with no anchor component, measurement, content or overlay. Every other record is unchanged. |
| `Portal.Registry.Unmount` | src/lib.rs:243-246 | Removes the id's record and nothing else. |
| `Portal.Registry.AttachAnchor` | src/lib.rs:128-133 | Sets `hasAnchorComponent` and copies the anchor's latest measurement. Every other field and record is unchanged. |
| `Portal.Registry.DetachAnchor` | src/lib.rs:135-141 | Clears `hasAnchorComponent` and the measurement. Every other field and record is unchanged. |
| `Portal.Registry.SetContent` | src/lib.rs:161-166 | Sets only the content registration. |
| `Portal.Registry.DropContent` | src/lib.rs:168-172 | Clears only the content registration. |
| `Portal.Registry.SetOverlay` | src/lib.rs:183-188 | Sets only the overlay registration. |
| `Portal.Registry.DropOverlay` | src/lib.rs:190-194 | As written: clears the content registration and leaves the overlay. |
| `Portal.Registry.DropOverlayIntended` | src/lib.rs:190-194 | As intended: clears only the overlay registration. |
| `Outlet.CollectOpen` | src/lib.rs:345-351 | The collected pairs hold each open id exactly once, each with its record's layer. |
| `Outlet.SortByLayer` | src/lib.rs:352 | After the in-place sort the pairs are in non-decreasing layer order and are a permutation of the input. |
| `Outlet.OpenIdsByLayer` | src/lib.rs:345-354 | `sorted_ids` holds each open id once and no other id, in non-decreasing layer order. |
| `Outlet.OpenIdsExactlyOnce` | src/lib.rs:347-353 | An id is in the sorted ids iff its record is open, and no id is repeated. |
| `Outlet.LastWithOverlay` | src/lib.rs:356-362 | A chosen overlay id is one of the ordered ids, and its record has an overlay. LastWithOverlayIsTopmost adds that it is the topmost one. |
| `Outlet.LastWithOverlayIsTopmost` | src/lib.rs:356-362 | The chosen overlay belongs to a record that has one, and no later record in the order has one. There is none iff no record has an overlay. |
| `Outlet.TopmostWithOverlay` | src/lib.rs:356-362 | The backward scan returns exactly the topmost portal with an overlay. |
| `Outlet.OverlayExample` | src/lib.rs:345-362 | Take three open portals a, b, c with layers 1, 2 and 3, and overlays on a and c. Every order that meets `OpenIdsByLayer`'s postcondition is [a, b, c], and c's overlay is chosen. |
| `Outlet.StackFrom` | src/lib.rs:371-386 | The layers drawn from position i onwards number at least the remaining portals, and their z-indices lie in [2i, 2n). |
| `Outlet.StackMembership` | src/lib.rs:371-386 | A layer is drawn iff it is the content of some position k at 2k+1, or the chosen overlay at 2k. |
| `Outlet.StackDrawsEveryContent` | src/lib.rs:372-384 | Every open portal's entry slot is placed at 2k+1; `EntryView` decides whether anything is drawn in it. The chosen overlay is drawn at 2k. |
| `Outlet.StackLayerPositions` | src/lib.rs:372-384 | For distinct ids, every item in the stack belongs to one of the ordered ids (the open ones, as `Render` orders them). The only overlay is the chosen one, at 2k, just below its own entry slot at 2k+1. |
| `Outlet.StackIndicesDistinct` | src/lib.rs:372-384 | No two drawn layers share a z-index. |
| `Outlet.Render` | src/lib.rs:339-389 | The outlet orders the open ids by layer and chooses the topmost overlay. It draws nothing until it has been measured, and afterwards exactly the stack above. |
| `Outlet.BackdropSeparatesLayers` | src/lib.rs:345-384 | Entry slots placed under the backdrop belong to portals of a layer no higher than the backdrop's portal. Slots placed over it belong to portals of a layer no lower. `EntryView` decides whether a slot draws anything. |
| `Outlet.AnchorFor` | src/lib.rs:417-429 | A portal is not drawn iff it has no content, or it has an unmeasured anchor component and no custom anchor. Otherwise the custom anchor wins over the measured one. A portal with an anchor component is never placed without an anchor. |
| `Outlet.EntryView` | src/lib.rs:412-447 | Content is hidden iff it is not ready. It is drawn invisible iff it is ready and its size is unknown. Otherwise it is placed with the given z-index. |
| `Outlet.EntryViewTranslation` | src/lib.rs:437-443 | The content's position relative to the outlet does not change when the outlet and the anchors move together. |
| `Outlet.UnanchoredCentredView` | src/lib.rs:425-443 | Anchor-less, centred content that is not shrunk is drawn at ((W−w)/2 + offset, (H−h)/2 + offset) inside the outlet, wherever the outlet is. |
| `Outlet.OverlayChoiceIgnoresContent` | src/lib.rs:356-362 | Which overlay is drawn depends only on the overlay registrations. |
| `Outlet.OverlayDropKeepsBackdrop` | src/lib.rs:190-194 | With the as-written hook, the dropped overlay's backdrop is still the one drawn, and the portal's content is no longer drawn. |
| `Outlet.IntendedOverlayDropRemovesBackdrop` | src/lib.rs:190-194 | With the intended hook, the portal's backdrop is no longer drawn, and its content's readiness and anchor are unchanged. |

## Findings

| source | as written | input that shows it | evidently intended | confidence | as-written member | corrected member |
|---|---|---|---|---|---|---|
| src/lib.rs:190-194 | The overlay component's unmount hook sets the record's `content` to `None` and leaves `overlay` set. | An open portal whose `PortalOverlay` child unmounts while the portal and its `PortalContent` stay mounted. The backdrop stays drawn, and the content disappears until the content component renders again. | Clear `overlay`, as the content hook clears `content`. | high (not executed) | `Portal.Registry.DropOverlay`, `Outlet.OverlayDropKeepsBackdrop` | `Portal.Registry.DropOverlayIntended`, `Outlet.IntendedOverlayDropRemovesBackdrop` |

## Left out

- Rectangle observation (src/rect_observer.rs) is left out: the JavaScript glue, `ResizeObserver`, scroll listeners, frame throttling and the asynchronous receive loop. Reports arrive as parameters: the anchor's measurement in `AttachAnchor`, the outlet's rectangle in `Render`, the content's size in `EntryView`.
- Dioxus machinery is left out: `rsx!` markup, signals, contexts, `use_memo`, `use_drop` and the style strings of every component. The content's own size signal and its change check (src/lib.rs:402-410) become the `size` parameter.
- Content and overlay registrations keep only their style text. Attributes and children are markup and are not modelled.
- The overlay entry component (src/lib.rs:466-485) is not modelled separately. It draws the overlay only when the record still has one, and `Render` only chooses a portal that has one.
- The portal provider's layout (src/lib.rs:253-272) and the demo application are markup only.
- Coordinates are reals: `f64` NaN, infinities and rounding are not modelled, and `max`/`min` are the real ones.
- `PortalId` is a natural number: the `u64` counter's wrap-around is not modelled. Layers are unbounded integers: `i32` layers are only compared.
- The id counter of rectangle observers (src/rect_observer.rs:74-83) only names DOM elements and is not modelled.
- The registry's id counter is a field of `Registry` rather than a process-wide global.
- Outlet.SortByLayer: does not state that equal layers keep their relative order (`sort_by_key` is stable), because the pairs come from a `HashMap` whose order is arbitrary, so the order of equal layers is unspecified either way.
- Re-rendering a portal re-inserts its record with its anchor, content and overlay fields reset (`Mount`). The children then register again on their own render. That render order is not modelled.
