# Card UI and floating modal, modelled in Dafny

This project models the two interactive components of the frontend's card UI.

**Drag-and-reorder of cards** (`CardCollection.enableDragAndDrop`, `frontend/script-src/src/card_ui.ts`).
- A container's children are modelled as a sequence of card ids plus at most one placeholder.
- A mouse-down on a card's move tab starts a session:
  - a placeholder sized like the card takes the card's place;
  - the card becomes a translucent overlay that follows the pointer at the grab offset.
- Every mouse move re-clusters the remaining cards into rows. An item joins the current row when its top is within 10 px of the previous item's top.
- The move then puts the placeholder into a slot:
  - the target row is the first row whose first card's bottom lies below the pointer;
  - in that row, the slot is before the first card whose left edge lies right of the pointer, or else after the row's last card;
  - with no target row, the slot is at the end.
- Mouse-up puts the card where the placeholder is and clears the overlay style (all but `height`).
- The model proves the following:
  - clustering is the unique order-preserving partition into rows that obeys the 10 px rule;
  - the placement loops pick exactly the slot the rule describes;
  - the placeholder lands next to the card the slot names;
  - between sessions, the container holds a permutation of its cards and no placeholder.

**The `CardElement` validator.** It refuses a root without the `cardstyle-ui` class. Otherwise it finds the first header, main, footer and resize tab in tree order, and the move tab inside the header. `CardCollection` builds one card per target.

**The floating modal** (`ModalCardElement`, `frontend/script-src/src/modal_ui.ts`).
- It is a closed/open state machine over:
  - the body's `display`;
  - the handler's extent;
  - the one-way `modalPosSetted` flag;
  - the `outsideClickClose` flag, read from a marker's text.
- Opening centres the body once, sized from an optional "W, H" marker, and spreads the handler over the page when outside clicks close the modal.
- Closing collapses the handler and hides the body. Closing again changes nothing.
- The move tab drags the body, and each axis is clamped into the viewport.
- The resize tab resizes it. Each axis is clamped to `[min, min(max, viewport − anchor)]`, with limits read from "W, H" / "V" markers. The defaults are 200×100 and the viewport.

The page is modelled as follows:
- The document is an immutable element tree. The lookups `getElementsByClassName(c)[0]`, `getElementsByTagName(t)[0]` and `querySelector("." + c)` are "first matching descendant in tree order".
- Measurements (`getBoundingClientRect`, `offset*`, `toPx`) are oracle parameters returning integers.
- String handling is `trim`, an ASCII `toLowerCase` and `split(",")`.

Files:
- `wrappers.dfy`: `Option`, `Result`.
- `text.dfy`: trim, lower-casing, split/join.
- `dom.dfy`: the element tree and first-match lookups.
- `card_ui.dfy`: the validator, clustering, placement and the `DragController` class.
- `modal_ui.dfy`: lookups, clamps, marker parsing, state transitions and the `ModalCard` class.

Facts about the code that the model records:
- `modal_ui.ts` registers no keydown listener, so the Escape key closes nothing. The model has no keyboard event.
- The move clamp keeps the window inside the viewport only when the window fits (width ≤ viewport width; likewise for height). A wider window is pinned at 0 when the pointer puts its left edge off screen, and at `viewport − width` (negative) when its right edge passes the viewport's. `ClampIntoView` states both cases.
- The resize clamp computes `max(min, min(limit, candidate))`, so the minimum wins when it exceeds the limit. `ClampSize` states this.
- When outside clicks do not close the modal, `openModal` leaves the handler's extent as it was: unset before the first close, 0×0 after one.

## Model

| member | source | states |
|---|---|---|
| CardUi.NewCardElement | frontend/script-src/src/card_ui.ts:163-183 | succeeds exactly when the root has class `cardstyle-ui`; the card keeps the root, has the first header/main/footer/resize tab under it in tree order, and has the first move tab inside the header, none without a header |
| CardUi.NewCollection | frontend/script-src/src/card_ui.ts:14 | succeeds exactly when every target is a card root, with one card per target |
| CardUi.CollectionCards | frontend/script-src/src/card_ui.ts:14 | card `i` of the collection is the card the validator builds on target `i` |
| CardUi.Cluster | frontend/script-src/src/card_ui.ts:69-85 | no more rows than items, and no rows exactly when there are no items |
| CardUi.ClusterPartition | frontend/script-src/src/card_ui.ts:69-85 | the rows concatenate back to the items in order; every row is non-empty; neighbours in a row have tops within 10 px; a row's first item is 10 px or more from the previous item's top; no items give no rows |
| CardUi.ClusterUnique | frontend/script-src/src/card_ui.ts:74-84 | any partition with those properties is the clustering, so the rule determines the rows completely |
| CardUi.ClusterJoin | frontend/script-src/src/card_ui.ts:76-78 | an item within 10 px of the previous item's top extends the last row |
| CardUi.ClusterOpen | frontend/script-src/src/card_ui.ts:79-83 | the first item, or one 10 px or more off the previous item's top, opens a new row |
| CardUi.ClusterRows | frontend/script-src/src/card_ui.ts:69-85 | the loop over `rows`, `currentRow` and `lastTop` computes the clustering |
| CardUi.ChooseSlot | frontend/script-src/src/card_ui.ts:87-114 | the loops with the `inserted` flag pick the slot of the placement rule: first row whose bottom is below the pointer; first card in it right of the pointer, else after its last card; else the end |
| CardUi.TargetSlotUnique | frontend/script-src/src/card_ui.ts:90-114 | the placement rule picks at most one slot |
| CardUi.SlotIndexNeighbours | frontend/script-src/src/card_ui.ts:95-113 | the slot's index among the cards is right before the named card, right after the row's last card, or after every card |
| CardUi.PlacementOf | frontend/script-src/src/card_ui.ts:64-114 | clustering plus slot choice give the rule's slot and an index that neighbours the right card |
| CardUi.WithPlaceholderAt | frontend/script-src/src/card_ui.ts:98-113 | inserting the placeholder keeps the cards in order, adds exactly one placeholder, at the given index |
| CardUi.CardsOf | frontend/script-src/src/card_ui.ts:63-66 | the card ids among the container's children, skipping the placeholder: an id is listed exactly when its card is a child, and all children are listed when there is no placeholder |
| CardUi.DraggingStyle | frontend/script-src/src/card_ui.ts:44-49 | the dragged card is absolutely positioned, ignores pointer events, has z-index 1000 and opacity 0.7, and has the width and height of its box; `left`/`top` are set later by `moveAt` |
| CardUi.Released | frontend/script-src/src/card_ui.ts:123-130 | mouse-up clears every inline property the drag set except `height`, which it keeps |
| CardUi.PickUp | frontend/script-src/src/card_ui.ts:34-51 | replacing the card by the placeholder keeps the owned cards (container plus held card) and makes the session active with one placeholder |
| CardUi.Relocate | frontend/script-src/src/card_ui.ts:98-113 | moving the placeholder among the same cards keeps the session bookkeeping |
| CardUi.Drop | frontend/script-src/src/card_ui.ts:133-138 | replacing the placeholder by the held card ends the session with no placeholder and the same owned cards |
| CardUi.Settled | frontend/script-src/src/card_ui.ts:133-138 | with no session, the container's cards are a permutation of the owned cards |
| CardUi.DraggedOutside | frontend/script-src/src/card_ui.ts:51 | during a session the dragged card is not among the container's children |
| CardUi.DragController.constructor | frontend/script-src/src/card_ui.ts:12-25 | a controller over the container's cards, with no session active |
| CardUi.DragController.MouseDown | frontend/script-src/src/card_ui.ts:27-53 | a drag starts exactly when the target is a move tab inside a card wrapper, otherwise nothing changes; on start, the placeholder takes the card's place with the card's size, the offset is pointer minus box corner, the card is styled as overlay at page minus offset |
| CardUi.DragController.StartDrag | frontend/script-src/src/card_ui.ts:34-53 | the drag-start state above, from an active card wrapper |
| CardUi.DragController.TakeOut | frontend/script-src/src/card_ui.ts:34-39 | the placeholder replaces the card at its index; the session becomes active |
| CardUi.DragController.MoveAt | frontend/script-src/src/card_ui.ts:55-58 | the dragged card's `left`/`top` become page position minus grab offset, nothing else changes |
| CardUi.DragController.MouseMove | frontend/script-src/src/card_ui.ts:60-115 | the overlay follows the pointer; the container becomes its cards, in order, with the placeholder at the rule's slot |
| CardUi.DragController.Reposition | frontend/script-src/src/card_ui.ts:64-114 | the container becomes its cards with the placeholder at the rule's slot; the session invariant holds |
| CardUi.DragController.MouseUp | frontend/script-src/src/card_ui.ts:119-139 | the card replaces the placeholder, the session ends, the container holds a permutation of the owned cards, the card's style is released keeping `height` |
| CardUi.DragController.PutBack | frontend/script-src/src/card_ui.ts:132-138 | the card takes the placeholder's index and the session variables are cleared |
| ModalUi.LocateModal | frontend/script-src/src/modal_ui.ts:19-34 | fails without a card wrap, or without a card in it; otherwise the card is built on the first `cardstyle-ui` under the handler's first `cardstyle-ui-wrap`, the modal body is that card's parent, the close button is the first `modal-close` in the header (none without a header), and the waker is the first `modal-waker` under the handler |
| ModalUi.NewModal | frontend/script-src/src/modal_ui.ts:19-43 | throws exactly when the lookups fail; otherwise the modal keeps the given handler and the located parts, is hidden, not centred, with outside-click closing on and no move or resize session |
| ModalUi.ModalCard.constructor | frontend/script-src/src/modal_ui.ts:30-43 | the initial state of `initialize`: body hidden, flags at their defaults, no session |
| ModalUi.Close | frontend/script-src/src/modal_ui.ts:46-55 | the result is hidden; an open modal's handler collapses to 0×0; a hidden modal is unchanged; flags and other styles are unchanged; coherence is kept |
| ModalUi.CloseIdempotent | frontend/script-src/src/modal_ui.ts:46-55 | closing twice is closing once |
| ModalUi.ModalCard.CloseModal | frontend/script-src/src/modal_ui.ts:46-55 | the fields become `Close` of the old state |
| ModalUi.OutsideClickCloses | frontend/script-src/src/modal_ui.ts:78-83 | outside clicks close unless the marker exists and its trimmed text is "false" in some letter case |
| ModalUi.MarkerText | frontend/script-src/src/modal_ui.ts:78 | the text of the first marker element of the class, none when there is no such element |
| ModalUi.InitSize | frontend/script-src/src/modal_ui.ts:101-110 | no marker gives no size; a size has two non-empty, trimmed, comma-free parts |
| ModalUi.InitSizeReads | frontend/script-src/src/modal_ui.ts:104-109 | a marker "W,H", with or without further comma fields after H and with any whitespace around either part, gives (W, H) trimmed, and no size when either part is blank |
| ModalUi.TrimmedFields | frontend/script-src/src/modal_ui.ts:105 | trimming the whole marker keeps its first two comma fields and their trimmed values, and leaves any further fields behind a comma |
| ModalUi.InitSizePadded | frontend/script-src/src/modal_ui.ts:103-109 | a marker whose two fields are the same trimmed value W padded with spaces (as in " 64em, 64em ") gives the size W by W |
| ModalUi.InitSizeNeedsComma | frontend/script-src/src/modal_ui.ts:105-106 | a marker with no comma gives no size |
| ModalUi.ResetPosSize | frontend/script-src/src/modal_ui.ts:99-118 | top/left 50%, the centring transform, z-index 1000; width/height from the marker when it gives a size, otherwise unchanged |
| ModalUi.ModalCard.ResetPos | frontend/script-src/src/modal_ui.ts:99-118 | the body style is reset as above and `modalPosSetted` is set |
| ModalUi.Open | frontend/script-src/src/modal_ui.ts:73-97 | the body is shown and centred-once; the flag is read from the marker; the handler is spread exactly when the flag is set, else kept; an already centred body keeps its style; coherence is kept |
| ModalUi.OpenIdempotent | frontend/script-src/src/modal_ui.ts:73-97 | opening an open modal again changes nothing |
| ModalUi.ReopenKeepsPlace | frontend/script-src/src/modal_ui.ts:88-90 | closing and reopening shows the body with the style it had: no re-centring |
| ModalUi.ModalCard.OpenModal | frontend/script-src/src/modal_ui.ts:73-97 | the fields become `Open` of the old state |
| ModalUi.HandlerClick | frontend/script-src/src/modal_ui.ts:59-64 | closes exactly when outside clicks close and the handler itself was hit |
| ModalUi.ModalCard.OnHandlerClick | frontend/script-src/src/modal_ui.ts:59-64 | the fields become `HandlerClick` of the old state |
| ModalUi.ModalCard.OnCloseButtonClick | frontend/script-src/src/modal_ui.ts:65-69 | with a close button the modal closes; without one nothing changes |
| ModalUi.WakerClick | frontend/script-src/src/modal_ui.ts:121-125 | opens exactly when the waker itself was hit |
| ModalUi.ModalCard.OnWakerClick | frontend/script-src/src/modal_ui.ts:121-125 | the fields become `WakerClick` of the old state, nothing without a waker |
| ModalUi.PosSetStays | frontend/script-src/src/modal_ui.ts:88-90 | no transition resets `modalPosSetted` once set |
| ModalUi.ClampIntoView | frontend/script-src/src/modal_ui.ts:150-167 | a start before the viewport goes to 0; otherwise an end past the viewport puts the start at `view − size`, even when that is negative; a window that fits lands fully inside the viewport; a position already inside is kept |
| ModalUi.ClampIntoViewMonotone | frontend/script-src/src/modal_ui.ts:150-167 | a fitting window follows the pointer monotonically |
| ModalUi.ClampIntoViewIdempotent | frontend/script-src/src/modal_ui.ts:150-167 | a clamped position of a fitting window is not moved by clamping again |
| ModalUi.ClampSize | frontend/script-src/src/modal_ui.ts:245-251 | the size is at least the minimum, at most the limit when the minimum allows, the candidate when in bounds, otherwise one of the bounds |
| ModalUi.ClampSizeMonotone | frontend/script-src/src/modal_ui.ts:248-251 | a further drag never gives a smaller size |
| ModalUi.ClampSizeIdempotent | frontend/script-src/src/modal_ui.ts:250-251 | a clamped size is kept by clamping again, for any bounds |
| ModalUi.MarkerParts | frontend/script-src/src/modal_ui.ts:210-211 | the width and height parts contain no comma |
| ModalUi.MarkerPartsSingle | frontend/script-src/src/modal_ui.ts:211 | a single field is used, trimmed, for both width and height |
| ModalUi.MarkerPartsReads | frontend/script-src/src/modal_ui.ts:210-211 | "W, H", with or without further comma fields after H, gives W and H, trimmed |
| ModalUi.MarkerPx | frontend/script-src/src/modal_ui.ts:206-217 | a comma-free marker measures its trimmed text on both axes |
| ModalUi.MarkerPxReads | frontend/script-src/src/modal_ui.ts:206-217 | a marker "W, H", with or without further comma fields after H, measures trimmed W for the width and trimmed H for the height |
| ModalUi.ResolveLimits | frontend/script-src/src/modal_ui.ts:202-228 | 200×100 minimum and the viewport as maximum unless a marker with non-empty text gives them, measured from its parts |
| ModalUi.Pin | frontend/script-src/src/modal_ui.ts:137-144 | the transform is cleared and left/top pinned to the page position; nothing else changes |
| ModalUi.ModalCard.MoveStart | frontend/script-src/src/modal_ui.ts:129-147 | with a move tab, pins the body and records pointer minus box corner; without one nothing changes |
| ModalUi.ModalCard.MoveTo | frontend/script-src/src/modal_ui.ts:150-170 | left/top become pointer minus offset clamped per axis; a window that fits stays inside the viewport; nothing without a session |
| ModalUi.ModalCard.ResizeStart | frontend/script-src/src/modal_ui.ts:184-234 | with a resize tab, pins the body and records pointer, start size and the resolved limits; without one nothing changes |
| ModalUi.ModalCard.ResizeTo | frontend/script-src/src/modal_ui.ts:237-254 | width/height become start plus travel clamped to [min, min(max, viewport − offset)], never below the minimum; nothing without a session |
| ModalUi.ModalCard.MouseUp | frontend/script-src/src/modal_ui.ts:173-176 | both sessions end |
| Text.Trim | frontend/script-src/src/modal_ui.ts:79 | the result neither starts nor ends with whitespace, is empty exactly for all-whitespace text |
| Text.TrimContent | frontend/script-src/src/modal_ui.ts:79 | the trim is one contiguous slice of the text, with only whitespace before and after it |
| Text.TrimUnique | frontend/script-src/src/modal_ui.ts:104 | any slice with only whitespace around it and none at its ends is the trim, so the two clauses above determine it |
| Text.TrimInner | frontend/script-src/src/modal_ui.ts:104-105 | dropping outer whitespace before trimming does not change the trim, which is why the outer `trim()` and the per-part `trim()` compose |
| Text.TrimAround | frontend/script-src/src/modal_ui.ts:104 | trimming "A,B" strips only the whitespace before A and after B |
| Text.ToLower | frontend/script-src/src/modal_ui.ts:79 | same length, each character lower-cased on its own |
| Text.Split | frontend/script-src/src/modal_ui.ts:105 | at least one part, and no part contains the separator |
| Text.TrimIdempotent | frontend/script-src/src/modal_ui.ts:104-105 | trimming twice is trimming once |
| Text.LowerIsFalse | frontend/script-src/src/modal_ui.ts:79 | lower-casing gives "false" exactly for the spellings of "false" in any case |
| Text.SplitJoin | frontend/script-src/src/modal_ui.ts:105 | splitting on "," loses nothing: joining the parts back gives the text |
| Text.JoinSplit | frontend/script-src/src/modal_ui.ts:105 | joining comma-free parts and splitting gives the parts back |
| Text.SplitFirstTwo | frontend/script-src/src/modal_ui.ts:210-211 | the first two parts of "A,B" followed by anything that starts with the separator are A and B |
| Dom.FirstElement | frontend/script-src/src/card_ui.ts:170-180 | the first descendant in tree order matching the selector, none exactly when no descendant matches |
| Dom.FirstMatch | frontend/script-src/src/modal_ui.ts:21-22 | the first matching descendant together with its parent element |
| Dom.DescendantParents | frontend/script-src/src/modal_ui.ts:74 | every descendant's recorded parent has it as a child (`parentElement`) |

## Left out

- Measurement: `getBoundingClientRect`, `offsetWidth`/`offsetHeight`/`offsetLeft`/`offsetTop` and the `toPx` hidden-element measurement are oracle parameters with integer pixel values; fractional pixels are not modelled.
- Scroll: the page scroll at mouse-down is a parameter. The modal's move clamp takes the rendered left/top to equal the assigned `left`/`top` (fixed positioning, no scroll); the code mixes page and client coordinates there.
- Event plumbing: `addEventListener`/`removeEventListener`, `preventDefault` and `console.log` are not modelled. A session field stands for the listeners a mouse-down installs.
- CardUi.DragController.MouseDown: requires that no session is active, so a second mouse-down during a drag (which would install a second set of listeners) is not modelled. It also requires the grabbed wrapper to be a child of the container.
- CardUi.DragController: the dragged card's move into `document.body` is modelled as its leaving the container; the body's other children are not modelled. Cards are modelled as direct children of the container.
- ModalUi.ModalCard.MoveStart and ModalUi.ModalCard.ResizeStart: a mouse-down during a session of the same kind replaces the session; the code would stack listeners.
- ModalUi.ModalCard.MoveTo and ModalUi.ModalCard.ResizeTo: only the final value of each style write is modelled. The intermediate unclamped assignment is overwritten in the same handler before anything is rendered.
- The handler element's inline width and height are taken as unset before the first open.
- Element identity: elements are values, and the `event.target == …` comparisons are value equality.
- `toLowerCase` is modelled on ASCII letters only. No other character lower-cases to a letter of "false", so the outside-click flag is exact.
- The `if (!card)` check in the modal constructor can never fire, because `new` never yields null. A missing wrap or card throws earlier, and the model reports that as an error.
- Keyboard (Escape) closing: the code has no keydown listener.
- `frontend/script-src/src/index.ts`, the backend crate and the build configuration are not part of this model.
