/**
 * The floating modal (`ModalCardElement`): a card inside a modal handler
 * element. A waker opens it, centred once and sized from an optional marker;
 * the close button, or a click on the handler itself, closes it; the card's
 * move tab drags it around inside the viewport and its resize tab resizes it
 * between a minimum and a maximum size.
 */
module ModalUi {
  import opened Wrappers
  import opened Dom
  import opened Text
  import opened CardUi

  const WrapClass := "cardstyle-ui-wrap"
  const CloseClass := "modal-close"
  const WakerClass := "modal-waker"
  const OutsideClickClass := "modal-outside-click-close"
  const SizeInitClass := "modal-size-init"
  const SizeMinClass := "modal-size-min"
  const SizeMaxClass := "modal-size-max"

  /** The resize handler's minimum size when no minimum marker is given. */
  const DefaultMinWidth: int := 200
  const DefaultMinHeight: int := 100

  /** The z-index a centred modal body gets. */
  const ModalZIndex: int := 1000

  /** The transform that centres the body on its `top`/`left` of 50%. */
  const CenterTransform := "translate(-50%, -50%)"

  function Min(a: int, b: int): int {
    if a <= b then a else b
  }

  function Max(a: int, b: int): int {
    if a >= b then a else b
  }

  // ---------------------------------------------------------------------
  // Locating the parts (the constructor)
  // ---------------------------------------------------------------------

  /** Why the constructor throws. */
  datatype ModalError =
    | NoCardWrap   // no `cardstyle-ui-wrap` under the handler: reading `[0]` of it fails
    | NoCard       // no `cardstyle-ui` in the wrap: the `CardElement` constructor gets `null`

  /**
   * What the constructor and `initialize` find: the card, its parent element
   * (the modal body), the close button in the card's header and the waker.
   */
  datatype ModalParts = ModalParts(
    card: CardElement,
    modalBody: Element,
    closeButton: Option<Element>,
    waker: Option<Element>)

  /**
   * The constructor's lookups: the first card wrapper under the handler, the
   * first card in it, the first `modal-close` in the card's header (none
   * without a header) and the first `modal-waker` under the handler.
   */
  function LocateModal(handler: Element): (r: Result<ModalParts, ModalError>)
    ensures r == Err(NoCardWrap) <==> FirstElement(handler, ByClass(WrapClass)).None?
    ensures r == Err(NoCard) <==>
      exists wrap :: FirstElement(handler, ByClass(WrapClass)) == Some(wrap) &&
        FirstElement(wrap, ByClass(CardClass)).None?
    ensures r.Ok? ==>
      exists wrap :: FirstElement(handler, ByClass(WrapClass)) == Some(wrap) &&
        FirstMatch(wrap, ByClass(CardClass)) == Some(Hit(r.value.modalBody, r.value.card.target))
    ensures r.Ok? ==> IsCardOf(r.value.card.target, r.value.card)
    ensures r.Ok? ==> CardClass in r.value.card.target.classes
    ensures r.Ok? ==> r.value.card.target in r.value.modalBody.children
    ensures r.Ok? && r.value.card.header.None? ==> r.value.closeButton.None?
    ensures r.Ok? && r.value.card.header.Some? ==>
      IsFirstElement(r.value.card.header.value, ByClass(CloseClass), r.value.closeButton)
    ensures r.Ok? ==> IsFirstElement(handler, ByClass(WakerClass), r.value.waker)
  {
    match FirstElement(handler, ByClass(WrapClass))
    case None => Err(NoCardWrap)
    case Some(wrap) =>
      match FirstMatch(wrap, ByClass(CardClass))
      case None => Err(NoCard)
      case Some(hit) =>
        DescendantParents(wrap);
        var card := NewCardElement(hit.elem).value;
        var closeButton := match card.header
          case None => None
          case Some(h) => FirstElement(h, ByClass(CloseClass));
        Ok(ModalParts(card, hit.parent, closeButton, FirstElement(handler, ByClass(WakerClass))))
  }

  // ---------------------------------------------------------------------
  // Styles and the open/closed state
  // ---------------------------------------------------------------------

  /** An inline CSS value: not set (the empty string), pixels, a percentage, or text copied verbatim. */
  datatype Css = Unset | Px(px: int) | Percent(pct: int) | Verbatim(text: string)

  /** The modal body's `display`: `none` while closed, `block` while open. */
  datatype Display = DisplayNone | DisplayBlock

  /** An inline width and height. */
  datatype Extent = Extent(width: Css, height: Css)

  /** The handler collapsed by `closeModal`. */
  const ZeroExtent := Extent(Px(0), Px(0))

  /** The handler spread over the page by `openModal`, to catch outside clicks. */
  const FullExtent := Extent(Percent(100), Percent(100))

  /** The modal body's inline style properties the modal writes. */
  datatype BodyStyle = BodyStyle(
    display: Display,
    width: Css,
    height: Css,
    top: Css,
    left: Css,
    transform: Css,
    zIndex: Option<int>)

  /**
   * The modal's own state: the `outsideClickClose` and `modalPosSetted`
   * flags, the handler's extent and the body's style.
   */
  datatype ModalState = ModalState(
    outsideClickClose: bool,
    posSet: bool,
    overlay: Extent,
    body: BodyStyle)

  /**
   * What holds between the flags and the styles: the handler is spread over
   * the page only while the modal is open, and always then when outside
   * clicks close it; an open modal has been centred; a centred one sits at
   * the modal z-index.
   */
  ghost predicate Coherent(s: ModalState) {
    && (s.overlay == FullExtent ==> s.body.display == DisplayBlock)
    && (s.body.display == DisplayBlock && s.outsideClickClose ==> s.overlay == FullExtent)
    && (s.body.display == DisplayBlock ==> s.posSet)
    && (s.posSet ==> s.body.zIndex == Some(ModalZIndex))
  }

  /**
   * `closeModal`: an open modal collapses its handler to 0×0 and hides its
   * body; a closed one is left alone.
   */
  function Close(s: ModalState): (r: ModalState)
    ensures r.body.display == DisplayNone
    ensures s.body.display == DisplayNone ==> r == s
    ensures s.body.display == DisplayBlock ==> r.overlay == ZeroExtent
    ensures r.outsideClickClose == s.outsideClickClose && r.posSet == s.posSet
    ensures r.body.(display := s.body.display) == s.body
    ensures Coherent(s) ==> Coherent(r)
  {
    if s.body.display == DisplayNone then s
    else s.(overlay := ZeroExtent, body := s.body.(display := DisplayNone))
  }

  /** Closing twice is closing once. */
  lemma CloseIdempotent(s: ModalState)
    ensures Close(Close(s)) == Close(s)
  {
  }

  /** The text of the first element under `root` with class `cls`, if there is one. */
  function MarkerText(root: Element, cls: string): (r: Option<string>)
    ensures r.None? <==> FirstElement(root, ByClass(cls)).None?
    ensures r.Some? ==> r.value == FirstElement(root, ByClass(cls)).value.text
  {
    match FirstElement(root, ByClass(cls))
    case None => None
    case Some(e) => Some(e.text)
  }

  /**
   * `openModal`'s reading of the outside-click marker: outside clicks close
   * the modal unless the marker exists and its text, trimmed, is "false" in
   * any mix of letter cases.
   */
  function OutsideClickCloses(marker: Option<string>): (r: bool)
    ensures marker.None? ==> r
    ensures marker.Some? ==> (!r <==>
      var t := Trim(marker.value);
      |t| == 5 && forall i :: 0 <= i < 5 ==> EitherCase(t[i], "false"[i]))
  {
    match marker
    case None => true
    case Some(text) =>
      LowerIsFalse(Trim(text));
      ToLower(Trim(text)) != "false"
  }

  /**
   * `resetPosSize`'s reading of the init-size marker "W, H": the text is
   * trimmed and split on ",", and the first two parts, trimmed, are the width
   * and the height; there is a size only when both are non-empty.
   */
  function InitSize(marker: Option<string>): (r: Option<(string, string)>)
    ensures marker.None? ==> r.None?
    ensures r.Some? ==> r.value.0 != [] && r.value.1 != []
    ensures r.Some? ==> ',' !in r.value.0 && ',' !in r.value.1
    ensures r.Some? ==> Trim(r.value.0) == r.value.0 && Trim(r.value.1) == r.value.1
  {
    match marker
    case None => None
    case Some(text) =>
      var parts := Split(Trim(text), ',');
      if |parts| < 2 then None
      else
        var w, h := Trim(parts[0]), Trim(parts[1]);
        TrimWithout(parts[0], ',');
        TrimWithout(parts[1], ',');
        TrimIdempotent(parts[0]);
        TrimIdempotent(parts[1]);
        if w != [] && h != [] then Some((w, h)) else None
  }

  /**
   * A marker "W,H", optionally followed by further ",…" fields and with any
   * whitespace around the parts, gives the size (W, H) trimmed, or none when
   * either part is blank: only the first two fields are read.
   */
  lemma InitSizeReads(a: string, b: string, rest: string)
    requires ',' !in a && ',' !in b
    requires rest == [] || rest[0] == ','
    ensures InitSize(Some(a + "," + b + rest)) ==
      if Trim(a) != [] && Trim(b) != [] then Some((Trim(a), Trim(b))) else None
  {
    var a1, b1, r1 := TrimmedFields(a, b, rest);
    SplitFirstTwo(a1, b1, r1, ',');
    InitSizeOfParts(a + "," + b + rest, Trim(a), Trim(b));
  }

  /**
   * The outer trim of a marker "A,B…" leaves its fields in place: it only
   * strips whitespace before A and, when there are no further fields, after B.
   */
  lemma TrimmedFields(a: string, b: string, rest: string) returns (a1: string, b1: string, r1: string)
    requires ',' !in a && ',' !in b
    requires rest == [] || rest[0] == ','
    ensures Trim(a + "," + b + rest) == a1 + "," + b1 + r1
    ensures ',' !in a1 && ',' !in b1 && (r1 == [] || r1[0] == ',')
    ensures Trim(a1) == Trim(a) && Trim(b1) == Trim(b)
  {
    var i := LeadingSpaces(a);
    var br := b + rest;
    var j := |br| - TrailingSpaces(br);
    assert a + "," + b + rest == a + [','] + br;
    TrimAround(a, ',', br);
    a1 := LeadField(a, i);
    b1, r1 := TailFields(b, rest, j);
    assert Trim(a + "," + b + rest) == a1 + [','] + (b1 + r1);
    ConcatAssoc(a1 + ",", b1, r1);
  }

  /** Whitespace before the first field does not change its trim. */
  lemma LeadField(a: string, i: int) returns (a1: string)
    requires 0 <= i <= |a| && forall k :: 0 <= k < i ==> IsSpace(a[k])
    requires ',' !in a
    ensures a1 == a[i..] && ',' !in a1 && Trim(a1) == Trim(a)
  {
    a1 := a[i..];
    TrimInner(a, i, |a|);
    assert a[i..|a|] == a1;
  }

  /**
   * Cutting trailing whitespace off "B" followed by further ",…" fields
   * leaves B whole, and cutting it off a lone "B" does not change B's trim.
   */
  lemma TailFields(b: string, rest: string, j: int) returns (b1: string, r1: string)
    requires ',' !in b && (rest == [] || rest[0] == ',')
    requires 0 <= j <= |b + rest|
    requires forall k :: j <= k < |b + rest| ==> IsSpace((b + rest)[k])
    ensures (b + rest)[..j] == b1 + r1
    ensures ',' !in b1 && (r1 == [] || r1[0] == ',') && Trim(b1) == Trim(b)
  {
    if rest == [] {
      b1, r1 := b[..j], [];
      assert b + rest == b;
      TrimInner(b, 0, j);
      assert b[0..j] == b1;
    } else {
      assert (b + rest)[|b|] == ',';
      b1, r1 := b, rest[..j - |b|];
      assert (b + rest)[..j] == b1 + r1;
    }
  }

  /** A marker whose trimmed text has at least two fields gives the first two trimmed, when neither is blank. */
  lemma InitSizeOfParts(text: string, tw: string, th: string)
    requires var parts := Split(Trim(text), ',');
      |parts| >= 2 && Trim(parts[0]) == tw && Trim(parts[1]) == th
    ensures InitSize(Some(text)) == if tw != [] && th != [] then Some((tw, th)) else None
  {
  }

  /**
   * The text of a `modal-size-init` element written over several lines, a
   * value padded with a space on each side of each field (" 64em, 64em "),
   * gives that value for both axes.
   */
  lemma InitSizePadded(w: string)
    requires w != [] && Trim(w) == w && ',' !in w
    ensures InitSize(Some(([' '] + w) + "," + ([' '] + w + [' ']))) == Some((w, w))
  {
    var a := PaddedLeft(w);
    var b := PaddedBoth(w);
    InitSizeOfTwo(a, b, w);
  }

  lemma PaddedLeft(w: string) returns (a: string)
    requires Trim(w) == w && ',' !in w
    ensures a == [' '] + w && Trim(a) == w && ',' !in a
  {
    a := [' '] + w;
    Padded(w, [' '], []);
    ConcatEmpty(a);
  }

  lemma PaddedBoth(w: string) returns (b: string)
    requires Trim(w) == w && ',' !in w
    ensures b == [' '] + w + [' '] && Trim(b) == w && ',' !in b
  {
    b := [' '] + w + [' '];
    Padded(w, [' '], [' ']);
  }

  /** Two comma-free fields that both trim to the same non-empty value give that value for both axes. */
  lemma InitSizeOfTwo(a: string, b: string, w: string)
    requires ',' !in a && ',' !in b
    requires w != [] && Trim(a) == w && Trim(b) == w
    ensures InitSize(Some(a + "," + b)) == Some((w, w))
  {
    InitSizeReads(a, b, []);
    ConcatEmpty(a + "," + b);
  }

  /** A trimmed value padded with whitespace trims back to itself. */
  lemma Padded(w: string, pre: string, post: string)
    requires Trim(w) == w
    requires forall k :: 0 <= k < |pre| ==> IsSpace(pre[k])
    requires forall k :: 0 <= k < |post| ==> IsSpace(post[k])
    ensures Trim(pre + w + post) == w
  {
    var s := pre + w + post;
    assert s[|pre|..|pre| + |w|] == w;
    TrimInner(s, |pre|, |pre| + |w|);
  }

  /** A marker without a comma gives no size: both parts are required. */
  lemma InitSizeNeedsComma(text: string)
    requires ',' !in text
    ensures InitSize(Some(text)) == None
  {
    var t := Trim(text);
    assert Join([t], ',') == t;
    JoinSplit([t], ',');
  }

  /**
   * `resetPosSize`: the init size, when the marker gives one, then the
   * centring: `top` and `left` at 50%, the centring transform and the modal
   * z-index.
   */
  function ResetPosSize(st: BodyStyle, modalBody: Element): (r: BodyStyle)
    ensures r.top == Percent(50) && r.left == Percent(50)
    ensures r.transform == Verbatim(CenterTransform) && r.zIndex == Some(ModalZIndex)
    ensures r.display == st.display
    ensures InitSize(MarkerText(modalBody, SizeInitClass)).None? ==>
      r.width == st.width && r.height == st.height
    ensures InitSize(MarkerText(modalBody, SizeInitClass)).Some? ==>
      var (w, h) := InitSize(MarkerText(modalBody, SizeInitClass)).value;
      r.width == Verbatim(w) && r.height == Verbatim(h)
  {
    var sized := match InitSize(MarkerText(modalBody, SizeInitClass))
      case None => st
      case Some((w, h)) => st.(width := Verbatim(w), height := Verbatim(h));
    sized.(top := Percent(50), left := Percent(50),
           transform := Verbatim(CenterTransform), zIndex := Some(ModalZIndex))
  }

  /**
   * `openModal`: reads the outside-click flag, shows the body, centres it if
   * it never was, and spreads the handler over the page when outside clicks
   * close the modal.
   */
  function Open(s: ModalState, modalBody: Element): (r: ModalState)
    ensures r.body.display == DisplayBlock && r.posSet
    ensures r.outsideClickClose == OutsideClickCloses(MarkerText(modalBody, OutsideClickClass))
    ensures r.outsideClickClose ==> r.overlay == FullExtent
    ensures !r.outsideClickClose ==> r.overlay == s.overlay
    ensures s.posSet ==> r.body == s.body.(display := DisplayBlock)
    ensures !s.posSet ==> r.body == ResetPosSize(s.body.(display := DisplayBlock), modalBody)
    ensures Coherent(s) ==> Coherent(r)
  {
    var flag := OutsideClickCloses(MarkerText(modalBody, OutsideClickClass));
    var shown := s.body.(display := DisplayBlock);
    var body := if s.posSet then shown else ResetPosSize(shown, modalBody);
    ModalState(flag, true, if flag then FullExtent else s.overlay, body)
  }

  /** Opening an open modal again changes nothing. */
  lemma OpenIdempotent(s: ModalState, modalBody: Element)
    ensures Open(Open(s, modalBody), modalBody) == Open(s, modalBody)
  {
  }

  /**
   * Centring happens once: a modal closed and opened again is shown with the
   * style it had, not re-centred or re-sized.
   */
  lemma ReopenKeepsPlace(s: ModalState, modalBody: Element)
    requires s.body.display == DisplayBlock && s.posSet
    ensures Open(Close(s), modalBody).body == s.body
  {
  }

  /** A click on the handler closes the modal only when outside clicks close it and the handler itself was hit. */
  function HandlerClick(s: ModalState, target: Element, handler: Element): (r: ModalState)
    ensures s.outsideClickClose && target == handler ==> r == Close(s)
    ensures !(s.outsideClickClose && target == handler) ==> r == s
  {
    if s.outsideClickClose && target == handler then Close(s) else s
  }

  /** A click under the waker opens the modal only when the waker itself was hit. */
  function WakerClick(s: ModalState, target: Element, waker: Element, modalBody: Element): (r: ModalState)
    ensures target == waker ==> r == Open(s, modalBody)
    ensures target != waker ==> r == s
  {
    if target == waker then Open(s, modalBody) else s
  }

  /** Once set, `modalPosSetted` stays set through every transition. */
  lemma PosSetStays(s: ModalState, target: Element, handler: Element, waker: Element, modalBody: Element)
    requires s.posSet
    ensures Close(s).posSet && Open(s, modalBody).posSet
    ensures HandlerClick(s, target, handler).posSet
    ensures WakerClick(s, target, waker, modalBody).posSet
  {
  }

  // ---------------------------------------------------------------------
  // Move and resize arithmetic
  // ---------------------------------------------------------------------

  /**
   * One axis of the move handler: the window's start goes to `pos`, then is
   * pulled back to 0 if it starts before the viewport, or else to
   * `view - size` if its end passes the viewport's end.
   */
  function ClampIntoView(pos: int, size: int, view: int): (r: int)
    ensures 0 <= size <= view ==> 0 <= r && r + size <= view
    ensures 0 <= pos && pos + size <= view ==> r == pos
    ensures r == pos || r == 0 || r == view - size
    ensures pos < 0 ==> r == 0
    ensures 0 <= pos && view < pos + size ==> r == view - size
  {
    if pos < 0 then 0 else if pos + size > view then view - size else pos
  }

  /** A window that fits the viewport follows the pointer monotonically. */
  lemma ClampIntoViewMonotone(p: int, q: int, size: int, view: int)
    requires p <= q && 0 <= size <= view
    ensures ClampIntoView(p, size, view) <= ClampIntoView(q, size, view)
  {
  }

  /** A window that fits the viewport is not moved again by a second clamp. */
  lemma ClampIntoViewIdempotent(pos: int, size: int, view: int)
    requires 0 <= size <= view
    ensures ClampIntoView(ClampIntoView(pos, size, view), size, view) == ClampIntoView(pos, size, view)
  {
  }

  /**
   * One axis of the resize handler: the candidate size is capped by `limit`
   * and then raised to `minSize`, so the minimum wins when they conflict.
   */
  function ClampSize(minSize: int, limit: int, candidate: int): (r: int)
    ensures r >= minSize
    ensures minSize <= limit ==> r <= limit
    ensures minSize <= candidate <= limit ==> r == candidate
    ensures r == minSize || r == limit || r == candidate
  {
    Max(minSize, Min(limit, candidate))
  }

  /** A bigger drag never gives a smaller window. */
  lemma ClampSizeMonotone(minSize: int, limit: int, c: int, d: int)
    requires c <= d
    ensures ClampSize(minSize, limit, c) <= ClampSize(minSize, limit, d)
  {
  }

  /** Clamping a clamped size again changes nothing when the bounds are consistent. */
  lemma ClampSizeIdempotent(minSize: int, limit: int, c: int)
    ensures ClampSize(minSize, limit, ClampSize(minSize, limit, c)) == ClampSize(minSize, limit, c)
  {
  }

  /**
   * `toPx`'s reading of a size marker "W, H": the first comma field, trimmed,
   * is the width; the second, trimmed, is the height, or the width again when
   * there is no second field.
   */
  function MarkerParts(text: string): (r: (string, string))
    ensures ',' !in r.0 && ',' !in r.1
  {
    var parts := Split(text, ',');
    var w := Trim(parts[0]);
    TrimWithout(parts[0], ',');
    if |parts| > 1 then
      TrimWithout(parts[1], ',');
      (w, Trim(parts[1]))
    else
      (w, w)
  }

  /** A marker with a single field gives that field, trimmed, for both the width and the height. */
  lemma MarkerPartsSingle(text: string)
    requires ',' !in text
    ensures MarkerParts(text) == (Trim(text), Trim(text))
  {
    assert Join([text], ',') == text;
    JoinSplit([text], ',');
  }

  /** A marker "W, H", with or without further ",…" fields, gives W as the width and H as the height. */
  lemma MarkerPartsReads(a: string, b: string, rest: string)
    requires ',' !in a && ',' !in b
    requires rest == [] || rest[0] == ','
    ensures MarkerParts(a + "," + b + rest) == (Trim(a), Trim(b))
  {
    SplitFirstTwo(a, b, rest, ',');
  }

  /** The pixel size of a CSS length, per axis: the rendering engine's measurement behind `toPx`. */
  datatype Measure = Measure(width: string -> int, height: string -> int)

  /** `toPx`: a size marker's width and height parts, measured. */
  function MarkerPx(text: string, m: Measure): (r: (int, int))
    ensures ',' !in text ==> r == (m.width(Trim(text)), m.height(Trim(text)))
  {
    var (w, h) := MarkerParts(text);
    if ',' in text then (m.width(w), m.height(h))
    else MarkerPartsSingle(text); (m.width(w), m.height(h))
  }

  /** A size marker "W, H", with or without further ",…" fields, measures W for the width and H for the height. */
  lemma MarkerPxReads(a: string, b: string, rest: string, m: Measure)
    requires ',' !in a && ',' !in b
    requires rest == [] || rest[0] == ','
    ensures MarkerPx(a + "," + b + rest, m) == (m.width(Trim(a)), m.height(Trim(b)))
  {
    MarkerPartsReads(a, b, rest);
    assert (a + "," + b + rest)[|a|] == ',';
  }

  /** The minimum and maximum size the resize handler keeps the window within. */
  datatype SizeLimits = SizeLimits(minWidth: int, minHeight: int, maxWidth: int, maxHeight: int)

  /**
   * The resize handler's limits: 200×100 and the viewport unless a marker
   * with non-empty text gives the minimum or the maximum, measured from its
   * width and height parts.
   */
  function ResolveLimits(minText: Option<string>, maxText: Option<string>, vw: int, vh: int, m: Measure): (r: SizeLimits)
    ensures minText.None? || minText == Some("") ==>
      r.minWidth == DefaultMinWidth && r.minHeight == DefaultMinHeight
    ensures maxText.None? || maxText == Some("") ==> r.maxWidth == vw && r.maxHeight == vh
    ensures minText.Some? && minText.value != "" ==>
      r.minWidth == m.width(MarkerParts(minText.value).0) &&
      r.minHeight == m.height(MarkerParts(minText.value).1)
    ensures maxText.Some? && maxText.value != "" ==>
      r.maxWidth == m.width(MarkerParts(maxText.value).0) &&
      r.maxHeight == m.height(MarkerParts(maxText.value).1)
  {
    var (minW, minH) :=
      if minText.Some? && minText.value != "" then MarkerPx(minText.value, m)
      else (DefaultMinWidth, DefaultMinHeight);
    var (maxW, maxH) :=
      if maxText.Some? && maxText.value != "" then MarkerPx(maxText.value, m)
      else (vw, vh);
    SizeLimits(minW, minH, maxW, maxH)
  }

  /** A move session: the grab offset inside the window. */
  datatype MoveSession = MoveSession(offsetX: int, offsetY: int)

  /** A resize session: where the drag began, the size then, and the limits read then. */
  datatype ResizeSession = ResizeSession(
    startX: int, startY: int, startWidth: int, startHeight: int, limits: SizeLimits)

  /**
   * Mouse-down on either tab: the centring transform is dropped and
   * `left`/`top` are pinned to the window's page position.
   */
  function Pin(st: BodyStyle, rect: Box, scrollX: int, scrollY: int): (r: BodyStyle)
    ensures r.transform == Unset
    ensures r.left == Px(rect.left + scrollX) && r.top == Px(rect.top + scrollY)
    ensures r.(transform := st.transform, left := st.left, top := st.top) == st
  {
    st.(transform := Unset, left := Px(rect.left + scrollX), top := Px(rect.top + scrollY))
  }

  // ---------------------------------------------------------------------
  // The modal
  // ---------------------------------------------------------------------

  /**
   * A modal card (`ModalCardElement`). The located parts are constants; the
   * flags, the handler's extent, the body's style and the two drag sessions
   * (the document listeners a tab's mouse-down installs) are fields.
   */
  class ModalCard {
    const handler: Element
    const card: CardElement
    const modalBody: Element
    const closeButton: Option<Element>
    const waker: Option<Element>
    var outsideClickClose: bool
    var posSet: bool
    var overlay: Extent
    var bodyStyle: BodyStyle
    var moving: Option<MoveSession>
    var resizing: Option<ResizeSession>

    /** The fields `openModal`, `closeModal` and the clicks act on, as one value. */
    function State(): ModalState
      reads this
    {
      ModalState(outsideClickClose, posSet, overlay, bodyStyle)
    }

    ghost predicate Valid()
      reads this
    {
      Coherent(State())
    }

    /**
     * The constructor after its lookups succeeded (`NewModal` passes the
     * parts `LocateModal` found), with `initialize`: the body, whose inline
     * style was `style0`, is hidden; nothing is open or centred yet and
     * outside clicks close the modal.
     */
    constructor (handler: Element, parts: ModalParts, style0: BodyStyle)
      ensures Valid()
      ensures this.handler == handler && card == parts.card && modalBody == parts.modalBody
      ensures closeButton == parts.closeButton && waker == parts.waker
      ensures outsideClickClose && !posSet
      ensures overlay == Extent(Unset, Unset)
      ensures bodyStyle == style0.(display := DisplayNone)
      ensures moving.None? && resizing.None?
    {
      this.handler := handler;
      card := parts.card;
      modalBody := parts.modalBody;
      closeButton := parts.closeButton;
      waker := parts.waker;
      outsideClickClose := true;
      posSet := false;
      overlay := Extent(Unset, Unset);
      bodyStyle := style0.(display := DisplayNone);
      moving := None;
      resizing := None;
    }

    /** `closeModal`. */
    method CloseModal()
      requires Valid()
      modifies this
      ensures Valid()
      ensures State() == Close(old(State()))
      ensures moving == old(moving) && resizing == old(resizing)
    {
      if bodyStyle.display != DisplayNone {
        overlay := ZeroExtent;
        bodyStyle := bodyStyle.(display := DisplayNone);
      }
    }

    /** `openModal`. */
    method OpenModal()
      requires Valid()
      modifies this
      ensures Valid()
      ensures State() == Open(old(State()), modalBody)
      ensures moving == old(moving) && resizing == old(resizing)
    {
      outsideClickClose := OutsideClickCloses(MarkerText(modalBody, OutsideClickClass));
      bodyStyle := bodyStyle.(display := DisplayBlock);
      if !posSet {
        ResetPos();
      }
      if outsideClickClose {
        overlay := FullExtent;
      }
    }

    /** `resetPosSize` on the modal body, which sets `modalPosSetted`. */
    method ResetPos()
      modifies this
      ensures bodyStyle == ResetPosSize(old(bodyStyle), modalBody) && posSet
      ensures outsideClickClose == old(outsideClickClose) && overlay == old(overlay)
      ensures moving == old(moving) && resizing == old(resizing)
    {
      bodyStyle := ResetPosSize(bodyStyle, modalBody);
      posSet := true;
    }

    /** The click listener on the handler (`setCloseEventListener`). */
    method OnHandlerClick(target: Element)
      requires Valid()
      modifies this
      ensures Valid()
      ensures State() == HandlerClick(old(State()), target, handler)
      ensures moving == old(moving) && resizing == old(resizing)
    {
      if outsideClickClose && target == handler {
        CloseModal();
      }
    }

    /** A click on the close button; without one no listener exists and nothing happens. */
    method OnCloseButtonClick()
      requires Valid()
      modifies this
      ensures Valid()
      ensures closeButton.Some? ==> State() == Close(old(State()))
      ensures closeButton.None? ==> State() == old(State())
      ensures moving == old(moving) && resizing == old(resizing)
    {
      if closeButton.Some? {
        CloseModal();
      }
    }

    /** A click under the waker (`setOpenEventListener`); without a waker nothing happens. */
    method OnWakerClick(target: Element)
      requires Valid()
      modifies this
      ensures Valid()
      ensures waker.Some? ==> State() == WakerClick(old(State()), target, waker.value, modalBody)
      ensures waker.None? ==> State() == old(State())
      ensures moving == old(moving) && resizing == old(resizing)
    {
      if waker.Some? && target == waker.value {
        OpenModal();
      }
    }

    /**
     * Mouse-down on the move tab, with the pointer at (`clientX`, `clientY`)
     * and the body's box at `rect`: the body is pinned and the grab offset
     * recorded. Without a move tab no listener exists and nothing happens.
     */
    method MoveStart(clientX: int, clientY: int, rect: Box, scrollX: int, scrollY: int)
      requires Valid()
      modifies this
      ensures Valid()
      ensures card.moveTab.None? ==> unchanged(this)
      ensures card.moveTab.Some? ==>
        && bodyStyle == Pin(old(bodyStyle), rect, scrollX, scrollY)
        && moving == Some(MoveSession(clientX - rect.left, clientY - rect.top))
        && resizing == old(resizing)
        && outsideClickClose == old(outsideClickClose) && posSet == old(posSet) && overlay == old(overlay)
    {
      if card.moveTab.Some? {
        bodyStyle := Pin(bodyStyle, rect, scrollX, scrollY);
        moving := Some(MoveSession(clientX - rect.left, clientY - rect.top));
      }
    }

    /**
     * A mouse move during a move session: the window's corner goes to the
     * pointer minus the grab offset, clamped into the `vw`×`vh` viewport for a
     * window of the rendered `size`. Without a session nothing happens.
     */
    method MoveTo(clientX: int, clientY: int, size: Size, vw: int, vh: int)
      requires Valid()
      modifies this
      ensures Valid()
      ensures moving.None? ==> unchanged(this)
      ensures moving.Some? ==>
        && bodyStyle == old(bodyStyle).(
             left := Px(ClampIntoView(clientX - moving.value.offsetX, size.width, vw)),
             top := Px(ClampIntoView(clientY - moving.value.offsetY, size.height, vh)))
        && moving == old(moving) && resizing == old(resizing)
        && outsideClickClose == old(outsideClickClose) && posSet == old(posSet) && overlay == old(overlay)
      ensures moving.Some? && 0 <= size.width <= vw && 0 <= size.height <= vh ==>
        && 0 <= bodyStyle.left.px <= vw - size.width
        && 0 <= bodyStyle.top.px <= vh - size.height
    {
      if moving.Some? {
        var left := ClampIntoView(clientX - moving.value.offsetX, size.width, vw);
        var top := ClampIntoView(clientY - moving.value.offsetY, size.height, vh);
        bodyStyle := bodyStyle.(left := Px(left), top := Px(top));
      }
    }

    /**
     * Mouse-down on the resize tab: the body is pinned and the session keeps
     * the pointer, the body's `offsetWidth`/`offsetHeight` and the limits read
     * from the markers against the `vw`×`vh` viewport. Without a resize tab
     * nothing happens.
     */
    method ResizeStart(clientX: int, clientY: int, rect: Box, scrollX: int, scrollY: int,
                       width: int, height: int, vw: int, vh: int, m: Measure)
      requires Valid()
      modifies this
      ensures Valid()
      ensures card.resizeTab.None? ==> unchanged(this)
      ensures card.resizeTab.Some? ==>
        && bodyStyle == Pin(old(bodyStyle), rect, scrollX, scrollY)
        && resizing == Some(ResizeSession(clientX, clientY, width, height,
             ResolveLimits(MarkerText(modalBody, SizeMinClass), MarkerText(modalBody, SizeMaxClass), vw, vh, m)))
        && moving == old(moving)
        && outsideClickClose == old(outsideClickClose) && posSet == old(posSet) && overlay == old(overlay)
    {
      if card.resizeTab.Some? {
        bodyStyle := Pin(bodyStyle, rect, scrollX, scrollY);
        var limits := ResolveLimits(MarkerText(modalBody, SizeMinClass), MarkerText(modalBody, SizeMaxClass), vw, vh, m);
        resizing := Some(ResizeSession(clientX, clientY, width, height, limits));
      }
    }

    /**
     * A mouse move during a resize session: the start size plus the pointer's
     * travel, clamped between the minimum and the smaller of the maximum and
     * the room left between the window's `offsetLeft`/`offsetTop` and the
     * viewport's edge. Without a session nothing happens.
     */
    method ResizeTo(clientX: int, clientY: int, offsetLeft: int, offsetTop: int, vw: int, vh: int)
      requires Valid()
      modifies this
      ensures Valid()
      ensures resizing.None? ==> unchanged(this)
      ensures resizing.Some? ==>
        var rs := resizing.value;
        var lim := rs.limits;
        && bodyStyle == old(bodyStyle).(
             width := Px(ClampSize(lim.minWidth, Min(lim.maxWidth, vw - offsetLeft), rs.startWidth + (clientX - rs.startX))),
             height := Px(ClampSize(lim.minHeight, Min(lim.maxHeight, vh - offsetTop), rs.startHeight + (clientY - rs.startY))))
        && moving == old(moving) && resizing == old(resizing)
        && outsideClickClose == old(outsideClickClose) && posSet == old(posSet) && overlay == old(overlay)
      ensures resizing.Some? ==>
        bodyStyle.width.px >= resizing.value.limits.minWidth &&
        bodyStyle.height.px >= resizing.value.limits.minHeight
    {
      if resizing.Some? {
        var rs := resizing.value;
        var lim := rs.limits;
        var w := ClampSize(lim.minWidth, Min(lim.maxWidth, vw - offsetLeft), rs.startWidth + (clientX - rs.startX));
        var h := ClampSize(lim.minHeight, Min(lim.maxHeight, vh - offsetTop), rs.startHeight + (clientY - rs.startY));
        bodyStyle := bodyStyle.(width := Px(w), height := Px(h));
      }
    }

    /** Mouse-up anywhere: both document listeners go, ending whichever session was active. */
    method MouseUp()
      modifies this`moving, this`resizing
      ensures moving.None? && resizing.None?
    {
      moving := None;
      resizing := None;
    }
  }

  /**
   * The constructor: throws when the lookups fail, and otherwise builds the
   * modal over them, hidden.
   */
  method NewModal(handler: Element, style0: BodyStyle) returns (r: Result<ModalCard, ModalError>)
    ensures r.Err? <==> LocateModal(handler).Err?
    ensures r.Err? ==> r.error == LocateModal(handler).error
    ensures r.Ok? ==> fresh(r.value) && r.value.Valid()
    ensures r.Ok? ==> r.value.handler == handler && r.value.moving.None? && r.value.resizing.None?
    ensures r.Ok? ==>
      var parts := LocateModal(handler).value;
      && r.value.card == parts.card && r.value.modalBody == parts.modalBody
      && r.value.closeButton == parts.closeButton && r.value.waker == parts.waker
      && r.value.State() == ModalState(true, false, Extent(Unset, Unset), style0.(display := DisplayNone))
  {
    match LocateModal(handler)
    case Err(e) =>
      r := Err(e);
    case Ok(parts) =>
      var modal := new ModalCard(handler, parts, style0);
      r := Ok(modal);
  }
}
