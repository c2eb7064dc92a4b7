/**
 * The part of the document the cards and modals query: an element tree, and
 * the lookup `getElementsByTagName(t)[0]`, `getElementsByClassName(c)[0]` and
 * `querySelector("." + c)` all perform, the first matching descendant in tree
 * order.
 */
module Dom {
  import opened Wrappers

  type ElementId = nat

  /** An element: its identity, tag name, class list, text content and children. */
  datatype Element = Element(
    id: ElementId,
    tag: string,
    classes: set<string>,
    text: string,
    children: seq<Element>)

  /** A lookup key: a tag name or a class name. */
  datatype Selector = ByTag(tag: string) | ByClass(name: string)

  predicate Matches(e: Element, s: Selector) {
    match s
    case ByTag(t) => e.tag == t
    case ByClass(c) => c in e.classes
  }

  /** A descendant found under some root, with its parent element (`parentElement`). */
  datatype Hit = Hit(parent: Element, elem: Element)

  /** The subtrees of `cs`, children of `p`, in tree order: each child, then its descendants. */
  function Below(p: Element, cs: seq<Element>): seq<Hit>
    decreases cs
  {
    if cs == [] then [] else [Hit(p, cs[0])] + Below(cs[0], cs[0].children) + Below(p, cs[1..])
  }

  /** All descendants of `e` (not `e` itself), in tree order. */
  function Descendants(e: Element): seq<Hit> {
    Below(e, e.children)
  }

  /** Every hit records the element it was found under as that element's parent. */
  lemma {:induction false} BelowParents(p: Element, cs: seq<Element>)
    requires forall c :: c in cs ==> c in p.children
    ensures forall h :: h in Below(p, cs) ==> h.elem in h.parent.children
    decreases cs
  {
    if cs != [] {
      BelowParents(cs[0], cs[0].children);
      BelowParents(p, cs[1..]);
    }
  }

  /** Each descendant of `e` is a child of the parent recorded with it. */
  lemma DescendantParents(e: Element)
    ensures forall h :: h in Descendants(e) ==> h.elem in h.parent.children
  {
    BelowParents(e, e.children);
  }

  /** Index of the first hit whose element matches `s`, if any. */
  function FirstIndex(hits: seq<Hit>, s: Selector): (r: Option<nat>)
    ensures r.None? <==> forall i :: 0 <= i < |hits| ==> !Matches(hits[i].elem, s)
    ensures r.Some? ==> r.value < |hits| && Matches(hits[r.value].elem, s)
    ensures r.Some? ==> forall j :: 0 <= j < r.value ==> !Matches(hits[j].elem, s)
  {
    if hits == [] then None
    else if Matches(hits[0].elem, s) then Some(0)
    else match FirstIndex(hits[1..], s)
      case None => None
      case Some(k) => Some(k + 1)
  }

  /** `r` is what the first-match lookup under `root` must return. */
  ghost predicate IsFirstMatch(root: Element, s: Selector, r: Option<Hit>) {
    var d := Descendants(root);
    match r
    case None => forall i :: 0 <= i < |d| ==> !Matches(d[i].elem, s)
    case Some(h) =>
      exists i :: 0 <= i < |d| && d[i] == h && Matches(h.elem, s) &&
        forall j :: 0 <= j < i ==> !Matches(d[j].elem, s)
  }

  /** The first descendant of `root` matching `s`, in tree order, with its parent. */
  function FirstMatch(root: Element, s: Selector): (r: Option<Hit>)
    ensures IsFirstMatch(root, s, r)
  {
    var d := Descendants(root);
    match FirstIndex(d, s)
    case None => None
    case Some(i) => Some(d[i])
  }

  /** `r` is the first element under `root` matching `s`, in tree order (`None`: no element matches). */
  ghost predicate IsFirstElement(root: Element, s: Selector, r: Option<Element>) {
    var d := Descendants(root);
    match r
    case None => forall i :: 0 <= i < |d| ==> !Matches(d[i].elem, s)
    case Some(e) =>
      exists i :: 0 <= i < |d| && d[i].elem == e && Matches(e, s) &&
        forall j :: 0 <= j < i ==> !Matches(d[j].elem, s)
  }

  /** The element part of `FirstMatch`: `getElementsByClassName(c)[0]` and the like. */
  function FirstElement(root: Element, s: Selector): (r: Option<Element>)
    ensures IsFirstElement(root, s, r)
  {
    match FirstMatch(root, s)
    case None => None
    case Some(h) => Some(h.elem)
  }
}
