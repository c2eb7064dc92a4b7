/**
 * Card panels (card_ui.ts): the `CardElement` validator and the
 * drag-and-reorder controller of `CardCollection.enableDragAndDrop`.
 *
 * The container's child list is a sequence of cards and at most one
 * placeholder. Every box measurement the source takes with
 * `getBoundingClientRect` or `offsetWidth`/`offsetHeight` comes from a
 * geometry oracle `geom`, supplied afresh with each event.
 */
module CardUi {
  import opened Wrappers
  import opened Dom

  // ---------------------------------------------------------------------
  // CardElement
  // ---------------------------------------------------------------------

  const CardClass := "cardstyle-ui"
  const MoveTabClass := "card-ui-movetab"
  const ResizeTabClass := "card-ui-resizetab"

  /** A card root and the optional parts found inside it. */
  datatype CardElement = CardElement(
    target: Element,
    header: Option<Element>,
    moveTab: Option<Element>,
    main: Option<Element>,
    footer: Option<Element>,
    resizeTab: Option<Element>)

  /** The source throws an `Error` when the root is not a card. */
  datatype CardError = NotACardElement

  /**
   * `c` is the card the `CardElement` constructor builds on `target`: the
   * first header, the first move tab inside that header (none without a
   * header), and the first main, footer and resize tab.
   */
  ghost predicate IsCardOf(target: Element, c: CardElement) {
    && c.target == target
    && IsFirstElement(target, ByTag("header"), c.header)
    && (c.header.None? ==> c.moveTab.None?)
    && (c.header.Some? ==> IsFirstElement(c.header.value, ByClass(MoveTabClass), c.moveTab))
    && IsFirstElement(target, ByTag("main"), c.main)
    && IsFirstElement(target, ByTag("footer"), c.footer)
    && IsFirstElement(target, ByClass(ResizeTabClass), c.resizeTab)
  }

  /**
   * The `CardElement` constructor: refuses a root without the card class, and
   * otherwise builds the card `IsCardOf` describes.
   */
  function NewCardElement(target: Element): (r: Result<CardElement, CardError>)
    ensures r.Ok? <==> CardClass in target.classes
    ensures r.Ok? ==> IsCardOf(target, r.value)
  {
    if CardClass !in target.classes then Err(NotACardElement)
    else
      var header := FirstElement(target, ByTag("header"));
      var moveTab := match header
        case None => None
        case Some(h) => FirstElement(h, ByClass(MoveTabClass));
      Ok(CardElement(
        target, header, moveTab,
        FirstElement(target, ByTag("main")),
        FirstElement(target, ByTag("footer")),
        FirstElement(target, ByClass(ResizeTabClass))))
  }

  /**
   * The `CardCollection` constructor's `targets.map(t => new CardElement(t))`:
   * one card per target, or the error of the first target that is not a card.
   */
  function NewCollection(targets: seq<Element>): (r: Result<seq<CardElement>, CardError>)
    ensures r.Ok? <==> forall i :: 0 <= i < |targets| ==> CardClass in targets[i].classes
    ensures r.Ok? ==> |r.value| == |targets|
  {
    if targets == [] then Ok([])
    else match NewCardElement(targets[0])
      case Err(e) => Err(e)
      case Ok(c) =>
        match NewCollection(targets[1..])
        case Err(e) => Err(e)
        case Ok(cs) => Ok([c] + cs)
  }

  /** Each card of a built collection is the card its own target builds, in order. */
  lemma {:induction false} CollectionCards(targets: seq<Element>, i: nat)
    requires NewCollection(targets).Ok? && i < |targets|
    ensures NewCardElement(targets[i]) == Ok(NewCollection(targets).value[i])
  {
    if i > 0 {
      CollectionCards(targets[1..], i - 1);
      assert targets[1..][i - 1] == targets[i];
    }
  }

  // ---------------------------------------------------------------------
  // Geometry and row clustering
  // ---------------------------------------------------------------------

  type ItemId = nat

  /** A box as `getBoundingClientRect` reports it, in whole pixels. */
  datatype Box = Box(top: int, left: int, width: int, height: int)

  /** Vertical tolerance, in pixels, below which two tops lie on one row. */
  const RowThreshold: int := 10

  function Abs(x: int): nat {
    if x < 0 then -x else x
  }

  /** An item whose top is `top` joins the row of the previous item, whose top is `lastTop`. */
  predicate SameRow(lastTop: int, top: int) {
    Abs(top - lastTop) < RowThreshold
  }

  /** The rows laid end to end. */
  function Flatten(rows: seq<seq<ItemId>>): seq<ItemId> {
    if rows == [] then [] else Flatten(rows[..|rows| - 1]) + rows[|rows| - 1]
  }

  lemma {:induction false} FlattenAppend(a: seq<seq<ItemId>>, b: seq<seq<ItemId>>)
    ensures Flatten(a + b) == Flatten(a) + Flatten(b)
    decreases |b|
  {
    if b == [] {
      assert a + b == a;
    } else {
      var init, last := b[..|b| - 1], b[|b| - 1];
      SplitLast(b);
      SnocAssoc(a, init, last);
      FlattenSnoc(a + init, last);
      FlattenSnoc(init, last);
      FlattenAppend(a, init);
    }
  }

  /**
   * Row clustering, one item at a time: an item joins the current row when its
   * top is within the tolerance of the previous item's top, otherwise it opens
   * a new row.
   */
  function Cluster(s: seq<ItemId>, geom: ItemId -> Box): (rows: seq<seq<ItemId>>)
    ensures |rows| <= |s|
    ensures rows == [] <==> s == []
    decreases |s|
  {
    if s == [] then []
    else
      var rows := Cluster(s[..|s| - 1], geom);
      var x := s[|s| - 1];
      if |s| > 1 && SameRow(geom(s[|s| - 2]).top, geom(x).top)
      then rows[..|rows| - 1] + [rows[|rows| - 1] + [x]]
      else rows + [[x]]
  }

  predicate NonEmptyRows(rows: seq<seq<ItemId>>) {
    forall r :: 0 <= r < |rows| ==> rows[r] != []
  }

  /** Item `j` of `row` lies on the row of item `j - 1`. */
  predicate JoinsAt(row: seq<ItemId>, j: nat, geom: ItemId -> Box)
    requires 0 < j < |row|
  {
    SameRow(geom(row[j - 1]).top, geom(row[j]).top)
  }

  /** Neighbours inside `row` lie on one row. */
  predicate RowCohesive(row: seq<ItemId>, geom: ItemId -> Box) {
    forall j :: 0 < j < |row| ==> JoinsAt(row, j, geom)
  }

  /** The first item of `next` does not lie on the row of the last item of `prev`. */
  predicate RowBreak(prev: seq<ItemId>, next: seq<ItemId>, geom: ItemId -> Box) {
    prev != [] && next != [] && !SameRow(geom(prev[|prev| - 1]).top, geom(next[0]).top)
  }

  /** Row `r` breaks from row `r - 1`. */
  predicate BreaksAt(rows: seq<seq<ItemId>>, r: nat, geom: ItemId -> Box)
    requires 0 < r < |rows|
  {
    RowBreak(rows[r - 1], rows[r], geom)
  }

  /**
   * `rows` splits `s` into consecutive non-empty runs: neighbours inside a run
   * lie on one row, and the first item of each run does not lie on the row of
   * the item before it.
   */
  ghost predicate IsRowPartition(s: seq<ItemId>, rows: seq<seq<ItemId>>, geom: ItemId -> Box) {
    && Flatten(rows) == s
    && NonEmptyRows(rows)
    && (forall r :: 0 <= r < |rows| ==> RowCohesive(rows[r], geom))
    && (forall r :: 0 < r < |rows| ==> BreaksAt(rows, r, geom))
  }

  /** A non-empty list of rows is its other rows followed by its last row. */
  lemma SplitLast(rows: seq<seq<ItemId>>)
    requires rows != []
    ensures rows == rows[..|rows| - 1] + [rows[|rows| - 1]]
  {
  }

  /** The first `r + 1` rows are the first `r` rows followed by row `r`. */
  lemma TakeSnoc(rows: seq<seq<ItemId>>, r: nat)
    requires r < |rows|
    ensures rows[..r + 1] == rows[..r] + [rows[r]]
  {
  }

  /** Appending a row to `b` and then prefixing `a` is appending it to `a + b`. */
  lemma SnocAssoc(a: seq<seq<ItemId>>, b: seq<seq<ItemId>>, last: seq<ItemId>)
    ensures a + (b + [last]) == (a + b) + [last]
  {
  }

  /** The first `k` rows followed by the others are all the rows. */
  lemma TakeDrop(rows: seq<seq<ItemId>>, k: nat)
    requires k <= |rows|
    ensures rows[..k] + rows[k..] == rows
  {
  }

  /** Appending a row and taking the old length back gives the old rows. */
  lemma SnocTake(init: seq<seq<ItemId>>, last: seq<ItemId>)
    ensures (init + [last])[..|init|] == init
  {
  }

  /** Splitting off the last row: `Flatten(rows)` is the other rows' items, then the last row. */
  lemma FlattenSnoc(init: seq<seq<ItemId>>, last: seq<ItemId>)
    ensures Flatten(init + [last]) == Flatten(init) + last
  {
    SnocTake(init, last);
  }

  /** Appending a cohesive row that breaks from the last row extends a partition. */
  lemma PartitionSnoc(init: seq<seq<ItemId>>, last: seq<ItemId>, geom: ItemId -> Box)
    requires IsRowPartition(Flatten(init), init, geom)
    requires last != [] && RowCohesive(last, geom)
    requires init != [] ==> RowBreak(init[|init| - 1], last, geom)
    ensures IsRowPartition(Flatten(init) + last, init + [last], geom)
  {
    FlattenSnoc(init, last);
    SnocCohesive(init, last, geom);
    SnocBreaks(init, last, geom);
  }

  lemma SnocCohesive(init: seq<seq<ItemId>>, last: seq<ItemId>, geom: ItemId -> Box)
    requires forall r :: 0 <= r < |init| ==> RowCohesive(init[r], geom) && init[r] != []
    requires last != [] && RowCohesive(last, geom)
    ensures forall r :: 0 <= r < |init + [last]| ==> RowCohesive((init + [last])[r], geom) && (init + [last])[r] != []
  {
    var rows := init + [last];
    forall r | 0 <= r < |rows| ensures RowCohesive(rows[r], geom) && rows[r] != [] {
      if r < |init| { assert rows[r] == init[r]; }
    }
  }

  lemma SnocBreaks(init: seq<seq<ItemId>>, last: seq<ItemId>, geom: ItemId -> Box)
    requires forall r :: 0 < r < |init| ==> BreaksAt(init, r, geom)
    requires init != [] ==> RowBreak(init[|init| - 1], last, geom)
    ensures forall r :: 0 < r < |init + [last]| ==> BreaksAt(init + [last], r, geom)
  {
    var rows := init + [last];
    forall r | 0 < r < |rows| ensures BreaksAt(rows, r, geom) {
      if r < |init| { assert BreaksAt(init, r, geom); }
    }
  }

  /** A partition's last row is cohesive and breaks from the rows before it, which partition the rest. */
  lemma PartitionUnsnoc(s: seq<ItemId>, rows: seq<seq<ItemId>>, geom: ItemId -> Box)
    requires IsRowPartition(s, rows, geom) && rows != []
    ensures var init, last := rows[..|rows| - 1], rows[|rows| - 1];
      && rows == init + [last]
      && s == Flatten(init) + last
      && IsRowPartition(Flatten(init), init, geom)
      && last != [] && RowCohesive(last, geom)
      && (init != [] ==> RowBreak(init[|init| - 1], last, geom))
  {
    var k := |rows| - 1;
    var init, last := rows[..k], rows[k];
    SplitLast(rows);
    FlattenSnoc(init, last);
    forall r | 0 <= r < |init| ensures RowCohesive(init[r], geom) {
      assert init[r] == rows[r];
    }
    forall r | 0 < r < |init| ensures BreaksAt(init, r, geom) {
      assert BreaksAt(rows, r, geom);
    }
    if init != [] {
      assert BreaksAt(rows, k, geom);
    }
  }

  /** A partition stays one when its last row gets one more item that lies on that row. */
  lemma ExtendLastRow(s: seq<ItemId>, rows: seq<seq<ItemId>>, x: ItemId, geom: ItemId -> Box)
    requires IsRowPartition(s, rows, geom) && s != []
    requires SameRow(geom(s[|s| - 1]).top, geom(x).top)
    ensures rows != []
    ensures IsRowPartition(s + [x], rows[..|rows| - 1] + [rows[|rows| - 1] + [x]], geom)
  {
    assert rows != [];
    PartitionUnsnoc(s, rows, geom);
    var init, last := rows[..|rows| - 1], rows[|rows| - 1];
    assert last[|last| - 1] == s[|s| - 1];
    var longer := last + [x];
    forall j | 0 < j < |longer| ensures JoinsAt(longer, j, geom) {
      if j < |last| {
        assert JoinsAt(last, j, geom);
      }
    }
    PartitionSnoc(init, longer, geom);
    assert Flatten(init) + longer == s + [x];
  }

  /** A partition stays one when an item that does not lie on the last row opens a new row. */
  lemma OpenRow(s: seq<ItemId>, rows: seq<seq<ItemId>>, x: ItemId, geom: ItemId -> Box)
    requires IsRowPartition(s, rows, geom)
    requires s != [] ==> !SameRow(geom(s[|s| - 1]).top, geom(x).top)
    ensures IsRowPartition(s + [x], rows + [[x]], geom)
  {
    if rows != [] {
      PartitionUnsnoc(s, rows, geom);
      var last := rows[|rows| - 1];
      assert last[|last| - 1] == s[|s| - 1];
    }
    PartitionSnoc(rows, [x], geom);
  }

  /** Clustering partitions its input into rows, preserving order. */
  lemma {:induction false} ClusterPartition(s: seq<ItemId>, geom: ItemId -> Box)
    ensures IsRowPartition(s, Cluster(s, geom), geom)
    decreases |s|
  {
    if s == [] {
      assert Cluster(s, geom) == [];
    } else {
      var s', x := s[..|s| - 1], s[|s| - 1];
      assert s' + [x] == s;
      ClusterPartition(s', geom);
      if s' != [] && SameRow(geom(s'[|s'| - 1]).top, geom(x).top) {
        ExtendLastRow(s', Cluster(s', geom), x, geom);
        ClusterJoin(s', x, geom);
      } else {
        OpenRow(s', Cluster(s', geom), x, geom);
        ClusterOpen(s', x, geom);
      }
    }
  }

  /** A partition whose last row is one item: the other rows partition the rest, off that item's row. */
  lemma PartitionDropRow(s: seq<ItemId>, rows: seq<seq<ItemId>>, geom: ItemId -> Box)
    requires IsRowPartition(s, rows, geom) && rows != [] && |rows[|rows| - 1]| == 1
    ensures s != [] && rows[|rows| - 1] == [s[|s| - 1]]
    ensures IsRowPartition(s[..|s| - 1], rows[..|rows| - 1], geom)
    ensures |s| > 1 ==> !SameRow(geom(s[|s| - 2]).top, geom(s[|s| - 1]).top)
  {
    PartitionUnsnoc(s, rows, geom);
    var init, last := rows[..|rows| - 1], rows[|rows| - 1];
    assert last == [last[0]];
    assert s[|s| - 1] == last[0];
    assert Flatten(init) == s[..|s| - 1];
    if |s| > 1 {
      assert init != [];
      PartitionUnsnoc(Flatten(init), init, geom);
      var prev := init[|init| - 1];
      assert prev[|prev| - 1] == s[|s| - 2];
    }
  }

  /** A partition whose last row has several items: dropping the last item leaves a partition of the rest. */
  lemma PartitionShrinkRow(s: seq<ItemId>, rows: seq<seq<ItemId>>, geom: ItemId -> Box)
    requires IsRowPartition(s, rows, geom) && rows != [] && |rows[|rows| - 1]| > 1
    ensures |s| > 1
    ensures var last := rows[|rows| - 1];
      && last != []
      && last == last[..|last| - 1] + [s[|s| - 1]]
      && IsRowPartition(s[..|s| - 1], rows[..|rows| - 1] + [last[..|last| - 1]], geom)
    ensures SameRow(geom(s[|s| - 2]).top, geom(s[|s| - 1]).top)
  {
    PartitionUnsnoc(s, rows, geom);
    var init, last := rows[..|rows| - 1], rows[|rows| - 1];
    var front, x := last[..|last| - 1], last[|last| - 1];
    assert last == front + [x];
    assert s == (Flatten(init) + front) + [x];
    assert s[..|s| - 1] == Flatten(init) + front;
    forall j | 0 < j < |front| ensures JoinsAt(front, j, geom) {
      assert JoinsAt(last, j, geom);
    }
    if init != [] {
      assert RowBreak(init[|init| - 1], last, geom);
    }
    PartitionSnoc(init, front, geom);
    assert s[|s| - 2] == last[|last| - 2];
    assert JoinsAt(last, |last| - 1, geom);
  }

  /** Clustering is the only such partition: any row partition of `s` is `Cluster(s)`. */
  lemma {:induction false} ClusterUnique(s: seq<ItemId>, rows: seq<seq<ItemId>>, geom: ItemId -> Box)
    requires IsRowPartition(s, rows, geom)
    ensures rows == Cluster(s, geom)
    decreases |s|
  {
    if rows == [] {
      assert s == [];
    } else if |rows[|rows| - 1]| == 1 {
      PartitionDropRow(s, rows, geom);
      ClusterUnique(s[..|s| - 1], rows[..|rows| - 1], geom);
      UniqueOpen(s, rows, geom);
    } else {
      PartitionShrinkRow(s, rows, geom);
      var last := rows[|rows| - 1];
      ClusterUnique(s[..|s| - 1], rows[..|rows| - 1] + [last[..|last| - 1]], geom);
      UniqueJoin(s, rows, geom);
    }
  }

  /** The step of `ClusterUnique` for a last row of one item. */
  lemma UniqueOpen(s: seq<ItemId>, rows: seq<seq<ItemId>>, geom: ItemId -> Box)
    requires s != [] && rows != []
    requires rows[|rows| - 1] == [s[|s| - 1]]
    requires |s| > 1 ==> !SameRow(geom(s[|s| - 2]).top, geom(s[|s| - 1]).top)
    requires rows[..|rows| - 1] == Cluster(s[..|s| - 1], geom)
    ensures rows == Cluster(s, geom)
  {
    SplitLast(rows);
  }

  /** The step of `ClusterUnique` for a last row of several items. */
  lemma UniqueJoin(s: seq<ItemId>, rows: seq<seq<ItemId>>, geom: ItemId -> Box)
    requires |s| > 1 && rows != []
    requires var last := rows[|rows| - 1];
      && last != []
      && last == last[..|last| - 1] + [s[|s| - 1]]
      && rows[..|rows| - 1] + [last[..|last| - 1]] == Cluster(s[..|s| - 1], geom)
    requires SameRow(geom(s[|s| - 2]).top, geom(s[|s| - 1]).top)
    ensures rows == Cluster(s, geom)
  {
    var last := rows[|rows| - 1];
    SnocTake(rows[..|rows| - 1], last[..|last| - 1]);
    SplitLast(rows);
  }

  /** One step of clustering: an item on the row of the previous item joins the last row. */
  lemma ClusterJoin(s: seq<ItemId>, x: ItemId, geom: ItemId -> Box)
    requires s != [] && SameRow(geom(s[|s| - 1]).top, geom(x).top)
    ensures var rows := Cluster(s, geom);
      Cluster(s + [x], geom) == rows[..|rows| - 1] + [rows[|rows| - 1] + [x]]
  {
    assert (s + [x])[..|s|] == s;
  }

  /** One step of clustering: the first item, or one off the previous item's row, opens a new row. */
  lemma ClusterOpen(s: seq<ItemId>, x: ItemId, geom: ItemId -> Box)
    requires s != [] ==> !SameRow(geom(s[|s| - 1]).top, geom(x).top)
    ensures Cluster(s + [x], geom) == Cluster(s, geom) + [[x]]
  {
    assert (s + [x])[..|s|] == s;
  }

  /** The clustering loop of the mouse-move handler: `rows`, `currentRow` and `lastTop` updated item by item. */
  method ClusterRows(elems: seq<ItemId>, geom: ItemId -> Box) returns (rows: seq<seq<ItemId>>)
    ensures rows == Cluster(elems, geom)
  {
    rows := [];
    var currentRow: seq<ItemId> := [];
    var lastTop: Option<int> := None;
    for i := 0 to |elems|
      invariant i == 0 ==> lastTop.None? && rows == [] && currentRow == []
      invariant i > 0 ==> lastTop == Some(geom(elems[i - 1]).top)
      invariant i > 0 ==> currentRow != [] && Cluster(elems[..i], geom) == rows + [currentRow]
    {
      var elem := elems[i];
      var top := geom(elem).top;
      ghost var done := elems[..i];
      assert done + [elem] == elems[..i + 1];
      if lastTop.None? || Abs(top - lastTop.value) < RowThreshold {
        if i == 0 {
          ClusterOpen(done, elem, geom);
        } else {
          ClusterJoin(done, elem, geom);
          assert (rows + [currentRow])[..|rows|] == rows;
        }
        currentRow := currentRow + [elem];
        lastTop := Some(top);
      } else {
        ClusterOpen(done, elem, geom);
        rows := rows + [currentRow];
        currentRow := [elem];
        lastTop := Some(top);
      }
    }
    assert elems[..|elems|] == elems;
    assert elems == [] ==> Cluster(elems, geom) == [];
    if |currentRow| > 0 {
      rows := rows + [currentRow];
    }
  }

  // ---------------------------------------------------------------------
  // Placeholder position
  // ---------------------------------------------------------------------

  /**
   * Where the mouse-move handler puts the placeholder: before item `col` of
   * row `row`, after the last item of row `row`, or at the end of the container.
   */
  datatype Slot = Before(row: nat, col: nat) | AfterRow(row: nat) | AtEnd

  /** The bottom edge of a row, measured on its first item. */
  function RowBottom(row: seq<ItemId>, geom: ItemId -> Box): int
    requires row != []
  {
    geom(row[0]).top + geom(row[0]).height
  }

  /** Row `r` is the first row whose bottom lies below the pointer's `y`. */
  ghost predicate IsTargetRow(rows: seq<seq<ItemId>>, geom: ItemId -> Box, y: int, r: nat)
    requires NonEmptyRows(rows)
  {
    && r < |rows|
    && y < RowBottom(rows[r], geom)
    && forall r' :: 0 <= r' < r ==> RowBottom(rows[r'], geom) <= y
  }

  /**
   * The placement rule: the target row is the first whose bottom lies below the
   * pointer; inside it the placeholder goes before the first item whose left edge
   * lies right of the pointer, or after the row's last item; with no target row
   * (or no rows at all) it goes to the end.
   */
  ghost predicate IsTargetSlot(rows: seq<seq<ItemId>>, geom: ItemId -> Box, x: int, y: int, slot: Slot) {
    && NonEmptyRows(rows)
    && match slot
       case AtEnd =>
         forall r :: 0 <= r < |rows| ==> RowBottom(rows[r], geom) <= y
       case Before(r, c) =>
         && IsTargetRow(rows, geom, y, r)
         && c < |rows[r]|
         && x < geom(rows[r][c]).left
         && forall c' :: 0 <= c' < c ==> geom(rows[r][c']).left <= x
       case AfterRow(r) =>
         && IsTargetRow(rows, geom, y, r)
         && forall c' :: 0 <= c' < |rows[r]| ==> geom(rows[r][c']).left <= x
  }

  /** The placement rule picks exactly one slot. */
  lemma TargetSlotUnique(rows: seq<seq<ItemId>>, geom: ItemId -> Box, x: int, y: int, a: Slot, b: Slot)
    requires IsTargetSlot(rows, geom, x, y, a) && IsTargetSlot(rows, geom, x, y, b)
    ensures a == b
  {
  }

  /**
   * The placement loops of the mouse-move handler: scan the rows for the first
   * whose bottom lies below the pointer, then that row's items for the first
   * whose left edge lies right of it; `inserted` records whether a row was found.
   */
  method ChooseSlot(rows: seq<seq<ItemId>>, geom: ItemId -> Box, x: int, y: int) returns (slot: Slot)
    requires NonEmptyRows(rows)
    ensures IsTargetSlot(rows, geom, x, y, slot)
  {
    var inserted := false;
    slot := AtEnd;
    var r := 0;
    while r < |rows|
      invariant 0 <= r <= |rows|
      invariant forall r' :: 0 <= r' < r ==> RowBottom(rows[r'], geom) <= y
    {
      var row := rows[r];
      if y < geom(row[0]).top + geom(row[0]).height {
        var c := 0;
        while c < |row|
          invariant 0 <= c <= |row|
          invariant forall c' :: 0 <= c' < c ==> geom(row[c']).left <= x
        {
          if x < geom(row[c]).left {
            slot := Before(r, c);
            inserted := true;
            break;
          }
          c := c + 1;
        }
        if !inserted {
          slot := AfterRow(r);
          inserted := true;
        }
        break;
      }
      r := r + 1;
    }
    if !inserted {
      slot := AtEnd;
    }
  }

  /** Position of the slot among the items `Flatten(rows)`. */
  function SlotIndex(rows: seq<seq<ItemId>>, slot: Slot): nat
    requires slot.Before? ==> slot.row < |rows|
    requires slot.AfterRow? ==> slot.row < |rows|
  {
    match slot
    case AtEnd => |Flatten(rows)|
    case Before(r, c) => |Flatten(rows[..r])| + c
    case AfterRow(r) => |Flatten(rows[..r + 1])|
  }

  /** The items of rows `0..r`, then row `r`, then the rest. */
  lemma FlattenAround(rows: seq<seq<ItemId>>, r: nat)
    requires r < |rows|
    ensures Flatten(rows) == Flatten(rows[..r]) + rows[r] + Flatten(rows[r + 1..])
    ensures Flatten(rows[..r + 1]) == Flatten(rows[..r]) + rows[r]
  {
    TakeSnoc(rows, r);
    FlattenSnoc(rows[..r], rows[r]);
    TakeDrop(rows, r + 1);
    FlattenAppend(rows[..r + 1], rows[r + 1..]);
  }

  /**
   * The slot's index says where the placeholder lands among the items: right
   * before item `col` of its row, right after its row's last item, or after
   * every item.
   */
  lemma SlotIndexNeighbours(rows: seq<seq<ItemId>>, slot: Slot)
    requires slot.Before? ==> slot.row < |rows| && slot.col < |rows[slot.row]|
    requires slot.AfterRow? ==> slot.row < |rows| && rows[slot.row] != []
    ensures SlotIndex(rows, slot) <= |Flatten(rows)|
    ensures slot.Before? ==>
      && SlotIndex(rows, slot) < |Flatten(rows)|
      && Flatten(rows)[SlotIndex(rows, slot)] == rows[slot.row][slot.col]
    ensures slot.AfterRow? ==>
      && 0 < SlotIndex(rows, slot)
      && Flatten(rows)[SlotIndex(rows, slot) - 1] == rows[slot.row][|rows[slot.row]| - 1]
    ensures slot.AtEnd? ==> SlotIndex(rows, slot) == |Flatten(rows)|
  {
    match slot
    case Before(r, c) => IndexBefore(rows, r, c);
    case AfterRow(r) => IndexAfterRow(rows, r);
    case AtEnd =>
  }

  /** Item `c` of row `r` sits at the index of the slot before it. */
  lemma IndexBefore(rows: seq<seq<ItemId>>, r: nat, c: nat)
    requires r < |rows| && c < |rows[r]|
    ensures var k := SlotIndex(rows, Before(r, c));
      k < |Flatten(rows)| && Flatten(rows)[k] == rows[r][c]
  {
    FlattenAround(rows, r);
  }

  /** The last item of a non-empty row `r` sits right before the index of the slot after it. */
  lemma IndexAfterRow(rows: seq<seq<ItemId>>, r: nat)
    requires r < |rows| && rows[r] != []
    ensures var k := SlotIndex(rows, AfterRow(r));
      0 < k <= |Flatten(rows)| && Flatten(rows)[k - 1] == rows[r][|rows[r]| - 1]
  {
    FlattenAround(rows, r);
  }

  /**
   * The body of the mouse-move handler after `moveAt`: cluster the cards into
   * rows and pick the slot; `k` is where the placeholder goes among the cards,
   * right before the card the slot names, right after the last card of its
   * row, or after every card.
   */
  method PlacementOf(elems: seq<ItemId>, geom: ItemId -> Box, x: int, y: int) returns (slot: Slot, k: nat)
    ensures var rows := Cluster(elems, geom);
      && IsTargetSlot(rows, geom, x, y, slot)
      && k == SlotIndex(rows, slot) && k <= |elems|
    ensures slot.Before? ==> k < |elems| && elems[k] == Cluster(elems, geom)[slot.row][slot.col]
    ensures slot.AfterRow? ==>
      var row := Cluster(elems, geom)[slot.row];
      0 < k && elems[k - 1] == row[|row| - 1]
    ensures slot.AtEnd? ==> k == |elems|
  {
    var rows := ClusterRows(elems, geom);
    ClusterPartition(elems, geom);
    slot := ChooseSlot(rows, geom, x, y);
    SlotIndexNeighbours(rows, slot);
    k := SlotIndex(rows, slot);
  }

  // ---------------------------------------------------------------------
  // The container and the drag session
  // ---------------------------------------------------------------------

  /** A child of the container: a card wrapper, or the drag placeholder. */
  datatype Node = Card(id: ItemId) | Placeholder

  /** `querySelectorAll(".cardstyle-ui-wrap:not(.placeholder)")`: the cards, in document order. */
  function CardsOf(children: seq<Node>): (ids: seq<ItemId>)
    ensures |ids| <= |children|
    ensures Placeholder !in children ==> |ids| == |children|
    ensures forall x :: x in ids <==> Card(x) in children
  {
    if children == [] then []
    else match children[0]
      case Card(x) => [x] + CardsOf(children[1..])
      case Placeholder => CardsOf(children[1..])
  }

  lemma {:induction false} CardsOfAppend(a: seq<Node>, b: seq<Node>)
    ensures CardsOf(a + b) == CardsOf(a) + CardsOf(b)
  {
    if a != [] {
      assert (a + b)[1..] == a[1..] + b;
      CardsOfAppend(a[1..], b);
    } else {
      assert a + b == b;
    }
  }

  /** The cards of `pre + [n] + post`, split around `n`. */
  lemma CardsOfAround(pre: seq<Node>, n: Node, post: seq<Node>)
    ensures CardsOf(pre + [n] + post) == CardsOf(pre) + CardsOf([n]) + CardsOf(post)
  {
    CardsOfAppend(pre + [n], post);
    CardsOfAppend(pre, [n]);
  }

  /**
   * How many placeholders `children` holds. `Placeholder in children` says
   * the same for "at least one" (`PlaceholdersMember`); the count is kept
   * because the session invariant needs "exactly one" and splits over `+`.
   */
  function Placeholders(children: seq<Node>): nat {
    if children == [] then 0
    else (if children[0] == Placeholder then 1 else 0) + Placeholders(children[1..])
  }

  lemma {:induction false} PlaceholdersAppend(a: seq<Node>, b: seq<Node>)
    ensures Placeholders(a + b) == Placeholders(a) + Placeholders(b)
  {
    if a != [] {
      assert (a + b)[1..] == a[1..] + b;
      PlaceholdersAppend(a[1..], b);
    } else {
      assert a + b == b;
    }
  }

  lemma PlaceholdersAround(pre: seq<Node>, n: Node, post: seq<Node>)
    ensures Placeholders(pre + [n] + post) == Placeholders(pre) + Placeholders([n]) + Placeholders(post)
  {
    PlaceholdersAppend(pre + [n], post);
    PlaceholdersAppend(pre, [n]);
  }

  /** The list holds a placeholder exactly when it counts one. */
  lemma {:induction false} PlaceholdersMember(children: seq<Node>)
    ensures Placeholder in children <==> Placeholders(children) > 0
  {
    if children != [] {
      PlaceholdersMember(children[1..]);
      assert children == [children[0]] + children[1..];
    }
  }

  /**
   * The container's cards, as a multiset: the same value as
   * `multiset(CardsOf(children))` (`CardBagIsCards`), written by recursion
   * so that it splits over `+` without going through `CardsOf`.
   */
  function CardBag(children: seq<Node>): multiset<ItemId> {
    if children == [] then multiset{}
    else
      var first := match children[0] case Card(x) => multiset{x} case Placeholder => multiset{};
      first + CardBag(children[1..])
  }

  /** The bag of cards is the multiset of the card sequence. */
  lemma {:induction false} CardBagIsCards(children: seq<Node>)
    ensures CardBag(children) == multiset(CardsOf(children))
  {
    if children != [] {
      CardBagIsCards(children[1..]);
      match children[0]
      case Card(x) =>
        assert CardsOf(children) == [x] + CardsOf(children[1..]);
      case Placeholder =>
    }
  }

  /** A card is in the bag exactly when it is one of the children. */
  lemma {:induction false} CardBagMember(children: seq<Node>, x: ItemId)
    ensures Card(x) in children <==> x in CardBag(children)
  {
    if children != [] {
      CardBagMember(children[1..], x);
      assert children == [children[0]] + children[1..];
    }
  }

  lemma {:induction false} CardBagAppend(a: seq<Node>, b: seq<Node>)
    ensures CardBag(a + b) == CardBag(a) + CardBag(b)
  {
    if a != [] {
      assert (a + b)[1..] == a[1..] + b;
      CardBagAppend(a[1..], b);
    } else {
      assert a + b == b;
    }
  }

  lemma CardBagAround(pre: seq<Node>, n: Node, post: seq<Node>)
    ensures CardBag(pre + [n] + post) == CardBag(pre) + CardBag([n]) + CardBag(post)
  {
    CardBagAppend(pre + [n], post);
    CardBagAppend(pre, [n]);
  }

  /** The cards `ids` as container children. */
  function Nodes(ids: seq<ItemId>): (ns: seq<Node>)
    ensures |ns| == |ids|
    ensures Placeholder !in ns && Placeholders(ns) == 0
    ensures CardsOf(ns) == ids
  {
    if ids == [] then [] else [Card(ids[0])] + Nodes(ids[1..])
  }

  /** The cards `ids` with the placeholder inserted at position `k`. */
  function WithPlaceholderAt(ids: seq<ItemId>, k: nat): (ns: seq<Node>)
    requires k <= |ids|
    ensures CardsOf(ns) == ids
    ensures Placeholders(ns) == 1
    ensures |ns| == |ids| + 1 && ns[k] == Placeholder
  {
    var pre, post := Nodes(ids[..k]), Nodes(ids[k..]);
    CardsOfAround(pre, Placeholder, post);
    PlaceholdersAround(pre, Placeholder, post);
    assert CardsOf([Placeholder]) == [];
    assert ids[..k] + ids[k..] == ids;
    pre + [Placeholder] + post
  }

  /** Position of the first occurrence of `n` in `s`. */
  function IndexOf(s: seq<Node>, n: Node): (i: nat)
    requires n in s
    ensures i < |s| && s[i] == n && n !in s[..i]
  {
    if s[0] == n then 0 else 1 + IndexOf(s[1..], n)
  }

  /** A pointer event's coordinates: viewport (`clientX`/`clientY`) and page (`pageX`/`pageY`). */
  datatype Pointer = Pointer(clientX: int, clientY: int, pageX: int, pageY: int)

  /**
   * What a mouse-down in the container hit: whether the target has the move-tab
   * class, and the closest enclosing card wrapper (`closest(".cardstyle-ui-wrap")`).
   */
  datatype PressTarget = PressTarget(isMoveTab: bool, closestWrap: Option<ItemId>)

  /** The placeholder's inline width and height. */
  datatype Size = Size(width: int, height: int)

  /**
   * The inline style properties the drag sets on a card: `position: absolute`,
   * `z-index`, `left`, `top`, `width`, `height`, `pointer-events: none` and
   * `opacity`. `None` (or `false`) is the empty string, i.e. not set inline.
   */
  datatype InlineStyle = InlineStyle(
    absolute: bool,
    zIndex: Option<int>,
    left: Option<int>,
    top: Option<int>,
    width: Option<int>,
    height: Option<int>,
    pointerEventsNone: bool,
    opacity: Option<real>)

  const NoInlineStyle := InlineStyle(false, None, None, None, None, None, false, None)

  /** z-index of the dragged card. */
  const DragZIndex := 1000

  /** Opacity of the dragged card. */
  const DragOpacity := 0.7

  /** The overlay style mouse-down gives the dragged card before placing it, sized like its box. */
  function DraggingStyle(b: Box): (r: InlineStyle)
    ensures r.absolute && r.pointerEventsNone
    ensures r.zIndex == Some(DragZIndex) && r.opacity == Some(DragOpacity)
    ensures r.width == Some(b.width) && r.height == Some(b.height)
    ensures r.left.None? && r.top.None?
  {
    InlineStyle(true, Some(DragZIndex), None, None, Some(b.width), Some(b.height), true, Some(DragOpacity))
  }

  /** Mouse-up clears every inline property the drag set except `height`. */
  function Released(st: InlineStyle): (r: InlineStyle)
    ensures r.height == st.height
    ensures r.(height := None) == NoInlineStyle
  {
    NoInlineStyle.(height := st.height)
  }

  /** `st` with `left` and `top` set. */
  function MovedTo(st: InlineStyle, left: int, top: int): InlineStyle {
    st.(left := Some(left), top := Some(top))
  }

  /** Setting a card's style to `st` and then moving it is setting it to `st` moved. */
  lemma SetThenMove(m: map<ItemId, InlineStyle>, d: ItemId, st: InlineStyle, left: int, top: int)
    ensures var m1 := m[d := st];
      m1[d := MovedTo(StyleOf(m1, d), left, top)] == m[d := MovedTo(st, left, top)]
  {
  }

  /** A card's inline style, `NoInlineStyle` when none of these properties is set. */
  function StyleOf(styles: map<ItemId, InlineStyle>, d: ItemId): InlineStyle {
    if d in styles then styles[d] else NoInlineStyle
  }

  /** No item occurs twice. */
  ghost predicate Distinct(items: multiset<ItemId>) {
    forall x :: items[x] <= 1
  }

  /** The card held outside the container, as a multiset (empty when no session is active). */
  function Held(dragging: Option<ItemId>): multiset<ItemId> {
    match dragging
    case None => multiset{}
    case Some(d) => multiset{d}
  }

  /**
   * The drag session's bookkeeping: a session is active exactly when both the
   * dragged card and the placeholder are set; the container then holds exactly
   * one placeholder and otherwise none; the container's cards together with the
   * dragged card are the owned cards `items`.
   */
  ghost predicate Consistent(children: seq<Node>, dragging: Option<ItemId>, placeholder: Option<Size>, items: multiset<ItemId>) {
    && (dragging.Some? <==> placeholder.Some?)
    && Placeholders(children) == (if dragging.Some? then 1 else 0)
    && (Placeholder in children <==> dragging.Some?)
    && CardBag(children) + Held(dragging) == items
  }

  /** Picking a card up: the placeholder takes its place and the session becomes active. */
  lemma PickUp(pre: seq<Node>, post: seq<Node>, d: ItemId, size: Size, items: multiset<ItemId>)
    requires Consistent(pre + [Card(d)] + post, None, None, items)
    ensures Consistent(pre + [Placeholder] + post, Some(d), Some(size), items)
  {
    CardBagAround(pre, Card(d), post);
    CardBagAround(pre, Placeholder, post);
    PlaceholdersAround(pre, Card(d), post);
    PlaceholdersAround(pre, Placeholder, post);
    PlaceholdersMember(pre + [Placeholder] + post);
  }

  /** Dropping the card: it takes the placeholder's place and the session ends. */
  lemma Drop(pre: seq<Node>, post: seq<Node>, d: ItemId, size: Size, items: multiset<ItemId>)
    requires Consistent(pre + [Placeholder] + post, Some(d), Some(size), items)
    ensures Consistent(pre + [Card(d)] + post, None, None, items)
  {
    CardBagAround(pre, Card(d), post);
    CardBagAround(pre, Placeholder, post);
    PlaceholdersAround(pre, Card(d), post);
    PlaceholdersAround(pre, Placeholder, post);
    PlaceholdersMember(pre + [Card(d)] + post);
  }

  /** With no session active, the container's cards are a permutation of the owned cards. */
  lemma Settled(children: seq<Node>, items: multiset<ItemId>)
    requires Consistent(children, None, None, items)
    ensures multiset(CardsOf(children)) == items
  {
    CardBagIsCards(children);
  }

  /** Moving the placeholder among the same cards keeps the bookkeeping. */
  lemma Relocate(children: seq<Node>, next: seq<Node>, d: ItemId, size: Size, items: multiset<ItemId>)
    requires Consistent(children, Some(d), Some(size), items)
    requires CardsOf(next) == CardsOf(children) && Placeholders(next) == 1
    ensures Consistent(next, Some(d), Some(size), items)
  {
    CardBagIsCards(children);
    CardBagIsCards(next);
    PlaceholdersMember(next);
  }

  /** While a session is active, the dragged card of owned cards without repeats is not in the container. */
  lemma DraggedOutside(children: seq<Node>, d: ItemId, size: Size, items: multiset<ItemId>)
    requires Consistent(children, Some(d), Some(size), items) && Distinct(items)
    ensures Card(d) !in children
  {
    CardBagMember(children, d);
    assert items[d] == CardBag(children)[d] + 1;
  }

  /**
   * Drag-and-reorder over one container (`enableDragAndDrop`). The closure
   * variables `draggingElem`, `placeholder`, `offsetX` and `offsetY` are
   * fields; `children` is the container's child list; the dragged card is
   * outside it (moved to the document body) while a session is active.
   */
  class DragController {
    var children: seq<Node>
    var dragging: Option<ItemId>
    var placeholder: Option<Size>
    var offsetX: int
    var offsetY: int
    var styles: map<ItemId, InlineStyle>
    /** The cards the container owns; a drag only moves them. */
    ghost const Items: multiset<ItemId>

    /** The session invariant over the fields; the owned cards never repeat. */
    ghost predicate Valid()
      reads this`children, this`dragging, this`placeholder
    {
      Consistent(children, dragging, placeholder, Items) && Distinct(Items)
    }

    /** A controller over a container whose children are the cards `cards`, in order. */
    constructor (cards: seq<ItemId>)
      requires Distinct(multiset(cards))
      ensures Valid() && dragging.None?
      ensures children == Nodes(cards) && Items == multiset(cards)
      ensures styles == map[]
    {
      children := Nodes(cards);
      dragging := None;
      placeholder := None;
      offsetX, offsetY := 0, 0;
      styles := map[];
      Items := multiset(cards);
      new;
      CardBagIsCards(children);
    }

    /**
     * The mouse-down handler. A drag starts only on a move tab inside a card
     * wrapper; otherwise nothing changes.
     */
    method MouseDown(t: PressTarget, p: Pointer, geom: ItemId -> Box) returns (started: bool)
      requires Valid() && dragging.None?
      requires t.closestWrap.Some? ==> Card(t.closestWrap.value) in children
      modifies this
      ensures Valid()
      ensures started <==> t.isMoveTab && t.closestWrap.Some?
      ensures !started ==> unchanged(this)
      ensures started ==> IsDragStart(old(children), old(styles), t.closestWrap.value, p, geom(t.closestWrap.value))
    {
      if !t.isMoveTab {
        return false;
      }
      if t.closestWrap.None? {
        return false;
      }
      StartDrag(t.closestWrap.value, p, geom(t.closestWrap.value));
      started := true;
    }

    /**
     * The state right after a drag of card `d` starts, from the container
     * `children0` and styles `styles0`: the placeholder, sized like the card's
     * box `b`, has taken the card's place; the grab offset is the pointer minus
     * the box's corner; the card is a translucent overlay at the page position
     * minus that offset.
     */
    ghost predicate IsDragStart(children0: seq<Node>, styles0: map<ItemId, InlineStyle>, d: ItemId, p: Pointer, b: Box)
      requires Card(d) in children0
      reads this
    {
      var i := IndexOf(children0, Card(d));
      && dragging == Some(d)
      && placeholder == Some(Size(b.width, b.height))
      && children == children0[..i] + [Placeholder] + children0[i + 1..]
      && offsetX == p.clientX - b.left && offsetY == p.clientY - b.top
      && styles == styles0[d := MovedTo(DraggingStyle(b), p.pageX - offsetX, p.pageY - offsetY)]
    }

    /** The body of the mouse-down handler once a card wrapper `d`, measured as `b`, is grabbed. */
    method StartDrag(d: ItemId, p: Pointer, b: Box)
      requires Valid() && dragging.None? && Card(d) in children
      modifies this
      ensures Valid()
      ensures IsDragStart(old(children), old(styles), d, p, b)
    {
      offsetX := p.clientX - b.left;
      offsetY := p.clientY - b.top;
      SetThenMove(styles, d, DraggingStyle(b), p.pageX - offsetX, p.pageY - offsetY);
      styles := styles[d := DraggingStyle(b)];
      TakeOut(d, Size(b.width, b.height));
      MoveAt(p.pageX, p.pageY);
    }

    /**
     * The placeholder is inserted after the card, which then moves to the
     * document body: in the container the placeholder takes the card's place.
     */
    method TakeOut(d: ItemId, size: Size)
      requires Valid() && dragging.None? && Card(d) in children
      modifies this`children, this`dragging, this`placeholder
      ensures Valid() && dragging == Some(d) && placeholder == Some(size)
      ensures var i := IndexOf(old(children), Card(d));
        children == old(children)[..i] + [Placeholder] + old(children)[i + 1..]
    {
      var i := IndexOf(children, Card(d));
      var pre, post := children[..i], children[i + 1..];
      assert children == pre + [Card(d)] + post;
      PickUp(pre, post, d, size, Items);
      children := pre + [Placeholder] + post;
      dragging := Some(d);
      placeholder := Some(size);
    }

    /** `moveAt`: the dragged card's `left`/`top` become the page position minus the grab offset. */
    method MoveAt(pageX: int, pageY: int)
      requires dragging.Some?
      modifies this`styles
      ensures var d := dragging.value;
        styles == old(styles)[d := MovedTo(StyleOf(old(styles), d), pageX - offsetX, pageY - offsetY)]
    {
      var d := dragging.value;
      styles := styles[d := MovedTo(StyleOf(styles, d), pageX - offsetX, pageY - offsetY)];
    }

    /**
     * The mouse-move handler: move the overlay with the pointer, then move the
     * placeholder to the slot the placement rule picks among the cards still in
     * the container, which keep their order.
     */
    method MouseMove(p: Pointer, geom: ItemId -> Box) returns (slot: Slot)
      requires Valid() && dragging.Some?
      modifies this
      ensures Valid()
      ensures dragging == old(dragging) && placeholder == old(placeholder)
      ensures offsetX == old(offsetX) && offsetY == old(offsetY)
      ensures var d := dragging.value;
        styles == old(styles)[d := MovedTo(StyleOf(old(styles), d), p.pageX - offsetX, p.pageY - offsetY)]
      ensures IsPlaced(old(children), geom, p.clientX, p.clientY, slot)
    {
      MoveAt(p.pageX, p.pageY);
      slot := Reposition(p.clientX, p.clientY, geom);
    }

    /**
     * The container is the cards of `children0`, in their order, with the
     * placeholder at the slot the placement rule picks for the point `x`, `y`
     * over the rows those cards form.
     */
    ghost predicate IsPlaced(children0: seq<Node>, geom: ItemId -> Box, x: int, y: int, slot: Slot)
      reads this`children
    {
      var cards := CardsOf(children0);
      var rows := Cluster(cards, geom);
      && IsTargetSlot(rows, geom, x, y, slot)
      && SlotIndex(rows, slot) <= |cards|
      && children == WithPlaceholderAt(cards, SlotIndex(rows, slot))
    }

    /** The placeholder moves to the slot the placement rule picks for the viewport point `x`, `y`. */
    method Reposition(x: int, y: int, geom: ItemId -> Box) returns (slot: Slot)
      requires Valid() && dragging.Some?
      modifies this`children
      ensures Valid()
      ensures IsPlaced(old(children), geom, x, y, slot)
    {
      var elems := CardsOf(children);
      var k;
      slot, k := PlacementOf(elems, geom, x, y);
      var next := WithPlaceholderAt(elems, k);
      Relocate(children, next, dragging.value, placeholder.value, Items);
      children := next;
    }

    /**
     * The mouse-up handler: the dragged card's inline style is cleared except its
     * height, the card takes the placeholder's place, and the session ends. The
     * container then holds exactly the owned cards and no placeholder.
     */
    method MouseUp()
      requires Valid() && dragging.Some?
      modifies this
      ensures Valid() && dragging.None? && placeholder.None?
      ensures multiset(CardsOf(children)) == Items
      ensures IsDropped(old(children), old(dragging).value)
      ensures var d := old(dragging).value;
        styles == old(styles)[d := Released(StyleOf(old(styles), d))]
      ensures offsetX == old(offsetX) && offsetY == old(offsetY)
    {
      var d := dragging.value;
      styles := styles[d := Released(StyleOf(styles, d))];
      PutBack();
    }

    /** The container is `children0` with its placeholder replaced by card `d`. */
    ghost predicate IsDropped(children0: seq<Node>, d: ItemId)
      requires Placeholder in children0
      reads this`children
    {
      var i := IndexOf(children0, Placeholder);
      children == children0[..i] + [Card(d)] + children0[i + 1..]
    }

    /** The dragged card is inserted before the placeholder, which is then removed. */
    method PutBack()
      requires Valid() && dragging.Some?
      modifies this`children, this`dragging, this`placeholder
      ensures Valid() && dragging.None? && placeholder.None?
      ensures multiset(CardsOf(children)) == Items
      ensures IsDropped(old(children), old(dragging).value)
    {
      var d := dragging.value;
      var i := IndexOf(children, Placeholder);
      var pre, post := children[..i], children[i + 1..];
      assert children == pre + [Placeholder] + post;
      Drop(pre, post, d, placeholder.value, Items);
      Settled(pre + [Card(d)] + post, Items);
      children := pre + [Card(d)] + post;
      dragging := None;
      placeholder := None;
    }
  }
}
