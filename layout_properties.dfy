/**
 * Properties of the pane tree: re-applying a size changes nothing, a
 * refresh lays the tree out as non-overlapping tiles (with the one
 * exception SetHeight's handling of the too-small flag allows), Draw and
 * Iterate run the callbacks of the visible panes left to right, and a laid
 * out tree whose bordered panes have room never panics while drawing.
 */
module LayoutProperties {
  import opened Wrappers
  import opened Decimal
  import opened Styles
  import opened Terminal
  import opened Layout

  // ---------------------------------------------------------------------
  // Idempotence of SetWidth and SetHeight
  // ---------------------------------------------------------------------

  /** Setting the same width twice leaves the tree as the first call left it. */
  lemma {:induction false} WidthIdempotent(p: PaneTree, w: int)
    ensures WithWidth(WithWidth(p, w), w) == WithWidth(p, w)
    decreases Size(p), 1
  {
    var r := WithWidth(p, w);
    assert TotalMinWidth(r) == TotalMinWidth(p);
    if WidthTooSmall(p, w) {
      assert WithWidth(r, w) == r;
    } else if p.kids.Kids? && p.split == SplitH {
      WidthIdempotentOverRows(p, w);
    } else if p.kids.Kids? && p.split == SplitV && !GetSplitValues(p.(width := w)).tooSmall {
      WidthIdempotentSideBySide(p, w);
    } else if p.kids.Kids? && p.split == SplitV {
      assert GetSplitValues(r.(width := w)) == GetSplitValues(p.(width := w));
      assert WithWidth(r, w) == r;
    } else {
      assert WithWidth(r, w) == r;
    }
  }

  lemma {:induction false} WidthIdempotentOverRows(p: PaneTree, w: int)
    requires !WidthTooSmall(p, w) && p.kids.Kids? && p.split == SplitH
    ensures WithWidth(WithWidth(p, w), w) == WithWidth(p, w)
    decreases Size(p), 0
  {
    var a1, b1 := p.kids.first.(left := p.left), p.kids.second.(left := p.left);
    var r := WithWidthOverRows(p, w);
    assert TotalMinWidth(r) == TotalMinWidth(p);
    WidthIdempotent(a1, w);
    WidthIdempotent(b1, w);
    var ra, rb := WithWidth(a1, w), WithWidth(b1, w);
    assert ra.(left := p.left) == ra && rb.(left := p.left) == rb;
    var rr := WithWidthOverRows(r, w);
    assert rr == r;
  }

  lemma {:induction false} WidthIdempotentSideBySide(p: PaneTree, w: int)
    requires !WidthTooSmall(p, w) && p.kids.Kids? && p.split == SplitV
    requires !GetSplitValues(p.(width := w)).tooSmall
    ensures WithWidth(WithWidth(p, w), w) == WithWidth(p, w)
    decreases Size(p), 0
  {
    var r, sv, l2 := SideBySideAt(p, w);
    var a1, b1 := p.kids.first.(left := p.left), p.kids.second.(left := l2);
    assert TotalMinWidth(r) == TotalMinWidth(p);
    assert GetSplitValues(r.(width := w)) == sv;
    WidthIdempotent(a1, sv.v1);
    WidthIdempotent(b1, sv.v2);
    var ra, rb := r.kids.first, r.kids.second;
    assert ra.(left := r.left) == ra && rb.(left := l2) == rb;
    var rr, sv2, l3 := SideBySideAt(r, w);
    assert sv2 == sv && l3 == l2;
    assert rr == r;
  }

  /** Setting the same height twice leaves the tree as the first call left it. */
  lemma {:induction false} HeightIdempotent(p: PaneTree, h: int)
    ensures WithHeight(WithHeight(p, h), h) == WithHeight(p, h)
    decreases Size(p), 1
  {
    var r := WithHeight(p, h);
    assert TotalMinHeight(r) == TotalMinHeight(p);
    if HeightTooSmall(p, h) {
      assert WithHeight(r, h) == r;
    } else if p.kids.Kids? && p.split == SplitV {
      HeightIdempotentOverColumns(p, h);
    } else if p.kids.Kids? && p.split == SplitH && !GetSplitValues(p.(height := h)).tooSmall {
      HeightIdempotentStacked(p, h);
    } else if p.kids.Kids? && p.split == SplitH {
      assert GetSplitValues(r.(height := h)) == GetSplitValues(p.(height := h));
      assert WithHeight(r, h) == r;
    } else {
      assert WithHeight(r, h) == r;
    }
  }

  lemma {:induction false} HeightIdempotentOverColumns(p: PaneTree, h: int)
    requires !HeightTooSmall(p, h) && p.kids.Kids? && p.split == SplitV
    ensures WithHeight(WithHeight(p, h), h) == WithHeight(p, h)
    decreases Size(p), 0
  {
    var a1, b1 := p.kids.first.(top := p.top), p.kids.second.(top := p.top);
    var r := WithHeightOverColumns(p, h);
    assert TotalMinHeight(r) == TotalMinHeight(p);
    HeightIdempotent(a1, h);
    HeightIdempotent(b1, h);
    var ra, rb := WithHeight(a1, h), WithHeight(b1, h);
    assert ra.(top := p.top) == ra && rb.(top := p.top) == rb;
    assert r.kids == Kids(ra, rb) && r.top == p.top;
    var rr := WithHeightOverColumns(r, h);
    assert rr == r;
  }

  lemma {:induction false} HeightIdempotentStacked(p: PaneTree, h: int)
    requires !HeightTooSmall(p, h) && p.kids.Kids? && p.split == SplitH
    requires !GetSplitValues(p.(height := h)).tooSmall
    ensures WithHeight(WithHeight(p, h), h) == WithHeight(p, h)
    decreases Size(p), 0
  {
    var sv := GetSplitValues(p.(height := h));
    var a1, b1 := p.kids.first.(top := p.top), p.kids.second.(top := p.top + sv.v1);
    var r := WithHeightStacked(p, h);
    assert TotalMinHeight(r) == TotalMinHeight(p);
    assert GetSplitValues(r.(height := h)) == sv;
    HeightIdempotent(a1, sv.v1);
    HeightIdempotent(b1, sv.v2);
    var ra, rb := r.kids.first, r.kids.second;
    assert ra == WithHeight(a1, sv.v1) && rb == WithHeight(b1, sv.v2);
    assert ra.(top := r.top) == ra && rb.(top := r.top + sv.v1) == rb;
    StackedSettled(r, h, sv);
  }

  /** A stacked pane whose rows already have the heights SetHeight would give them is left as it is. */
  lemma StackedSettled(r: PaneTree, h: int, sv: SplitValues)
    requires !HeightTooSmall(r, h) && r.kids.Kids? && r.split == SplitH
    requires sv == GetSplitValues(r.(height := h)) && !sv.tooSmall
    requires r.height == h && !r.tooSmall
    requires WithHeight(r.kids.first.(top := r.top), sv.v1) == r.kids.first
    requires WithHeight(r.kids.second.(top := r.top + sv.v1), sv.v2) == r.kids.second
    ensures WithHeight(r, h) == r
  {
    var rr := WithHeightStacked(r, h);
  }

  /** SetWidth keeps every split pane's two children, and every pane's border and minimum width. */
  lemma {:induction false} WidthKeepsShape(p: PaneTree, w: int)
    requires WellFormed(p)
    ensures WellFormed(WithWidth(p, w))
    ensures BorderedPanesHaveWidth(p) ==> BorderedPanesHaveWidth(WithWidth(p, w))
    decreases Size(p)
  {
    var r := WithWidth(p, w);
    if r.kids == p.kids {
      SameShape(p, r);
    } else {
      var a, b := p.kids.first, p.kids.second;
      var sv := GetSplitValues(p.(width := w));
      var (a1, b1) := if p.split == SplitH then (a.(left := p.left), b.(left := p.left))
                    else (a.(left := p.left), b.(left := p.left + sv.v1));
      var (wa, wb) := if p.split == SplitH then (w, w) else (sv.v1, sv.v2);
      assert r.kids == Kids(WithWidth(a1, wa), WithWidth(b1, wb));
      SameShape(a, a1);
      SameShape(b, b1);
      WidthKeepsShape(a1, wa);
      WidthKeepsShape(b1, wb);
      ShapeFromKids(p, r);
    }
  }

  /** SetHeight keeps every split pane's two children, and every pane's border and minimum width. */
  lemma {:induction false} HeightKeepsShape(p: PaneTree, h: int)
    requires WellFormed(p)
    ensures WellFormed(WithHeight(p, h))
    ensures BorderedPanesHaveWidth(p) ==> BorderedPanesHaveWidth(WithHeight(p, h))
    decreases Size(p)
  {
    var r := WithHeight(p, h);
    if r.kids == p.kids {
      SameShape(p, r);
    } else {
      var a, b := p.kids.first, p.kids.second;
      var sv := GetSplitValues(p.(height := h));
      var (a1, b1) := if p.split == SplitV then (a.(top := p.top), b.(top := p.top))
                    else (a.(top := p.top), b.(top := p.top + sv.v1));
      var (ha, hb) := if p.split == SplitV then (h, h) else (sv.v1, sv.v2);
      assert r.kids == Kids(WithHeight(a1, ha), WithHeight(b1, hb));
      SameShape(a, a1);
      SameShape(b, b1);
      HeightKeepsShape(a1, ha);
      HeightKeepsShape(b1, hb);
      ShapeFromKids(p, r);
    }
  }

  /** Two panes that differ only in geometry have the same shape. */
  lemma SameShape(p: PaneTree, q: PaneTree)
    requires q.kids == p.kids && q.split == p.split && q.style == p.style && q.minWidth == p.minWidth
    ensures WellFormed(q) == WellFormed(p) && BorderedPanesHaveWidth(q) == BorderedPanesHaveWidth(p)
  {
  }

  /** A pane keeps its shape when its children, replaced, keep theirs. */
  lemma ShapeFromKids(p: PaneTree, r: PaneTree)
    requires WellFormed(p) && p.kids.Kids? && r.kids.Kids?
    requires r.split == p.split && r.style == p.style && r.minWidth == p.minWidth
    requires WellFormed(r.kids.first) && WellFormed(r.kids.second)
    requires BorderedPanesHaveWidth(p) ==>
      BorderedPanesHaveWidth(r.kids.first) && BorderedPanesHaveWidth(r.kids.second)
    ensures WellFormed(r) && (BorderedPanesHaveWidth(p) ==> BorderedPanesHaveWidth(r))
  {
  }

  /** refreshSize keeps the shape of the tree. */
  lemma RefreshKeepsShape(p: PaneTree, w: int, h: int)
    requires WellFormed(p)
    ensures WellFormed(Refresh(p, w, h))
    ensures BorderedPanesHaveWidth(p) ==> BorderedPanesHaveWidth(Refresh(p, w, h))
  {
    WidthKeepsShape(p, w);
    HeightKeepsShape(WithWidth(p, w), h);
  }

  // ---------------------------------------------------------------------
  // Tiling
  // ---------------------------------------------------------------------

  /** Every split in the tree is horizontal or vertical and has its two children. */
  predicate StandardSplits(p: PaneTree) {
    && (p.split == SplitNone || p.split == SplitH || p.split == SplitV)
    && (p.split != SplitNone ==> p.kids.Kids?)
    && (p.kids.Kids? ==> StandardSplits(p.kids.first) && StandardSplits(p.kids.second))
  }

  /** No horizontally split pane carries a positive minimum width (its own or its border's). */
  predicate NoWidthMinimumOnHorizontalSplits(p: PaneTree) {
    && (p.split == SplitH ==> TotalMinWidth(p) <= 0)
    && (p.kids.Kids? ==> NoWidthMinimumOnHorizontalSplits(p.kids.first) && NoWidthMinimumOnHorizontalSplits(p.kids.second))
  }

  /** Children `a` and `b` divide their parent's rectangle along the parent's split, each at least one cell thick. */
  predicate Tiles(p: PaneTree, a: PaneTree, b: PaneTree) {
    if p.split == SplitH then
      && a.left == p.left && b.left == p.left && a.width == p.width && b.width == p.width
      && a.top == p.top && b.top == p.top + a.height
      && a.height >= 1 && b.height >= 1 && a.height + b.height == p.height
    else if p.split == SplitV then
      && a.top == p.top && b.top == p.top && a.height == p.height && b.height == p.height
      && a.left == p.left && b.left == p.left + a.width
      && a.width >= 1 && b.width >= 1 && a.width + b.width == p.width
    else false
  }

  /**
   * The tree as Draw sees it is laid out: every pane Draw reaches meets its
   * minimum size, and every split pane it reaches is tiled by its children.
   */
  predicate Laid(p: PaneTree) {
    !p.tooSmall ==>
      && !WidthTooSmall(p, p.width) && !HeightTooSmall(p, p.height)
      && (p.split != SplitNone ==>
            && p.kids.Kids?
            && Tiles(p, p.kids.first, p.kids.second)
            && Laid(p.kids.first) && Laid(p.kids.second))
  }

  /** A pane that SetWidth, a new top and SetHeight leave visible meets both of its minimums. */
  lemma PlacedFits(p: PaneTree, w: int, h: int, t: int)
    requires p.split == SplitH ==> TotalMinWidth(p) <= 0
    ensures var y := WithHeight(WithWidth(p, w).(top := t), h);
      !y.tooSmall ==> !WidthTooSmall(y, y.width) && !HeightTooSmall(y, y.height)
  {
    var x := WithWidth(p, w).(top := t);
    assert TotalMinWidth(x) == TotalMinWidth(p) && TotalMinHeight(x) == TotalMinHeight(p);
  }

  /** The general form of the tiling lemma: SetWidth, a new top, then SetHeight. */
  lemma {:induction false} PlacedIsLaid(p: PaneTree, w: int, h: int, t: int)
    requires StandardSplits(p) && NoWidthMinimumOnHorizontalSplits(p)
    ensures Laid(WithHeight(WithWidth(p, w).(top := t), h))
    decreases Size(p)
  {
    var x := WithWidth(p, w).(top := t);
    var y := WithHeight(x, h);
    PlacedFits(p, w, h, t);
    if !y.tooSmall && p.split == SplitH {
      PlacedHorizontal(p, w, h, t);
    } else if !y.tooSmall && p.split == SplitV {
      PlacedVertical(p, w, h, t);
    }
  }

  lemma {:induction false} PlacedHorizontal(p: PaneTree, w: int, h: int, t: int)
    requires StandardSplits(p) && NoWidthMinimumOnHorizontalSplits(p) && p.split == SplitH
    requires !WithHeight(WithWidth(p, w).(top := t), h).tooSmall
    ensures Laid(WithHeight(WithWidth(p, w).(top := t), h))
    decreases Size(p), 0
  {
    PlacedFits(p, w, h, t);
    var sv, t2 := HorizontalKids(p, w, h, t);
    PlacedIsLaid(p.kids.first.(left := p.left), w, sv.v1, t);
    PlacedIsLaid(p.kids.second.(left := p.left), w, sv.v2, t2);
  }

  /**
   * The rows of a horizontal split that SetWidth, a new top and SetHeight
   * leave visible: their heights and the second row's top `t2`.
   */
  lemma HorizontalKids(p: PaneTree, w: int, h: int, t: int) returns (sv: SplitValues, t2: int)
    requires NoWidthMinimumOnHorizontalSplits(p) && p.split == SplitH && p.kids.Kids?
    requires !WithHeight(WithWidth(p, w).(top := t), h).tooSmall
    ensures t2 == t + sv.v1
    ensures var y := WithHeight(WithWidth(p, w).(top := t), h);
      var ya := WithHeight(WithWidth(p.kids.first.(left := p.left), w).(top := t), sv.v1);
      var yb := WithHeight(WithWidth(p.kids.second.(left := p.left), w).(top := t2), sv.v2);
      y.kids == Kids(ya, yb) && Tiles(y, ya, yb)
  {
    var x0 := WithWidthOverRows(p, w);
    var x := x0.(top := t);
    sv := GetSplitValues(x.(height := h));
    t2 := t + sv.v1;
    assert !HeightTooSmall(x, h) && !sv.tooSmall;
    var y := WithHeightStacked(x, h);
  }

  lemma {:induction false} PlacedVertical(p: PaneTree, w: int, h: int, t: int)
    requires StandardSplits(p) && NoWidthMinimumOnHorizontalSplits(p) && p.split == SplitV
    requires !WithHeight(WithWidth(p, w).(top := t), h).tooSmall
    ensures Laid(WithHeight(WithWidth(p, w).(top := t), h))
    decreases Size(p), 0
  {
    PlacedFits(p, w, h, t);
    var sv, l2 := VerticalKids(p, w, h, t);
    PlacedIsLaid(p.kids.first.(left := p.left), sv.v1, h, t);
    PlacedIsLaid(p.kids.second.(left := l2), sv.v2, h, t);
  }

  /**
   * The columns of a vertical split that SetWidth, a new top and SetHeight
   * leave visible: their widths and the second column's left `l2`.
   */
  lemma VerticalKids(p: PaneTree, w: int, h: int, t: int) returns (sv: SplitValues, l2: int)
    requires p.split == SplitV && p.kids.Kids?
    requires !WithHeight(WithWidth(p, w).(top := t), h).tooSmall
    ensures l2 == p.left + sv.v1
    ensures var y := WithHeight(WithWidth(p, w).(top := t), h);
      var ya := WithHeight(WithWidth(p.kids.first.(left := p.left), sv.v1).(top := t), h);
      var yb := WithHeight(WithWidth(p.kids.second.(left := l2), sv.v2).(top := t), h);
      y.kids == Kids(ya, yb) && Tiles(y, ya, yb)
  {
    var x := WithWidth(p, w).(top := t);
    assert !HeightTooSmall(x, h);
    var y := WithHeightOverColumns(x, h);
    assert !x.tooSmall;
    assert !WidthTooSmall(p, w);
    var x0;
    x0, sv, l2 := SideBySideAt(p, w);
    assert x.kids == Kids(WithWidth(p.kids.first.(left := p.left), sv.v1), WithWidth(p.kids.second.(left := l2), sv.v2));
  }

  /**
   * After the terminal's size refresh (SetWidth then SetHeight on the root),
   * the tree is laid out, provided every split is horizontal or vertical and
   * no horizontally split pane has a positive minimum width.
   */
  lemma RefreshLaysOut(p: PaneTree, w: int, h: int)
    requires StandardSplits(p) && NoWidthMinimumOnHorizontalSplits(p)
    ensures Laid(Refresh(p, w, h))
  {
    PlacedIsLaid(p, w, h, p.top);
    assert WithWidth(p, w).(top := p.top) == WithWidth(p, w);
  }

  /**
   * The minimum-width condition cannot be dropped: a horizontally split pane
   * that is too narrow is flagged by SetWidth, but SetHeight clears the flag
   * when the heights resolve, so Draw descends into children whose width
   * was never set.
   */
  lemma HorizontalSplitLosesWidthCheck()
    ensures var p := SplitPane(NewPane("main").(minWidth := 5), SplitH, -50, UnitPercent);
      var r := Refresh(p, 3, 10);
      && StandardSplits(p)
      && !r.tooSmall && r.width < TotalMinWidth(r)
      && r.kids.first.width == 0 && r.kids.first.height == 5
      && !Laid(r)
  {
    var p := SplitPane(NewPane("main").(minWidth := 5), SplitH, -50, UnitPercent);
    var x := WithWidth(p, 3);
    assert x.tooSmall && x.kids == p.kids;
    var sv := GetSplitValues(x.(height := 10));
    assert CalcValue(-50, UnitPercent, 10) == 5;
    assert sv == SplitValues(5, 5, false);
  }

  // ---------------------------------------------------------------------
  // Draw and Iterate
  // ---------------------------------------------------------------------

  /** The panes whose callbacks a pass runs: unsplit panes reached without crossing a too-small pane, left to right. */
  function VisibleLeaves(p: PaneTree): seq<PaneTree> {
    if p.tooSmall then []
    else if p.split != SplitNone then
      match p.kids
      case NoKids => []
      case Kids(a, b) => VisibleLeaves(a) + VisibleLeaves(b)
    else [p]
  }

  /** The tags of the onDraw callbacks of `leaves`, skipping panes without one. */
  function OnDrawTags(leaves: seq<PaneTree>): seq<string> {
    if leaves == [] then []
    else
      var last := leaves[|leaves| - 1];
      OnDrawTags(leaves[..|leaves| - 1]) + (if last.onDraw.Some? then [last.onDraw.value.tag] else [])
  }

  /** The tags of the onIterate callbacks of `leaves`, skipping panes without one. */
  function OnIterateTags(leaves: seq<PaneTree>): seq<string> {
    if leaves == [] then []
    else
      var last := leaves[|leaves| - 1];
      OnIterateTags(leaves[..|leaves| - 1]) + (if last.onIterate.Some? then [last.onIterate.value.tag] else [])
  }

  /** The onDraw runs recorded in an event log, in order. */
  function DrawnTags(es: seq<Event>): seq<string> {
    if es == [] then []
    else DrawnTags(es[..|es| - 1]) + (if es[|es| - 1].PaneDrawn? then [es[|es| - 1].tag] else [])
  }

  /** The onIterate runs recorded in an event log, in order. */
  function IteratedTags(es: seq<Event>): seq<string> {
    if es == [] then []
    else IteratedTags(es[..|es| - 1]) + (if es[|es| - 1].PaneIterated? then [es[|es| - 1].tag] else [])
  }

  lemma {:induction false} DrawnTagsAppend(a: seq<Event>, b: seq<Event>)
    ensures DrawnTags(a + b) == DrawnTags(a) + DrawnTags(b)
    decreases |b|
  {
    if b != [] {
      assert (a + b)[..|a + b| - 1] == a + b[..|b| - 1];
      DrawnTagsAppend(a, b[..|b| - 1]);
    } else {
      assert a + b == a;
    }
  }

  lemma {:induction false} IteratedTagsAppend(a: seq<Event>, b: seq<Event>)
    ensures IteratedTags(a + b) == IteratedTags(a) + IteratedTags(b)
    decreases |b|
  {
    if b != [] {
      assert (a + b)[..|a + b| - 1] == a + b[..|b| - 1];
      IteratedTagsAppend(a, b[..|b| - 1]);
    } else {
      assert a + b == a;
    }
  }

  lemma {:induction false} OnDrawTagsAppend(a: seq<PaneTree>, b: seq<PaneTree>)
    ensures OnDrawTags(a + b) == OnDrawTags(a) + OnDrawTags(b)
    decreases |b|
  {
    if b != [] {
      assert (a + b)[..|a + b| - 1] == a + b[..|b| - 1];
      OnDrawTagsAppend(a, b[..|b| - 1]);
    } else {
      assert a + b == a;
    }
  }

  lemma {:induction false} OnIterateTagsAppend(a: seq<PaneTree>, b: seq<PaneTree>)
    ensures OnIterateTags(a + b) == OnIterateTags(a) + OnIterateTags(b)
    decreases |b|
  {
    if b != [] {
      assert (a + b)[..|a + b| - 1] == a + b[..|b| - 1];
      OnIterateTagsAppend(a, b[..|b| - 1]);
    } else {
      assert a + b == a;
    }
  }

  /** Pane writes only ever produce cursor writes, never callback events. */
  lemma {:induction false} WritesRunNoCallbacks(p: PaneTree, ws: seq<PaneWrite>)
    ensures DrawnTags(WriteAll(p, ws)) == [] && IteratedTags(WriteAll(p, ws)) == []
    decreases |ws|
  {
    if ws != [] {
      var last := ws[|ws| - 1];
      var e := WriteEvents(p, last.x, last.y, last.text, last.overwriteFrame);
      WritesRunNoCallbacks(p, ws[..|ws| - 1]);
      DrawnTagsAppend(WriteAll(p, ws[..|ws| - 1]), e);
      IteratedTagsAppend(WriteAll(p, ws[..|ws| - 1]), e);
      if e != [] {
        assert e == [e[0]] && e[0].Put?;
        assert e[..0] == [];
      }
    }
  }

  lemma PlaceholderRunsNoCallbacks(p: PaneTree)
    ensures DrawnTags(Placeholder(p)) == [] && IteratedTags(Placeholder(p)) == []
  {
    var e := Placeholder(p);
    if e != [] {
      assert e == [e[0]] && e[0].Put?;
      assert e[..0] == [];
    }
  }

  /**
   * A Draw pass that returns has run exactly the onDraw callbacks of the
   * visible panes, depth first, first child before second.
   */
  lemma {:induction false} DrawRunsVisibleCallbacks(p: PaneTree)
    requires DrawRun(p).Returned?
    ensures DrawnTags(DrawRun(p).events) == OnDrawTags(VisibleLeaves(p))
  {
    if p.tooSmall {
      PlaceholderRunsNoCallbacks(p);
    } else if p.split != SplitNone {
      var a, b := p.kids.first, p.kids.second;
      DrawRunsVisibleCallbacks(a);
      DrawRunsVisibleCallbacks(b);
      DrawnTagsAppend(DrawRun(a).events, DrawRun(b).events);
      OnDrawTagsAppend(VisibleLeaves(a), VisibleLeaves(b));
    } else {
      var border := if p.style.Some? then p.style.value.Border(p.width, p.height) else Drawing([], false);
      var es := WriteAll(p, border.writes);
      WritesRunNoCallbacks(p, border.writes);
      assert VisibleLeaves(p) == [p];
      assert [p][..0] == [];
      match p.onDraw
      case Some(f) =>
        DrawnTagsAppend(es, [PaneDrawn(f.tag)]);
        assert DrawnTags([PaneDrawn(f.tag)]) == [f.tag] by {
          assert [PaneDrawn(f.tag)][..0] == [];
        }
      case None =>
    }
  }

  /**
   * An Iterate pass over a tree whose split panes all have children returns,
   * and has run exactly the onIterate callbacks of the visible panes in order.
   */
  lemma {:induction false} IterateRunsVisibleCallbacks(p: PaneTree)
    requires WellFormed(p)
    ensures IterateRun(p).Returned?
    ensures IteratedTags(IterateRun(p).events) == OnIterateTags(VisibleLeaves(p))
  {
    if p.tooSmall {
      PlaceholderRunsNoCallbacks(p);
    } else if p.split != SplitNone {
      var a, b := p.kids.first, p.kids.second;
      IterateRunsVisibleCallbacks(a);
      IterateRunsVisibleCallbacks(b);
      IteratedTagsAppend(IterateRun(a).events, IterateRun(b).events);
      OnIterateTagsAppend(VisibleLeaves(a), VisibleLeaves(b));
    } else {
      assert VisibleLeaves(p) == [p];
      assert [p][..0] == [];
      match p.onIterate
      case Some(f) =>
        assert IteratedTags([PaneIterated(f.tag)]) == [f.tag] by {
          assert [PaneIterated(f.tag)][..0] == [];
        }
      case None =>
    }
  }

  /** Every bordered pane leaves at least one column for its content or left border. */
  predicate BorderedPanesHaveWidth(p: PaneTree) {
    && (p.style.Some? ==> p.minWidth + p.style.value.L() >= 1)
    && (p.kids.Kids? ==> BorderedPanesHaveWidth(p.kids.first) && BorderedPanesHaveWidth(p.kids.second))
  }

  /**
   * Drawing a laid-out tree whose bordered panes have room never reaches
   * strings.Repeat with a negative count, nor a split pane without children.
   */
  lemma {:induction false} LaidDrawDoesNotPanic(p: PaneTree)
    requires Laid(p) && BorderedPanesHaveWidth(p)
    ensures DrawRun(p).Returned?
  {
    if !p.tooSmall && p.split != SplitNone {
      LaidDrawDoesNotPanic(p.kids.first);
      LaidDrawDoesNotPanic(p.kids.second);
    } else if !p.tooSmall && p.style.Some? {
      var s := p.style.value;
      assert TotalMinWidth(p) == p.minWidth + s.L() + s.R();
      assert !s.EdgePanics(p.width);
    }
  }

  /**
   * A too-small pane, in Draw and in Iterate alike, runs no callback and
   * does not descend: it writes one "!" at its content origin when it has
   * any area, and nothing otherwise.
   */
  lemma TooSmallShowsMark(p: PaneTree)
    requires p.tooSmall
    ensures DrawRun(p) == IterateRun(p)
    ensures DrawRun(p).Returned? && DrawRun(p).result == 1
    ensures var es := DrawRun(p).events;
      && (|es| == 1 <==> p.width > 0 && p.height > 0)
      && (|es| == 0 <==> !(p.width > 0 && p.height > 0))
      && (es != [] ==> es[0] == Put(p.left + (if p.style.Some? then p.style.value.L() else 0),
                                    p.top + (if p.style.Some? then p.style.value.T() else 0), "!"))
  {
  }

  /**
   * TUIPane.Write followed by TUI.Write: on an unsplit or too-small pane
   * placed on the screen, a write at (x, y) reaches the terminal as a cursor
   * move to the absolute cell, followed by the text unchanged. A content
   * write is moved inside the border; a border write (`overwriteFrame`) is not.
   */
  lemma ContentWriteLands(p: PaneTree, x: int, y: int, s: string, overwriteFrame: bool)
    requires (p.split == SplitNone || p.tooSmall) && p.left >= 0 && p.top >= 0 && x >= 0 && y >= 0
    requires s == [] || s[0] != Esc
    ensures var l := if p.style.Some? && !overwriteFrame then p.style.value.L() else 0;
      var t := if p.style.Some? && !overwriteFrame then p.style.value.T() else 0;
      DecodeCursorWrite(Stream(WriteEvents(p, x, y, s, overwriteFrame))) == Some(Placement(p.left + x + l, p.top + y + t, s))
  {
    var l := if p.style.Some? && !overwriteFrame then p.style.value.L() else 0;
    var t := if p.style.Some? && !overwriteFrame then p.style.value.T() else 0;
    var cx: nat, cy: nat := p.left + x + l, p.top + y + t;
    var es := WriteEvents(p, x, y, s, overwriteFrame);
    assert es == [Put(cx, cy, s)];
    PutDecodes(es, cx, cy, s);
  }
}
