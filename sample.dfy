/**
 * The sample application in cmd/sample_app: the root pane split into a
 * left half and a right half, the right half into a 40-column strip and
 * the rest, and each of the three columns split into two rows; every leaf
 * gets a border and the sample widget, whose InitPane asks for 5 x 3 cells.
 */
module Sample {
  import opened Wrappers
  import opened Styles
  import opened Layout
  import opened LayoutProperties

  /** The pane `path` leads to. */
  function At(p: PaneTree, path: seq<bool>): PaneTree
    requires HasPath(p, path)
    decreases |path|
  {
    if path == [] then p else At(if path[0] then p.kids.second else p.kids.first, path[1..])
  }

  /**
   * The leaf at `path` gets a style and the sample widget: InitPane's
   * minimum of 5 x 3, and draw and iterate callbacks that return 1.
   */
  function WithWidget(p: PaneTree, path: seq<bool>, s: PaneStyle, tag: string): (r: PaneTree)
    requires HasPath(p, path)
    ensures HasPath(r, path) && Size(r) == Size(p)
    ensures At(r, path) == At(p, path).(style := Some(s), minWidth := 5, minHeight := 3,
                                       onDraw := Some(Callback(tag, 1)), onIterate := Some(Callback(tag, 1)))
    ensures forall q :: HasPath(p, q) && !(q <= path) && !(path <= q) ==> HasPath(r, q) && At(r, q) == At(p, q)
    decreases |path|
  {
    if path == [] then
      p.(style := Some(s), minWidth := 5, minHeight := 3,
         onDraw := Some(Callback(tag, 1)), onIterate := Some(Callback(tag, 1)))
    else if path[0] then p.(kids := Kids(p.kids.first, WithWidget(p.kids.second, path[1..], s, tag)))
    else p.(kids := Kids(WithWidget(p.kids.first, path[1..], s, tag), p.kids.second))
  }

  /** The third style of the sample: a slanted top edge. */
  function SlantStyle(): PaneStyle {
    PaneStyle("/", "_", "\\", " ", " ", " ", " ", " ")
  }

  /** The paths of p11, p12, p21, p22, p31 and p32. */
  const P11: seq<bool> := [false, false]
  const P12: seq<bool> := [false, true]
  const P21: seq<bool> := [true, false, false]
  const P22: seq<bool> := [true, false, true]
  const P31: seq<bool> := [true, true, false]
  const P32: seq<bool> := [true, true, true]

  /** The five splits of the sample, in its order. */
  function SampleSplits(): PaneTree {
    var p0 := NewPane("main");
    var t1 := SplitAt(p0, [], SplitV, -50, UnitPercent);
    var t2 := SplitAt(t1, [true], SplitV, -40, UnitChar);
    var t3 := SplitAt(t2, [false], SplitH, 20, UnitChar);
    var t4 := SplitAt(t3, [true, false], SplitH, 50, UnitPercent);
    SplitAt(t4, [true, true], SplitH, -35, UnitChar)
  }

  /** The sample's tree: the splits, then a style and the widget on each leaf. */
  function SampleTree(): PaneTree {
    var t := SampleSplits();
    var t1 := WithWidget(t, P11, FrameStyle(), "p11");
    var t2 := WithWidget(t1, P12, FrameStyle(), "p12");
    var t3 := WithWidget(t2, P21, MarginStyle(), "p21");
    var t4 := WithWidget(t3, P22, MarginStyle(), "p22");
    var t5 := WithWidget(t4, P31, SlantStyle(), "p31");
    WithWidget(t5, P32, FrameStyle(), "p32")
  }

  /**
   * At any terminal size the sample is laid out: every pane Draw reaches
   * meets its minimum and split panes are tiled by their children, and
   * drawing it never panics.
   */
  lemma SampleLaysOutAtAnySize(w: int, h: int)
    ensures Laid(Refresh(SampleTree(), w, h))
    ensures DrawRun(Refresh(SampleTree(), w, h)).Returned?
  {
    var t := SampleTree();
    assert StandardSplits(t) && NoWidthMinimumOnHorizontalSplits(t);
    assert WellFormed(t) && BorderedPanesHaveWidth(t);
    RefreshLaysOut(t, w, h);
    RefreshKeepsShape(t, w, h);
    LaidDrawDoesNotPanic(Refresh(t, w, h));
  }

  /** A pane made by Split and then split itself. */
  function Node(t: int, v: int, u: int, a: PaneTree, b: PaneTree): PaneTree {
    NewPane("Nazwa").(split := t, splitValue := v, splitUnit := u, kids := Kids(a, b))
  }

  /** A leaf made by Split, with a style and the sample widget. */
  function Widget(s: PaneStyle, tag: string): PaneTree {
    NewPane("Nazwa").(style := Some(s), minWidth := 5, minHeight := 3,
                      onDraw := Some(Callback(tag, 1)), onIterate := Some(Callback(tag, 1)))
  }

  /** SetLeft, SetWidth, SetTop and SetHeight, in that order, as a parent does to a child. */
  function Place(p: PaneTree, l: int, w: int, t: int, h: int): PaneTree {
    WithHeight(WithWidth(p.(left := l), w).(top := t), h)
  }

  /** A widget leaf with room for its minimum and border simply takes the rectangle. */
  lemma PlaceWidget(s: PaneStyle, tag: string, l: int, w: int, t: int, h: int)
    requires w >= 5 + s.H() && h >= 3 + s.V()
    ensures Place(Widget(s, tag), l, w, t, h) ==
            Widget(s, tag).(left := l, width := w, top := t, height := h)
  {
  }

  /** A vertically split node without minimum or border, whose widths resolve, passes its columns on. */
  lemma PlaceSideBySide(p: PaneTree, l: int, w: int, t: int, h: int)
    requires p.split == SplitV && p.kids.Kids? && p.style.None? && p.minWidth <= 0 && p.minHeight <= 0
    requires !GetSplitValues(p.(width := w)).tooSmall
    ensures var sv := GetSplitValues(p.(width := w));
      Place(p, l, w, t, h) ==
      p.(left := l, width := w, top := t, height := h, tooSmall := false,
         kids := Kids(Place(p.kids.first, l, sv.v1, t, h), Place(p.kids.second, l + sv.v1, sv.v2, t, h)))
  {
    var sv := GetSplitValues(p.(width := w));
    assert GetSplitValues(p.(left := l).(width := w)) == sv;
    var r := WithWidthSideBySide(p.(left := l), w);
  }

  /** A horizontally split node without minimum or border, whose heights resolve, passes its rows on. */
  lemma PlaceStacked(p: PaneTree, l: int, w: int, t: int, h: int)
    requires p.split == SplitH && p.kids.Kids? && p.style.None? && p.minWidth <= 0 && p.minHeight <= 0
    requires !GetSplitValues(p.(height := h)).tooSmall
    ensures var sv := GetSplitValues(p.(height := h));
      Place(p, l, w, t, h) ==
      p.(left := l, width := w, top := t, height := h, tooSmall := false,
         kids := Kids(Place(p.kids.first, l, w, t, sv.v1), Place(p.kids.second, l, w, t + sv.v1, sv.v2)))
  {
    var sv := GetSplitValues(p.(height := h));
    var q := WithWidth(p.(left := l), w).(top := t);
    assert GetSplitValues(q.(height := h)) == sv;
    var r := WithHeightStacked(q, h);
  }

  /** Where a pane is on the screen: (left, top, width, height). */
  function Rect(p: PaneTree): (int, int, int, int) {
    (p.left, p.top, p.width, p.height)
  }

  /** A widget leaf placed at (l, t) with size w x h. */
  function PlacedWidget(s: PaneStyle, tag: string, l: int, t: int, w: int, h: int): PaneTree {
    Widget(s, tag).(left := l, width := w, top := t, height := h)
  }

  /** A split node placed at (l, t) with size w x h over two placed children. */
  function PlacedNode(n: PaneTree, l: int, t: int, w: int, h: int, a: PaneTree, b: PaneTree): PaneTree
    requires n.kids.Kids?
  {
    n.(left := l, width := w, top := t, height := h, tooSmall := false, kids := Kids(a, b))
  }

  /** The left half of the sample: p11 above p12, the lower one 20 rows high. */
  function LeftColumn(): PaneTree {
    Node(SplitH, 20, UnitChar, Widget(FrameStyle(), "p11"), Widget(FrameStyle(), "p12"))
  }

  /** The 40-column strip: p21 above p22, split in half. */
  function MiddleColumn(): PaneTree {
    Node(SplitH, 50, UnitPercent, Widget(MarginStyle(), "p21"), Widget(MarginStyle(), "p22"))
  }

  /** The last column: p31, 35 rows high, above p32. */
  function RightColumn(): PaneTree {
    Node(SplitH, -35, UnitChar, Widget(SlantStyle(), "p31"), Widget(FrameStyle(), "p32"))
  }

  /** In a 50 x 40 half at the origin, the left column's rows are 20 and 20. */
  lemma LeftColumnAt50x40()
    ensures Place(LeftColumn(), 0, 50, 0, 40) ==
      PlacedNode(LeftColumn(), 0, 0, 50, 40,
                 PlacedWidget(FrameStyle(), "p11", 0, 0, 50, 20),
                 PlacedWidget(FrameStyle(), "p12", 0, 20, 50, 20))
  {
    var c := LeftColumn();
    assert GetSplitValues(c.(height := 40)) == SplitValues(20, 20, false);
    PlaceStacked(c, 0, 50, 0, 40);
    PlaceWidget(FrameStyle(), "p11", 0, 50, 0, 20);
    PlaceWidget(FrameStyle(), "p12", 0, 50, 20, 20);
  }

  /** In the 40 x 40 strip at column 50, the rows are 20 and 20. */
  lemma MiddleColumnAt40x40()
    ensures Place(MiddleColumn(), 50, 40, 0, 40) ==
      PlacedNode(MiddleColumn(), 50, 0, 40, 40,
                 PlacedWidget(MarginStyle(), "p21", 50, 0, 40, 20),
                 PlacedWidget(MarginStyle(), "p22", 50, 20, 40, 20))
  {
    var c := MiddleColumn();
    assert GetSplitValues(c.(height := 40)) == SplitValues(20, 20, false);
    PlaceStacked(c, 50, 40, 0, 40);
    PlaceWidget(MarginStyle(), "p21", 50, 40, 0, 20);
    PlaceWidget(MarginStyle(), "p22", 50, 40, 20, 20);
  }

  /** In the 10 x 40 column at column 90, the rows are 35 and 5. */
  lemma RightColumnAt10x40()
    ensures Place(RightColumn(), 90, 10, 0, 40) ==
      PlacedNode(RightColumn(), 90, 0, 10, 40,
                 PlacedWidget(SlantStyle(), "p31", 90, 0, 10, 35),
                 PlacedWidget(FrameStyle(), "p32", 90, 35, 10, 5))
  {
    var c := RightColumn();
    assert GetSplitValues(c.(height := 40)) == SplitValues(35, 5, false);
    PlaceStacked(c, 90, 10, 0, 40);
    PlaceWidget(SlantStyle(), "p31", 90, 10, 0, 35);
    PlaceWidget(FrameStyle(), "p32", 90, 10, 35, 5);
  }

  /** The right half of the sample: the 40-column strip, then the rest. */
  function RightHalf(): PaneTree {
    Node(SplitV, -40, UnitChar, MiddleColumn(), RightColumn())
  }

  /** The root pane: a left half and a right half. */
  function SampleRoot(): PaneTree {
    NewPane("main").(split := SplitV, splitValue := -50, splitUnit := UnitPercent,
                     kids := Kids(LeftColumn(), RightHalf()))
  }

  /** The sample's calls build this tree. */
  lemma SampleTreeShape()
    ensures SampleTree() == SampleRoot()
  {
  }

  /** In the 50 x 40 right half, the strip takes 40 columns and the last column 10. */
  lemma RightHalfAt50x40()
    ensures Place(RightHalf(), 50, 50, 0, 40) ==
      PlacedNode(RightHalf(), 50, 0, 50, 40,
        PlacedNode(MiddleColumn(), 50, 0, 40, 40,
                   PlacedWidget(MarginStyle(), "p21", 50, 0, 40, 20),
                   PlacedWidget(MarginStyle(), "p22", 50, 20, 40, 20)),
        PlacedNode(RightColumn(), 90, 0, 10, 40,
                   PlacedWidget(SlantStyle(), "p31", 90, 0, 10, 35),
                   PlacedWidget(FrameStyle(), "p32", 90, 35, 10, 5)))
  {
    var c := RightHalf();
    assert GetSplitValues(c.(width := 50)) == SplitValues(40, 10, false);
    PlaceSideBySide(c, 50, 50, 0, 40);
    MiddleColumnAt40x40();
    RightColumnAt10x40();
  }

  /** The sample laid out on a 100 x 40 terminal. */
  function SampleAt100x40Tree(): PaneTree {
    PlacedNode(SampleRoot(), 0, 0, 100, 40,
      PlacedNode(LeftColumn(), 0, 0, 50, 40,
                 PlacedWidget(FrameStyle(), "p11", 0, 0, 50, 20),
                 PlacedWidget(FrameStyle(), "p12", 0, 20, 50, 20)),
      PlacedNode(RightHalf(), 50, 0, 50, 40,
        PlacedNode(MiddleColumn(), 50, 0, 40, 40,
                   PlacedWidget(MarginStyle(), "p21", 50, 0, 40, 20),
                   PlacedWidget(MarginStyle(), "p22", 50, 20, 40, 20)),
        PlacedNode(RightColumn(), 90, 0, 10, 40,
                   PlacedWidget(SlantStyle(), "p31", 90, 0, 10, 35),
                   PlacedWidget(FrameStyle(), "p32", 90, 35, 10, 5))))
  }

  /** Refreshing the root to 100 x 40 gives each half 50 columns, whatever the halves hold. */
  lemma RootAt100x40(a: PaneTree, b: PaneTree)
    ensures var root := NewPane("main").(split := SplitV, splitValue := -50, splitUnit := UnitPercent,
                                         kids := Kids(a, b));
      Refresh(root, 100, 40) ==
      PlacedNode(root, 0, 0, 100, 40, Place(a, 0, 50, 0, 40), Place(b, 50, 50, 0, 40))
  {
    var root := NewPane("main").(split := SplitV, splitValue := -50, splitUnit := UnitPercent,
                                 kids := Kids(a, b));
    RefreshPlacesAtOrigin(root, 100, 40);
    assert GetSplitValues(root.(width := 100)) == SplitValues(50, 50, false);
    PlaceSideBySide(root, 0, 100, 0, 40);
  }

  /** Refreshing the root to 100 x 40 halves it and places both halves. */
  lemma SampleRefreshedAt100x40()
    ensures Refresh(SampleRoot(), 100, 40) == SampleAt100x40Tree()
  {
    RootAt100x40(LeftColumn(), RightHalf());
    LeftColumnAt50x40();
    RightHalfAt50x40();
  }

  /** Refresh is Place at the pane's own origin. */
  lemma RefreshPlacesAtOrigin(p: PaneTree, w: int, h: int)
    requires p.left == 0 && p.top == 0
    ensures Refresh(p, w, h) == Place(p, 0, w, 0, h)
  {
    assert p.(left := 0) == p;
    assert WithWidth(p, w).(top := 0) == WithWidth(p, w);
  }

  /** A placed widget's one draw tag. */
  lemma WidgetTags(s: PaneStyle, tag: string, l: int, t: int, w: int, h: int)
    ensures var leaf := PlacedWidget(s, tag, l, t, w, h);
      VisibleLeaves(leaf) == [leaf] && OnDrawTags([leaf]) == [tag]
  {
    var leaf := PlacedWidget(s, tag, l, t, w, h);
    assert [leaf][..0] == [];
  }

  /** Where the six widgets of the 100 x 40 layout are. */
  lemma SampleAt100x40Rects()
    ensures var t := SampleAt100x40Tree();
      && HasPath(t, P11) && HasPath(t, P12) && HasPath(t, P21)
      && HasPath(t, P22) && HasPath(t, P31) && HasPath(t, P32)
      && Rect(At(t, P11)) == (0, 0, 50, 20) && Rect(At(t, P12)) == (0, 20, 50, 20)
      && Rect(At(t, P21)) == (50, 0, 40, 20) && Rect(At(t, P22)) == (50, 20, 40, 20)
      && Rect(At(t, P31)) == (90, 0, 10, 35) && Rect(At(t, P32)) == (90, 35, 10, 5)
  {
  }

  /** Draw reaches all six widgets of the 100 x 40 layout, in the sample's order. */
  lemma SampleAt100x40Tags()
    ensures OnDrawTags(VisibleLeaves(SampleAt100x40Tree())) == ["p11", "p12", "p21", "p22", "p31", "p32"]
  {
    var l1 := PlacedWidget(FrameStyle(), "p11", 0, 0, 50, 20);
    var l2 := PlacedWidget(FrameStyle(), "p12", 0, 20, 50, 20);
    var l3 := PlacedWidget(MarginStyle(), "p21", 50, 0, 40, 20);
    var l4 := PlacedWidget(MarginStyle(), "p22", 50, 20, 40, 20);
    var l5 := PlacedWidget(SlantStyle(), "p31", 90, 0, 10, 35);
    var l6 := PlacedWidget(FrameStyle(), "p32", 90, 35, 10, 5);
    WidgetTags(FrameStyle(), "p11", 0, 0, 50, 20);
    WidgetTags(FrameStyle(), "p12", 0, 20, 50, 20);
    WidgetTags(MarginStyle(), "p21", 50, 0, 40, 20);
    WidgetTags(MarginStyle(), "p22", 50, 20, 40, 20);
    WidgetTags(SlantStyle(), "p31", 90, 0, 10, 35);
    WidgetTags(FrameStyle(), "p32", 90, 35, 10, 5);
    var t := SampleAt100x40Tree();
    assert VisibleLeaves(t) == (([l1] + [l2]) + (([l3] + [l4]) + ([l5] + [l6])));
    OnDrawTagsAppend([l1], [l2]);
    OnDrawTagsAppend([l3], [l4]);
    OnDrawTagsAppend([l5], [l6]);
    OnDrawTagsAppend([l3] + [l4], [l5] + [l6]);
    OnDrawTagsAppend([l1] + [l2], ([l3] + [l4]) + ([l5] + [l6]));
  }

  /**
   * On a 100 x 40 terminal: the halves are 50 columns wide, the 40-column
   * strip starts at column 50, the left column's rows are 20 and 20, the
   * strip's 20 and 20, and the last column's 35 and 5; every widget is drawn.
   */
  lemma SampleAt100x40()
    ensures var t := Refresh(SampleTree(), 100, 40);
      && HasPath(t, P11) && HasPath(t, P12) && HasPath(t, P21)
      && HasPath(t, P22) && HasPath(t, P31) && HasPath(t, P32)
      && Rect(At(t, P11)) == (0, 0, 50, 20) && Rect(At(t, P12)) == (0, 20, 50, 20)
      && Rect(At(t, P21)) == (50, 0, 40, 20) && Rect(At(t, P22)) == (50, 20, 40, 20)
      && Rect(At(t, P31)) == (90, 0, 10, 35) && Rect(At(t, P32)) == (90, 35, 10, 5)
      && OnDrawTags(VisibleLeaves(t)) == ["p11", "p12", "p21", "p22", "p31", "p32"]
  {
    SampleTreeShape();
    SampleRefreshedAt100x40();
    SampleAt100x40Rects();
    SampleAt100x40Tags();
  }
}
