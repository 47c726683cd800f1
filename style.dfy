/**
 * TUIPaneStyle: the eight glyphs of a pane's border, the thickness each side
 * contributes to the pane's minimum size, and the writes that draw the border.
 */
module Styles {

  /**
   * A write request to a pane, as TUIPane.Write takes it: pane-relative
   * position, text, and whether it bypasses the content inset of the frame.
   */
  datatype PaneWrite = PaneWrite(x: int, y: int, text: string, overwriteFrame: bool)

  /** What drawing a border produced; `panicked` means strings.Repeat was given a negative count. */
  datatype Drawing = Drawing(writes: seq<PaneWrite>, panicked: bool)

  /** strings.Repeat: `count` copies of `g`, one after another. */
  function Repeat(g: string, count: nat): (r: string)
    ensures |r| == count * |g|
    ensures |g| > 0 ==> forall i :: 0 <= i < |r| ==> r[i] == g[i % |g|]
  {
    if count == 0 then ""
    else
      var prev := Repeat(g, count - 1);
      assert |g| > 0 ==> forall i :: |prev| <= i < |prev| + |g| ==> i % |g| == i - |prev| by {
        if |g| > 0 {
          forall i | |prev| <= i < |prev| + |g|
            ensures i % |g| == i - |prev|
          {
            CopyOffset(i - |prev|, count - 1, |g|);
          }
        }
      }
      prev + g
  }

  /** Position `k` of copy number `n` of an `m`-character glyph is position `k` of the glyph. */
  lemma CopyOffset(k: int, n: nat, m: int)
    requires 0 <= k < m
    ensures (n * m + k) % m == k
  {
    var x := n * m + k;
    var d := n - x / m;
    assert x == m * (x / m) + x % m;
    assert m * d == x % m - k by {
      assert m * d == m * n - m * (x / m);
    }
    assert d >= 1 ==> m * d >= m * 1;
    assert d <= -1 ==> m * d <= m * -1;
  }

  /** The writes of one side column: glyph `g` at column `x`, rows `first` to `last` inclusive, top to bottom. */
  function Column(x: int, first: int, last: int, g: string): (ws: seq<PaneWrite>)
    ensures |ws| == if last < first then 0 else last - first + 1
    decreases if last < first then 0 else last - first + 1
  {
    if last < first then [] else Column(x, first, last - 1, g) + [PaneWrite(x, last, g, true)]
  }

  /** The source's `for i := st; i <= en; i++` loop writing glyph `g` down column `x`, after `writes`. */
  method WriteColumn(writes: seq<PaneWrite>, x: int, st: int, en: int, g: string) returns (ws: seq<PaneWrite>)
    ensures ws == writes + Column(x, st, en, g)
  {
    ws := writes;
    var i := st;
    while i <= en
      invariant st <= i && (i <= en + 1 || i == st)
      invariant ws == writes + Column(x, st, i - 1, g)
    {
      ws := ws + [PaneWrite(x, i, g, true)];
      i := i + 1;
    }
  }

  datatype PaneStyle = PaneStyle(NE: string, N: string, NW: string, W: string,
                                 SW: string, S: string, SE: string, E: string)
  {
    /** Width of the left border: 1 exactly when one of its glyphs (NW, W, SW) is non-empty. */
    function L(): (r: nat)
      ensures r <= 1
      ensures r == 1 <==> NW != "" || W != "" || SW != ""
    {
      if |NW| > 0 || |W| > 0 || |SW| > 0 then 1 else 0
    }

    /** Width of the right border: 1 exactly when one of NE, E, SE is non-empty. */
    function R(): (r: nat)
      ensures r <= 1
      ensures r == 1 <==> NE != "" || E != "" || SE != ""
    {
      if |NE| > 0 || |E| > 0 || |SE| > 0 then 1 else 0
    }

    /** Height of the top border: 1 exactly when one of NE, N, NW is non-empty. */
    function T(): (r: nat)
      ensures r <= 1
      ensures r == 1 <==> NE != "" || N != "" || NW != ""
    {
      if |NE| > 0 || |N| > 0 || |NW| > 0 then 1 else 0
    }

    /** Height of the bottom border: 1 exactly when one of SE, S, SW is non-empty. */
    function B(): (r: nat)
      ensures r <= 1
      ensures r == 1 <==> SE != "" || S != "" || SW != ""
    {
      if |SE| > 0 || |S| > 0 || |SW| > 0 then 1 else 0
    }

    /** Columns the border takes from a pane's width. */
    function H(): (r: nat)
      ensures r <= 2
      ensures r == 0 <==> NW == W == SW == NE == E == SE == ""
    {
      L() + R()
    }

    /** Rows the border takes from a pane's height. */
    function V(): (r: nat)
      ensures r <= 2
      ensures r == 0 <==> NW == N == NE == SW == S == SE == ""
    {
      T() + B()
    }

    /** The corner writes, in the order the source issues them: NW, SW, NE, SE. */
    function Corners(width: int, height: int): seq<PaneWrite> {
      (if L() > 0 && T() > 0 then [PaneWrite(0, 0, NW, true)] else [])
      + (if L() > 0 && B() > 0 then [PaneWrite(0, height - 1, SW, true)] else [])
      + (if R() > 0 && T() > 0 then [PaneWrite(width - 1, 0, NE, true)] else [])
      + (if R() > 0 && B() > 0 then [PaneWrite(width - 1, height - 1, SE, true)] else [])
    }

    /** The repeat count the source passes for the top and bottom edges: width - 1 - R, not width - L - R. */
    function EdgeCount(width: int): int {
      width - 1 - R()
    }

    /** The top or bottom edge is drawn with a negative repeat count, which panics. */
    predicate EdgePanics(width: int) {
      (T() > 0 || B() > 0) && EdgeCount(width) < 0
    }

    /** The top edge then the bottom edge, each a single write starting at column L. */
    function Edges(width: int, height: int): seq<PaneWrite>
      requires !EdgePanics(width)
    {
      if T() > 0 || B() > 0 then
        (if T() > 0 then [PaneWrite(L(), 0, Repeat(N, EdgeCount(width)), true)] else [])
        + (if B() > 0 then [PaneWrite(L(), height - 1, Repeat(S, EdgeCount(width)), true)] else [])
      else []
    }

    /** Rows of the side columns: the block that writes them runs only when L > 0 || B > 0. */
    predicate DrawsSides() {
      L() > 0 || B() > 0
    }

    /** The W column, rows T to height - 1 - B. */
    function WestSide(height: int): seq<PaneWrite> {
      if DrawsSides() && L() > 0 then Column(0, T(), height - 1 - B(), W) else []
    }

    /** The E column at x = width - 1, rows T to height - 1 - B. */
    function EastSide(width: int, height: int): seq<PaneWrite> {
      if DrawsSides() && R() > 0 then Column(width - 1, T(), height - 1 - B(), E) else []
    }

    /** Everything TUIPaneStyle.Draw writes on a pane of the given size, in order. */
    function Border(width: int, height: int): Drawing {
      if EdgePanics(width) then Drawing(Corners(width, height), true)
      else Drawing(Corners(width, height) + Edges(width, height) + WestSide(height) + EastSide(width, height), false)
    }

    /**
     * TUIPaneStyle.Draw: the corners present on both adjacent sides, the top
     * and bottom edges, then one write per row for the left and right sides.
     */
    method Draw(width: int, height: int) returns (writes: seq<PaneWrite>, panicked: bool)
      ensures Drawing(writes, panicked) == Border(width, height)
    {
      writes := DrawCorners(width, height);
      var edges;
      edges, panicked := DrawEdges(width, height);
      if panicked {
        return;
      }
      var sides := DrawSides(width, height);
      writes := writes + edges + sides;
      assert writes == Corners(width, height) + Edges(width, height) + WestSide(height) + EastSide(width, height);
    }

    /** The corner block of Draw: each corner whose two sides both have thickness 1. */
    method DrawCorners(width: int, height: int) returns (writes: seq<PaneWrite>)
      ensures writes == Corners(width, height)
    {
      writes := [];
      if L() > 0 && T() > 0 {
        writes := writes + [PaneWrite(0, 0, NW, true)];
      }
      if L() > 0 && B() > 0 {
        writes := writes + [PaneWrite(0, height - 1, SW, true)];
      }
      if R() > 0 && T() > 0 {
        writes := writes + [PaneWrite(width - 1, 0, NE, true)];
      }
      if R() > 0 && B() > 0 {
        writes := writes + [PaneWrite(width - 1, height - 1, SE, true)];
      }
    }

    /** The edge block of Draw: start column `st`, repeat count `en`, then the top and bottom writes. */
    method DrawEdges(width: int, height: int) returns (writes: seq<PaneWrite>, panicked: bool)
      ensures panicked == EdgePanics(width)
      ensures !panicked ==> writes == Edges(width, height)
    {
      writes, panicked := [], false;
      if T() > 0 || B() > 0 {
        var st := 0;
        var en := width - 1;
        if L() > 0 {
          st := st + 1;
        }
        if R() > 0 {
          en := en - 1;
        }
        if en < 0 {
          panicked := true;
          return;
        }
        if T() > 0 {
          writes := writes + [PaneWrite(st, 0, Repeat(N, en), true)];
        }
        if B() > 0 {
          writes := writes + [PaneWrite(st, height - 1, Repeat(S, en), true)];
        }
      }
    }

    /** The side block of Draw: rows `st` to `en`, the W column and then the E column. */
    method DrawSides(width: int, height: int) returns (writes: seq<PaneWrite>)
      ensures writes == WestSide(height) + EastSide(width, height)
    {
      writes := [];
      if L() > 0 || B() > 0 {
        var st := 0;
        var en := height - 1;
        if T() > 0 {
          st := st + 1;
        }
        if B() > 0 {
          en := en - 1;
        }
        assert st == T() && en == height - 1 - B();
        var west: seq<PaneWrite> := [];
        if L() > 0 {
          west := WriteColumn([], 0, st, en, W);
        }
        assert west == WestSide(height);
        var east: seq<PaneWrite> := [];
        if R() > 0 {
          east := WriteColumn([], width - 1, st, en, E);
        }
        assert east == EastSide(width, height);
        writes := west + east;
      }
    }
  }

  /** NewTUIPaneStyleFrame: box-drawing lines on every side. */
  function FrameStyle(): (s: PaneStyle)
    ensures s.L() == s.R() == s.T() == s.B() == 1
  {
    PaneStyle("┐", "─", "┌", "│", "└", "─", "┘", "│")
  }

  /** NewTUIPaneStyleMargin: a blank cell on every side. */
  function MarginStyle(): (s: PaneStyle)
    ensures s.L() == s.R() == s.T() == s.B() == 1
  {
    PaneStyle(" ", " ", " ", " ", " ", " ", " ", " ")
  }

  /** NewTUIPaneStyleNone: no border at all. */
  function NoStyle(): (s: PaneStyle)
    ensures s.L() == s.R() == s.T() == s.B() == 0
  {
    PaneStyle("", "", "", "", "", "", "", "")
  }

  /** Write `w` lies inside a width × height pane and bypasses the content inset, as every border write does. */
  predicate Inside(w: PaneWrite, width: int, height: int) {
    w.overwriteFrame && 0 <= w.x && w.x + |w.text| <= width && 0 <= w.y < height
  }

  predicate AllInside(ws: seq<PaneWrite>, width: int, height: int) {
    forall w <- ws :: Inside(w, width, height)
  }

  /** The k-th write of a side column is at row first + k. */
  lemma {:induction false} ColumnAt(x: int, first: int, last: int, g: string, k: int)
    requires 0 <= k <= last - first
    ensures Column(x, first, last, g)[k] == PaneWrite(x, first + k, g, true)
    decreases last - first
  {
    if k < last - first {
      ColumnAt(x, first, last - 1, g, k);
    }
  }

  /** A side column whose rows lie in the pane stays inside it. */
  lemma {:induction false} ColumnInside(x: int, first: int, last: int, g: string, width: int, height: int)
    requires 0 <= x && x + |g| <= width && 0 <= first && last < height
    ensures AllInside(Column(x, first, last, g), width, height)
  {
    var ws := Column(x, first, last, g);
    forall w <- ws
      ensures Inside(w, width, height)
    {
      var k :| 0 <= k < |ws| && ws[k] == w;
      ColumnAt(x, first, last, g, k);
    }
  }

  /** Repeating a glyph of at most one character `count` times gives at most `count` characters. */
  lemma RepeatShort(g: string, count: nat)
    requires |g| <= 1
    ensures |Repeat(g, count)| <= count
  {
    if |g| == 0 {
      assert |Repeat(g, count)| == 0;
    } else {
      assert |Repeat(g, count)| == count;
    }
  }

  /** Every glyph is at most one character, as in the three stock styles. */
  predicate SingleCellGlyphs(s: PaneStyle) {
    |s.NE| <= 1 && |s.N| <= 1 && |s.NW| <= 1 && |s.W| <= 1
    && |s.SW| <= 1 && |s.S| <= 1 && |s.SE| <= 1 && |s.E| <= 1
  }

  lemma AllInsideAppend(a: seq<PaneWrite>, b: seq<PaneWrite>, width: int, height: int)
    requires AllInside(a, width, height) && AllInside(b, width, height)
    ensures AllInside(a + b, width, height)
  {
    forall w <- a + b
      ensures Inside(w, width, height)
    {
      assert w in a || w in b;
    }
  }

  lemma CornersFit(s: PaneStyle, width: int, height: int)
    requires SingleCellGlyphs(s) && width >= 1 && height >= 1
    ensures AllInside(s.Corners(width, height), width, height)
  {
  }

  lemma EdgesFit(s: PaneStyle, width: int, height: int)
    requires SingleCellGlyphs(s) && width >= 1 + s.R() && height >= 1
    ensures !s.EdgePanics(width)
    ensures AllInside(s.Edges(width, height), width, height)
  {
    RepeatShort(s.N, s.EdgeCount(width));
    RepeatShort(s.S, s.EdgeCount(width));
  }

  lemma SidesFit(s: PaneStyle, width: int, height: int)
    requires SingleCellGlyphs(s) && width >= 1 && height >= 1
    ensures AllInside(s.WestSide(height), width, height)
    ensures AllInside(s.EastSide(width, height), width, height)
  {
    if s.DrawsSides() && s.L() > 0 {
      ColumnInside(0, s.T(), height - 1 - s.B(), s.W, width, height);
    }
    if s.DrawsSides() && s.R() > 0 {
      ColumnInside(width - 1, s.T(), height - 1 - s.B(), s.E, width, height);
    }
  }

  /**
   * With one-character glyphs, a pane at least one row high and wide enough
   * for the right border plus one column, the border does not panic and
   * every write lands inside the pane.
   */
  lemma BorderFits(s: PaneStyle, width: int, height: int)
    requires SingleCellGlyphs(s) && width >= 1 + s.R() && height >= 1
    ensures !s.Border(width, height).panicked
    ensures AllInside(s.Border(width, height).writes, width, height)
  {
    CornersFit(s, width, height);
    EdgesFit(s, width, height);
    SidesFit(s, width, height);
    var c, e := s.Corners(width, height), s.Edges(width, height);
    AllInsideAppend(c, e, width, height);
    AllInsideAppend(c + e, s.WestSide(height), width, height);
    AllInsideAppend(c + e + s.WestSide(height), s.EastSide(width, height), width, height);
  }

  /** The framed style writes four corners, two edges and two cells per inner row. */
  lemma FrameWriteCount(width: int, height: int)
    requires width >= 2 && height >= 2
    ensures var d := FrameStyle().Border(width, height);
      !d.panicked && |d.writes| == 4 + 2 + 2 * (height - 2)
  {
  }

  /**
   * The side block is guarded by L > 0 || B > 0, not L > 0 || R > 0: a style
   * whose only glyph is E reserves a column on the right yet draws nothing.
   */
  lemma EastOnlyDrawsNothing(width: int, height: int)
    ensures var s := PaneStyle("", "", "", "", "", "", "", "|");
      s.H() == 1 && s.Border(width, height) == Drawing([], false)
  {
  }

  /**
   * The edge repeat count is width - 1 - R rather than width - L - R: without
   * a left border the top edge stops one column short of the right border.
   */
  lemma TopEdgeShortWithoutLeftBorder(width: int)
    requires width >= 2
    ensures var s := PaneStyle("+", "-", "", "", "", "", "", "");
      s.L() == 0 && s.R() == 1
      && s.Border(width, 1).writes == [PaneWrite(width - 1, 0, "+", true), PaneWrite(0, 0, Repeat("-", width - 2), true)]
      && |Repeat("-", width - 2)| == width - 2
  {
  }
}
