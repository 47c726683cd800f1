/**
 * TUIPane as the source has it: an object whose methods update its fields
 * and recurse into its two child objects. Each method is proved against the
 * value-level function of module Layout applied to the pane's Model().
 */
module Panes {
  import opened Wrappers
  import opened Styles
  import opened Terminal
  import opened Layout

  class Pane {
    var name: string
    var split: int
    var splitValue: int
    var splitUnit: int
    var tooSmall: bool
    var first: Pane?
    var second: Pane?
    var onDraw: Option<Callback>
    var onIterate: Option<Callback>
    var width: int
    var height: int
    var left: int
    var top: int
    var minWidth: int
    var minHeight: int
    var style: Option<PaneStyle>

    /** This pane and every pane below it. */
    ghost var Repr: set<object>

    /** The children are both present or both absent, present when split, and own disjoint subtrees. */
    ghost predicate Valid()
      reads this, Repr
      decreases Repr
    {
      && this in Repr
      && (first == null <==> second == null)
      && (split != SplitNone ==> first != null)
      && (first != null ==>
            && first in Repr && second in Repr
            && first.Repr <= Repr && second.Repr <= Repr
            && this !in first.Repr && this !in second.Repr
            && first.Repr !! second.Repr
            && first.Valid() && second.Valid())
    }

    /** The pane and its subtree as a value. */
    ghost function Model(): (m: PaneTree)
      reads this, Repr
      requires Valid()
      ensures WellFormed(m)
      decreases Repr
    {
      PaneTree(name, split, splitValue, splitUnit, tooSmall,
               if first == null then NoKids else Kids(first.Model(), second.Model()),
               onDraw, onIterate, width, height, left, top, minWidth, minHeight, style)
    }

    /** Model() one level unfolded. */
    lemma ModelIs()
      requires Valid()
      ensures Model() == PaneTree(name, split, splitValue, splitUnit, tooSmall,
                                  if first == null then NoKids else Kids(first.Model(), second.Model()),
                                  onDraw, onIterate, width, height, left, top, minWidth, minHeight, style)
    {
    }

    /** NewTUIPane. */
    constructor (n: string)
      ensures Valid() && Repr == {this}
      ensures Model() == NewPane(n)
    {
      name := n;
      split := SplitNone;
      splitValue, splitUnit := 0, 0;
      tooSmall := false;
      first, second := null, null;
      onDraw, onIterate := None, None;
      width, height, left, top := 0, 0, 0, 0;
      minWidth, minHeight := 0, 0;
      style := None;
      Repr := {this};
    }

    /** Split: two new unsplit children replace any previous ones, and the split is recorded. */
    method Split(t: int, s: int, u: int) returns (a: Pane, b: Pane)
      requires Valid()
      modifies this
      ensures Valid() && Repr == old(Repr) + {a, b}
      ensures fresh(a) && fresh(b) && a == first && b == second
      ensures Model() == SplitPane(old(Model()), t, s, u)
    {
      a := new Pane("Nazwa");
      b := new Pane("Nazwa");
      Attach(a, b, t, s, u);
    }

    /** The second half of Split: two new panes become the children. */
    method Attach(a: Pane, b: Pane, t: int, s: int, u: int)
      requires Valid() && a != b && a != this && b != this
      requires a.Valid() && a.Repr == {a} && a.Model() == NewPane("Nazwa")
      requires b.Valid() && b.Repr == {b} && b.Model() == NewPane("Nazwa")
      modifies this
      ensures Valid() && Repr == old(Repr) + {a, b} && a == first && b == second
      ensures Model() == SplitPane(old(Model()), t, s, u)
    {
      ghost var n := NewPane("Nazwa");
      ghost var m := Model();
      ghost var split' := PaneTree(name, t, s, u, tooSmall, Kids(n, n), onDraw, onIterate,
                                   width, height, left, top, minWidth, minHeight, style);
      assert SplitPane(m, t, s, u) == split';
      first, second, split, splitValue, splitUnit, Repr := a, b, t, s, u, Repr + {a, b};
      assert name == split'.name && tooSmall == split'.tooSmall && onDraw == split'.onDraw && onIterate == split'.onIterate;
      assert width == split'.width && height == split'.height && left == split'.left && top == split'.top;
      assert minWidth == split'.minWidth && minHeight == split'.minHeight && style == split'.style;
      assert unchanged(a) && unchanged(b);
      assert a.Valid() && b.Valid() && a.Model() == n && b.Model() == n;
      assert Valid();
      ModelIs();
    }

    /** SplitVertically: Split with SPLIT_V. */
    method SplitVertically(s: int, u: int) returns (a: Pane, b: Pane)
      requires Valid()
      modifies this
      ensures Valid() && Repr == old(Repr) + {a, b}
      ensures fresh(a) && fresh(b) && a == first && b == second
      ensures Model() == SplitPane(old(Model()), SplitV, s, u)
    {
      a, b := Split(SplitV, s, u);
    }

    /** SplitHorizontally: Split with SPLIT_H. */
    method SplitHorizontally(s: int, u: int) returns (a: Pane, b: Pane)
      requires Valid()
      modifies this
      ensures Valid() && Repr == old(Repr) + {a, b}
      ensures fresh(a) && fresh(b) && a == first && b == second
      ensures Model() == SplitPane(old(Model()), SplitH, s, u)
    {
      a, b := Split(SplitH, s, u);
    }

    /**
     * Split on the pane `path` leads to from this one, keeping this pane's
     * own view of its subtree up to date (how a tree is built from its root).
     */
    method SplitAtPath(path: seq<bool>, t: int, s: int, u: int) returns (a: Pane, b: Pane)
      requires Valid() && HasPath(Model(), path)
      modifies Repr
      ensures Valid() && Repr == old(Repr) + {a, b}
      ensures fresh(a) && fresh(b)
      ensures Model() == SplitAt(old(Model()), path, t, s, u)
      decreases |path|, 1
    {
      if path == [] {
        a, b := Split(t, s, u);
      } else if path[0] {
        a, b := SplitSecondAt(Model(), path[1..], t, s, u);
      } else {
        a, b := SplitFirstAt(Model(), path[1..], t, s, u);
      }
    }

    /** SplitAtPath below the first child; `m` is the pane's model beforehand. */
    method SplitFirstAt(ghost m: PaneTree, rest: seq<bool>, t: int, s: int, u: int) returns (a: Pane, b: Pane)
      requires Valid() && first != null && Model() == m && HasPath(m.kids.first, rest)
      modifies Repr
      ensures Valid() && Repr == old(Repr) + {a, b}
      ensures fresh(a) && fresh(b)
      ensures Model() == m.(kids := Kids(SplitAt(m.kids.first, rest, t, s, u), m.kids.second))
      decreases |rest| + 1, 0
    {
      ghost var r0, k0 := Repr, second.Repr;
      a, b := first.SplitAtPath(rest, t, s, u);
      assert unchanged(this) && unchanged(second);
      assert second.Repr == k0 && a !in k0 && b !in k0;
      assert second.Valid() && second.Model() == m.kids.second;
      Repr := r0 + {a, b};
      assert first.Repr <= Repr && first.Repr !! second.Repr;
    }

    /** SplitAtPath below the second child; `m` is the pane's model beforehand. */
    method SplitSecondAt(ghost m: PaneTree, rest: seq<bool>, t: int, s: int, u: int) returns (a: Pane, b: Pane)
      requires Valid() && first != null && Model() == m && HasPath(m.kids.second, rest)
      modifies Repr
      ensures Valid() && Repr == old(Repr) + {a, b}
      ensures fresh(a) && fresh(b)
      ensures Model() == m.(kids := Kids(m.kids.first, SplitAt(m.kids.second, rest, t, s, u)))
      decreases |rest| + 1, 0
    {
      ghost var r0, k0 := Repr, first.Repr;
      a, b := second.SplitAtPath(rest, t, s, u);
      assert unchanged(this) && unchanged(first);
      assert first.Repr == k0 && a !in k0 && b !in k0;
      assert first.Valid() && first.Model() == m.kids.first;
      Repr := r0 + {a, b};
      assert second.Repr <= Repr && second.Repr !! first.Repr;
    }

    method SetOnDraw(f: Option<Callback>)
      requires Valid()
      modifies this
      ensures Valid() && Repr == old(Repr)
      ensures Model() == old(Model()).(onDraw := f)
    {
      onDraw := f;
    }

    method SetOnIterate(f: Option<Callback>)
      requires Valid()
      modifies this
      ensures Valid() && Repr == old(Repr)
      ensures Model() == old(Model()).(onIterate := f)
    {
      onIterate := f;
    }

    method SetStyle(s: Option<PaneStyle>)
      requires Valid()
      modifies this
      ensures Valid() && Repr == old(Repr)
      ensures Model() == old(Model()).(style := s)
    {
      style := s;
    }

    method SetMinWidth(w: int)
      requires Valid()
      modifies this
      ensures Valid() && Repr == old(Repr)
      ensures Model() == old(Model()).(minWidth := w)
    {
      minWidth := w;
    }

    method SetMinHeight(h: int)
      requires Valid()
      modifies this
      ensures Valid() && Repr == old(Repr)
      ensures Model() == old(Model()).(minHeight := h)
    {
      minHeight := h;
    }

    method SetLeft(l: int)
      requires Valid()
      modifies this
      ensures Valid() && Repr == old(Repr)
      ensures Model() == old(Model()).(left := l)
    {
      left := l;
    }

    method SetTop(t: int)
      requires Valid()
      modifies this
      ensures Valid() && Repr == old(Repr)
      ensures Model() == old(Model()).(top := t)
    {
      top := t;
    }

    /** GetTotalMinWidth. */
    method GetTotalMinWidth() returns (r: int)
      requires Valid()
      ensures r == TotalMinWidth(Model())
    {
      if style.Some? {
        return minWidth + style.value.H();
      }
      return minWidth;
    }

    /** GetTotalMinHeight. */
    method GetTotalMinHeight() returns (r: int)
      requires Valid()
      ensures r == TotalMinHeight(Model())
    {
      if style.Some? {
        return minHeight + style.value.V();
      }
      return minHeight;
    }

    /** getSplitValues, on the pane's current split and size. */
    method GetSplitValuesNow() returns (v1: int, v2: int, small: bool)
      requires Valid()
      ensures SplitValues(v1, v2, small) == GetSplitValues(Model())
    {
      var base;
      if split == SplitV {
        base := width;
      } else if split == SplitH {
        base := height;
      } else {
        return 0, 0, false;
      }
      var fixed: int;
      if splitUnit == UnitPercent {
        fixed := Abs(splitValue) * Abs(base) / 100;
      } else {
        fixed := Abs(splitValue);
      }
      if fixed >= base || fixed < 1 {
        return 0, 0, true;
      }
      if splitValue < 0 {
        return fixed, base - fixed, false;
      } else if splitValue > 0 {
        return base - fixed, fixed, false;
      }
      return 0, 0, false;
    }

    /** SetWidth: store the width, check the minimum, and place the children. */
    method SetWidth(w: int)
      requires Valid()
      modifies Repr
      ensures Valid() && Repr == old(Repr)
      ensures Model() == WithWidth(old(Model()), w)
      decreases Repr, 4
    {
      ghost var m := Model();
      var total := GetTotalMinWidth();
      if total > 0 && w < total {
        width, tooSmall := w, true;
        assert WidthTooSmall(m, w);
        return;
      }
      width, tooSmall := w, false;
      SpreadWidth(m, w);
    }

    /** The part of SetWidth after the minimum check: the children get their columns. */
    method SpreadWidth(ghost m: PaneTree, w: int)
      requires Valid() && Model() == m.(width := w, tooSmall := false) && !WidthTooSmall(m, w)
      modifies Repr
      ensures Valid() && Repr == old(Repr)
      ensures Model() == WithWidth(m, w)
      decreases Repr, 3
    {
      if split == SplitH {
        PlaceWidths(Model(), left, w, left, w);
      } else if split == SplitV {
        var v1, v2, small := GetSplitValuesNow();
        if small {
          tooSmall := true;
          assert GetSplitValues(m.(width := w)).tooSmall;
          return;
        }
        SideBySide(m, w, v1, v2);
      }
    }

    /** A vertical split that fits: the first child gets v1 columns at the left, the second the rest. */
    method SideBySide(ghost m: PaneTree, w: int, v1: int, v2: int)
      requires Valid() && Model() == m.(width := w, tooSmall := false) && !WidthTooSmall(m, w)
      requires split == SplitV && GetSplitValues(m.(width := w)) == SplitValues(v1, v2, false)
      modifies Repr
      ensures Valid() && Repr == old(Repr)
      ensures Model() == WithWidth(m, w)
      decreases Repr, 2
    {
      ghost var placed := WithWidthSideBySide(m, w);
      PlaceWidths(Model(), left, v1, left + v1, v2);
    }

    /**
     * SetLeft and SetWidth on the first child, then on the second. The
     * children own disjoint subtrees, so this order gives the same tree as
     * both SetLeft calls followed by both SetWidth calls.
     */
    method PlaceWidths(ghost m: PaneTree, l1: int, w1: int, l2: int, w2: int)
      requires Valid() && first != null
      requires Model() == m
      modifies Repr
      ensures Valid() && Repr == old(Repr)
      ensures Model() == m.(kids := Kids(WithWidth(m.kids.first.(left := l1), w1),
                                        WithWidth(m.kids.second.(left := l2), w2)))
      decreases Repr, 1
    {
      PlaceFirstWidth(m, l1, w1);
      ghost var m1 := m.(kids := Kids(WithWidth(m.kids.first.(left := l1), w1), m.kids.second));
      PlaceSecondWidth(m1, l2, w2);
    }

    method PlaceFirstWidth(ghost m: PaneTree, l: int, w: int)
      requires Valid() && first != null
      requires Model() == m
      modifies Repr
      ensures Valid() && Repr == old(Repr)
      ensures Model() == m.(kids := Kids(WithWidth(m.kids.first.(left := l), w), m.kids.second))
      decreases Repr, 0
    {
      first.SetLeft(l);
      first.SetWidth(w);
      assert second.Valid() && second.Model() == m.kids.second;
    }

    method PlaceSecondWidth(ghost m: PaneTree, l: int, w: int)
      requires Valid() && first != null
      requires Model() == m
      modifies Repr
      ensures Valid() && Repr == old(Repr)
      ensures Model() == m.(kids := Kids(m.kids.first, WithWidth(m.kids.second.(left := l), w)))
      decreases Repr, 0
    {
      second.SetLeft(l);
      second.SetWidth(w);
      assert first.Valid() && first.Model() == m.kids.first;
    }

    /** SetHeight: store the height, check the minimum, and place the children. */
    method SetHeight(h: int)
      requires Valid()
      modifies Repr
      ensures Valid() && Repr == old(Repr)
      ensures Model() == WithHeight(old(Model()), h)
      decreases Repr, 4
    {
      ghost var m := Model();
      var total := GetTotalMinHeight();
      if total > 0 && h < total {
        height, tooSmall := h, true;
        assert HeightTooSmall(m, h);
        return;
      }
      height := h;
      SpreadHeight(m, h);
    }

    /**
     * The part of SetHeight after the minimum check: the children get their
     * rows. Unlike SpreadWidth, tooSmall is only cleared on a successful
     * horizontal split.
     */
    method SpreadHeight(ghost m: PaneTree, h: int)
      requires Valid() && Model() == m.(height := h) && !HeightTooSmall(m, h)
      modifies Repr
      ensures Valid() && Repr == old(Repr)
      ensures Model() == WithHeight(m, h)
      decreases Repr, 3
    {
      if split == SplitV {
        PlaceHeights(Model(), top, h, top, h);
      } else if split == SplitH {
        var v1, v2, small := GetSplitValuesNow();
        if small {
          tooSmall := true;
          assert GetSplitValues(m.(height := h)).tooSmall;
          return;
        }
        tooSmall := false;
        Stacked(m, h, v1, v2);
      }
    }

    /** A horizontal split that fits: the first child gets v1 rows at the top, the second the rest. */
    method Stacked(ghost m: PaneTree, h: int, v1: int, v2: int)
      requires Valid() && Model() == m.(height := h, tooSmall := false) && !HeightTooSmall(m, h)
      requires split == SplitH && GetSplitValues(m.(height := h)) == SplitValues(v1, v2, false)
      modifies Repr
      ensures Valid() && Repr == old(Repr)
      ensures Model() == WithHeight(m, h)
      decreases Repr, 2
    {
      ghost var placed := WithHeightStacked(m, h);
      PlaceHeights(Model(), top, v1, top + v1, v2);
    }

    /** SetTop and SetHeight on the first child, then on the second (see PlaceWidths). */
    method PlaceHeights(ghost m: PaneTree, t1: int, h1: int, t2: int, h2: int)
      requires Valid() && first != null
      requires Model() == m
      modifies Repr
      ensures Valid() && Repr == old(Repr)
      ensures Model() == m.(kids := Kids(WithHeight(m.kids.first.(top := t1), h1),
                                        WithHeight(m.kids.second.(top := t2), h2)))
      decreases Repr, 1
    {
      PlaceFirstHeight(m, t1, h1);
      ghost var m1 := m.(kids := Kids(WithHeight(m.kids.first.(top := t1), h1), m.kids.second));
      PlaceSecondHeight(m1, t2, h2);
    }

    method PlaceFirstHeight(ghost m: PaneTree, t: int, h: int)
      requires Valid() && first != null
      requires Model() == m
      modifies Repr
      ensures Valid() && Repr == old(Repr)
      ensures Model() == m.(kids := Kids(WithHeight(m.kids.first.(top := t), h), m.kids.second))
      decreases Repr, 0
    {
      first.SetTop(t);
      first.SetHeight(h);
      assert second.Valid() && second.Model() == m.kids.second;
    }

    method PlaceSecondHeight(ghost m: PaneTree, t: int, h: int)
      requires Valid() && first != null
      requires Model() == m
      modifies Repr
      ensures Valid() && Repr == old(Repr)
      ensures Model() == m.(kids := Kids(m.kids.first, WithHeight(m.kids.second.(top := t), h)))
      decreases Repr, 0
    {
      second.SetTop(t);
      second.SetHeight(h);
      assert first.Valid() && first.Model() == m.kids.first;
    }

    /** Write: the terminal writes this pane issues for a write at (x, y). */
    method Write(x: int, y: int, s: string, overwriteFrame: bool) returns (es: seq<Event>)
      requires Valid()
      ensures es == WriteEvents(Model(), x, y, s, overwriteFrame)
    {
      es := [];
      if split == SplitNone || tooSmall {
        if style.Some? && !overwriteFrame {
          es := [Put(left + x + style.value.L(), top + y + style.value.T(), s)];
        } else {
          es := [Put(left + x, top + y, s)];
        }
      }
    }

    /** The border's writes, issued one after another through Write. */
    method WriteBorder(ws: seq<PaneWrite>) returns (es: seq<Event>)
      requires Valid()
      ensures es == WriteAll(Model(), ws)
    {
      es := [];
      var i := 0;
      while i < |ws|
        invariant 0 <= i <= |ws|
        invariant es == WriteAll(Model(), ws[..i])
      {
        var e := Write(ws[i].x, ws[i].y, ws[i].text, ws[i].overwriteFrame);
        assert ws[..i + 1][..i] == ws[..i];
        es := es + e;
        i := i + 1;
      }
      assert ws[..|ws|] == ws;
    }

    /** Draw: the placeholder, the children in order, or the border and then onDraw. */
    method Draw() returns (run: Run)
      requires Valid()
      ensures run == DrawRun(Model())
      decreases Repr
    {
      if tooSmall {
        var es := [];
        if width > 0 && height > 0 {
          es := Write(0, 0, "!", false);
        }
        return Returned(es, 1);
      }
      if split != SplitNone {
        var ra := first.Draw();
        if ra.Panicked? {
          return ra;
        }
        var rb := second.Draw();
        return Sequence(ra, rb);
      }
      var es := [];
      if style.Some? {
        var ws, panicked := style.value.Draw(width, height);
        es := WriteBorder(ws);
        if panicked {
          return Panicked(es);
        }
      }
      if onDraw.Some? {
        return Returned(es + [PaneDrawn(onDraw.value.tag)], onDraw.value.result);
      }
      return Returned(es, 1);
    }

    /** Iterate: the placeholder, the children in order, or onIterate. */
    method Iterate() returns (run: Run)
      requires Valid()
      ensures run == IterateRun(Model())
      decreases Repr
    {
      if tooSmall {
        var es := [];
        if width > 0 && height > 0 {
          es := Write(0, 0, "!", false);
        }
        return Returned(es, 1);
      }
      if split != SplitNone {
        var ra := first.Iterate();
        if ra.Panicked? {
          return ra;
        }
        var rb := second.Iterate();
        return Sequence(ra, rb);
      }
      if onIterate.Some? {
        return Returned([PaneIterated(onIterate.value.tag)], onIterate.value.result);
      }
      return Returned([], 1);
    }
  }
}
