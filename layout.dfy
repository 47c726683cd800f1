/**
 * TUIPane as a value: the binary split tree, how a size is resolved into the
 * two children's sizes, how SetWidth and SetHeight push geometry down the
 * tree, and the writes and callback runs that Draw and Iterate produce.
 * The class in module Panes is proved against these functions.
 */
module Layout {
  import opened Wrappers
  import opened Styles
  import opened Terminal

  /** Split kinds (SPLIT_NONE, SPLIT_H, SPLIT_V); any other int may be stored by Split. */
  const SplitNone: int := 0
  const SplitH: int := 1
  const SplitV: int := 2

  /** Split units (UNIT_PERCENT, UNIT_CHAR); any unit other than percent counts characters. */
  const UnitPercent: int := 1
  const UnitChar: int := 2

  /**
   * An onDraw or onIterate callback. Its body is not modelled: running it is
   * an observable event carrying `tag`, and it returns `result`.
   */
  datatype Callback = Callback(tag: string, result: int)

  /** The fields of a TUIPane; `kids` is the `panes` array, both set by Split or both nil. */
  datatype PaneTree = PaneTree(
    name: string,
    split: int,
    splitValue: int,
    splitUnit: int,
    tooSmall: bool,
    kids: Kids,
    onDraw: Option<Callback>,
    onIterate: Option<Callback>,
    width: int,
    height: int,
    left: int,
    top: int,
    minWidth: int,
    minHeight: int,
    style: Option<PaneStyle>)

  datatype Kids = NoKids | Kids(first: PaneTree, second: PaneTree)

  /** NewTUIPane: a named, unsplit pane with every other field zero or absent. */
  function NewPane(name: string): PaneTree {
    PaneTree(name, SplitNone, 0, 0, false, NoKids, None, None, 0, 0, 0, 0, 0, 0, None)
  }

  /** Number of panes in the tree. */
  function Size(p: PaneTree): nat {
    match p.kids
    case NoKids => 1
    case Kids(a, b) => 1 + Size(a) + Size(b)
  }

  /** Every split pane has its two children, as Split guarantees by creating them before recording the split. */
  predicate WellFormed(p: PaneTree) {
    (p.split != SplitNone ==> p.kids.Kids?)
    && (p.kids.Kids? ==> WellFormed(p.kids.first) && WellFormed(p.kids.second))
  }

  /** Split: two fresh unsplit children named "Nazwa", and the split type, value and unit recorded. */
  function SplitPane(p: PaneTree, t: int, s: int, u: int): (r: PaneTree)
    ensures WellFormed(p) ==> WellFormed(r)
    ensures Size(r) == Size(p) + 2 - (if p.kids.Kids? then Size(p.kids.first) + Size(p.kids.second) else 0)
  {
    p.(kids := Kids(NewPane("Nazwa"), NewPane("Nazwa")), split := t, splitValue := s, splitUnit := u)
  }

  /** The child sequence `path` leads to from `p` (false: first child, true: second) exists. */
  predicate HasPath(p: PaneTree, path: seq<bool>) {
    path == [] || (p.kids.Kids? && HasPath(if path[0] then p.kids.second else p.kids.first, path[1..]))
  }

  /** Split applied to the pane at `path`, the rest of the tree unchanged. */
  function SplitAt(p: PaneTree, path: seq<bool>, t: int, s: int, u: int): (r: PaneTree)
    requires HasPath(p, path)
    ensures WellFormed(p) ==> WellFormed(r)
    decreases |path|
  {
    if path == [] then SplitPane(p, t, s, u)
    else if path[0] then p.(kids := Kids(p.kids.first, SplitAt(p.kids.second, path[1..], t, s, u)))
    else p.(kids := Kids(SplitAt(p.kids.first, path[1..], t, s, u), p.kids.second))
  }

  function Abs(n: int): nat {
    if n < 0 then -n else n
  }

  /** GetTotalMinWidth: the content minimum plus the columns the border takes. */
  function TotalMinWidth(p: PaneTree): (r: int)
    ensures p.minWidth <= r <= p.minWidth + 2
    ensures r == p.minWidth <==> p.style.None? || p.style.value.H() == 0
  {
    if p.style.Some? then p.minWidth + p.style.value.H() else p.minWidth
  }

  /** GetTotalMinHeight: the content minimum plus the rows the border takes. */
  function TotalMinHeight(p: PaneTree): (r: int)
    ensures p.minHeight <= r <= p.minHeight + 2
    ensures r == p.minHeight <==> p.style.None? || p.style.value.V() == 0
  {
    if p.style.Some? then p.minHeight + p.style.value.V() else p.minHeight
  }

  /** The result of getSplitValues: the first and second child's size, or a "too small" failure. */
  datatype SplitValues = SplitValues(v1: int, v2: int, tooSmall: bool)

  /**
   * The size given to the fixed child, before the range check: a percentage
   * of the base (the float64 product, truncated, taken here exactly in
   * integers) or the split value itself, without its sign.
   */
  function CalcValue(splitValue: int, splitUnit: int, base: int): nat {
    if splitUnit == UnitPercent then Abs(splitValue) * Abs(base) / 100 else Abs(splitValue)
  }

  /** The length that a split of kind `split` divides: the width for vertical, the height for horizontal. */
  function Base(p: PaneTree): int {
    if p.split == SplitV then p.width else p.height
  }

  /**
   * getSplitValues. An unsplit pane gets (0, 0, false). A fixed size outside
   * 1 .. base - 1 fails. Otherwise the parts are positive and fill the base;
   * a negative split value fixes the first child's size, a positive one the
   * second's, and a zero value always fails.
   */
  function GetSplitValues(p: PaneTree): (r: SplitValues)
    ensures p.split != SplitV && p.split != SplitH ==> r == SplitValues(0, 0, false)
    ensures p.split == SplitV || p.split == SplitH ==>
      var c := CalcValue(p.splitValue, p.splitUnit, Base(p));
      && (r.tooSmall <==> c >= Base(p) || c < 1 || p.splitValue == 0)
      && (r.tooSmall ==> r.v1 == 0 && r.v2 == 0)
      && (!r.tooSmall ==> 1 <= r.v1 && 1 <= r.v2 && r.v1 + r.v2 == Base(p))
      && (!r.tooSmall && p.splitValue < 0 ==> r.v1 == c)
      && (!r.tooSmall && p.splitValue > 0 ==> r.v2 == c)
  {
    if p.split != SplitV && p.split != SplitH then SplitValues(0, 0, false)
    else
      var base := Base(p);
      var fixed := CalcValue(p.splitValue, p.splitUnit, base);
      if fixed >= base || fixed < 1 then SplitValues(0, 0, true)
      else if p.splitValue < 0 then SplitValues(fixed, base - fixed, false)
      else if p.splitValue > 0 then SplitValues(base - fixed, fixed, false)
      else SplitValues(0, 0, false)
  }

  /** The minimum-width check of SetWidth: only a positive total minimum is enforced. */
  predicate WidthTooSmall(p: PaneTree, w: int) {
    TotalMinWidth(p) > 0 && w < TotalMinWidth(p)
  }

  /** The minimum-height check of SetHeight. */
  predicate HeightTooSmall(p: PaneTree, h: int) {
    TotalMinHeight(p) > 0 && h < TotalMinHeight(p)
  }

  /**
   * SetWidth. The width is always stored. A width below a positive total
   * minimum marks the pane too small and stops. Otherwise a horizontal split
   * gives both children the pane's left and the full width; a vertical split
   * places the children side by side with the resolved widths, or marks the
   * pane too small when the widths cannot be resolved.
   */
  function WithWidth(p: PaneTree, w: int): (r: PaneTree)
    decreases Size(p)
    ensures r == p.(width := w, tooSmall := r.tooSmall, kids := r.kids)
    ensures Size(r) == Size(p) && r.kids.Kids? == p.kids.Kids?
    ensures WidthTooSmall(p, w) ==> r.tooSmall && r.kids == p.kids
    ensures !WidthTooSmall(p, w) && p.split == SplitH && p.kids.Kids? ==>
      && !r.tooSmall
      && r.kids.first.left == p.left && r.kids.first.width == w
      && r.kids.second.left == p.left && r.kids.second.width == w
    ensures !WidthTooSmall(p, w) && p.split == SplitV && p.kids.Kids? ==>
      var sv := GetSplitValues(p.(width := w));
      && r.tooSmall == sv.tooSmall
      && (sv.tooSmall ==> r.kids == p.kids)
      && (!sv.tooSmall ==>
            && r.kids.first.left == p.left && r.kids.first.width == sv.v1
            && r.kids.second.left == p.left + sv.v1 && r.kids.second.width == sv.v2
            && sv.v1 + sv.v2 == w)
    ensures !WidthTooSmall(p, w) && (p.kids.NoKids? || (p.split != SplitH && p.split != SplitV)) ==>
      !r.tooSmall && r.kids == p.kids
  {
    var q := p.(width := w);
    if WidthTooSmall(p, w) then q.(tooSmall := true)
    else if p.split == SplitH && p.kids.Kids? then
      q.(tooSmall := false, kids := Kids(WithWidth(p.kids.first.(left := p.left), w),
                                         WithWidth(p.kids.second.(left := p.left), w)))
    else if p.split == SplitV && p.kids.Kids? then
      var sv := GetSplitValues(q);
      if sv.tooSmall then q.(tooSmall := true)
      else q.(tooSmall := false, kids := Kids(WithWidth(p.kids.first.(left := p.left), sv.v1),
                                              WithWidth(p.kids.second.(left := p.left + sv.v1), sv.v2)))
    else q.(tooSmall := false)
  }

  /**
   * SetHeight, the mirror of SetWidth with one asymmetry: the too-small flag
   * is set on failure, cleared only when a horizontal split resolves, and
   * otherwise left as SetWidth (or an earlier call) left it.
   */
  function WithHeight(p: PaneTree, h: int): (r: PaneTree)
    decreases Size(p)
    ensures r == p.(height := h, tooSmall := r.tooSmall, kids := r.kids)
    ensures Size(r) == Size(p) && r.kids.Kids? == p.kids.Kids?
    ensures HeightTooSmall(p, h) ==> r.tooSmall && r.kids == p.kids
    ensures !HeightTooSmall(p, h) && p.split == SplitV && p.kids.Kids? ==>
      && r.tooSmall == p.tooSmall
      && r.kids.first.top == p.top && r.kids.first.height == h
      && r.kids.second.top == p.top && r.kids.second.height == h
    ensures !HeightTooSmall(p, h) && p.split == SplitH && p.kids.Kids? ==>
      var sv := GetSplitValues(p.(height := h));
      && r.tooSmall == sv.tooSmall
      && (sv.tooSmall ==> r.kids == p.kids)
      && (!sv.tooSmall ==>
            && r.kids.first.top == p.top && r.kids.first.height == sv.v1
            && r.kids.second.top == p.top + sv.v1 && r.kids.second.height == sv.v2
            && sv.v1 + sv.v2 == h)
    ensures !HeightTooSmall(p, h) && (p.kids.NoKids? || (p.split != SplitH && p.split != SplitV)) ==>
      r.tooSmall == p.tooSmall && r.kids == p.kids
  {
    var q := p.(height := h);
    if HeightTooSmall(p, h) then q.(tooSmall := true)
    else if p.split == SplitV && p.kids.Kids? then
      q.(kids := Kids(WithHeight(p.kids.first.(top := p.top), h),
                      WithHeight(p.kids.second.(top := p.top), h)))
    else if p.split == SplitH && p.kids.Kids? then
      var sv := GetSplitValues(q);
      if sv.tooSmall then q.(tooSmall := true)
      else q.(tooSmall := false, kids := Kids(WithHeight(p.kids.first.(top := p.top), sv.v1),
                                              WithHeight(p.kids.second.(top := p.top + sv.v1), sv.v2)))
    else q
  }

  /** SetWidth on a vertically split pane whose widths resolve, one level unfolded. */
  lemma WithWidthSideBySide(p: PaneTree, w: int) returns (r: PaneTree)
    requires !WidthTooSmall(p, w) && p.split == SplitV && p.kids.Kids?
    requires !GetSplitValues(p.(width := w)).tooSmall
    ensures var sv := GetSplitValues(p.(width := w));
      r == WithWidth(p, w)
      && r == p.(width := w, tooSmall := false,
                 kids := Kids(WithWidth(p.kids.first.(left := p.left), sv.v1),
                              WithWidth(p.kids.second.(left := p.left + sv.v1), sv.v2)))
  {
    r := WithWidth(p, w);
  }

  /** WithWidthSideBySide, naming the resolved widths and the second column's left `l2`. */
  lemma SideBySideAt(p: PaneTree, w: int) returns (r: PaneTree, sv: SplitValues, l2: int)
    requires !WidthTooSmall(p, w) && p.split == SplitV && p.kids.Kids?
    requires !GetSplitValues(p.(width := w)).tooSmall
    ensures sv == GetSplitValues(p.(width := w)) && l2 == p.left + sv.v1
    ensures r == WithWidth(p, w)
      && r == p.(width := w, tooSmall := false,
                 kids := Kids(WithWidth(p.kids.first.(left := p.left), sv.v1),
                              WithWidth(p.kids.second.(left := l2), sv.v2)))
  {
    sv := GetSplitValues(p.(width := w));
    l2 := p.left + sv.v1;
    r := WithWidthSideBySide(p, w);
  }

  /** SetWidth on a horizontally split pane that meets its minimum, one level unfolded. */
  lemma WithWidthOverRows(p: PaneTree, w: int) returns (r: PaneTree)
    requires !WidthTooSmall(p, w) && p.split == SplitH && p.kids.Kids?
    ensures r == WithWidth(p, w)
      && r == p.(width := w, tooSmall := false,
                 kids := Kids(WithWidth(p.kids.first.(left := p.left), w),
                              WithWidth(p.kids.second.(left := p.left), w)))
  {
    r := WithWidth(p, w);
  }

  /** SetHeight on a vertically split pane that meets its minimum, one level unfolded. */
  lemma WithHeightOverColumns(p: PaneTree, h: int) returns (r: PaneTree)
    requires !HeightTooSmall(p, h) && p.split == SplitV && p.kids.Kids?
    ensures r == WithHeight(p, h)
      && r == p.(height := h,
                 kids := Kids(WithHeight(p.kids.first.(top := p.top), h),
                              WithHeight(p.kids.second.(top := p.top), h)))
  {
    r := WithHeight(p, h);
  }

  /** SetHeight on a horizontally split pane whose heights resolve, one level unfolded. */
  lemma WithHeightStacked(p: PaneTree, h: int) returns (r: PaneTree)
    requires !HeightTooSmall(p, h) && p.split == SplitH && p.kids.Kids?
    requires !GetSplitValues(p.(height := h)).tooSmall
    ensures var sv := GetSplitValues(p.(height := h));
      r == WithHeight(p, h)
      && r == p.(height := h, tooSmall := false,
                 kids := Kids(WithHeight(p.kids.first.(top := p.top), sv.v1),
                              WithHeight(p.kids.second.(top := p.top + sv.v1), sv.v2)))
  {
    r := WithHeight(p, h);
  }

  /** What the terminal's refreshSize does to the root pane: SetWidth, then SetHeight. */
  function Refresh(p: PaneTree, w: int, h: int): PaneTree {
    WithHeight(WithWidth(p, w), h)
  }

  /**
   * TUIPane.Write: only an unsplit or too-small pane writes. The position is
   * made absolute with the pane's left and top, and moved inside the border
   * unless the write is part of the border itself.
   */
  function WriteEvents(p: PaneTree, x: int, y: int, s: string, overwriteFrame: bool): (es: seq<Event>)
    ensures |es| <= 1
    ensures es != [] <==> p.split == SplitNone || p.tooSmall
    ensures es != [] ==> es[0].Put? && es[0].text == s
  {
    if p.split == SplitNone || p.tooSmall then
      if p.style.Some? && !overwriteFrame then
        [Put(p.left + x + p.style.value.L(), p.top + y + p.style.value.T(), s)]
      else
        [Put(p.left + x, p.top + y, s)]
    else []
  }

  /** The events of a sequence of pane writes issued in order. */
  function WriteAll(p: PaneTree, ws: seq<PaneWrite>): (es: seq<Event>)
    ensures p.split == SplitNone || p.tooSmall ==> |es| == |ws|
    ensures p.split == SplitNone || p.tooSmall ==>
      forall i :: 0 <= i < |ws| ==> [es[i]] == WriteEvents(p, ws[i].x, ws[i].y, ws[i].text, ws[i].overwriteFrame)
    ensures !(p.split == SplitNone || p.tooSmall) ==> es == []
  {
    if ws == [] then []
    else WriteAll(p, ws[..|ws| - 1]) + WriteEvents(p, ws[|ws| - 1].x, ws[|ws| - 1].y, ws[|ws| - 1].text, ws[|ws| - 1].overwriteFrame)
  }

  /**
   * How a Draw or Iterate pass ends: it returns an int after emitting
   * `events`, or it panics (a negative strings.Repeat count, or a split pane
   * without children) after emitting `events`.
   */
  datatype Run = Returned(events: seq<Event>, result: int) | Panicked(events: seq<Event>)

  /** A too-small pane shows a single "!" at its content origin, if it has any area at all. */
  function Placeholder(p: PaneTree): seq<Event> {
    if p.width > 0 && p.height > 0 then WriteEvents(p, 0, 0, "!", false) else []
  }

  /** Both children, left one first; the pass continues only if the first did not panic. */
  function Sequence(a: Run, b: Run): (r: Run)
    ensures r.events == a.events + (if a.Panicked? then [] else b.events)
    ensures r.Panicked? <==> a.Panicked? || b.Panicked?
  {
    if a.Panicked? then a
    else if b.Panicked? then Panicked(a.events + b.events)
    else Returned(a.events + b.events, 1)
  }

  /**
   * TUIPane.Draw: a too-small pane draws its placeholder and returns 1; a
   * split pane draws its first then its second child and returns 1; an
   * unsplit pane draws its border, then runs onDraw and returns its result
   * (1 without a callback).
   */
  function DrawRun(p: PaneTree): Run {
    if p.tooSmall then Returned(Placeholder(p), 1)
    else if p.split != SplitNone then
      match p.kids
      case NoKids => Panicked([])
      case Kids(a, b) =>
        var ra := DrawRun(a);
        if ra.Panicked? then ra else Sequence(ra, DrawRun(b))
    else
      var border := if p.style.Some? then p.style.value.Border(p.width, p.height) else Drawing([], false);
      var es := WriteAll(p, border.writes);
      if border.panicked then Panicked(es)
      else match p.onDraw
        case Some(f) => Returned(es + [PaneDrawn(f.tag)], f.result)
        case None => Returned(es, 1)
  }

  /** TUIPane.Iterate: as Draw, without the border and with onIterate. */
  function IterateRun(p: PaneTree): Run {
    if p.tooSmall then Returned(Placeholder(p), 1)
    else if p.split != SplitNone then
      match p.kids
      case NoKids => Panicked([])
      case Kids(a, b) =>
        var ra := IterateRun(a);
        if ra.Panicked? then ra else Sequence(ra, IterateRun(b))
    else
      match p.onIterate
      case Some(f) => Returned([PaneIterated(f.tag)], f.result)
      case None => Returned([], 1)
  }
}
