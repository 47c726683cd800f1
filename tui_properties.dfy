/**
 * Properties of the main loop: the size cache makes a redraw happen once per
 * size change, a redraw starts by clearing the screen, a steady size only
 * iterates, and on a tree with room for its borders a resize lays the panes
 * out and runs the visible panes' callbacks without panicking.
 */
module TuiProperties {
  import opened Wrappers
  import opened Decimal
  import opened Terminal
  import opened SizeQuery
  import opened Layout
  import opened LayoutProperties
  import opened Tui

  /** refreshSize caches what it reads: the same reading twice gives true, then false. */
  lemma RefreshTwice(s: TuiState, r: Reading)
    requires r.Size? && SizeChanged(s, r)
    ensures Refreshed(s, r).1
    ensures Refreshed(Refreshed(s, r).0, r) == (Refreshed(s, r).0, false)
  {
    var s1 := Refreshed(s, r).0;
    assert s1.w == r.w && s1.h == r.h;
  }

  /**
   * A tick that goes on leaves the size it read in the cache, so a second
   * tick with the same reply neither clears nor redraws: it only iterates.
   */
  lemma SameReplyOnlyIterates(s: TuiState, reply: Option<string>)
    requires LoopStep(s, reply).Continued?
    ensures var s1 := LoopStep(s, reply).s; LoopStep(s1, reply) == IterateScreen(s1)
  {
    var r := ReadSize(reply);
    var s1 := LoopStep(s, reply).s;
    if SizeChanged(s, r) {
      var d := Redraw(Resized(s, r.w, r.h));
      assert d.s.w == r.w && d.s.h == r.h;
      assert s1.w == r.w && s1.h == r.h;
    } else {
      assert s1 == IterateScreen(s).s;
      assert s1.w == s.w && s1.h == s.h;
    }
    assert !SizeChanged(s1, r);
  }

  /** A tick whose reading fails or matches the cache leaves the size and the panes alone and only iterates. */
  lemma SteadySizeOnlyIterates(s: TuiState, reply: Option<string>)
    requires !ReadSize(reply).IndexPanic? && !SizeChanged(s, ReadSize(reply))
    ensures LoopStep(s, reply) == IterateScreen(s)
    ensures LoopStep(s, reply).s.w == s.w && LoopStep(s, reply).s.h == s.h && LoopStep(s, reply).s.root == s.root
    ensures Erase !in LoopStep(s, reply).s.out[|s.out|..]
  {
    var r := LoopStep(s, reply);
    assert r.s.out[|s.out|..] == IterateRun(s.root).events;
    IterateNeverClears(s.root);
  }

  /** Iterate writes only placeholders and runs callbacks: it never clears the screen. */
  lemma {:induction false} IterateNeverClears(p: PaneTree)
    ensures Erase !in IterateRun(p).events
  {
    if p.tooSmall {
    } else if p.split != SplitNone && p.kids.Kids? {
      IterateNeverClears(p.kids.first);
      IterateNeverClears(p.kids.second);
      var ra := IterateRun(p.kids.first);
      if !ra.Panicked? {
        assert IterateRun(p).events == ra.events + IterateRun(p.kids.second).events;
      }
    }
  }

  /** A tick that finds a new size sends the erase-display sequence before anything else. */
  lemma ResizeClearsFirst(s: TuiState, reply: Option<string>)
    requires SizeChanged(s, ReadSize(reply))
    ensures var out := LoopStep(s, reply).s.out;
      && |out| > |s.out| && out[|s.out|] == Erase
      && Stream(out) == Stream(s.out) + ClearScreen + Stream(out[|s.out| + 1..])
  {
    var d := ChangedTick(s, reply);
    var out := LoopStep(s, reply).s.out;
    EraseKept(s.out, d.s.out, out);
    StreamAfterErase(s.out, out);
  }

  /** A tick that finds a new size continues the log of the redraw for that size. */
  lemma ChangedTick(s: TuiState, reply: Option<string>) returns (d: Step)
    requires SizeChanged(s, ReadSize(reply))
    ensures d == Redraw(Resized(s, ReadSize(reply).w, ReadSize(reply).h)) && d.s.out[..|s.out|] == s.out
    ensures |d.s.out| <= |LoopStep(s, reply).s.out| && LoopStep(s, reply).s.out[..|d.s.out|] == d.s.out
  {
    var rd := ReadSize(reply);
    var s1 := Resized(s, rd.w, rd.h);
    assert Refreshed(s, rd) == (s1, true);
    d := Redraw(s1);
    var r := LoopStep(s, reply);
    assert r == if d.Crashed? then d else IterateScreen(d.s);
    if !d.Crashed? {
      assert r.s.out == d.s.out + IterateRun(d.s.root).events;
    }
  }

  /** An Erase right after `pre` in `mid` is still there in any continuation of `mid`. */
  lemma EraseKept(pre: seq<Event>, mid: seq<Event>, out: seq<Event>)
    requires |mid| > |pre| && mid[..|pre|] == pre && mid[|pre|] == Erase
    requires |mid| <= |out| && out[..|mid|] == mid
    ensures |out| > |pre| && out[..|pre|] == pre && out[|pre|] == Erase
  {
    assert out[..|pre|] == out[..|mid|][..|pre|];
  }

  /** The bytes of an event log that continues `pre` with an Erase. */
  lemma StreamAfterErase(pre: seq<Event>, out: seq<Event>)
    requires |out| > |pre| && out[..|pre|] == pre && out[|pre|] == Erase
    ensures Stream(out) == Stream(pre) + ClearScreen + Stream(out[|pre| + 1..])
  {
    var rest := out[|pre| + 1..];
    assert out == pre + ([Erase] + rest);
    StreamAppend(pre, [Erase] + rest);
    StreamAppend([Erase], rest);
    StreamOne(Erase);
  }

  /**
   * The first tick of a new TUI, with `stty size` reporting rows x cols:
   * the root pane takes the whole screen, the screen is cleared, and the
   * unsplit root without callbacks or border draws nothing else.
   */
  lemma FirstTick(rows: nat, cols: nat)
    requires rows <= MaxInt && cols <= MaxInt && (rows > 0 || cols > 0)
    ensures LoopStep(InitialState(), Some(Itoa(rows) + " " + Itoa(cols) + "\n")) ==
            Continued(InitialState().(w := cols, h := rows,
                                      root := NewPane("main").(width := cols, height := rows),
                                      out := [Erase]))
  {
    var reply := Some(Itoa(rows) + " " + Itoa(cols) + "\n");
    ParseSttyReply(rows, cols);
    assert ReadSize(reply) == Size(cols, rows);
    var root := Refresh(NewPane("main"), cols, rows);
    assert root == NewPane("main").(width := cols, height := rows);
    assert DrawRun(root) == Returned([], 1);
    assert IterateRun(root) == Returned([], 1);
  }

  /**
   * End to end: on a tree whose splits are standard, whose horizontal splits
   * carry no width minimum and whose bordered panes have room, a resize lays
   * the tree out, clears the screen, runs the TUI's onDraw, draws and then
   * iterates the panes without panicking, and the callbacks run are exactly
   * those of the panes Draw reaches, left to right.
   */
  lemma ResizeRunsVisibleCallbacks(s: TuiState, reply: Option<string>)
    requires SizeChanged(s, ReadSize(reply))
    requires WellFormed(s.root) && StandardSplits(s.root) && NoWidthMinimumOnHorizontalSplits(s.root)
    requires BorderedPanesHaveWidth(s.root)
    ensures var r := LoopStep(s, reply);
      var root := r.s.root;
      && r.Continued?
      && root == Refresh(s.root, ReadSize(reply).w, ReadSize(reply).h)
      && Laid(root)
      && r.s.out == s.out + [Erase] + ScreenCallback(s.onDraw) + DrawRun(root).events + IterateRun(root).events
      && DrawnTags(DrawRun(root).events) == OnDrawTags(VisibleLeaves(root))
      && IteratedTags(IterateRun(root).events) == OnIterateTags(VisibleLeaves(root))
  {
    var rd := ReadSize(reply);
    var root := Refresh(s.root, rd.w, rd.h);
    RefreshLaysOut(s.root, rd.w, rd.h);
    RefreshKeepsShape(s.root, rd.w, rd.h);
    LaidDrawDoesNotPanic(root);
    DrawRunsVisibleCallbacks(root);
    IterateRunsVisibleCallbacks(root);
  }
}
