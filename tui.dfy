/**
 * The TUI object: the cached terminal size, the root pane, the callbacks,
 * the main-loop delay, and the output stream (as a log of events). One
 * iteration of the main loop is modelled as a step from a value of
 * TuiState to the next, and the class is proved against that step.
 *
 * The reply of `stty size` is an input (`None` when the command fails).
 */
module Tui {
  import opened Wrappers
  import opened Terminal
  import opened SizeQuery
  import opened Layout
  import opened Panes

  /** Everything a TUI holds, as a value. */
  datatype TuiState = TuiState(
    w: int,
    h: int,
    root: PaneTree,
    onDraw: Option<Callback>,
    onKeyPress: Option<string>,
    loopSleep: int,
    out: seq<Event>)

  /** NewTUI: a root pane named "main", a zero size and a one-second loop delay. */
  function InitialState(): (s: TuiState)
    ensures s.root.split == SplitNone && s.root.name == "main" && s.out == []
    ensures s.root == NewPane("main")
    ensures s.w == 0 && s.h == 0
    ensures s.onDraw.None? && s.onKeyPress.None?
    ensures s.loopSleep == 1000
  {
    TuiState(0, 0, NewPane("main"), None, None, 1000, [])
  }

  /** What getSize makes of the size query. */
  datatype Reading =
    | Unreadable            // the command failed, or a field is not a number
    | Size(w: int, h: int)  // the width and height it reports
    | IndexPanic            // the reply has no space: nums[1] is out of range

  function ReadSize(reply: Option<string>): (r: Reading)
    ensures reply.None? ==> r == Unreadable
    ensures r.Size? <==> reply.Some? && ParseSize(reply.value).Ok?
    ensures r.Size? ==> ParseSize(reply.value) == Ok((r.w, r.h))
    ensures r.IndexPanic? <==> reply.Some? && ParseSize(reply.value) == Err(NoSecondField)
  {
    match reply
    case None => Unreadable
    case Some(text) =>
      match ParseSize(text)
      case Ok((w, h)) => Size(w, h)
      case Err(NoSecondField) => IndexPanic
      case Err(NotANumber) => Unreadable
  }

  /** refreshSize finds a size different from the cached one. */
  predicate SizeChanged(s: TuiState, r: Reading) {
    r.Size? && (r.w != s.w || r.h != s.h)
  }

  /** refreshSize's new state: the cache holds (w, h) and the root pane is laid out for it. */
  function Resized(s: TuiState, w: int, h: int): TuiState {
    s.(w := w, h := h, root := Refresh(s.root, w, h))
  }

  /**
   * refreshSize on a reading it can use: the new state and whether the size
   * changed. A failed or unchanged reading leaves the state alone.
   */
  function Refreshed(s: TuiState, r: Reading): (res: (TuiState, bool))
    requires !r.IndexPanic?
    ensures res.1 <==> SizeChanged(s, r)
    ensures !res.1 ==> res.0 == s
    ensures res.1 ==> res.0.w == r.w && res.0.h == r.h && res.0.out == s.out
    ensures res.1 ==> res.0 == s.(w := r.w, h := r.h, root := WithHeight(WithWidth(s.root, r.w), r.h))
  {
    if SizeChanged(s, r) then (Resized(s, r.w, r.h), true) else (s, false)
  }

  /** How a tick ends: the loop goes on (to its sleep), or a panic ends the program. */
  datatype Step = Continued(s: TuiState) | Crashed(s: TuiState)

  /** The event of the TUI's own onDraw callback, if it has one. */
  function ScreenCallback(f: Option<Callback>): (es: seq<Event>)
    ensures |es| <= 1 && (es == [] <==> f.None?)
  {
    if f.Some? then [ScreenDrawn] else []
  }

  /** What a step leaves the state as, panicked or not. */
  function Outcome(s: TuiState, panicked: bool): (r: Step)
    ensures r.s == s && (r.Crashed? <==> panicked)
  {
    if panicked then Crashed(s) else Continued(s)
  }

  /**
   * The redraw after a size change: the screen is cleared, onDraw runs, then
   * the root pane draws. Only the output changes.
   */
  function Redraw(s: TuiState): (r: Step)
    ensures r.s == s.(out := r.s.out)
    ensures |r.s.out| > |s.out| && r.s.out[..|s.out|] == s.out && r.s.out[|s.out|] == Erase
    ensures r.s.out == s.out + [Erase] + ScreenCallback(s.onDraw) + DrawRun(s.root).events
    ensures r.Crashed? <==> DrawRun(s.root).Panicked?
  {
    var run := DrawRun(s.root);
    Outcome(s.(out := s.out + [Erase] + ScreenCallback(s.onDraw) + run.events), run.Panicked?)
  }

  /** The root pane's Iterate, whose events go to the output. */
  function IterateScreen(s: TuiState): (r: Step)
    ensures r.s == s.(out := s.out + IterateRun(s.root).events)
    ensures r.Crashed? <==> IterateRun(s.root).Panicked?
  {
    var run := IterateRun(s.root);
    Outcome(s.(out := s.out + run.events), run.Panicked?)
  }

  /**
   * One iteration of startMainLoop, up to its sleep: refresh the size; if it
   * changed, redraw; then iterate the root pane, whether or not it changed.
   */
  function LoopStep(s: TuiState, reply: Option<string>): (r: Step)
    ensures |r.s.out| >= |s.out| && r.s.out[..|s.out|] == s.out
    ensures ReadSize(reply).IndexPanic? ==> r == Crashed(s)
  {
    var reading := ReadSize(reply);
    if reading.IndexPanic? then Crashed(s)
    else
      var (s1, changed) := Refreshed(s, reading);
      if !changed then IterateScreen(s1)
      else
        var drawn := Redraw(s1);
        if drawn.Crashed? then drawn else IterateScreen(drawn.s)
  }

  class TUI {
    var w: int
    var h: int
    var pane: Pane
    var onDraw: Option<Callback>
    var onKeyPress: Option<string>
    var loopSleep: int
    /** Everything written to standard output so far. */
    var out: seq<Event>

    ghost var Repr: set<object>

    ghost predicate Valid()
      reads this, Repr
    {
      && this in Repr && pane in Repr
      && pane.Repr <= Repr && this !in pane.Repr
      && pane.Valid()
    }

    ghost function State(): TuiState
      reads this, Repr
      requires Valid()
    {
      TuiState(w, h, pane.Model(), onDraw, onKeyPress, loopSleep, out)
    }

    /** NewTUI. */
    constructor ()
      ensures Valid() && fresh(Repr)
      ensures State() == InitialState()
    {
      var p := new Pane("main");
      w, h := 0, 0;
      pane := p;
      onDraw, onKeyPress := None, None;
      loopSleep := 1000;
      out := [];
      Repr := {this} + p.Repr;
    }

    method SetOnDraw(f: Option<Callback>)
      requires Valid()
      modifies this
      ensures Valid() && Repr == old(Repr)
      ensures State() == old(State()).(onDraw := f)
    {
      onDraw := f;
    }

    method SetOnKeyPress(f: Option<string>)
      requires Valid()
      modifies this
      ensures Valid() && Repr == old(Repr)
      ensures State() == old(State()).(onKeyPress := f)
    {
      onKeyPress := f;
    }

    /** SetPane: the TUI now lays out and draws `p`. */
    method SetPane(p: Pane)
      requires Valid() && p.Valid() && this !in p.Repr
      modifies this
      ensures Valid() && pane == p && Repr == {this} + p.Repr
      ensures State() == old(State()).(root := p.Model())
    {
      pane := p;
      Repr := {this} + p.Repr;
    }

    method SetLoopSleep(n: int)
      requires Valid()
      modifies this
      ensures Valid() && Repr == old(Repr)
      ensures State() == old(State()).(loopSleep := n)
    {
      loopSleep := n;
    }

    /** Write: the cursor goes to (x, y) and `s` is printed there. */
    method Write(x: int, y: int, s: string)
      requires Valid()
      modifies this
      ensures Valid() && Repr == old(Repr)
      ensures State() == old(State()).(out := old(out) + [Put(x, y, s)])
      ensures Stream(out) == Stream(old(out)) + CursorWrite(x, y, s)
    {
      out := out + [Put(x, y, s)];
      StreamAppend(old(out), [Put(x, y, s)]);
      StreamOne(Put(x, y, s));
    }

    /** clear: the whole display is erased and the cursor goes home. */
    method Clear()
      requires Valid()
      modifies this
      ensures Valid() && Repr == old(Repr)
      ensures State() == old(State()).(out := old(out) + [Erase])
      ensures Stream(out) == Stream(old(out)) + ClearScreen
    {
      out := out + [Erase];
      StreamAppend(old(out), [Erase]);
      StreamOne(Erase);
    }

    /** The events of a pass over the panes go to the output stream in order. */
    method Emit(es: seq<Event>)
      requires Valid()
      modifies this
      ensures Valid() && Repr == old(Repr)
      ensures State() == old(State()).(out := old(out) + es)
    {
      out := out + es;
    }

    /**
     * refreshSize: read the size; a new one is cached and the root pane is
     * given its width, then its height. `panicked` is the index panic of a
     * reply without a space.
     */
    method RefreshSize(reply: Option<string>) returns (changed: bool, panicked: bool)
      requires Valid()
      modifies Repr
      ensures Valid() && Repr == old(Repr)
      ensures panicked <==> ReadSize(reply).IndexPanic?
      ensures panicked ==> !changed && State() == old(State())
      ensures !panicked ==> (State(), changed) == Refreshed(old(State()), ReadSize(reply))
    {
      var reading := ReadSize(reply);
      if reading.IndexPanic? {
        return false, true;
      }
      panicked := false;
      if reading.Unreadable? {
        return false, false;
      }
      if w != reading.w || h != reading.h {
        Resize(reading.w, reading.h);
        return true, false;
      }
      return false, false;
    }

    /** The changed-size branch of refreshSize: cache the size, then SetWidth and SetHeight on the root. */
    method Resize(nw: int, nh: int)
      requires Valid()
      modifies Repr
      ensures Valid() && Repr == old(Repr)
      ensures State() == Resized(old(State()), nw, nh)
    {
      ghost var s0 := State();
      w, h := nw, nh;
      assert State() == s0.(w := nw, h := nh);
      pane.SetWidth(nw);
      pane.SetHeight(nh);
      assert pane.Model() == Refresh(s0.root, nw, nh);
    }

    /** The redraw after a size change: clear, onDraw, then the root pane's Draw. */
    method RedrawScreen() returns (panicked: bool)
      requires Valid()
      modifies this
      ensures Valid() && Repr == old(Repr)
      ensures Redraw(old(State())) == Outcome(State(), panicked)
    {
      Clear();
      Emit(ScreenCallback(onDraw));
      var run := pane.Draw();
      Emit(run.events);
      panicked := run.Panicked?;
    }

    /** The root pane's Iterate, its events sent to the output. */
    method IteratePane() returns (panicked: bool)
      requires Valid()
      modifies this
      ensures Valid() && Repr == old(Repr)
      ensures IterateScreen(old(State())) == Outcome(State(), panicked)
    {
      var run := pane.Iterate();
      Emit(run.events);
      panicked := run.Panicked?;
    }

    /** One iteration of startMainLoop, without its sleep. */
    method Tick(reply: Option<string>) returns (crashed: bool)
      requires Valid()
      modifies Repr
      ensures Valid() && Repr == old(Repr)
      ensures LoopStep(old(State()), reply) == Outcome(State(), crashed)
    {
      var changed, panicked := RefreshSize(reply);
      if panicked {
        return true;
      }
      if changed {
        crashed := RedrawScreen();
        if crashed {
          return;
        }
      }
      crashed := IteratePane();
    }
  }
}
