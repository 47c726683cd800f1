# terminal-ui pane layout, in Dafny

A model of the core of the Go package `terminalui`. The package divides a
terminal window into a binary tree of rectangular panes. It computes each
pane's absolute position and size from percentage or fixed-character split
rules, draws optional borders, and runs a main loop that re-lays the tree out
when the terminal size changes and calls the panes' callbacks on every tick.

The model has nine modules, one file each:

- `Decimal` (`decimal.dfy`): `strconv.Itoa` and `strconv.Atoi` over Go's 64-bit
  `int` range, and their round trip.
- `Terminal` (`terminal.dfy`): the bytes `TUI.Write` and `clear` send. It also
  has a decoder that reads a write back as a cell and a text, and the event
  log that stands for the output stream.
- `SizeQuery` (`size_query.dfy`): the text half of `getSize`. The `stty size`
  reply is split on spaces and its two fields are read as numbers.
- `Styles` (`style.dfy`): `TUIPaneStyle`. It holds the border thicknesses
  L/R/T/B/H/V, the three stock styles, and `Draw`. `Draw` is an imperative
  method with the source's loops, proved against the function `Border`.
- `Layout` (`layout.dfy`): a pane tree as a value (`PaneTree`). It has the
  value-level meaning of `Split`, `getSplitValues`, `SetWidth`, `SetHeight`,
  `Write`, `Draw` and `Iterate`.
- `LayoutProperties` (`layout_properties.dfy`): what those operations
  guarantee:
  - setting a size twice is idempotent;
  - a refresh lays the tree out as tiles;
  - Draw and Iterate run exactly the visible panes' callbacks, left to right;
  - drawing a laid-out tree never panics.
- `Panes` (`pane.dfy`): `TUIPane` as a class. Its methods update its fields
  and recurse into its two child objects. Each method is proved against the
  `Layout` function applied to the pane's `Model()`.
- `Tui` (`tui.dfy`): `TUI` as a class, with its setters, `Write`, `clear`,
  `refreshSize` and one iteration of the main loop. They are proved against a
  step function on `TuiState` values.
- `TuiProperties` (`tui_properties.dfy`): properties of the main loop:
  - the size is cached;
  - a resize clears the screen first;
  - a steady size only iterates;
  - on a resize, the panes are laid out and the visible panes' callbacks run.
- `Sample` (`sample.dfy`): the sample application's tree, built by its own
  calls. It is laid out at every terminal size and computed exactly at
  100 x 40.

Outside I/O becomes inputs and outputs:

- The reply of `stty size` is an input. It is `None` when the command fails.
- Standard output is a log of `Event`s. `Stream` maps the log to the exact
  bytes sent.
- A callback is opaque. Running it is an event that carries the callback's
  tag, and it returns a fixed result.
- A Go panic is a `Panicked` or `Crashed` outcome. The model has three:
  - `strings.Repeat` with a negative count;
  - a split pane without children;
  - indexing past the fields of a reply without a space.

Behaviour of the code worth noting, which the model keeps:

- `Split` on a pane that is already split replaces its children.
- A `stty size` reply with no space that is a plain number (no newline)
  panics at `nums[1]`; any other reply with no space fails in `Atoi`. The
  panic is not treated like a failed size query.
- The percentage is truncated after a float64 product (see `Layout.GetSplitValues` below).

## Model

The value-level definitions `Layout.NewPane`, `Layout.Refresh`,
`Layout.DrawRun`, `Layout.IterateRun` and `Styles.PaneStyle.Border` carry no
contract of their own. They are what `NewTUIPane`, refreshSize's SetWidth and
SetHeight pair, `TUIPane.Draw`, `TUIPane.Iterate` and `TUIPaneStyle.Draw` mean,
and the rows of `Panes.Pane.constructor`, `Tui.Refreshed`, `Panes.Pane.Draw`,
`Panes.Pane.Iterate`, `Styles.PaneStyle.Draw` and the lemmas about them stand
for them.

| member | source | states |
|---|---|---|
| Decimal.Itoa | tui.go:105-110 | the text is never empty, starts with a digit exactly when the number is non-negative (otherwise with the minus sign), and for a positive number is all digits with no leading zero |
| Decimal.Atoi | internal.go:73-80 | a value comes back exactly when the text is an optionally signed run of digits whose value fits a 64-bit int, and it is that value |
| Decimal.AtoiItoa | internal.go:73-77 | reading back what Itoa wrote gives the same number, for every 64-bit int |
| Terminal.CursorWrite | tui.go:103-112 | the bytes start with the cursor-home sequence and end with the text unchanged |
| Terminal.CursorWriteDecodes | tui.go:103-112 | a terminal decodes the bytes as the requested cell, with negative coordinates clamped to 0, followed by the text, when the text does not start with ESC |
| Terminal.PutDecodes | tui.go:103-112 | a single positioned write in the output log decodes to its own cell and text |
| SizeQuery.Fields | internal.go:72 | splitting on spaces gives at least one field, and no field contains a space |
| SizeQuery.JoinFields | internal.go:72 | joining the fields with spaces gives the reply back, so nothing is lost |
| SizeQuery.RemoveFirstNewline | internal.go:77 | a text without a newline is unchanged; otherwise the first newline, and only it, is removed |
| SizeQuery.ParseSize | internal.go:72-81 | it succeeds exactly when field 0 is a number and there is a field 1 that is a number once its first newline is gone; then the height is field 0 and the width field 1. It fails for lack of a second field exactly when the reply has no space but is a number |
| SizeQuery.ParseSttyReply | internal.go:72-81 | the reply `rows cols\n` is read back as (cols, rows) |
| Styles.Repeat | tui_pane_style.go:85-88 | the result has count times the glyph's length, and each of its characters is the glyph's character at the same offset, so it is count copies of the glyph |
| Styles.PaneStyle.L | tui_pane_style.go:30-35 | the left border is 0 or 1, and 1 exactly when NW, W or SW is non-empty |
| Styles.PaneStyle.R | tui_pane_style.go:38-43 | the right border is 0 or 1, and 1 exactly when NE, E or SE is non-empty |
| Styles.PaneStyle.T | tui_pane_style.go:46-51 | the top border is 0 or 1, and 1 exactly when NE, N or NW is non-empty |
| Styles.PaneStyle.B | tui_pane_style.go:54-59 | the bottom border is 0 or 1, and 1 exactly when SE, S or SW is non-empty |
| Styles.PaneStyle.H | tui_pane_style.go:20-22 | the border takes at most 2 columns, and none exactly when all six left and right glyphs are empty |
| Styles.PaneStyle.V | tui_pane_style.go:25-27 | the border takes at most 2 rows, and none exactly when all six top and bottom glyphs are empty |
| Styles.WriteColumn | tui_pane_style.go:100-109 | the loop appends one write of the glyph per row from st to en inclusive, in the given column |
| Styles.PaneStyle.DrawCorners | tui_pane_style.go:63-74 | a corner is written exactly when both of its sides have thickness, in the order NW, SW, NE, SE |
| Styles.PaneStyle.DrawEdges | tui_pane_style.go:75-90 | it panics exactly when a top or bottom edge is present and width - 1 - R is negative; otherwise it writes the edges |
| Styles.PaneStyle.DrawSides | tui_pane_style.go:91-110 | it writes the W column and then the E column, only when L or B is present |
| Styles.PaneStyle.Draw | tui_pane_style.go:62-111 | the writes and the panic are exactly those of `Border`: corners, then edges, then sides |
| Styles.FrameStyle | tui_pane_style.go:114-119 | every side of the frame is one cell thick |
| Styles.MarginStyle | tui_pane_style.go:123-128 | every side of the margin is one cell thick |
| Styles.NoStyle | tui_pane_style.go:131-136 | no side takes any room |
| Styles.ColumnInside | tui_pane_style.go:100-109 | a side column whose rows lie inside the pane writes only inside it |
| Styles.BorderFits | tui_pane_style.go:62-111 | with one-character glyphs, a pane at least 1 + R wide and 1 high draws its border without panicking, and every write lands inside the pane |
| Styles.FrameWriteCount | tui_pane_style.go:62-119 | the frame style on a pane at least 2 x 2 makes 4 + 2 + 2(h - 2) writes |
| Styles.EastOnlyDrawsNothing | tui_pane_style.go:91-110 | because the side block is guarded by L or B, a style whose only glyph is E reserves a column but draws nothing |
| Styles.TopEdgeShortWithoutLeftBorder | tui_pane_style.go:75-90 | because the repeat count is width - 1 - R, the top edge stops one column short of the right corner when there is no left border |
| Layout.SplitPane | tui_pane.go:94-101 | a split keeps the tree well formed, and the tree grows by the two new panes minus any subtree they replace |
| Layout.SplitAt | tui_pane.go:94-101 | a split anywhere in the tree keeps it well formed |
| Layout.TotalMinWidth | tui_pane.go:151-156 | the total minimum is the content minimum plus 0 to 2 columns, and equals the content minimum exactly when the pane has no left or right border |
| Layout.TotalMinHeight | tui_pane.go:160-165 | the total minimum is the content minimum plus 0 to 2 rows, and equals the content minimum exactly when the pane has no top or bottom border |
| Layout.GetSplitValues | tui_pane.go:238-265 | an unsplit pane gets (0, 0, ok). A fixed size outside 1 .. base - 1, or a zero value, fails with (0, 0). Otherwise both parts are at least 1 and sum to the base, and the fixed part goes to the first child for a negative value and to the second for a positive one |
| Layout.WithWidth | tui_pane.go:170-194 | only width, tooSmall and the children change. Below a positive minimum the pane is too small. A horizontal split gives both children the full width at the same left. A vertical split puts the children side by side with widths summing to w, or is too small |
| Layout.WithHeight | tui_pane.go:199-222 | the mirror of WithWidth, except that tooSmall is cleared only when a horizontal split resolves and is otherwise kept as it was |
| Layout.WriteEvents | tui_pane.go:278-286 | only an unsplit or too-small pane writes; it makes one write of the text, whose cell ContentWriteLands gives |
| Layout.WriteAll | tui_pane.go:278-286 | a pane that writes makes one terminal write per pane write, the i-th being that pane's Write of the i-th request; a split pane that is not too small writes nothing |
| Layout.Sequence | tui_pane.go:296-299 | the first child's events come before the second's; the second is skipped if the first panicked, and the pass panics if either child did |
| LayoutProperties.WidthIdempotent | tui_pane.go:170-194 | setting the same width twice leaves the tree as the first call left it |
| LayoutProperties.HeightIdempotent | tui_pane.go:199-222 | setting the same height twice leaves the tree as the first call left it |
| LayoutProperties.WidthKeepsShape | tui_pane.go:170-194 | SetWidth keeps every split pane's children, and keeps every bordered pane's room |
| LayoutProperties.HeightKeepsShape | tui_pane.go:199-222 | SetHeight keeps every split pane's children, and keeps every bordered pane's room |
| LayoutProperties.RefreshKeepsShape | internal.go:94-95 | a size refresh keeps the tree well formed, and keeps every bordered pane's room |
| LayoutProperties.PlacedIsLaid | tui_pane.go:170-222 | SetWidth, a new top and SetHeight lay the tree out: every visible pane meets its minimums, and every visible split is tiled by its children without gaps or overlap |
| LayoutProperties.RefreshLaysOut | internal.go:94-95 | when every split is horizontal or vertical and no horizontally split pane has a minimum width, the refreshed tree is laid out |
| LayoutProperties.HorizontalSplitLosesWidthCheck | tui_pane.go:199-216 | the minimum-width condition is needed: SetHeight clears the too-small flag a too-narrow horizontal split got from SetWidth, so Draw reaches children whose width was never set |
| LayoutProperties.DrawRunsVisibleCallbacks | tui_pane.go:289-310 | a Draw that returns has run exactly the onDraw callbacks of the visible leaves, first child before second |
| LayoutProperties.IterateRunsVisibleCallbacks | tui_pane.go:313-331 | Iterate on a well-formed tree returns, and has run exactly the onIterate callbacks of the visible leaves, in order |
| LayoutProperties.LaidDrawDoesNotPanic | tui_pane.go:289-310 | drawing a laid-out tree whose bordered panes have room never panics |
| LayoutProperties.TooSmallShowsMark | tui_pane.go:289-319 | a too-small pane behaves the same in Draw and Iterate: it returns 1, runs no callback and writes one "!" at its content origin exactly when it has area |
| LayoutProperties.ContentWriteLands | tui_pane.go:278-286 | a write on a placed leaf or too-small pane reaches the terminal at the absolute cell, moved inside the border by L and T for a content write and not moved for a border write, followed by the unchanged text |
| Panes.Pane.Model | tui_pane.go:21-38 | every pane the object graph reaches is well formed: a split pane has both children |
| Panes.Pane.constructor | tui_pane.go:334-337 | the new pane is the named, unsplit, empty pane |
| Panes.Pane.Split | tui_pane.go:94-101 | the pane gets two fresh children and records the split type, value and unit, as SplitPane describes |
| Panes.Pane.SplitVertically | tui_pane.go:107-109 | Split with the vertical type |
| Panes.Pane.SplitHorizontally | tui_pane.go:115-117 | Split with the horizontal type |
| Panes.Pane.SplitAtPath | tui_pane.go:94-101 | splitting a descendant updates the whole tree as SplitAt describes |
| Panes.Pane.SetOnDraw | tui_pane.go:76-78 | only the onDraw callback changes |
| Panes.Pane.SetOnIterate | tui_pane.go:81-83 | only the onIterate callback changes |
| Panes.Pane.SetStyle | tui_pane.go:86-88 | only the style changes |
| Panes.Pane.SetMinWidth | tui_pane.go:225-227 | only the minimum width changes |
| Panes.Pane.SetMinHeight | tui_pane.go:230-232 | only the minimum height changes |
| Panes.Pane.SetLeft | tui_pane.go:268-270 | only the left position changes |
| Panes.Pane.SetTop | tui_pane.go:273-275 | only the top position changes |
| Panes.Pane.GetTotalMinWidth | tui_pane.go:151-156 | the result is the pane's total minimum width |
| Panes.Pane.GetTotalMinHeight | tui_pane.go:160-165 | the result is the pane's total minimum height |
| Panes.Pane.GetSplitValuesNow | tui_pane.go:238-265 | the result is the split resolution of the pane's current size |
| Panes.Pane.SetWidth | tui_pane.go:170-194 | the subtree becomes the WithWidth of what it was, in place, across the child objects |
| Panes.Pane.SetHeight | tui_pane.go:199-222 | the subtree becomes the WithHeight of what it was, in place, across the child objects |
| Panes.Pane.Write | tui_pane.go:278-286 | the terminal writes are those WriteEvents gives |
| Panes.Pane.Draw | tui_pane.go:289-310 | the events and the result or panic are those DrawRun gives |
| Panes.Pane.Iterate | tui_pane.go:313-331 | the events and the result or panic are those IterateRun gives |
| Tui.InitialState | tui.go:27-33 | a new TUI has the unsplit root pane "main", a 0 x 0 cached size, no callbacks, a loop delay of 1000 and has written nothing |
| Tui.ReadSize | internal.go:64-82 | a failed command is unreadable. The reply gives a size exactly when it parses, and that size is the parsed one. It panics exactly when it has no second field |
| Tui.Refreshed | internal.go:85-99 | the result is true exactly when a readable size differs from the cache. In that case the cache holds the new size, the root gets SetWidth then SetHeight, and the callbacks, loop delay and output are kept; otherwise nothing changes |
| Tui.ScreenCallback | internal.go:42-44 | the TUI's onDraw runs once when it is set, and not otherwise |
| Tui.Outcome | internal.go:37-50 | the state is kept, and the step crashes exactly when it panicked |
| Tui.Redraw | internal.go:40-46 | only the output grows. It gets exactly an erase, then the TUI's onDraw event if it is set, then the root's Draw events, and the step crashes exactly when Draw panics |
| Tui.IterateScreen | internal.go:47 | only the output grows, by the root's Iterate events, and the step crashes exactly when Iterate panics |
| Tui.LoopStep | internal.go:37-50 | the output only grows, and a reply without a second field crashes without changing anything |
| Tui.TUI.constructor | tui.go:27-33 | the new TUI is the initial state |
| Tui.TUI.SetOnDraw | tui.go:83-85 | only onDraw changes |
| Tui.TUI.SetOnKeyPress | tui.go:88-90 | only onKeyPress changes |
| Tui.TUI.SetPane | tui.go:93-95 | only the root pane changes, to the given one |
| Tui.TUI.SetLoopSleep | tui.go:98-100 | only the loop delay changes |
| Tui.TUI.Write | tui.go:103-112 | one positioned write is logged, and the output bytes grow by exactly the cursor-write bytes |
| Tui.TUI.Clear | internal.go:31-33 | one erase is logged, and the bytes grow by erase-display plus cursor home |
| Tui.TUI.RefreshSize | internal.go:85-99 | it reports the index panic exactly when the reply has no second field, and otherwise makes the state and result of Refreshed |
| Tui.TUI.Resize | internal.go:90-96 | the cache holds the new size, and the root pane is given the width, then the height |
| Tui.TUI.RedrawScreen | internal.go:40-46 | the new state and the panic are those of Redraw |
| Tui.TUI.IteratePane | internal.go:47 | the new state and the panic are those of IterateScreen |
| Tui.TUI.Tick | internal.go:38-48 | one loop iteration without the sleep makes the state and the crash of LoopStep |
| TuiProperties.RefreshTwice | internal.go:85-99 | the size is cached: the same new reading reports a change once, and then reports none and changes nothing |
| TuiProperties.SameReplyOnlyIterates | internal.go:37-50 | after a tick, a second tick with the same reply neither clears nor redraws; it only iterates |
| TuiProperties.SteadySizeOnlyIterates | internal.go:37-50 | a failed or unchanged reading keeps size and panes, only iterates, and never clears the screen |
| TuiProperties.IterateNeverClears | tui_pane.go:313-331 | Iterate never erases the display |
| TuiProperties.ResizeClearsFirst | internal.go:39-41 | a tick that finds a new size sends erase-display before anything else it writes |
| TuiProperties.FirstTick | internal.go:37-50 | on a new TUI, the first tick with the reply of `stty size` gives the root the whole screen and only clears it |
| TuiProperties.ResizeRunsVisibleCallbacks | internal.go:37-50 | on a resize of a standard tree whose bordered panes have room, the tree is laid out and the screen cleared. The TUI's onDraw runs, then Draw, then Iterate, with no panic. The callbacks run are exactly those of the visible panes, left to right |
| Sample.WithWidget | tui_widget_sample.go:12-22 | the widget's leaf gets the style, a 5 x 3 minimum and callbacks returning 1, the tree keeps its size, and every pane off the leaf's branch is unchanged |
| Sample.SampleTreeShape | cmd/sample_app/main.go:31-64 | the sample's splits and setters build the expected tree of three columns of two rows each |
| Sample.SampleLaysOutAtAnySize | cmd/sample_app/main.go:25-66 | at every terminal size, the sample is laid out and drawing it never panics |
| Sample.SampleAt100x40 | cmd/sample_app/main.go:31-64 | on a 100 x 40 terminal, the six widgets get their exact rectangles and Draw reaches all six in order |

## Left out

- Layout.GetSplitValues: computes the percentage exactly as |value| * |base| / 100. Go truncates a float64 product, which can fall just below an integer. For example, -29 % of 100 gives 28 in Go, and 29 here.
- Tui.ReadSize: the exec of `stty size` (internal.go:65-70) is not modelled; its reply, or its failure, is an input.
- Tui.LoopStep: the sleep at the end of each iteration is left out, and so is the `for` loop around the iterations. The model describes one iteration; there is no clock.
- `Run`, `initTTY` and `Exit` are not modelled. They start goroutines, run `stty` and end the process.
- `startStdioLoop` is not modelled. It reads standard input, so the onKeyPress callback is stored but never invoked.
- The getters of `TUI` and `TUIPane` are not modelled; they only read a field.
- Callbacks are opaque. A callback is a tag and a fixed result. What a widget's callback writes (the sample widget writes the time) is not part of the output log.
- The `tui` back-pointer of `TUIPane` is not modelled. A pane's Write, Draw and Iterate return the events they would send through it, and the TUI appends them to its output.
- `GetTUI` is not modelled, for the same reason.
- Panes.Pane.SplitAtPath: the tree is built by walking down from the root. A setter called directly on a descendant object does change its ancestors' `Model()`, since the model is read from the heap, but no contract re-establishes the ancestors' `Valid()` or describes their new model; a split called directly on a descendant breaks the ancestors' `Valid()`, because the new children are outside their `Repr`.
- Styles are values. The source shares style pointers between panes, but no code mutates a style, so sharing is not observable.
- Styles.PaneStyle.L, R, T and B: a glyph's length is counted in characters, not UTF-8 bytes. The emptiness test, which is all the thicknesses depend on, is the same either way. The "inside the pane" properties count one cell per character.
- Go's `int` overflow in geometry arithmetic is not modelled. Integers are unbounded, except that `Atoi` enforces the 64-bit range.
- Layout.WithWidth and Layout.WithHeight: a split pane without children is a no-op here. In Go it is a nil dereference. It cannot arise, because `Split` always creates both children, and the class invariant rules it out.
