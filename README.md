# MobPaint stroke and undo engine, modelled in Dafny

MobPaint is a small SDL raster painting program. This project models its
stroke and undo engine:

- the live stroke, which collects pointer samples in a buffer that starts at 8 points and doubles;
- the commit at the end of a stroke, which deep-copies the stroke onto the undo stack and empties the redo stack;
- cache promotion: after a commit, once 1000 or more entries sit above the `committed_stroke_count` watermark and a bitmap cache exists, those entries are baked into the cache in index order and the watermark moves to the top;
- undo and redo, which move the top entry from one stack to the other and redraw the window;
- the replay of the undo stack onto the window after clearing it.

Beside the engine it models three small pieces:

- the rules of the two tools (defaults, reset of the colour when the type changes, what a brush or eraser stamps, the names);
- hit-testing of the sidebar buttons;
- how `main` picks the target file from the command line, the configuration and the environment.

## How it is modelled

- `common.dfy` holds shared pieces:
  - an option type;
  - C's truncating `n / 2`;
  - the capacity ladder 0, 8, 16, 32, ... that both growable buffers follow;
  - `Realloc`, a copy loop standing in for `realloc`.
- `render.dfy` models the renderer as an append-only log of draw commands: set the target, set the draw colour, clear, fill a rectangle, draw a line. Pixels are not modelled: two equal logs draw the same picture.
- `tools.dfy` models `Tool` as a value. `init_tool` becomes a constant tool and `set_tool_type` a function from the old tool to the new one (C writes the struct through a pointer). `use_tool` returns the commands it would issue.
- `history.dfy` models `history.c`:
  - `HistoryEntry` is a value, the struct as `push_history` receives and `pop_history` returns it.
  - `LiveEntry` is a class: the entry the live stroke pointer refers to, whose `points` array is grown in place.
  - `History` is a class over an `array` of entries with `count` and `capacity`. `Push` and `Pop` are proved against the functions `Pushed` and `Popped` on the sequence of used entries; `Init`, `Free` and `EnsureCapacity` state the count, capacity and contents they leave, and `IsEmpty` is tied to the contents.
- `paint_context.dfy` models `paint_context.c` in two parts:
  - On values, `EngineState` holds the two stacks, the watermark and the entries baked into the cache so far, with one transition function per operation (`Commit`, `EndStrokeState`, `UndoState`, `RedoState`). The engine's properties are proved as lemmas about these functions.
  - The class `PaintContext` is the C struct. Its methods update the stacks, the live stroke and the watermark in place. They append to the command log and to the ghost `baked` sequence that stands for the cache. `EndStroke`, `CommitEntry`, `Undo` and `Redo` are proved to follow their transition function (`State() == UndoState(old(State()), ...)`), and `ExchangeHistory` follows `Exchange` on the two stacks. The other methods state their effect directly: `StartStroke` and `AddPointToCurrentStroke` on the live stroke, `Bake` on the watermark, the cache and the log, `UpdateCoordinates` and `UpdateTool` on their fields. The loops of `ApplyHistoryEntry` and `ReplayEntries` (shared by `Bake` and `RedrawCanvas`) are proved to emit exactly `EntryCommands` and `Replay` of the entries they visit.
- `sidebar.dfy` models `sidebar.c`. `target_path.dfy` models the choice of target path in `main.c`, whose inputs are parameters: the argument vector, the configured path, and `MOBPAINT_TMPDIR` and `TMPDIR` (each `None` when unset).

The C code checks five allocations for failure:

- the copy of the points in `push_history`, a `bool` parameter;
- the `malloc` in `create_empty_entry`, a `bool` parameter;
- the `realloc` in `add_point_to_current_stroke`, a `bool` parameter;
- the two `malloc`s of the stacks in `init_paint_context` (src/context/paint_context.c:30-35), which the model assumes succeed: its stacks always exist;
- `SDL_CreateTexture` for the cache (src/context/paint_context.c:37-42), the constructor's `cacheCreated` parameter.

When one of the three `bool` parameters is false, the model does what the code does on that path:

- the entry is not pushed, though the stack buffer has already grown;
- there is no live stroke;
- the point is dropped and the stroke is unchanged.

Behaviour of the code worth knowing:

- `paint_context_undo` and `paint_context_redo` do not reset `committed_stroke_count` (src/context/paint_context.c:143-159). As a result the watermark can lie above the undo stack. `WatermarkCanExceedUndoStack` shows this for 1000 baked strokes and one undo. After it the cache still holds the undone stroke.
- `redraw_canvas` neither uses the cache nor looks at the watermark (src/context/paint_context.c:130-141). It clears the window to white and replays the whole undo stack, so every redraw is a full replay. `CacheEquivalence` shows that whenever the cache agrees with the undo stack, the entries baked into the cache followed by the unbaked entries replay the same commands as the full replay. It compares replay logs only: the cache was first cleared to the configured background colour (src/context/paint_context.c:44-48), while a redraw clears the window to white (src/context/paint_context.c:135-136), so the two backgrounds can differ.
- `apply_history_entry` stamps one square per point and draws no lines between points. It draws nothing at all for an entry with fewer than two points (src/context/paint_context.c:109-128).
- Only the brush and eraser exist (include/tools/tools.h:6-13). For any other value of the enum, `use_tool` sets the colour and draws nothing, `get_tool_name` names it "UNKNOWN", and `set_tool_type` gives it grey. `apply_history_entry` never reads the type, so an entry with such a value still has its points replayed as squares (`ReplayIgnoresToolType`).
- When the copy in `push_history` cannot be allocated, `end_stroke` still empties the redo stack and frees the live stroke (src/context/paint_context.c:76-78, 91-93), so both the stroke and the redo history are lost (`FailedCommitLosesRedo`).
- When it cannot be allocated during an undo or redo, `exchange_history` has already popped the entry from the source, pushes nothing, and still returns true (src/context/paint_context.c:146-150), so the entry is lost (`FailedExchangeLosesEntry`).

## Model

| member | source | states |
|---|---|---|
| Common.CHalf | src/tools/tools.c:32-33 | `size / 2` rounds toward zero as C's division does: for a negative size the quotient is the half rounded up, not Dafny's floor |
| Common.GrownCapacity | src/context/history.c:26-40 | a buffer with room keeps its capacity, and only then; a full buffer grows to at most twice its capacity plus 8, leaving room for one more element |
| Common.GrownCapacityOnLadder | src/context/history.c:26-40 | after a capacity check the buffer has room for one more element, and the capacity stays on the ladder 0, 8, 16, 32, ... |
| Common.CapacityForIsLeast | src/context/history.c:26-40 | the capacity after n appends holds n elements, is on the ladder, and is the least such capacity: half of it would not hold n, and it is below 2n + 8 |
| Common.GrowthFollowsCapacityFor | src/context/history.c:34-40 | one more append moves the capacity from the layout for n elements to the layout for n + 1, so appending from an empty buffer walks 0, 8, 16, 32, ... |
| Common.Realloc | src/context/history.c:29 | the new buffer has the requested length and starts with the old elements, as far as both reach |
| Render.StampCentred | src/tools/tools.c:31-36 | a stamp of positive size is a `size x size` square that covers its point, which sits in the middle (the margin before it is the one after it or one pixel more) |
| Tools.InitTool | src/tools/tools.c:3-7 | the initial tool is a brush of size 4, opaque, and selecting the brush type on it changes nothing |
| Tools.SetToolType | src/tools/tools.c:9-23 | the tool gets the type asked for, keeps its size and has an opaque colour |
| Tools.SetToolTypeResult | src/tools/tools.c:9-23 | selecting a type sets it, keeps the size, and sets the colour to (0,0,0,255) for the brush, (255,255,255,255) for the eraser and (128,128,128,255) for any other value |
| Tools.SetToolTypeIdempotent | src/tools/tools.c:9-23 | selecting the same type twice gives the same tool as selecting it once |
| Tools.SetToolTypeForgetsColor | src/tools/tools.c:9-23 | the tool a selection leaves does not depend on the colour before it, only on the size and the type selected |
| Tools.UseTool | src/tools/tools.c:25-46 | the draw colour is always set to the tool's colour; a brush or eraser then stamps exactly one square at the sample, and a line from the previous sample follows exactly when neither previous coordinate is -1; any other type draws nothing |
| Tools.GetToolName | src/tools/tools.c:48-60 | the name is "BRUSH" exactly for the brush, "ERASER" exactly for the eraser and "UNKNOWN" exactly for every other type |
| History.AppendPointsFromEmpty | src/context/history.c:77-85 | a stroke that starts empty and is given points one by one holds exactly those points in order, with the least ladder capacity that holds them |
| History.PushPopLifo | src/context/history.c:42-71 | when the copy can be allocated (or the entry has no points to copy), a pop right after a push returns the entry pushed (tool, count, capacity and points) and leaves the stack as before the push |
| History.PushFailureKeepsStack | src/context/history.c:51-55 | when the copy of a non-empty entry's points cannot be allocated, the push leaves the stack unchanged |
| History.LiveEntry.constructor | src/context/paint_context.c:7-19 | a new live entry has no points, capacity 0 and the type, size and colour of the given tool |
| History.LiveEntry.EnsureCapacity | src/context/history.c:34-40 | a full point buffer is reallocated at 8 (from 0) or twice its capacity, keeping the points; afterwards there is room for one more |
| History.LiveEntry.AddPointToEntry | src/context/history.c:77-85 | false for a null entry; otherwise true, with (x, y) appended after the existing points and the capacity grown as the ladder says |
| History.History.constructor | src/context/history.c:8-12 | a new stack set up by init_history: no entries, capacity 0 |
| History.History.Init | src/context/history.c:8-12 | init_history leaves an empty stack of count 0 and capacity 0 |
| History.History.Free | src/context/history.c:14-24 | free_history leaves an empty stack of count 0 and capacity 0 |
| History.History.EnsureCapacity | src/context/history.c:26-32 | a full entry buffer is reallocated at 8 (from 0) or twice its capacity, keeping the entries; afterwards count < capacity |
| History.History.Push | src/context/history.c:42-62 | the entry goes on top as a copy with the same tool, count, capacity and points, the entries below are unchanged, and an entry without points is pushed even when allocation fails; a failed copy leaves the stack unchanged |
| History.History.Pop | src/context/history.c:64-71 | on an empty stack, a zeroed entry and the stack stays empty; otherwise the top entry, with the rest unchanged below it |
| History.History.IsEmpty | src/context/history.c:73-75 | true exactly when the stack holds no entries |
| PaintContext.StampsAt | src/context/paint_context.c:119-127 | one square per point, the i-th stamped at the i-th point |
| PaintContext.EntryCommandsShape | src/context/paint_context.c:109-128 | an entry with fewer than two points draws nothing; otherwise its colour once, then one `size x size` square centred on each point, in point order |
| PaintContext.ReplayIgnoresToolType | src/context/paint_context.c:109-128 | the commands replayed for an entry do not depend on its tool type, so an entry of a type other than the brush or eraser is still stamped in its colour and size |
| PaintContext.ReplayAppend | src/context/paint_context.c:138-140 | replaying two runs of entries one after the other draws the same as replaying the whole run |
| PaintContext.CacheEquivalence | src/context/paint_context.c:80-88 | when the cache holds exactly the entries below the watermark, the baked entries followed by the unbaked ones replay exactly what a full replay of the undo stack draws |
| PaintContext.Commit | src/context/paint_context.c:75-89 | a commit empties the redo stack and pushes the stroke when its copy can be allocated; when 1000 or more entries are above the watermark and a cache exists, the entries from the watermark up are added to the cache in order and the watermark moves to the top; otherwise watermark and cache stay |
| PaintContext.FailedCommitLosesRedo | src/context/paint_context.c:75-78 | when the copy of a stroke cannot be allocated, the undo stack stays as it was and the redo stack is still emptied |
| PaintContext.FailedExchangeLosesEntry | src/context/paint_context.c:143-150 | when the copy of a top entry with points cannot be allocated, the source loses that entry and the destination is unchanged |
| PaintContext.ExchangeMoves | src/context/paint_context.c:143-151 | an exchange from an empty stack changes nothing; otherwise, when its copy can be allocated, the top entry of the source becomes the top of the destination |
| PaintContext.UndoThenRedo | src/context/paint_context.c:153-159 | when every copy can be allocated, an undo followed by a redo restores both stacks and the whole engine state |
| PaintContext.RedoThenUndo | src/context/paint_context.c:153-159 | when every copy can be allocated, a redo followed by an undo restores both stacks and the whole engine state |
| PaintContext.UndoTimesMoves | src/context/paint_context.c:153-155 | when every copy can be allocated, n undos move the top n undo entries onto the redo stack, where they lie in reverse order |
| PaintContext.RedoTimesRestores | src/context/paint_context.c:157-159 | when every copy can be allocated, n redos take back, in their original order, the n entries that lie reversed on top of the redo stack |
| PaintContext.UndoRedoInverse | src/context/paint_context.c:143-159 | when every copy can be allocated, undoing n strokes and then redoing n strokes restores both stacks in their original order |
| PaintContext.CommitInvalidatesRedo | src/context/paint_context.c:76-78 | after a commit the redo stack is empty, and a redo right after it changes nothing |
| PaintContext.UndoRedoKeepWatermark | src/context/paint_context.c:143-159 | undo and redo never move the watermark and never change what the cache holds |
| PaintContext.WatermarkCanExceedUndoStack | src/context/paint_context.c:143-151 | after 1000 strokes are baked, one undo (its copy allocated) leaves the watermark above the undo stack, the cache unchanged and larger than the undo stack, and the cache's last entry the stroke now on the redo stack |
| PaintContext.CommitKeepsCacheCoherent | src/context/paint_context.c:80-88 | a commit keeps the cache equal to the undo entries below the watermark |
| PaintContext.UnbakedBoundPreserved | src/context/paint_context.c:80-88 | with a cache, every end-of-stroke, undo and redo keeps the number of entries above the watermark, over both stacks, below 1000 |
| PaintContext.NoCacheNoBake | src/context/paint_context.c:81 | without a cache no commit ever moves the watermark or bakes anything |
| PaintContext.PaintContext.constructor | src/context/paint_context.c:21-51 | mouse at (-1, -1), watermark 0, both stacks empty, no live stroke, the tool given; a cache that could be created is cleared to the background colour and the target is reset to the window |
| PaintContext.PaintContext.StartStroke | src/context/paint_context.c:53-56 | a fresh live stroke with no points and a copy of the current tool, or none when it cannot be allocated |
| PaintContext.PaintContext.AddPointToCurrentStroke | src/context/paint_context.c:58-70 | no effect without a live stroke; a failed growth changes nothing; otherwise the point is appended after the kept points and the capacity follows the ladder |
| PaintContext.PaintContext.EndStroke | src/context/paint_context.c:72-94 | the engine state moves as EndStrokeState says (a stroke with points is committed, an empty one or none changes nothing), the live stroke is cleared, and the renderer receives exactly the bake when one happens |
| PaintContext.PaintContext.CommitEntry | src/context/paint_context.c:75-89 | the stack operations and the bake of end_stroke for a stroke with points follow Commit |
| PaintContext.PaintContext.PushStroke | src/context/paint_context.c:76-78 | the stroke is pushed onto the undo stack as push_history does and the redo stack is left empty, with the watermark and the cache unchanged |
| PaintContext.PaintContext.Bake | src/context/paint_context.c:80-88 | the entries from the watermark to the top are replayed onto the cache in index order, added to it, and the watermark becomes the undo count |
| PaintContext.PaintContext.ReplayEntries | src/context/paint_context.c:83-85 | the renderer receives exactly the replay of the buffer's entries from `lo` up to `hi`, in index order |
| PaintContext.PaintContext.UpdateCoordinates | src/context/paint_context.c:96-101 | the mouse position becomes (x, y), nothing else changes |
| PaintContext.PaintContext.UpdateTool | src/context/paint_context.c:103-107 | the current tool becomes the one given, nothing else changes |
| PaintContext.PaintContext.ApplyHistoryEntry | src/context/paint_context.c:109-128 | the renderer receives exactly the entry's replay commands |
| PaintContext.PaintContext.RedrawCanvas | src/context/paint_context.c:130-141 | the renderer receives a white clear of the window followed by the replay of every undo entry from index 0, whatever the watermark |
| PaintContext.PaintContext.ExchangeHistory | src/context/paint_context.c:143-151 | false and no change for an empty source; otherwise true, the source's top entry popped and pushed onto the destination when its copy can be allocated, and a full redraw; the source keeps its capacity and the destination's grows as push_history grows it |
| PaintContext.PaintContext.Undo | src/context/paint_context.c:153-155 | the engine state moves as UndoState says, the result tells whether there was anything to undo, and a successful undo redraws the window; the live stroke, the tool and the mouse are unchanged, the undo buffer keeps its capacity and the redo buffer grows as push_history grows it |
| PaintContext.PaintContext.Redo | src/context/paint_context.c:157-159 | the engine state moves as RedoState says, the result tells whether there was anything to redo, and a successful redo redraws the window; the live stroke, the tool and the mouse are unchanged, the redo buffer keeps its capacity and the undo buffer grows as push_history grows it |
| Sidebar.InSidebarBounds | src/sidebar.c:4-6 | a point is in the sidebar exactly when x < 80, whatever y is |
| Sidebar.ButtonAt | src/sidebar.c:26-36 | the brush is hit exactly on 10 <= x <= 70, 10 <= y <= 70 and the eraser exactly on 10 <= x <= 70, 80 <= y <= 140; nothing else is hit |
| Sidebar.ClickedTool | src/sidebar.c:25-37 | a hit button selects its type with the type's colour and the old size; a click elsewhere leaves the tool |
| Sidebar.ClickSelects | src/sidebar.c:29-34 | in the button column a click gives a black brush or a white eraser of the old size, and between, above or below the buttons it changes nothing |
| Sidebar.ClickOutsideButtons | src/sidebar.c:26-29 | a click left or right of the button column changes nothing, whatever its height; this covers every click the x > 80 guard turns away |
| Sidebar.HitAreaAgainstDrawnButtons | src/sidebar.c:13-14 | every pixel of a drawn button selects its tool, and the hit area is the drawn button plus one column and one row: (70, 70) selects the brush without being drawn |
| Sidebar.ButtonsInsideSidebar | src/sidebar.c:26-27 | every button hit is inside the sidebar, and the click at x = 80, which passes the guard but is not in the sidebar, selects nothing |
| Sidebar.HandleSidebarClick | src/sidebar.c:25-37 | the current tool becomes ClickedTool of the old tool at the click, and nothing else changes |
| TargetPath.Snprintf | src/main.c:23 | the buffer holds the text when shorter than 512 characters, otherwise its first 511 characters |
| TargetPath.TempDir | src/main.c:29-31 | MOBPAINT_TMPDIR when set (even empty), else TMPDIR when set, else "/tmp/" |
| TargetPath.JoinTempFile | src/main.c:33-38 | the path is the directory, exactly one '/' (added unless the directory ends with one, so the empty directory gives "/mobpaint_temp.dat"), then "mobpaint_temp.dat" |
| TargetPath.SelectTargetPath | src/main.c:22-38 | the argument wins whenever there is one, then a non-empty configured path, then the temporary file; the result is the chosen text cut to at most 511 characters |
| TargetPath.DefaultTargets | src/main.c:29-38 | with nothing set the target is "/tmp/mobpaint_temp.dat"; an empty MOBPAINT_TMPDIR gives "/mobpaint_temp.dat" |
| TargetPath.ShortTempDirKeepsFileName | src/main.c:33-38 | a temporary directory short enough keeps the whole "/mobpaint_temp.dat" at the end of the path |

## Left out

- src/app.c (the SDL event loop, text preview and fonts) is not part of this model. It refers to tool types and functions that the headers do not declare, and clamps the tool size as UI glue.
- src/context/config.c, the logging code and src/assets.c are not part of this model; they are file I/O, JSON parsing, clocks, a log-rotation thread and texture loading.
- The thick-line, circle, flood-fill and text algorithms do not appear in the code of this core and are not modelled.
- draw_left_sidebar is rendering only. Its button rectangles appear only as `BrushButton` and `EraserButton`, to compare with the hit areas.
- SDL itself is not modelled. The renderer is a log of commands, pixels are not modelled, and the bitmap cache is the ghost sequence of entries baked into it. Texture creation is the `cacheCreated` parameter.
- PaintContext.PaintContext.constructor: assumes both stacks are allocated and the renderer exists. init_paint_context tests each stack for NULL and exchange_history tests both again, but end_stroke and redraw_canvas dereference them unchecked, and the application exits before creating a context without a renderer.
- History.History.EnsureCapacity: assumes `realloc` succeeds. ensure_history_capacity and ensure_entry_capacity do not check the result.
- History.LiveEntry.EnsureCapacity: assumes `realloc` succeeds, for the same reason. So does History.LiveEntry.AddPointToEntry, which uses it.
- History.History.Free: the loop that frees each entry's point buffer is not modelled, since the model has no manual memory; free_paint_context is left out for the same reason.
- PaintContext.PaintContext.ExchangeHistory: does not model the NULL tests on the two stacks (they are always allocated here) or the leak of the popped entry's point buffer.
- PaintContext.PaintContext.StartStroke: the live stroke it replaces is dropped rather than leaked.
- Counts, capacities, coordinates and tool sizes are unbounded integers. 32-bit overflow of `int` (for example of `count++` or `capacity * 2`) is not modelled.
- TargetPath.SelectTargetPath: strings are sequences of characters. A NUL inside argv, the configured path or an environment variable, which would end the C string early, is not modelled.
- TargetPath.Snprintf: one model character stands for one C `char` (one byte). Text in a multi-byte encoding such as UTF-8 is counted differently: 300 copies of "é" are 600 bytes, of which C keeps 511 (255 whole characters and half of one), while the model keeps all 300 characters.
- The header history.h declares is_history_empty as returning `int` while history.c returns `bool`; the model uses `bool`.
- Tools.UseTool: returns the commands use_tool issues instead of calling the renderer.
- NULL tests: the tests of the context in every entry point of paint_context.c (src/context/paint_context.c:22, 54, 59, 73, 97, 104, 131, 154, 158), of the history in `free_history` (src/context/history.c:15), of the entry and the renderer in `apply_history_entry` (src/context/paint_context.c:110) and of the renderer in `redraw_canvas` (src/context/paint_context.c:131) have no counterpart, because a method always has its object and its arguments, and the model has one renderer that always exists.
