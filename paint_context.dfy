/** paint_context.c: the stroke being drawn, its commit onto the undo stack,
    the promotion of committed strokes into the bitmap cache, replay of the
    undo stack onto the window, and undo/redo.

    The first half states, on values, what each operation does to the two
    stacks, the watermark `committed_stroke_count` and the entries baked into
    the cache, and what the renderer receives; the lemmas there are the
    properties the engine has. The class PaintContext below is the C struct,
    whose methods are proved to follow those functions. */
module PaintContext {
  import opened Common
  import opened Render
  import opened Tools
  import opened History

  /** CACHE_THRESHOLD: how many unbaked entries trigger a bake. */
  const CacheThreshold: nat := 1000

  /** The state the engine keeps besides the renderer: the undo and redo
      stacks (bottom first), the watermark, and the entries baked into the
      bitmap cache, in the order they were baked. */
  datatype EngineState = EngineState(
    undo: seq<HistoryEntry>, redo: seq<HistoryEntry>, committed: nat, baked: seq<HistoryEntry>)

  // ---------------------------------------------------------------------
  // What the renderer receives.

  /** The squares stamped for the points `ps`, one per point, in order. */
  function Stamps(ps: seq<Point>, size: int): seq<DrawCmd>
    decreases |ps|
  {
    if ps == [] then []
    else Stamps(ps[..|ps| - 1], size) + [Stamp(ps[|ps| - 1].x, ps[|ps| - 1].y, size)]
  }

  /** apply_history_entry: nothing for an entry with fewer than two points;
      otherwise the entry's colour and then its squares. */
  function EntryCommands(e: HistoryEntry): seq<DrawCmd>
  {
    if |e.points| < 2 then [] else [SetDrawColor(e.tool.color)] + Stamps(e.points, e.tool.size)
  }

  /** The entries `es` replayed from the first to the last. */
  function Replay(es: seq<HistoryEntry>): seq<DrawCmd>
    decreases |es|
  {
    if es == [] then [] else Replay(es[..|es| - 1]) + EntryCommands(es[|es| - 1])
  }

  /** redraw_canvas: the window is cleared to white and then every entry of
      the undo stack is replayed on it from index 0; neither the cache nor
      the watermark takes part. */
  function RedrawCommands(undo: seq<HistoryEntry>): seq<DrawCmd>
  {
    [SetTarget(Screen), SetDrawColor(White), RenderClear] + Replay(undo)
  }

  /** The bake of end_stroke: the entries `es` replayed onto the cache. */
  function BakeCommands(es: seq<HistoryEntry>): seq<DrawCmd>
  {
    [SetTarget(Cache)] + Replay(es) + [SetTarget(Screen)]
  }

  /** One square per point, the i-th at the i-th point. */
  lemma {:induction false} StampsAt(ps: seq<Point>, size: int, i: int)
    requires 0 <= i < |ps|
    ensures |Stamps(ps, size)| == |ps|
    ensures Stamps(ps, size)[i] == Stamp(ps[i].x, ps[i].y, size)
    decreases |ps|
  {
    var init := ps[..|ps| - 1];
    if i < |init| {
      StampsAt(init, size, i);
      assert init[i] == ps[i];
    } else if init != [] {
      StampsAt(init, size, 0);
    }
  }

  /** What apply_history_entry draws: for an entry with two points or more,
      the entry's colour once and then one `size x size` square per point,
      centred on it, in point order; for fewer than two points, nothing. */
  lemma EntryCommandsShape(e: HistoryEntry)
    ensures |e.points| < 2 ==> EntryCommands(e) == []
    ensures |e.points| >= 2 ==>
      |EntryCommands(e)| == |e.points| + 1 &&
      EntryCommands(e)[0] == SetDrawColor(e.tool.color) &&
      forall i :: 0 <= i < |e.points| ==>
        EntryCommands(e)[i + 1] == Stamp(e.points[i].x, e.points[i].y, e.tool.size)
  {
    if |e.points| >= 2 {
      StampsAt(e.points, e.tool.size, 0);
      forall i | 0 <= i < |e.points|
        ensures EntryCommands(e)[i + 1] == Stamp(e.points[i].x, e.points[i].y, e.tool.size)
      {
        StampsAt(e.points, e.tool.size, i);
      }
    }
  }

  /** Replaying two runs of entries one after the other is replaying the
      whole run. */
  lemma {:induction false} ReplayAppend(a: seq<HistoryEntry>, b: seq<HistoryEntry>)
    ensures Replay(a + b) == Replay(a) + Replay(b)
    decreases |b|
  {
    if b != [] {
      var b' := b[..|b| - 1];
      assert (a + b)[..|a + b| - 1] == a + b';
      assert (a + b)[|a + b| - 1] == b[|b| - 1];
      ReplayAppend(a, b');
    } else {
      assert a + b == a;
    }
  }

  /** Replay never looks at the tool type: an entry of any type, known to
      use_tool or not, is stamped in its colour and size. */
  lemma ReplayIgnoresToolType(e: HistoryEntry, kind: ToolType)
    ensures EntryCommands(e.(tool := e.tool.(kind := kind))) == EntryCommands(e)
  {
  }

  /** Replaying one more entry of a run, after what was already drawn. */
  lemma ReplayStep(log: seq<DrawCmd>, u: seq<HistoryEntry>, lo: int, i: int)
    requires 0 <= lo <= i < |u|
    ensures log + Replay(u[lo..i + 1]) == (log + Replay(u[lo..i])) + EntryCommands(u[i])
  {
    SliceSnoc(u, lo, i);
    AppendAssoc(log, Replay(u[lo..i]), EntryCommands(u[i]));
  }

  /** The cache agrees with the undo stack: what is baked is exactly the
      entries below the watermark. */
  ghost predicate CacheCoherent(s: EngineState)
  {
    s.committed <= |s.undo| && s.baked == s.undo[..s.committed]
  }

  /** Cache-promotion equivalence: when the cache agrees with the undo stack,
      what it holds followed by the unbaked entries replays exactly what a
      full replay of the undo stack draws. */
  lemma CacheEquivalence(s: EngineState)
    requires CacheCoherent(s)
    ensures Replay(s.baked) + Replay(s.undo[s.committed..]) == Replay(s.undo)
  {
    var below, above := s.undo[..s.committed], s.undo[s.committed..];
    assert below + above == s.undo;
    ReplayAppend(below, above);
    assert s.baked == below;
  }

  // ---------------------------------------------------------------------
  // What the operations do to the engine state.

  /** Whether end_stroke bakes, after pushing onto `undo`: at least
      CACHE_THRESHOLD entries above the watermark, and a cache to bake into. */
  predicate BakeDue(undo: seq<HistoryEntry>, committed: nat, hasCache: bool)
  {
    |undo| - committed >= CacheThreshold && hasCache
  }

  /** end_stroke for a live stroke `e` with points: `e` is pushed onto the
      undo stack, the redo stack is emptied, and when a bake is due the
      entries from the watermark up are baked, in index order, and the
      watermark moves to the top of the undo stack. */
  function Commit(s: EngineState, e: HistoryEntry, mallocSucceeds: bool, hasCache: bool): (r: EngineState)
    requires |e.points| > 0
    ensures r.redo == []
    ensures r.undo == if mallocSucceeds then s.undo + [e] else s.undo
    ensures BakeDue(r.undo, s.committed, hasCache) ==>
      r.committed == |r.undo| && r.baked == s.baked + r.undo[s.committed..]
    ensures !BakeDue(r.undo, s.committed, hasCache) ==> r.committed == s.committed && r.baked == s.baked
  {
    var undo := Pushed(s.undo, e, mallocSucceeds);
    if |undo| - s.committed >= CacheThreshold && hasCache then
      EngineState(undo, [], |undo|, s.baked + undo[s.committed..])
    else
      EngineState(undo, [], s.committed, s.baked)
  }

  /** end_stroke: no live stroke, or one without points, leaves the stacks
      as they are; otherwise the stroke is committed. */
  function EndStrokeState(s: EngineState, stroke: Option<HistoryEntry>, mallocSucceeds: bool, hasCache: bool): EngineState
  {
    match stroke
    case None => s
    case Some(e) => if |e.points| > 0 then Commit(s, e, mallocSucceeds, hasCache) else s
  }

  /** exchange_history on the two stacks: when `from` has an entry, its top
      moves to the top of `to` (pushed as push_history does). */
  function Exchange(from: seq<HistoryEntry>, to: seq<HistoryEntry>, mallocSucceeds: bool)
    : (seq<HistoryEntry>, seq<HistoryEntry>)
  {
    if from == [] then (from, to)
    else
      var (e, rest) := Popped(from);
      (rest, Pushed(to, e, mallocSucceeds))
  }

  /** paint_context_undo: an exchange from the undo stack to the redo stack.
      The watermark and the cache are left alone. */
  function UndoState(s: EngineState, mallocSucceeds: bool): EngineState
  {
    var (undo, redo) := Exchange(s.undo, s.redo, mallocSucceeds);
    s.(undo := undo, redo := redo)
  }

  /** paint_context_redo: an exchange from the redo stack to the undo stack. */
  function RedoState(s: EngineState, mallocSucceeds: bool): EngineState
  {
    var (redo, undo) := Exchange(s.redo, s.undo, mallocSucceeds);
    s.(undo := undo, redo := redo)
  }

  /** An exchange from an empty stack changes nothing; otherwise one entry
      leaves the top of `from` and the same entry is the new top of `to`. */
  lemma ExchangeMoves(from: seq<HistoryEntry>, to: seq<HistoryEntry>)
    ensures from == [] ==> Exchange(from, to, true) == (from, to)
    ensures from != [] ==>
      Exchange(from, to, true) == (from[..|from| - 1], to + [from[|from| - 1]])
  {
  }

  /** Undo then redo puts both stacks back as they were. */
  lemma UndoThenRedo(s: EngineState)
    requires s.undo != []
    ensures RedoState(UndoState(s, true), true) == s
  {
    assert s.undo[..|s.undo| - 1] + [s.undo[|s.undo| - 1]] == s.undo;
  }

  /** Redo then undo puts both stacks back as they were. */
  lemma RedoThenUndo(s: EngineState)
    requires s.redo != []
    ensures UndoState(RedoState(s, true), true) == s
  {
    assert s.redo[..|s.redo| - 1] + [s.redo[|s.redo| - 1]] == s.redo;
  }

  /** `n` undos in a row, every push succeeding. */
  function UndoTimes(s: EngineState, n: nat): EngineState
    decreases n
  {
    if n == 0 then s else UndoState(UndoTimes(s, n - 1), true)
  }

  /** `n` redos in a row, every push succeeding. */
  function RedoTimes(s: EngineState, n: nat): EngineState
    decreases n
  {
    if n == 0 then s else RedoState(RedoTimes(s, n - 1), true)
  }

  function Reverse(s: seq<HistoryEntry>): (r: seq<HistoryEntry>)
    ensures |r| == |s|
    decreases |s|
  {
    if s == [] then [] else [s[|s| - 1]] + Reverse(s[..|s| - 1])
  }

  /** `n` undos move the top `n` entries of the undo stack onto the redo
      stack, the topmost first, so that they lie there reversed. */
  lemma {:induction false} UndoTimesMoves(s: EngineState, n: nat)
    requires n <= |s.undo|
    ensures UndoTimes(s, n) ==
      s.(undo := s.undo[..|s.undo| - n], redo := s.redo + Reverse(s.undo[|s.undo| - n..]))
    decreases n
  {
    if n > 0 {
      UndoTimesMoves(s, n - 1);
      var k := |s.undo| - n;
      var moved := s.undo[k + 1..];
      assert s.undo[..k + 1][..k] == s.undo[..k];
      assert s.undo[k..] == [s.undo[k]] + moved;
      assert Reverse(s.undo[k..]) == Reverse(moved) + [s.undo[k]] by {
        ReverseCons(s.undo[k], moved);
      }
    }
  }

  /** Reversing `[x] + s` puts `x` last. */
  lemma {:induction false} ReverseCons(x: HistoryEntry, s: seq<HistoryEntry>)
    ensures Reverse([x] + s) == Reverse(s) + [x]
    decreases |s|
  {
    if s != [] {
      var init := s[..|s| - 1];
      assert ([x] + s)[..|[x] + s| - 1] == [x] + init;
      ReverseCons(x, init);
    }
  }

  /** `n` redos take back the `n` entries that `n` undos left reversed on
      top of the redo stack. */
  lemma {:induction false} RedoTimesRestores(s: EngineState, w: seq<HistoryEntry>)
    requires |s.redo| >= |w| && s.redo[|s.redo| - |w|..] == Reverse(w)
    ensures RedoTimes(s, |w|) ==
      s.(undo := s.undo + w, redo := s.redo[..|s.redo| - |w|])
    decreases |w|
  {
    if w != [] {
      var n := |w|;
      var k := |s.redo| - n;
      var last := w[n - 1];
      var init := w[..n - 1];
      assert Reverse(w) == [last] + Reverse(init);
      assert s.redo[k + 1..] == Reverse(init);
      RedoTimesRestores(s, init);
      assert s.redo[..k + 1][..k] == s.redo[..k];
      assert s.redo[..k + 1][k] == last;
      assert s.undo + init + [last] == s.undo + w;
    }
  }

  /** Undo/redo inverse law: undoing `n` committed strokes and redoing them
      again restores both stacks, in their original order. */
  lemma UndoRedoInverse(s: EngineState, n: nat)
    requires n <= |s.undo|
    ensures RedoTimes(UndoTimes(s, n), n) == s
  {
    var k := |s.undo| - n;
    var w := s.undo[k..];
    UndoTimesMoves(s, n);
    var t := UndoTimes(s, n);
    assert t.redo[|t.redo| - |w|..] == Reverse(w);
    RedoTimesRestores(t, w);
    assert s.undo[..k] + w == s.undo;
    assert t.redo[..|t.redo| - |w|] == s.redo;
  }

  /** Redo invalidation: after a commit the redo stack is empty, so a redo
      right after it changes nothing. */
  lemma CommitInvalidatesRedo(s: EngineState, e: HistoryEntry, mallocSucceeds: bool, hasCache: bool, redoMalloc: bool)
    requires |e.points| > 0
    ensures Commit(s, e, mallocSucceeds, hasCache).redo == []
    ensures RedoState(Commit(s, e, mallocSucceeds, hasCache), redoMalloc) == Commit(s, e, mallocSucceeds, hasCache)
  {
  }

  /** A commit whose copy cannot be allocated pushes nothing but still
      empties the redo stack, so the stroke and the redo history are both
      gone. */
  lemma FailedCommitLosesRedo(s: EngineState, e: HistoryEntry, hasCache: bool)
    requires |e.points| > 0
    ensures Commit(s, e, false, hasCache).undo == s.undo
    ensures Commit(s, e, false, hasCache).redo == []
  {
  }

  /** An exchange whose copy cannot be allocated still pops the source, so
      an entry with points is lost from both stacks. */
  lemma FailedExchangeLosesEntry(from: seq<HistoryEntry>, to: seq<HistoryEntry>)
    requires from != [] && |from[|from| - 1].points| > 0
    ensures Exchange(from, to, false) == (from[..|from| - 1], to)
  {
  }

  /** Undo and redo never move the watermark or touch the cache. */
  lemma UndoRedoKeepWatermark(s: EngineState, mallocSucceeds: bool)
    ensures UndoState(s, mallocSucceeds).committed == s.committed
    ensures UndoState(s, mallocSucceeds).baked == s.baked
    ensures RedoState(s, mallocSucceeds).committed == s.committed
    ensures RedoState(s, mallocSucceeds).baked == s.baked
  {
  }

  /** Because undo keeps the watermark, it can leave it above the undo
      stack: 1000 strokes committed with a cache are all baked, and one undo
      then leaves 999 entries under a watermark of 1000, with the undone
      stroke still in the cache. */
  lemma WatermarkCanExceedUndoStack(e: HistoryEntry)
    requires |e.points| > 0
    ensures var s := EngineState(seq(CacheThreshold, _ => e), [], CacheThreshold, seq(CacheThreshold, _ => e));
      CacheCoherent(s) &&
      UndoState(s, true).committed > |UndoState(s, true).undo| &&
      UndoState(s, true).baked == s.baked &&
      |UndoState(s, true).baked| > |UndoState(s, true).undo| &&
      UndoState(s, true).redo == [s.undo[|s.undo| - 1]] &&
      UndoState(s, true).baked[|s.baked| - 1] == UndoState(s, true).redo[0]
  {
  }

  /** A commit keeps the cache in agreement with the undo stack: a bake
      appends exactly the entries between the old watermark and the top. */
  lemma CommitKeepsCacheCoherent(s: EngineState, e: HistoryEntry, mallocSucceeds: bool, hasCache: bool)
    requires |e.points| > 0 && CacheCoherent(s)
    ensures CacheCoherent(Commit(s, e, mallocSucceeds, hasCache))
  {
    var r := Commit(s, e, mallocSucceeds, hasCache);
    assert r.undo[..s.committed] == s.undo[..s.committed];
    if BakeDue(r.undo, s.committed, hasCache) {
      assert r.undo[..s.committed] + r.undo[s.committed..] == r.undo;
    }
  }

  /** The bound the cache keeps: with a cache, the entries of both stacks
      above the watermark number fewer than CACHE_THRESHOLD, so at most
      that many entries are ever unbaked. */
  ghost predicate UnbakedBounded(s: EngineState)
  {
    |s.undo| + |s.redo| < s.committed + CacheThreshold
  }

  /** Every operation keeps that bound when there is a cache: a commit
      empties the redo stack and bakes when the bound would be reached, and
      undo and redo only move entries between the stacks (or lose one when
      its copy cannot be allocated). */
  lemma UnbakedBoundPreserved(s: EngineState, stroke: Option<HistoryEntry>, m: bool)
    requires UnbakedBounded(s)
    ensures UnbakedBounded(EndStrokeState(s, stroke, m, true))
    ensures UnbakedBounded(UndoState(s, m))
    ensures UnbakedBounded(RedoState(s, m))
  {
  }

  /** Without a cache nothing is ever baked: a commit leaves the watermark
      and the baked entries as they were. */
  lemma NoCacheNoBake(s: EngineState, stroke: Option<HistoryEntry>, m: bool)
    ensures EndStrokeState(s, stroke, m, false).committed == s.committed
    ensures EndStrokeState(s, stroke, m, false).baked == s.baked
  {
  }

  // ---------------------------------------------------------------------
  // The C struct.

  /** PaintContext. The renderer is present (app.c gives up before creating
      a context without one) and is modelled as the log `commands` of the
      calls it has received; `hasCache` says whether SDL_CreateTexture gave
      a bitmap cache; `baked` is what that cache holds. */
  class PaintContext {
    var currentTool: Tool
    var mouseX: int
    var mouseY: int
    var undoStack: History
    var redoStack: History
    var currentStroke: LiveEntry?
    var committedStrokeCount: nat
    const hasCache: bool
    var commands: seq<DrawCmd>
    ghost var baked: seq<HistoryEntry>
    ghost var Repr: set<object>

    /** The stacks and the live stroke are distinct objects, each valid.
        It reads only the fields that hold them, so updating the renderer
        log, the watermark or the cache keeps it. */
    ghost predicate Valid()
      reads this`Repr, this`undoStack, this`redoStack, this`currentStroke, Repr - {this}
    {
      this in Repr && undoStack in Repr && redoStack in Repr &&
      undoStack.entries in Repr && redoStack.entries in Repr &&
      undoStack != redoStack && undoStack.entries != redoStack.entries &&
      undoStack.Valid() && redoStack.Valid() &&
      (currentStroke != null ==>
        currentStroke in Repr && currentStroke.points in Repr && currentStroke.Valid())
    }

    /** The engine state: the two stacks, the watermark and the cache. */
    ghost function State(): EngineState
      reads this, undoStack, redoStack, undoStack.entries, redoStack.entries
      requires undoStack.Valid() && redoStack.Valid()
    {
      EngineState(undoStack.Contents(), redoStack.Contents(), committedStrokeCount, baked)
    }

    /** `*current_stroke` when there is one. */
    ghost function Stroke(): Option<HistoryEntry>
      reads this, currentStroke, if currentStroke == null then {} else {currentStroke.points}
      requires currentStroke != null ==> currentStroke.Valid()
    {
      if currentStroke == null then None else Some(currentStroke.Value())
    }

    /** init_paint_context with `tool` as the current tool, once both stacks
        were allocated: mouse at (-1, -1), watermark 0, both stacks empty,
        no live stroke; when the cache could be created it is cleared to the
        configured background colour. */
    constructor (tool: Tool, background: Color, cacheCreated: bool)
      ensures Valid() && fresh(Repr)
      ensures currentTool == tool && mouseX == -1 && mouseY == -1
      ensures committedStrokeCount == 0 && currentStroke == null
      ensures undoStack.Contents() == [] && redoStack.Contents() == []
      ensures hasCache == cacheCreated && baked == []
      ensures commands ==
        if cacheCreated then [SetTarget(Cache), SetDrawColor(background), RenderClear, SetTarget(Screen)]
        else []
    {
      currentTool := tool;
      mouseX, mouseY := -1, -1;
      committedStrokeCount := 0;
      var undo := new History();
      var redo := new History();
      undoStack, redoStack := undo, redo;
      currentStroke := null;
      hasCache := cacheCreated;
      baked := [];
      commands := [];
      if cacheCreated {
        commands := [SetTarget(Cache), SetDrawColor(background), RenderClear, SetTarget(Screen)];
      }
      Repr := {this, undo, redo, undo.entries, redo.entries};
    }

    /** start_stroke: a new live stroke with no points and a copy of the
        current tool, or none when create_empty_entry cannot allocate it.
        A stroke already live is dropped. */
    method StartStroke(mallocSucceeds: bool)
      requires Valid()
      modifies this`currentStroke, this`Repr
      ensures Valid() && fresh(Repr - old(Repr))
      ensures mallocSucceeds ==>
        (currentStroke != null && fresh(currentStroke) && Stroke() == Some(HistoryEntry([], 0, currentTool)))
      ensures !mallocSucceeds ==> currentStroke == null
    {
      if !mallocSucceeds {
        currentStroke := null;
        return;
      }
      var e := new LiveEntry(currentTool);
      currentStroke := e;
      Repr := Repr + {e, e.points};
    }

    /** add_point_to_current_stroke: with no live stroke, nothing happens;
        otherwise (x, y) is appended after the stroke's points, growing the
        buffer 0 -> 8 -> 16 ... when it is full. A failed reallocation
        (`reallocSucceeds` false when growth is needed) changes nothing. */
    method AddPointToCurrentStroke(x: int, y: int, reallocSucceeds: bool)
      requires Valid()
      modifies this`Repr, if currentStroke == null then {} else {currentStroke, currentStroke.points}
      ensures Valid() && fresh(Repr - old(Repr)) && currentStroke == old(currentStroke)
      ensures currentStroke != null ==>
        var growthFails := old(currentStroke.count >= currentStroke.capacity) && !reallocSucceeds;
        Stroke() == Some(if growthFails then old(currentStroke.Value())
                         else AppendPoint(old(currentStroke.Value()), Point(x, y)))
    {
      var s := currentStroke;
      if s == null {
        return;
      }
      if s.count >= s.capacity {
        var newCapacity := if s.capacity != 0 then s.capacity * 2 else 8;
        if !reallocSucceeds {
          return;
        }
        GrownCapacityOnLadder(s.count, s.capacity);
        var newPoints := Realloc(s.points, newCapacity, Point(0, 0));
        s.points := newPoints;
        s.capacity := newCapacity;
        Repr := Repr + {newPoints};
      }
      s.points[s.count] := Point(x, y);
      s.count := s.count + 1;
      assert s.points[..s.count] == old(s.points[..s.count]) + [Point(x, y)];
    }

    /** end_stroke: with no live stroke it does nothing. A live stroke with
        points is pushed onto the undo stack, the redo stack is emptied, and
        when CACHE_THRESHOLD entries are above the watermark and there is a
        cache, they are replayed onto the cache in index order and the
        watermark moves to the top. The live stroke is then released, with
        or without points. */
    method EndStroke(mallocSucceeds: bool)
      requires Valid()
      modifies Repr
      ensures Valid() && fresh(Repr - old(Repr))
      ensures currentStroke == null
      ensures currentTool == old(currentTool) && mouseX == old(mouseX) && mouseY == old(mouseY)
      ensures undoStack == old(undoStack) && redoStack == old(redoStack)
      ensures State() == EndStrokeState(old(State()), old(Stroke()), mallocSucceeds, hasCache)
      ensures commands == old(commands) +
        if committedStrokeCount != old(committedStrokeCount)
        then BakeCommands(undoStack.Contents()[old(committedStrokeCount)..]) else []
    {
      var s := currentStroke;
      if s == null {
        return;
      }
      if s.count > 0 {
        CommitEntry(s.Value(), mallocSucceeds);
      }
      currentStroke := null;
    }

    /** The body of end_stroke for a stroke `e` with points: push it onto
        the undo stack, empty the redo stack, and bake when due. */
    method CommitEntry(e: HistoryEntry, mallocSucceeds: bool)
      requires Valid() && |e.points| > 0 && WellFormed(e)
      modifies this`commands, this`baked, this`committedStrokeCount, this`Repr,
        undoStack, undoStack.entries, redoStack
      ensures Valid() && fresh(Repr - old(Repr))
      ensures State() == Commit(old(State()), e, mallocSucceeds, hasCache)
      ensures commands == old(commands) +
        if committedStrokeCount != old(committedStrokeCount)
        then BakeCommands(undoStack.Contents()[old(committedStrokeCount)..]) else []
    {
      ghost var s0 := State();
      PushStroke(e, mallocSucceeds);
      ghost var pushed := Pushed(s0.undo, e, mallocSucceeds);
      var uncommitted := undoStack.count - committedStrokeCount;
      if uncommitted >= CacheThreshold && hasCache {
        Bake();
        assert State() == EngineState(pushed, [], |pushed|, s0.baked + pushed[s0.committed..]);
      }
    }

    /** The stack half of end_stroke: `e` is pushed onto the undo stack and
        the redo stack is freed and set up empty again. */
    method PushStroke(e: HistoryEntry, mallocSucceeds: bool)
      requires Valid() && WellFormed(e)
      modifies this`Repr, undoStack, undoStack.entries, redoStack
      ensures Valid() && fresh(Repr - old(Repr))
      ensures State() == old(State()).(undo := Pushed(old(undoStack.Contents()), e, mallocSucceeds), redo := [])
    {
      undoStack.Push(e, mallocSucceeds);
      redoStack.Free();
      redoStack.Init();
      Repr := Repr + {undoStack.entries, redoStack.entries};
    }

    /** The bake of end_stroke: the entries from the watermark to the top of
        the undo stack are replayed onto the cache in index order, and the
        watermark moves to the top. */
    method Bake()
      requires undoStack.Valid() && committedStrokeCount <= undoStack.count
      modifies this`commands, this`baked, this`committedStrokeCount
      ensures committedStrokeCount == undoStack.count
      ensures baked == old(baked) + undoStack.Contents()[old(committedStrokeCount)..]
      ensures commands == old(commands) + BakeCommands(undoStack.Contents()[old(committedStrokeCount)..])
    {
      ghost var unbaked := undoStack.Contents()[committedStrokeCount..];
      assert undoStack.Contents()[committedStrokeCount..undoStack.count] == unbaked;
      commands := commands + [SetTarget(Cache)];
      ReplayEntries(undoStack.entries, committedStrokeCount, undoStack.count);
      baked := baked + unbaked;
      committedStrokeCount := undoStack.count;
      commands := commands + [SetTarget(Screen)];
      AppendAssoc(old(commands), [SetTarget(Cache)], Replay(unbaked));
      AppendAssoc(old(commands), [SetTarget(Cache)] + Replay(unbaked), [SetTarget(Screen)]);
    }

    /** The loop that bake and redraw_canvas share: the entries of the undo
        buffer from index `lo` up to `hi` go to apply_history_entry in index
        order. */
    method ReplayEntries(entries: array<HistoryEntry>, lo: nat, hi: nat)
      requires lo <= hi <= entries.Length
      modifies this`commands
      ensures commands == old(commands) + Replay(entries[lo..hi])
    {
      ghost var es := entries[..];
      var i := lo;
      while i < hi
        invariant lo <= i <= hi
        invariant commands == old(commands) + Replay(es[lo..i])
      {
        ReplayStep(old(commands), es, lo, i);
        ApplyHistoryEntry(entries[i]);
        i := i + 1;
      }
      assert es[lo..hi] == entries[lo..hi];
    }

    /** update_coordinates. */
    method UpdateCoordinates(x: int, y: int)
      modifies this`mouseX, this`mouseY
      ensures mouseX == x && mouseY == y
    {
      mouseX, mouseY := x, y;
    }

    /** update_tool. */
    method UpdateTool(tool: Tool)
      modifies this`currentTool
      ensures currentTool == tool
    {
      currentTool := tool;
    }

    /** apply_history_entry: the entry's commands go to the renderer. */
    method ApplyHistoryEntry(e: HistoryEntry)
      modifies this`commands
      ensures commands == old(commands) + EntryCommands(e)
    {
      if |e.points| < 2 {
        return;
      }
      commands := commands + [SetDrawColor(e.tool.color)];
      ghost var log0 := commands;
      for i := 0 to |e.points|
        invariant commands == log0 + Stamps(e.points[..i], e.tool.size)
      {
        var p := e.points[i];
        commands := commands + [Stamp(p.x, p.y, e.tool.size)];
        assert e.points[..i + 1][..i] == e.points[..i];
      }
      assert e.points[..|e.points|] == e.points;
    }

    /** redraw_canvas: clear the window to white and replay the whole undo
        stack onto it. */
    method RedrawCanvas()
      requires Valid()
      modifies this`commands
      ensures commands == old(commands) + RedrawCommands(undoStack.Contents())
    {
      commands := commands + [SetTarget(Screen), SetDrawColor(White), RenderClear];
      ReplayEntries(undoStack.entries, 0, undoStack.count);
      assert undoStack.Contents()[0..undoStack.count] == undoStack.Contents();
      AppendAssoc(old(commands), [SetTarget(Screen), SetDrawColor(White), RenderClear],
        Replay(undoStack.Contents()));
    }

    /** exchange_history: false, and nothing changes, when `from` is empty;
        otherwise its top entry is popped and pushed onto `to`, the window
        is redrawn, and the result is true. */
    method ExchangeHistory(from: History, to: History, mallocSucceeds: bool) returns (ok: bool)
      requires Valid()
      requires (from == undoStack && to == redoStack) || (from == redoStack && to == undoStack)
      modifies this`commands, this`Repr, from, to, to.entries
      ensures Valid() && fresh(Repr - old(Repr))
      ensures ok == (old(from.Contents()) != [])
      ensures (from.Contents(), to.Contents()) ==
        Exchange(old(from.Contents()), old(to.Contents()), mallocSucceeds)
      ensures from.capacity == old(from.capacity)
      ensures to.capacity == if ok then GrownCapacity(old(to.count), old(to.capacity)) else old(to.capacity)
      ensures commands ==
        if ok then old(commands) + RedrawCommands(undoStack.Contents()) else old(commands)
    {
      if from.IsEmpty() {
        return false;
      }
      var e := from.Pop();
      to.Push(e, mallocSucceeds);
      Repr := Repr + {to.entries};
      RedrawCanvas();
      ok := true;
    }

    /** paint_context_undo: the top of the undo stack moves to the redo
        stack; the watermark stays where it was. */
    method Undo(mallocSucceeds: bool) returns (ok: bool)
      requires Valid()
      modifies this`commands, this`Repr, undoStack, redoStack, undoStack.entries, redoStack.entries
      ensures Valid() && fresh(Repr - old(Repr))
      ensures undoStack == old(undoStack) && redoStack == old(redoStack)
      ensures currentTool == old(currentTool) && currentStroke == old(currentStroke)
      ensures Stroke() == old(Stroke())
      ensures undoStack.capacity == old(undoStack.capacity)
      ensures redoStack.capacity ==
        if ok then GrownCapacity(old(redoStack.count), old(redoStack.capacity)) else old(redoStack.capacity)
      ensures mouseX == old(mouseX) && mouseY == old(mouseY)
      ensures ok == (old(undoStack.Contents()) != [])
      ensures State() == UndoState(old(State()), mallocSucceeds)
      ensures commands ==
        if ok then old(commands) + RedrawCommands(undoStack.Contents()) else old(commands)
    {
      ok := ExchangeHistory(undoStack, redoStack, mallocSucceeds);
    }

    /** paint_context_redo: the top of the redo stack moves back to the undo
        stack; the watermark stays where it was. */
    method Redo(mallocSucceeds: bool) returns (ok: bool)
      requires Valid()
      modifies this`commands, this`Repr, undoStack, redoStack, undoStack.entries, redoStack.entries
      ensures Valid() && fresh(Repr - old(Repr))
      ensures undoStack == old(undoStack) && redoStack == old(redoStack)
      ensures currentTool == old(currentTool) && currentStroke == old(currentStroke)
      ensures Stroke() == old(Stroke())
      ensures redoStack.capacity == old(redoStack.capacity)
      ensures undoStack.capacity ==
        if ok then GrownCapacity(old(undoStack.count), old(undoStack.capacity)) else old(undoStack.capacity)
      ensures mouseX == old(mouseX) && mouseY == old(mouseY)
      ensures ok == (old(redoStack.Contents()) != [])
      ensures State() == RedoState(old(State()), mallocSucceeds)
      ensures commands ==
        if ok then old(commands) + RedrawCommands(undoStack.Contents()) else old(commands)
    {
      ok := ExchangeHistory(redoStack, undoStack, mallocSucceeds);
    }
  }
}
