/** history.c: the entry a drawing action records (its points and the tool
    it was drawn with) and the growable stack of entries that serves as the
    undo stack and as the redo stack. */
module History {
  import opened Common
  import opened Render
  import opened Tools

  datatype Point = Point(x: int, y: int)

  /** A HistoryEntry as a struct value: the points (C keeps them in a
      buffer of `capacity` elements of which the first `count` are used;
      `count` is |points| here), the capacity and the tool. */
  datatype HistoryEntry = HistoryEntry(points: seq<Point>, capacity: int, tool: Tool)

  /** `HistoryEntry empty = {0}`: no points, capacity 0, and an all-zero
      tool (type 0, which is the brush, transparent black, size 0). */
  const ZeroEntry: HistoryEntry := HistoryEntry([], 0, Tool(0, Color(0, 0, 0, 0), 0))

  /** The points fit in the buffer: memcpy in push_history relies on it. */
  predicate WellFormed(e: HistoryEntry)
  {
    |e.points| <= e.capacity
  }

  predicate AllWellFormed(s: seq<HistoryEntry>)
  {
    forall i :: 0 <= i < |s| ==> WellFormed(s[i])
  }

  /** What appending point `p` to an entry makes of it: the point goes after
      the others and the capacity grows as ensure_entry_capacity grows it. */
  function AppendPoint(e: HistoryEntry, p: Point): HistoryEntry
  {
    HistoryEntry(e.points + [p], GrownCapacity(|e.points|, e.capacity), e.tool)
  }

  /** Appending the points `ps` one by one. */
  function AppendPoints(e: HistoryEntry, ps: seq<Point>): HistoryEntry
    decreases |ps|
  {
    if ps == [] then e else AppendPoint(AppendPoints(e, ps[..|ps| - 1]), ps[|ps| - 1])
  }

  /** An entry that starts empty and receives the points `ps` holds exactly
      those points, in order, in a buffer whose capacity went 0, 8, 16, ...:
      the least 8 * 2^k that holds them. */
  lemma {:induction false} AppendPointsFromEmpty(t: Tool, ps: seq<Point>)
    ensures AppendPoints(HistoryEntry([], 0, t), ps) == HistoryEntry(ps, CapacityFor(|ps|), t)
    ensures WellFormed(AppendPoints(HistoryEntry([], 0, t), ps))
    decreases |ps|
  {
    CapacityForIsLeast(|ps|);
    if ps != [] {
      var init := ps[..|ps| - 1];
      AppendPointsFromEmpty(t, init);
      GrowthFollowsCapacityFor(|init|);
      assert init + [ps[|ps| - 1]] == ps;
    }
  }

  /** What push_history makes of a stack `s`: the entry goes on top, as a
      copy with the same tool, capacity and points, unless it has points and
      the allocation of their copy fails (`mallocSucceeds` false), in which
      case the stack stays as it was. */
  function Pushed(s: seq<HistoryEntry>, e: HistoryEntry, mallocSucceeds: bool): seq<HistoryEntry>
  {
    if |e.points| == 0 || mallocSucceeds then s + [e] else s
  }

  /** What pop_history returns and leaves: the top entry and the rest, or a
      zeroed entry and the empty stack when there is nothing to pop. */
  function Popped(s: seq<HistoryEntry>): (HistoryEntry, seq<HistoryEntry>)
  {
    if s == [] then (ZeroEntry, []) else (s[|s| - 1], s[..|s| - 1])
  }

  /** Push then pop gives back the entry pushed and the stack before it
      (last in, first out); an entry without points is pushed even when
      allocation fails, since nothing is allocated for it. */
  lemma PushPopLifo(s: seq<HistoryEntry>, e: HistoryEntry, mallocSucceeds: bool)
    requires mallocSucceeds || |e.points| == 0
    ensures Popped(Pushed(s, e, mallocSucceeds)) == (e, s)
  {
    assert (s + [e])[..|s|] == s;
  }

  /** A push whose copy cannot be allocated leaves the stack unchanged. */
  lemma PushFailureKeepsStack(s: seq<HistoryEntry>, e: HistoryEntry)
    requires |e.points| > 0
    ensures Pushed(s, e, false) == s
  {
  }

  /** A HistoryEntry reached through a pointer whose point buffer is grown
      in place: the stroke being drawn. */
  class LiveEntry {
    var points: array<Point>
    var count: nat
    var capacity: nat
    var tool: Tool

    ghost predicate Valid()
      reads this
    {
      count <= capacity && capacity == points.Length && IsGrowthCapacity(capacity)
    }

    /** `*entry`, the struct value: its used points, capacity and tool. */
    function Value(): (e: HistoryEntry)
      reads this, points
      requires Valid()
      ensures WellFormed(e) && |e.points| == count
    {
      HistoryEntry(points[..count], capacity, tool)
    }

    /** create_empty_entry (paint_context.c), once its malloc has succeeded:
        no points, no buffer, and the fields of `t` copied. */
    constructor (t: Tool)
      ensures Valid() && fresh(points)
      ensures Value() == HistoryEntry([], 0, t)
    {
      points := new Point[0];
      count := 0;
      capacity := 0;
      tool := t;
    }

    /** ensure_entry_capacity: when the buffer is full it is reallocated at
        the grown capacity, keeping the points. */
    method EnsureCapacity()
      requires Valid()
      modifies this
      ensures Valid() && count == old(count) && tool == old(tool)
      ensures capacity == GrownCapacity(old(count), old(capacity)) && count < capacity
      ensures points == old(points) || fresh(points)
      ensures points[..count] == old(points[..count])
    {
      GrownCapacityOnLadder(count, capacity);
      if count >= capacity {
        var newCapacity := if capacity != 0 then capacity * 2 else InitialCapacity;
        points := Realloc(points, newCapacity, Point(0, 0));
        capacity := newCapacity;
      }
    }

    /** add_point_to_entry: false for a null entry; otherwise (x, y) is
        appended after the existing points and the result is true. */
    static method AddPointToEntry(e: LiveEntry?, x: int, y: int) returns (ok: bool)
      requires e != null ==> e.Valid()
      modifies if e == null then {} else {e, e.points}
      ensures ok == (e != null)
      ensures e != null ==> e.Valid() && (e.points == old(e.points) || fresh(e.points))
      ensures e != null ==> e.Value() == AppendPoint(old(e.Value()), Point(x, y))
    {
      if e == null {
        return false;
      }
      e.EnsureCapacity();
      e.points[e.count] := Point(x, y);
      e.count := e.count + 1;
      ok := true;
    }
  }

  /** History: `entries` is a buffer of `capacity` entries of which the
      first `count` form the stack, bottom first. */
  class History {
    var entries: array<HistoryEntry>
    var count: nat
    var capacity: nat

    ghost predicate Valid()
      reads this, entries
    {
      count <= capacity && capacity == entries.Length && IsGrowthCapacity(capacity) &&
      AllWellFormed(entries[..count])
    }

    /** The stack, bottom first. */
    ghost function Contents(): (s: seq<HistoryEntry>)
      reads this, entries
      requires Valid()
      ensures |s| == count && AllWellFormed(s)
    {
      entries[..count]
    }

    /** A History obtained from malloc and set up by init_history. */
    constructor ()
      ensures Valid() && fresh(entries)
      ensures count == 0 && capacity == 0 && Contents() == []
    {
      entries := new HistoryEntry[0];
      count := 0;
      capacity := 0;
    }

    /** init_history: an empty stack with no buffer. */
    method Init()
      modifies this
      ensures Valid() && fresh(entries)
      ensures count == 0 && capacity == 0 && Contents() == []
    {
      entries := new HistoryEntry[0];
      count := 0;
      capacity := 0;
    }

    /** free_history: releases the buffers and leaves an empty stack with no
        buffer (the point buffers it frees are not modelled). */
    method Free()
      modifies this
      ensures Valid() && fresh(entries)
      ensures count == 0 && capacity == 0 && Contents() == []
    {
      entries := new HistoryEntry[0];
      count := 0;
      capacity := 0;
    }

    /** ensure_history_capacity: when the buffer is full it is reallocated
        at the grown capacity, keeping the entries. */
    method EnsureCapacity()
      requires Valid()
      modifies this
      ensures Valid() && count == old(count) && Contents() == old(Contents())
      ensures capacity == GrownCapacity(old(count), old(capacity)) && count < capacity
      ensures entries == old(entries) || fresh(entries)
    {
      GrownCapacityOnLadder(count, capacity);
      if count >= capacity {
        var newCapacity := if capacity != 0 then capacity * 2 else InitialCapacity;
        entries := Realloc(entries, newCapacity, ZeroEntry);
        capacity := newCapacity;
      }
    }

    /** push_history: a copy of `e` goes on top (same tool, count, capacity
        and points), when its copy can be allocated; the entries below are
        unchanged. The buffer grows first in any case. */
    method Push(e: HistoryEntry, mallocSucceeds: bool)
      requires Valid() && WellFormed(e)
      modifies this, entries
      ensures Valid() && (entries == old(entries) || fresh(entries))
      ensures Contents() == Pushed(old(Contents()), e, mallocSucceeds)
      ensures capacity == GrownCapacity(old(count), old(capacity))
    {
      EnsureCapacity();
      if |e.points| > 0 && !mallocSucceeds {
        return;
      }
      entries[count] := e;
      count := count + 1;
      assert entries[..count] == old(Contents()) + [e];
    }

    /** pop_history: the top entry, which leaves the stack; a zeroed entry
        when the stack is empty, which stays empty. The buffer is kept. */
    method Pop() returns (e: HistoryEntry)
      requires Valid()
      modifies this
      ensures Valid() && entries == old(entries) && capacity == old(capacity)
      ensures (e, Contents()) == Popped(old(Contents()))
      ensures WellFormed(e)
    {
      if count == 0 {
        return ZeroEntry;
      }
      count := count - 1;
      e := entries[count];
      assert entries[..count] == old(Contents())[..count];
    }

    /** is_history_empty. */
    function IsEmpty(): (b: bool)
      reads this, entries
      requires Valid()
      ensures b <==> Contents() == []
    {
      count == 0
    }
  }
}
