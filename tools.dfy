/** tools.c: the drawing tool (type, colour, size), the colour a type starts
    with, the shapes a tool stamps for a pointer sample, and its name.
    Tool is a plain value struct that C updates through a pointer; here each
    update is a function from the old Tool to the new one, and the struct
    that holds it (PaintContext.currentTool) is where the update happens. */
module Tools {
  import opened Render

  /** ToolType is a C enum, so a variable of that type can hold any int;
      tools.h names only these two values. */
  type ToolType = int

  const Brush: ToolType := 0
  const Eraser: ToolType := 1

  /** The types that use_tool and get_tool_name know. */
  predicate IsKnownType(kind: ToolType)
  {
    kind == Brush || kind == Eraser
  }

  datatype Tool = Tool(kind: ToolType, color: Color, size: int)

  /** The colour set_tool_type gives a type. */
  function DefaultColor(kind: ToolType): Color
  {
    if kind == Brush then Black
    else if kind == Eraser then White
    else Gray
  }

  /** init_tool: a black brush of size 4. It is the tool that selecting the
      brush type would give it, so it starts from the brush's own colour. */
  function InitTool(): (t: Tool)
    ensures t.kind == Brush && t.size == 4 && t.color.a == 255
    ensures t == SetToolType(t, Brush)
  {
    Tool(Brush, Black, 4)
  }

  /** set_tool_type: sets the type and resets the colour to that type's
      colour; the size stays. */
  function SetToolType(t: Tool, kind: ToolType): (r: Tool)
    ensures r.kind == kind && r.size == t.size && r.color.a == 255
  {
    t.(kind := kind, color := DefaultColor(kind))
  }

  /** Selecting a type: the type is the one asked for, the size is kept,
      and the colour is black for the brush, white for the eraser and grey
      for any other value of the enum. */
  lemma SetToolTypeResult(t: Tool, kind: ToolType)
    ensures SetToolType(t, kind).kind == kind
    ensures SetToolType(t, kind).size == t.size
    ensures kind == Brush ==> SetToolType(t, kind).color == Color(0, 0, 0, 255)
    ensures kind == Eraser ==> SetToolType(t, kind).color == Color(255, 255, 255, 255)
    ensures !IsKnownType(kind) ==> SetToolType(t, kind).color == Color(128, 128, 128, 255)
  {
  }

  /** Selecting the same type twice is selecting it once. */
  lemma SetToolTypeIdempotent(t: Tool, kind: ToolType)
    ensures SetToolType(SetToolType(t, kind), kind) == SetToolType(t, kind)
  {
  }

  /** The colour a selection leaves does not depend on the colour before it:
      two tools of the same size end up equal. */
  lemma SetToolTypeForgetsColor(t1: Tool, t2: Tool, kind: ToolType)
    requires t1.size == t2.size
    ensures SetToolType(t1, kind) == SetToolType(t2, kind)
  {
  }

  /** use_tool, modelled as the calls it issues to the renderer: it always sets the draw
      colour to the tool's colour; a brush or an eraser then stamps one
      `size x size` square centred on (x, y) and, when there is a previous
      sample (neither coordinate is -1), a one-pixel line from it to (x, y).
      Any other type draws nothing. */
  function UseTool(t: Tool, x: int, y: int, prevX: int, prevY: int): (r: seq<DrawCmd>)
    ensures 1 <= |r| <= 3 && r[0] == SetDrawColor(t.color)
    ensures |r| > 1 <==> IsKnownType(t.kind)
    ensures |r| > 1 ==> r[1] == Stamp(x, y, t.size)
    ensures |r| == 3 <==> IsKnownType(t.kind) && prevX != -1 && prevY != -1
    ensures |r| == 3 ==> r[2] == DrawLine(prevX, prevY, x, y)
  {
    var color := [SetDrawColor(t.color)];
    if t.kind == Brush || t.kind == Eraser then
      var square := [Stamp(x, y, t.size)];
      if prevX != -1 && prevY != -1 then color + square + [DrawLine(prevX, prevY, x, y)]
      else color + square
    else color
  }

  /** get_tool_name. */
  function GetToolName(t: Tool): (name: string)
    ensures name == "BRUSH" <==> t.kind == Brush
    ensures name == "ERASER" <==> t.kind == Eraser
    ensures name == "UNKNOWN" <==> !IsKnownType(t.kind)
  {
    if t.kind == Brush then "BRUSH"
    else if t.kind == Eraser then "ERASER"
    else "UNKNOWN"
  }
}
