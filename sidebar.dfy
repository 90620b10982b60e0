/** sidebar.c: which part of the window is the sidebar, and which tool a
    click on one of its two buttons selects. */
module Sidebar {
  import opened Common
  import opened Render
  import opened Tools
  import opened PaintContext

  // The layout of sidebar.h.
  const SidebarWidth: int := 80
  const ToolBtnX: int := 10
  const ToolBtnYStart: int := 10
  const ToolBtnWidth: int := 60
  const ToolBtnHeight: int := 60
  const ToolBtnSpacing: int := 10

  /** in_sidebar_bounds: the sidebar is every point left of x = 80, at any
      height. */
  function InSidebarBounds(x: int, y: int): (inside: bool)
    ensures inside <==> x < 80
  {
    x < SidebarWidth
  }

  /** The button handle_sidebar_click reacts to at (x, y), if any: clicks
      right of the sidebar (x > 80; x = 80 itself gets past that test) are
      ignored, and each button is hit on the closed square from its corner
      to its corner plus 60, both edges included. */
  function ButtonAt(x: int, y: int): (hit: Option<ToolType>)
    ensures hit == Some(Brush) <==> 10 <= x <= 70 && 10 <= y <= 70
    ensures hit == Some(Eraser) <==> 10 <= x <= 70 && 80 <= y <= 140
    ensures hit.Some? ==> hit == Some(Brush) || hit == Some(Eraser)
  {
    if x > SidebarWidth then None
    else if x >= ToolBtnX && x <= ToolBtnX + ToolBtnWidth then
      if y >= ToolBtnYStart && y <= ToolBtnYStart + ToolBtnHeight then Some(Brush)
      else if y >= ToolBtnYStart + ToolBtnHeight + ToolBtnSpacing &&
              y <= ToolBtnYStart + 2 * ToolBtnHeight + ToolBtnSpacing then Some(Eraser)
      else None
    else None
  }

  /** The tool after a click at (x, y): a hit button selects its type
      through set_tool_type, so the colour goes back to that type's colour
      and the size stays; anywhere else the tool is unchanged. */
  function ClickedTool(t: Tool, x: int, y: int): (r: Tool)
    ensures ButtonAt(x, y) == None ==> r == t
    ensures ButtonAt(x, y).Some? ==>
      r.kind == ButtonAt(x, y).value && r.size == t.size && r.color == DefaultColor(r.kind)
  {
    match ButtonAt(x, y)
    case None => t
    case Some(kind) => SetToolType(t, kind)
  }

  /** A click that selects a tool: clicking the brush gives a black brush
      and clicking the eraser a white eraser, of the size the tool had,
      whatever tool and colour were selected before. */
  lemma ClickSelects(t: Tool, x: int, y: int)
    requires 10 <= x <= 70
    ensures 10 <= y <= 70 ==> ClickedTool(t, x, y) == Tool(Brush, Black, t.size)
    ensures 80 <= y <= 140 ==> ClickedTool(t, x, y) == Tool(Eraser, White, t.size)
    ensures (y < 10 || 70 < y < 80 || y > 140) ==> ClickedTool(t, x, y) == t
  {
  }

  /** A click beside the button column changes nothing, whatever its
      height; this includes every click the x > 80 guard turns away. */
  lemma ClickOutsideButtons(t: Tool, x: int, y: int)
    requires x < 10 || x > 70
    ensures ClickedTool(t, x, y) == t
  {
  }

  /** An SDL rectangle. */
  datatype Rect = Rect(x: int, y: int, w: int, h: int)

  /** The buttons as draw_left_sidebar fills them. */
  const BrushButton: Rect := Rect(ToolBtnX, ToolBtnYStart, ToolBtnWidth, ToolBtnHeight)
  const EraserButton: Rect :=
    Rect(ToolBtnX, ToolBtnYStart + ToolBtnHeight + ToolBtnSpacing, ToolBtnWidth, ToolBtnHeight)

  /** The pixels a filled rectangle covers. */
  predicate Covers(r: Rect, x: int, y: int)
  {
    r.x <= x < r.x + r.w && r.y <= y < r.y + r.h
  }

  /** Every pixel of a drawn button selects that button's tool, and so do
      the column and the row just past its right and bottom edges, which
      the button does not cover: the hit area is one pixel wider and taller
      than the drawn button. */
  lemma HitAreaAgainstDrawnButtons(x: int, y: int)
    ensures Covers(BrushButton, x, y) ==> ButtonAt(x, y) == Some(Brush)
    ensures Covers(EraserButton, x, y) ==> ButtonAt(x, y) == Some(Eraser)
    ensures ButtonAt(x, y) == Some(Brush) <==>
      Covers(Rect(BrushButton.x, BrushButton.y, BrushButton.w + 1, BrushButton.h + 1), x, y)
    ensures ButtonAt(x, y) == Some(Eraser) <==>
      Covers(Rect(EraserButton.x, EraserButton.y, EraserButton.w + 1, EraserButton.h + 1), x, y)
    ensures ButtonAt(70, 70) == Some(Brush) && !Covers(BrushButton, 70, 70)
  {
  }

  /** A button hit is always inside the sidebar, while the click guard of
      handle_sidebar_click lets x = 80 through although that column is not
      part of the sidebar; no button reaches it, so it selects nothing. */
  lemma ButtonsInsideSidebar(x: int, y: int)
    ensures ButtonAt(x, y).Some? ==> InSidebarBounds(x, y)
    ensures !InSidebarBounds(80, y) && !(80 > SidebarWidth) && ButtonAt(80, y) == None
  {
  }

  /** handle_sidebar_click: updates the context's current tool and nothing
      else. */
  method HandleSidebarClick(context: PaintContext, mouseX: int, mouseY: int)
    modifies context`currentTool
    ensures context.currentTool == ClickedTool(old(context.currentTool), mouseX, mouseY)
  {
    if mouseX > SidebarWidth {
      return;
    }
    if mouseX >= ToolBtnX && mouseX <= ToolBtnX + ToolBtnWidth {
      if mouseY >= ToolBtnYStart && mouseY <= ToolBtnYStart + ToolBtnHeight {
        context.currentTool := SetToolType(context.currentTool, Brush);
      } else if mouseY >= ToolBtnYStart + ToolBtnHeight + ToolBtnSpacing &&
                mouseY <= ToolBtnYStart + 2 * ToolBtnHeight + ToolBtnSpacing {
        context.currentTool := SetToolType(context.currentTool, Eraser);
      }
    }
  }
}
