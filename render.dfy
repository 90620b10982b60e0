/** The renderer as the core sees it: an append-only log of the SDL calls it
    issues. Pixels are not modelled; two logs that are equal draw the same. */
module Render {
  import opened Common

  newtype byte = x: int | 0 <= x < 256

  /** SDL_Color. */
  datatype Color = Color(r: byte, g: byte, b: byte, a: byte)

  const Black: Color := Color(0, 0, 0, 255)
  const White: Color := Color(255, 255, 255, 255)
  const Gray: Color := Color(128, 128, 128, 255)

  /** Where drawing goes: the window (render target NULL) or the bitmap cache. */
  datatype Target = Screen | Cache

  /** One renderer call. FillRect and DrawLine use the colour of the latest
      SetDrawColor; RenderClear fills the whole target with it. A FillRect
      covers the pixels x .. x + w - 1 by y .. y + h - 1. */
  datatype DrawCmd =
    | SetTarget(target: Target)
    | SetDrawColor(color: Color)
    | RenderClear
    | FillRect(x: int, y: int, w: int, h: int)
    | DrawLine(x0: int, y0: int, x1: int, y1: int)

  /** The `size x size` square that both use_tool and apply_history_entry
      stamp for a point: its corner is the point minus size / 2 (C division). */
  function Stamp(x: int, y: int, size: int): DrawCmd
  {
    FillRect(x - CHalf(size), y - CHalf(size), size, size)
  }

  /** A stamp of positive size covers its point, and the point sits in the
      middle: the margin on its left (above it) is the one on its right
      (below it) or one pixel more. */
  lemma StampCentred(x: int, y: int, size: int)
    requires size >= 1
    ensures var s := Stamp(x, y, size);
      s.FillRect? && s.w == size && s.h == size &&
      s.x <= x < s.x + s.w && s.y <= y < s.y + s.h &&
      0 <= (x - s.x) - (s.x + s.w - 1 - x) <= 1 &&
      0 <= (y - s.y) - (s.y + s.h - 1 - y) <= 1
  {
  }
}
