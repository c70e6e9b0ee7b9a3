/** Integer rectangles, laid out as pygame's `Rect` stores them. */
module Geometry {

  /** Top-left corner `(x, y)` and size `(w, h)` in screen pixels; `y` grows downwards. */
  datatype Rect = Rect(x: int, y: int, w: int, h: int)

  /** The rectangle collision test used by `pygame.sprite.spritecollide`.
      Its implementation belongs to pygame, so every operation that needs it
      takes it as a parameter and nothing is assumed about it. */
  type Overlap = (Rect, Rect) -> bool
}
