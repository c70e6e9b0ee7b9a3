/** The two background copies drawn side by side (`x` and `x1` in `main`)
    and how the edge wrap scrolls them. */
module Scrolling {

  /** Left edges of the two copies of a background image `width` pixels wide. */
  datatype Backdrop = Backdrop(first: int, second: int)

  predicate InRange(b: Backdrop, width: int) {
    -width <= b.first <= width && -width <= b.second <= width
  }

  /** Some copy paints screen column `px`. */
  predicate Covers(b: Backdrop, width: int, px: int) {
    (b.first <= px < b.first + width) || (b.second <= px < b.second + width)
  }

  /** The copies are in range and abut, one starting where the other ends. */
  predicate Seamless(b: Backdrop, width: int) {
    InRange(b, width) && (b.second == b.first + width || b.first == b.second + width)
  }

  /** The starting layout `x = 0`, `x1 = w`. */
  function InitialBackdrop(width: int): (b: Backdrop)
    requires width >= 0
    ensures Seamless(b, width)
    ensures forall px :: 0 <= px < width ==> Covers(b, width, px)
  {
    Backdrop(0, width)
  }

  /** Abutting copies paint every column of a window as wide as the image. */
  lemma SeamlessCoversWindow(b: Backdrop, width: int, px: int)
    requires Seamless(b, width) && 0 <= px < width
    ensures Covers(b, width, px)
  {
  }

  /** The offset update at the left threshold as the source writes it: move
      right by `s`, and a copy past `width` jumps to `-width`. */
  function PanRightAsWritten(b: Backdrop, s: int, width: int): (r: Backdrop)
    ensures InRange(b, width) && s >= 0 ==> InRange(r, width)
    ensures r.first == b.first + s || r.first == -width
    ensures r.second == b.second + s || r.second == -width
  {
    var first := b.first + s;
    var second := b.second + s;
    Backdrop(if first > width then -width else first, if second > width then -width else second)
  }

  /** The offset update at the right threshold as the source writes it. */
  function PanLeftAsWritten(b: Backdrop, s: int, width: int): (r: Backdrop)
    ensures InRange(b, width) && s >= 0 ==> InRange(r, width)
    ensures r.first == b.first - s || r.first == width
    ensures r.second == b.second - s || r.second == width
  {
    var first := b.first - s;
    var second := b.second - s;
    Backdrop(if first < -width then width else first, if second < -width then width else second)
  }

  /** Snapping to the opposite bound drops the overshoot, so the copies
      drift apart and columns go unpainted: from the starting layout of an
      800-pixel background, one step of 15 leaves columns 0 to 14 bare, and
      the mirrored step leaves columns 785 to 799 bare. */
  lemma AsWrittenOpensGap()
    ensures Seamless(InitialBackdrop(800), 800)
    ensures PanRightAsWritten(InitialBackdrop(800), 15, 800) == Backdrop(15, -800)
    ensures !Covers(PanRightAsWritten(InitialBackdrop(800), 15, 800), 800, 0)
    ensures PanLeftAsWritten(Backdrop(-800, 0), 15, 800) == Backdrop(800, -15)
    ensures forall px :: 0 <= px < 15 ==> !Covers(PanRightAsWritten(InitialBackdrop(800), 15, 800), 800, px)
    ensures forall px :: 785 <= px < 800 ==> !Covers(PanLeftAsWritten(Backdrop(-800, 0), 15, 800), 800, px)
  {
  }

  /** In general, whenever a copy wraps, the written update leaves abutting
      copies no longer abutting. */
  lemma AsWrittenBreaksSeam(b: Backdrop, s: int, width: int)
    requires Seamless(b, width) && width > 0 && s > 0
    requires b.first + s > width || b.second + s > width
    ensures !Seamless(PanRightAsWritten(b, s, width), width)
  {
  }

  /** The mirror image at the right threshold. */
  lemma AsWrittenLeftBreaksSeam(b: Backdrop, s: int, width: int)
    requires Seamless(b, width) && width > 0 && s > 0
    requires b.first - s < -width || b.second - s < -width
    ensures !Seamless(PanLeftAsWritten(b, s, width), width)
  {
  }

  /** Wrapping by a full period `2 * width` keeps the overshoot. */
  function WrapHigh(v: int, width: int): int {
    if v > width then v - 2 * width else v
  }

  function WrapLow(v: int, width: int): int {
    if v < -width then v + 2 * width else v
  }

  /** The left-threshold offset update with the overshoot kept. */
  function PanRight(b: Backdrop, s: int, width: int): (r: Backdrop)
    ensures InRange(b, width) && 0 <= s <= 2 * width ==> InRange(r, width)
    ensures Seamless(b, width) && 0 <= s <= width ==> Seamless(r, width)
  {
    Backdrop(WrapHigh(b.first + s, width), WrapHigh(b.second + s, width))
  }

  /** The right-threshold offset update with the overshoot kept. */
  function PanLeft(b: Backdrop, s: int, width: int): (r: Backdrop)
    ensures InRange(b, width) && 0 <= s <= 2 * width ==> InRange(r, width)
    ensures Seamless(b, width) && 0 <= s <= width ==> Seamless(r, width)
  {
    Backdrop(WrapLow(b.first - s, width), WrapLow(b.second - s, width))
  }
}
