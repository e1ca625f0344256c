/**
 * The rake's geometry: its configured offsets and the per-axis snap that
 * pulls a released stone back inside the rake. Coordinates are whole
 * pixels; only comparison, addition and subtraction are involved.
 */
module Geometry {

  /** The rake's rectangle and the size of one stone, in stage pixels. */
  datatype RakeOffsets = RakeOffsets(
    x: int, y: int, height: int, width: int,
    stoneWidth: int, stoneHeight: int)
  {
    /** Largest x at which a stone still lies wholly inside the rake. */
    function MaxX(): int { x + width - stoneWidth }

    /** Largest y at which a stone still lies wholly inside the rake. */
    function MaxY(): int { y + height - stoneHeight }

    /** The rake is at least as wide and as tall as one stone. */
    predicate FitsStone() { stoneWidth <= width && stoneHeight <= height }

    /** A stone whose top-left corner is (px, py) lies wholly inside the rake. */
    predicate Holds(px: int, py: int) { x <= px <= MaxX() && y <= py <= MaxY() }
  }

  /** The offsets the canvas view is configured with. */
  function Configured(): (r: RakeOffsets)
    ensures r.FitsStone()
    ensures r.x == 10 && r.MaxX() == 260 && r.y == 400 && r.MaxY() == 500
  {
    RakeOffsets(x := 10, y := 400, height := 150, width := 300, stoneWidth := 50, stoneHeight := 50)
  }

  /** Distance between two coordinates on one axis. */
  function Dist(a: int, b: int): nat { if a <= b then b - a else a - b }

  /**
   * One axis of the snap: the lower bound is tested first and the upper
   * bound only when the lower one is met. When the range is non-empty the
   * result is the in-range coordinate nearest to `v`.
   */
  function SnapAxis(lo: int, hi: int, v: int): (s: int)
    ensures lo <= hi ==> lo <= s <= hi
    ensures lo <= hi ==> forall p :: lo <= p <= hi ==> Dist(s, v) <= Dist(p, v)
    ensures lo <= v <= hi ==> s == v
    ensures s == lo || s == hi || s == v
  {
    if v < lo then lo
    else if v > hi then hi
    else v
  }

  /** `snapX`: horizontal snap into [x, x + width - stoneWidth]. */
  function SnapX(r: RakeOffsets, px: int): (s: int)
    ensures r.stoneWidth <= r.width ==> r.x <= s <= r.MaxX()
    ensures r.x <= px <= r.MaxX() ==> s == px
  {
    SnapAxis(r.x, r.MaxX(), px)
  }

  /** `snapY`: vertical snap into [y, y + height - stoneHeight]. */
  function SnapY(r: RakeOffsets, py: int): (s: int)
    ensures r.stoneHeight <= r.height ==> r.y <= s <= r.MaxY()
    ensures r.y <= py <= r.MaxY() ==> s == py
  {
    SnapAxis(r.y, r.MaxY(), py)
  }

  /** Where `rakeSnap` sends a stone whose top-left corner is (px, py). */
  function SnapPoint(r: RakeOffsets, px: int, py: int): (p: (int, int))
    ensures r.FitsStone() ==> r.Holds(p.0, p.1)
    ensures r.Holds(px, py) ==> p == (px, py)
  {
    (SnapX(r, px), SnapY(r, py))
  }

  /**
   * Outside the range the snap lands exactly on the bound that was crossed:
   * below the lower bound on the lower bound, above the upper bound (and
   * not below the lower one) on the upper bound.
   */
  lemma SnapOutside(lo: int, hi: int, v: int)
    ensures v < lo ==> SnapAxis(lo, hi, v) == lo
    ensures lo <= v && hi < v ==> SnapAxis(lo, hi, v) == hi
  {
  }

  /** With a non-empty range, snapping twice is snapping once. */
  lemma SnapIdempotent(lo: int, hi: int, v: int)
    requires lo <= hi
    ensures SnapAxis(lo, hi, SnapAxis(lo, hi, v)) == SnapAxis(lo, hi, v)
  {
  }

  /**
   * When the rake is narrower than a stone (hi < lo) the check order
   * decides: a coordinate below `lo` goes to `lo`, any other to `hi`. So
   * the result may lie below `lo`, and snapping again always moves it: from
   * `lo` to `hi` and from `hi` to `lo`.
   */
  lemma SnapNarrow(lo: int, hi: int, v: int)
    requires hi < lo
    ensures SnapAxis(lo, hi, v) == if v < lo then lo else hi
    ensures v < lo ==> SnapAxis(lo, hi, SnapAxis(lo, hi, v)) == hi
    ensures lo <= v ==> SnapAxis(lo, hi, SnapAxis(lo, hi, v)) == lo
    ensures SnapAxis(lo, hi, SnapAxis(lo, hi, v)) != SnapAxis(lo, hi, v)
  {
  }

  /** Snapping is idempotent exactly when the range is non-empty. */
  lemma SnapIdempotentIff(lo: int, hi: int)
    ensures (forall v :: SnapAxis(lo, hi, SnapAxis(lo, hi, v)) == SnapAxis(lo, hi, v))
            <==> lo <= hi
  {
    if lo <= hi {
      forall v ensures SnapAxis(lo, hi, SnapAxis(lo, hi, v)) == SnapAxis(lo, hi, v) {
        SnapIdempotent(lo, hi, v);
      }
    } else {
      SnapNarrow(lo, hi, lo - 1);
    }
  }

  /** The configured rake is wider and taller than a stone, so its snap is in bounds and idempotent. */
  lemma ConfiguredSnapIdempotent(px: int, py: int)
    ensures Configured().FitsStone()
    ensures SnapPoint(Configured(), SnapX(Configured(), px), SnapY(Configured(), py))
            == SnapPoint(Configured(), px, py)
  {
    SnapIdempotent(Configured().x, Configured().MaxX(), px);
    SnapIdempotent(Configured().y, Configured().MaxY(), py);
  }

  /** A stone released at (600, -50) settles at (260, 400) in the configured rake. */
  lemma ConfiguredReleaseExample()
    ensures SnapPoint(Configured(), 600, -50) == (260, 400)
  {
  }
}
