/**
 * The per-stone drag state machine as values: the stone's position and
 * grab offset, the three pointer events the draggable listens to, and the
 * position each event leaves behind. The canvas view's handlers are
 * specified by `Step`.
 */
module Drag {
  import opened Geometry

  /** A stone's top-left corner (x, y) and the grab offset (ox, oy) it keeps during a drag. */
  datatype Pose = Pose(x: int, y: int, ox: int, oy: int)

  /** A pointer event delivered to a stone, with the pointer's stage coordinates. */
  datatype PointerEvent =
    | MouseDown(stageX: int, stageY: int)
    | PressMove(stageX: int, stageY: int)
    | PressUp(stageX: int, stageY: int)

  /** `mousedown`: remember where, relative to the pointer, the stone was grabbed. */
  function Grab(p: Pose, stageX: int, stageY: int): (q: Pose)
    ensures q.x == p.x && q.y == p.y
    ensures q.ox == p.x - stageX && q.oy == p.y - stageY
  {
    p.(ox := p.x - stageX, oy := p.y - stageY)
  }

  /** `pressmove`: the stone follows the pointer at the grab offset. */
  function Follow(p: Pose, stageX: int, stageY: int): (q: Pose)
    ensures q.ox == p.ox && q.oy == p.oy
    ensures q.x - stageX == q.ox && q.y - stageY == q.oy
  {
    p.(x := p.ox + stageX, y := p.oy + stageY)
  }

  /**
   * `pressup`: the end callback snaps the stone's current position into the
   * rake. The coordinates it is handed (pointer plus offset) are not used,
   * and neither is the pointer position of the release itself.
   */
  function Release(r: RakeOffsets, p: Pose): (q: Pose)
    ensures r.FitsStone() ==> r.Holds(q.x, q.y)
    ensures r.Holds(p.x, p.y) ==> q == p
    ensures q.ox == p.ox && q.oy == p.oy
  {
    p.(x := SnapX(r, p.x), y := SnapY(r, p.y))
  }

  /** The pose a stone is left in by one event. */
  function Step(r: RakeOffsets, p: Pose, e: PointerEvent): (q: Pose)
    ensures !e.MouseDown? ==> q.ox == p.ox && q.oy == p.oy
    ensures e.PressUp? && r.FitsStone() ==> r.Holds(q.x, q.y)
  {
    match e
    case MouseDown(sx, sy) => Grab(p, sx, sy)
    case PressMove(sx, sy) => Follow(p, sx, sy)
    case PressUp(_, _) => Release(r, p)
  }

  /** The pose a stone is left in by a sequence of events, in delivery order. */
  function Run(r: RakeOffsets, p: Pose, es: seq<PointerEvent>): Pose
    decreases |es|
  {
    if es == [] then p else Run(r, Step(r, p, es[0]), es[1..])
  }

  predicate AllMoves(es: seq<PointerEvent>)
  {
    forall i :: 0 <= i < |es| ==> es[i].PressMove?
  }

  /** The events of one gesture: press, any number of moves, release. */
  function Gesture(down: (int, int), moves: seq<PointerEvent>, up: (int, int)): seq<PointerEvent>
  {
    [MouseDown(down.0, down.1)] + moves + [PressUp(up.0, up.1)]
  }

  /** Running two event sequences one after the other is running their concatenation. */
  lemma {:induction false} RunAppend(r: RakeOffsets, p: Pose, a: seq<PointerEvent>, b: seq<PointerEvent>)
    ensures Run(r, p, a + b) == Run(r, Run(r, p, a), b)
    decreases |a|
  {
    if a == [] {
      assert a + b == b;
    } else {
      assert (a + b)[0] == a[0] && (a + b)[1..] == a[1..] + b;
      RunAppend(r, Step(r, p, a[0]), a[1..], b);
    }
  }

  /**
   * Grabbing and then moving the pointer to where it was grabbed leaves the
   * stone where it was: a drag never makes the stone jump to the pointer.
   */
  lemma GrabDoesNotJump(p: Pose, stageX: int, stageY: int)
    ensures var q := Follow(Grab(p, stageX, stageY), stageX, stageY); q.x == p.x && q.y == p.y
  {
  }

  /**
   * During a drag the grab offset never changes, and after at least one
   * move the stone sits at the last pointer position plus that offset.
   */
  lemma {:induction false} MovesKeepOffset(r: RakeOffsets, p: Pose, ms: seq<PointerEvent>)
    requires AllMoves(ms)
    ensures Run(r, p, ms).ox == p.ox && Run(r, p, ms).oy == p.oy
    ensures ms == [] ==> Run(r, p, ms) == p
    ensures ms != [] ==>
              Run(r, p, ms).x - ms[|ms| - 1].stageX == p.ox && Run(r, p, ms).y - ms[|ms| - 1].stageY == p.oy
    decreases |ms|
  {
    if ms != [] {
      assert AllMoves(ms[1..]) by {
        forall i | 0 <= i < |ms[1..]| ensures ms[1..][i].PressMove? {
          assert ms[1..][i] == ms[i + 1];
        }
      }
      MovesKeepOffset(r, Step(r, p, ms[0]), ms[1..]);
      if |ms| > 1 {
        assert ms[1..][|ms[1..]| - 1] == ms[|ms| - 1];
      }
    }
  }

  /**
   * Drag invariant: from the press at (sx, sy) on, through every move, the
   * stone minus the last pointer position equals the offset captured at the
   * press, which is the stone's position then minus (sx, sy).
   */
  lemma DragKeepsGrabOffset(r: RakeOffsets, p: Pose, sx: int, sy: int, ms: seq<PointerEvent>)
    requires AllMoves(ms) && ms != []
    ensures var q := Run(r, p, [MouseDown(sx, sy)] + ms);
            q.ox == p.x - sx && q.oy == p.y - sy
            && q.x - ms[|ms| - 1].stageX == q.ox && q.y - ms[|ms| - 1].stageY == q.oy
  {
    RunAppend(r, p, [MouseDown(sx, sy)], ms);
    MovesKeepOffset(r, Grab(p, sx, sy), ms);
  }

  /** Where a whole gesture would leave the stone before the snap. */
  function RawRelease(p: Pose, down: (int, int), moves: seq<PointerEvent>): (int, int)
  {
    if moves == [] then (p.x, p.y)
    else (moves[|moves| - 1].stageX + p.x - down.0, moves[|moves| - 1].stageY + p.y - down.1)
  }

  /**
   * A whole gesture (press, moves, release) leaves the stone at the snap of
   * the last dragged position, with the grab offset of the press; where the
   * pointer was released plays no part.
   */
  lemma GestureSettles(r: RakeOffsets, p: Pose, down: (int, int), ms: seq<PointerEvent>, up: (int, int))
    requires AllMoves(ms)
    ensures var q := Run(r, p, Gesture(down, ms, up));
            var raw := RawRelease(p, down, ms);
            (q.x, q.y) == SnapPoint(r, raw.0, raw.1)
            && q.ox == p.x - down.0 && q.oy == p.y - down.1
  {
    var g := Grab(p, down.0, down.1);
    assert Gesture(down, ms, up) == [MouseDown(down.0, down.1)] + (ms + [PressUp(up.0, up.1)]);
    RunAppend(r, g, ms, [PressUp(up.0, up.1)]);
    MovesKeepOffset(r, g, ms);
  }

  /**
   * The release snaps the stone's current position, not the pointer's:
   * the pointer coordinates of the `pressup` event play no part.
   */
  lemma ReleaseIgnoresPointer(r: RakeOffsets, p: Pose, ux: int, uy: int, vx: int, vy: int)
    ensures Step(r, p, PressUp(ux, uy)) == Step(r, p, PressUp(vx, vy)) == Release(r, p)
  {
  }

  /**
   * So a release away from the last move point can settle elsewhere than
   * the snap of the coordinates handed to the end callback (release point
   * plus grab offset) would: here at x = 100 rather than 260.
   */
  lemma ReleaseCanDifferFromEndArguments()
    ensures exists p: Pose, ux: int ::
              Step(Configured(), p, PressUp(ux, 450)).x != SnapX(Configured(), ux + p.ox)
  {
    var p := Pose(100, 450, 0, 0);
    assert Step(Configured(), p, PressUp(600, 450)).x == 100;
    assert SnapX(Configured(), 600 + p.ox) == 260;
  }

  /**
   * A stone grabbed anywhere, dragged by (+500, -500) and released, settles
   * at (260, 400) in the configured rake when it started at (100, 450).
   */
  lemma ConfiguredDragExample(sx: int, sy: int, ox: int, oy: int, up: (int, int))
    ensures var q := Run(Configured(), Pose(100, 450, ox, oy),
                         Gesture((sx, sy), [PressMove(sx + 500, sy - 500)], up));
            q.x == 260 && q.y == 400
  {
    GestureSettles(Configured(), Pose(100, 450, ox, oy), (sx, sy), [PressMove(sx + 500, sy - 500)], up);
  }

  /** Events of several complete gestures, one after the other. */
  function Gestures(gs: seq<(PointerEvent, seq<PointerEvent>, PointerEvent)>): seq<PointerEvent>
    requires forall i :: 0 <= i < |gs| ==> gs[i].0.MouseDown? && gs[i].2.PressUp?
  {
    if gs == [] then []
    else [gs[0].0] + gs[0].1 + [gs[0].2] + Gestures(gs[1..])
  }

  /**
   * At rest every stone lies inside a rake that fits it: after any number
   * of complete gestures (at least one, or none from an in-bounds start)
   * the stone is in bounds, whatever the pointer did during the drags.
   */
  lemma {:induction false} SettledInRake(r: RakeOffsets, p: Pose, gs: seq<(PointerEvent, seq<PointerEvent>, PointerEvent)>)
    requires r.FitsStone()
    requires forall i :: 0 <= i < |gs| ==> gs[i].0.MouseDown? && gs[i].2.PressUp?
    requires gs != [] || r.Holds(p.x, p.y)
    ensures r.Holds(Run(r, p, Gestures(gs)).x, Run(r, p, Gestures(gs)).y)
    decreases |gs|
  {
    if gs != [] {
      var g := [gs[0].0] + gs[0].1 + [gs[0].2];
      assert g == [gs[0].0] + (gs[0].1 + [gs[0].2]);
      RunAppend(r, p, g, Gestures(gs[1..]));
      RunAppend(r, p, [gs[0].0] + gs[0].1, [gs[0].2]);
      var q := Run(r, p, g);
      assert q == Release(r, Run(r, p, [gs[0].0] + gs[0].1));
      SettledInRake(r, q, gs[1..]);
    }
  }
}
