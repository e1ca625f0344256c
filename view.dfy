/**
 * The canvas view: the stage with its rakes and stone containers, the
 * stone shapes with their drag handlers, and the bookkeeping that keeps
 * the current stone container in step with the stone collection.
 */
module View {
  import opened Geometry
  import opened Drag
  import opened ZOrder

  /** Identity of a stone model in the collection. */
  type StoneId = nat

  /** A drawn stone. Its position and grab offset are updated in place by the drag handlers. */
  class StoneShape {
    var x: int
    var y: int
    var ox: int
    var oy: int
    /** Whether a `mousedown` has set `ox` and `oy` (before that they are undefined). */
    ghost var grabbed: bool
    /** The stone model this shape was built for. */
    ghost const stone: StoneId

    /** A fresh shape sits at the display engine's default position (0, 0). */
    constructor (stone: StoneId)
      ensures Current() == Pose(0, 0, 0, 0) && !grabbed && this.stone == stone
    {
      x, y, ox, oy := 0, 0, 0, 0;
      grabbed := false;
      this.stone := stone;
    }

    function Current(): Pose
      reads this
    {
      Pose(x, y, ox, oy)
    }
  }

  /** A container of stone shapes; the last child is drawn on top. */
  class StoneContainer {
    var children: seq<StoneShape>

    constructor ()
      ensures children == []
    {
      children := [];
    }
  }

  /** The drawn rake rectangle. */
  class RakeShape {
    const bounds: RakeOffsets

    constructor (bounds: RakeOffsets)
      ensures this.bounds == bounds
    {
      this.bounds := bounds;
    }
  }

  /** A child of the stage: a rake rectangle or a stone container. */
  datatype StageChild = RakeChild(rake: RakeShape) | ContainerChild(container: StoneContainer)

  /** An animated move the display engine will carry out: `shape` goes to (x, y) over `durationMs`. */
  datatype Tween = Tween(shape: StoneShape, x: int, y: int, durationMs: nat)

  /** The stone models the shapes were built for, in container order. */
  ghost function StonesOf(cs: seq<StoneShape>): (ids: seq<StoneId>)
    ensures |ids| == |cs|
    ensures forall i :: 0 <= i < |cs| ==> ids[i] == cs[i].stone
  {
    seq(|cs|, i requires 0 <= i < |cs| => cs[i].stone)
  }

  class CanvasView {
    var stage: seq<StageChild>
    var collection: seq<StoneId>
    /** The container new stones go into; none before the first render. */
    var stoneContainer: StoneContainer?
    /** Animated moves scheduled with the display engine and not yet arrived. */
    var tweens: seq<Tween>
    const rakeOffsets: RakeOffsets

    /**
     * The view's invariant: once rendered, the current container is the
     * stage's last child and holds no shape twice.
     */
    ghost predicate Valid()
      reads this, stoneContainer
    {
      stoneContainer != null ==>
        |stage| > 0 && stage[|stage| - 1] == ContainerChild(stoneContainer)
        && Distinct(stoneContainer.children)
    }

    /** `initialize`: an empty collection, the configured rake offsets, no container yet. */
    constructor (stage: seq<StageChild>)
      ensures Valid()
      ensures this.stage == stage && collection == [] && stoneContainer == null && tweens == []
      ensures rakeOffsets == Configured()
    {
      this.stage := stage;
      collection := [];
      stoneContainer := null;
      tweens := [];
      rakeOffsets := Configured();
    }

    /**
     * `renderStone`: one new shape, built for `model`, at the default
     * position, appended on top of the current container. No position is
     * set, so the new stone is inside the rake only after its first release.
     */
    method RenderStone(model: StoneId) returns (shape: StoneShape)
      requires Valid() && stoneContainer != null
      modifies stoneContainer
      ensures Valid()
      ensures fresh(shape) && shape.stone == model && shape.Current() == Pose(0, 0, 0, 0) && !shape.grabbed
      ensures stoneContainer.children == old(stoneContainer.children) + [shape]
    {
      shape := new StoneShape(model);
      stoneContainer.children := stoneContainer.children + [shape];
    }

    /**
     * `renderRake`: a new rake and a new, empty container are appended to
     * the stage (the earlier ones stay), and the container receives one
     * fresh shape per collection item, in collection order.
     */
    method RenderRake()
      requires Valid()
      modifies this
      ensures Valid()
      ensures |stage| == |old(stage)| + 2 && stage[..|old(stage)|] == old(stage)
      ensures stage[|old(stage)|].RakeChild? && fresh(stage[|old(stage)|].rake)
      ensures stage[|old(stage)|].rake.bounds == rakeOffsets
      ensures stoneContainer != null && fresh(stoneContainer)
      ensures StonesOf(stoneContainer.children) == collection
      ensures forall s :: s in stoneContainer.children ==> fresh(s) && s.Current() == Pose(0, 0, 0, 0) && !s.grabbed
      ensures collection == old(collection) && tweens == old(tweens)
    {
      var rakeShape := new RakeShape(rakeOffsets);
      stage := stage + [RakeChild(rakeShape)];
      var container := new StoneContainer();
      stoneContainer := container;
      stage := stage + [ContainerChild(container)];
      var i := 0;
      while i < |collection|
        invariant 0 <= i <= |collection|
        invariant stoneContainer == container && Valid()
        invariant stage == old(stage) + [RakeChild(rakeShape), ContainerChild(container)]
        invariant collection == old(collection) && tweens == old(tweens)
        invariant StonesOf(container.children) == collection[..i]
        invariant forall s :: s in container.children ==> fresh(s) && s.Current() == Pose(0, 0, 0, 0) && !s.grabbed
      {
        var shape := RenderStone(collection[i]);
        i := i + 1;
      }
    }

    /** `render`: draw the first rake. */
    method Render()
      requires Valid()
      modifies this
      ensures Valid() && stoneContainer != null && fresh(stoneContainer)
      ensures |stage| == |old(stage)| + 2 && stage[..|old(stage)|] == old(stage)
      ensures stage[|old(stage)|].RakeChild? && fresh(stage[|old(stage)|].rake)
      ensures stage[|old(stage)|].rake.bounds == rakeOffsets
      ensures StonesOf(stoneContainer.children) == collection
      ensures forall s :: s in stoneContainer.children ==> fresh(s) && s.Current() == Pose(0, 0, 0, 0) && !s.grabbed
      ensures collection == old(collection) && tweens == old(tweens)
    {
      RenderRake();
    }

    /** The collection's "add" event: the new model gets its shape on top of the current container. */
    method CollectionAdd(model: StoneId) returns (shape: StoneShape)
      requires Valid() && stoneContainer != null
      modifies this`collection, stoneContainer
      ensures Valid()
      ensures collection == old(collection) + [model]
      ensures fresh(shape) && shape.stone == model && shape.Current() == Pose(0, 0, 0, 0) && !shape.grabbed
      ensures stoneContainer.children == old(stoneContainer.children) + [shape]
    {
      collection := collection + [model];
      shape := RenderStone(model);
    }

    /** A click on a rake adds a new stone model (one not yet in the collection). */
    method RakeClick(model: StoneId) returns (shape: StoneShape)
      requires Valid() && stoneContainer != null && model !in collection
      modifies this`collection, stoneContainer
      ensures Valid()
      ensures collection == old(collection) + [model]
      ensures fresh(shape) && shape.stone == model && shape.Current() == Pose(0, 0, 0, 0) && !shape.grabbed
      ensures stoneContainer.children == old(stoneContainer.children) + [shape]
    {
      shape := CollectionAdd(model);
    }

    /** The collection's "remove" event: the stage is rebuilt from the remaining models. */
    method CollectionRemove(model: StoneId)
      requires Valid()
      modifies this
      ensures Valid()
      ensures collection == Without(old(collection), model) && tweens == old(tweens)
      ensures model in old(collection) ==>
                && |stage| == |old(stage)| + 2 && stage[..|old(stage)|] == old(stage)
                && stage[|old(stage)|].RakeChild? && fresh(stage[|old(stage)|].rake)
                && stage[|old(stage)|].rake.bounds == rakeOffsets
                && stoneContainer != null && fresh(stoneContainer)
                && StonesOf(stoneContainer.children) == collection
                && (forall s :: s in stoneContainer.children ==> fresh(s) && s.Current() == Pose(0, 0, 0, 0) && !s.grabbed)
      ensures model !in old(collection) ==> stage == old(stage) && stoneContainer == old(stoneContainer)
    {
      if model in collection {
        collection := Without(collection, model);
        RenderRake();
      }
    }

    /** The collection's "reset" event: new contents, and the stage is rebuilt from them. */
    method CollectionReset(models: seq<StoneId>)
      requires Valid()
      modifies this
      ensures Valid()
      ensures collection == models && tweens == old(tweens)
      ensures |stage| == |old(stage)| + 2 && stage[..|old(stage)|] == old(stage)
      ensures stage[|old(stage)|].RakeChild? && fresh(stage[|old(stage)|].rake)
      ensures stage[|old(stage)|].rake.bounds == rakeOffsets
      ensures stoneContainer != null && fresh(stoneContainer)
      ensures StonesOf(stoneContainer.children) == models
      ensures forall s :: s in stoneContainer.children ==> fresh(s) && s.Current() == Pose(0, 0, 0, 0) && !s.grabbed
    {
      collection := models;
      RenderRake();
    }

    /**
     * `mousedown` on a stone: the stone goes on top of the current
     * container (if it is one of its children) and records its grab offset.
     */
    method MouseDown(s: StoneShape, stageX: int, stageY: int)
      requires Valid() && stoneContainer != null
      modifies stoneContainer, s
      ensures Valid()
      ensures stoneContainer.children == BringToTop(old(stoneContainer.children), s)
      ensures s.Current() == Step(rakeOffsets, old(s.Current()), PointerEvent.MouseDown(stageX, stageY)) && s.grabbed
    {
      BringToTopDistinct(stoneContainer.children, s);
      stoneContainer.children := BringToTop(stoneContainer.children, s);
      s.ox := s.x - stageX;
      s.oy := s.y - stageY;
      s.grabbed := true;
    }

    /** `pressmove`: the stone follows the pointer at its grab offset. */
    method PressMove(s: StoneShape, stageX: int, stageY: int)
      requires s.grabbed
      modifies s
      ensures s.grabbed
      ensures s.Current() == Step(rakeOffsets, old(s.Current()), PointerEvent.PressMove(stageX, stageY))
    {
      s.x := s.ox + stageX;
      s.y := s.oy + stageY;
    }

    /**
     * `pressup`: the end callback is handed the pointer plus the grab
     * offset, ignores it, and snaps the stone's current position with an
     * animated move. Once that move arrives the stone is where `Step` says.
     */
    method PressUp(s: StoneShape, stageX: int, stageY: int)
      requires s.grabbed
      modifies this`tweens, s
      ensures s.Current() == old(s.Current()) && s.grabbed
      ensures |tweens| == |old(tweens)| + 1 && tweens[..|old(tweens)|] == old(tweens)
      ensures var t := tweens[|tweens| - 1];
              t.shape == s && t.durationMs == 100
              && s.Current().(x := t.x, y := t.y) == Step(rakeOffsets, s.Current(), PointerEvent.PressUp(stageX, stageY))
    {
      End(s, stageX + s.ox, stageY + s.oy);
    }

    /** The end callback given to each draggable: snap the stone, animated. */
    method End(target: StoneShape, x: int, y: int)
      modifies this`tweens, target
      ensures target.Current() == old(target.Current()) && target.grabbed == old(target.grabbed)
      ensures tweens == old(tweens) + [Tween(target, SnapX(rakeOffsets, target.x), SnapY(rakeOffsets, target.y), 100)]
    {
      RakeSnap(target, false);
    }

    /** `rakeSnap`: move the stone to the snap of its current position; animated unless disabled. */
    method RakeSnap(s: StoneShape, animateDisabled: bool)
      modifies this`tweens, s
      ensures !animateDisabled ==> s.Current() == old(s.Current())
                                   && tweens == old(tweens) + [Tween(s, SnapX(rakeOffsets, s.x), SnapY(rakeOffsets, s.y), 100)]
      ensures animateDisabled ==> s.Current() == Release(rakeOffsets, old(s.Current())) && tweens == old(tweens)
      ensures s.grabbed == old(s.grabbed)
    {
      DragStone(s, SnapX(rakeOffsets, s.x), SnapY(rakeOffsets, s.y), !animateDisabled);
    }

    /** `dragStone`: either schedule an animated move to (x, y) or put the stone there at once. */
    method DragStone(s: StoneShape, x: int, y: int, animate: bool)
      modifies this`tweens, s
      ensures animate ==> s.Current() == old(s.Current()) && tweens == old(tweens) + [Tween(s, x, y, 100)]
      ensures !animate ==> s.Current() == old(s.Current()).(x := x, y := y) && tweens == old(tweens)
      ensures s.grabbed == old(s.grabbed)
    {
      if animate {
        tweens := tweens + [Tween(s, x, y, 100)];
      } else {
        s.x := x;
        s.y := y;
      }
    }

    /** The display engine finishes the oldest scheduled move: its shape arrives at the target. */
    method TweenArrives()
      requires tweens != []
      modifies this`tweens, tweens[0].shape
      ensures tweens == old(tweens[1..])
      ensures var t := old(tweens[0]);
              t.shape.Current() == old(t.shape.Current()).(x := t.x, y := t.y)
              && t.shape.grabbed == old(t.shape.grabbed)
    {
      var t := tweens[0];
      t.shape.x := t.x;
      t.shape.y := t.y;
      tweens := tweens[1..];
    }
  }

  /**
   * Two clicks on the rake give two distinct stones, for models 0 and 1,
   * both at (0, 0) and so outside the rake; pressing the first one puts it
   * on top.
   */
  method TwoClicksScenario() returns (view: CanvasView, a: StoneShape, b: StoneShape)
    ensures view.stoneContainer != null && view.collection == [0, 1]
    ensures a != b && a.stone == 0 && b.stone == 1
    ensures view.stoneContainer.children == [b, a]
    ensures b.x == 0 && b.y == 0 && !Configured().Holds(b.x, b.y)
  {
    view := new CanvasView([]);
    view.Render();
    a := view.RakeClick(0);
    b := view.RakeClick(1);
    assert view.stoneContainer.children == [a, b];
    view.MouseDown(a, 0, 0);
  }

  /**
   * A stone at (100, 450), dragged by (+500, -500) and released, settles at
   * (260, 400) once its animated move arrives; the other stone stays put.
   */
  method DragScenario(view: CanvasView, a: StoneShape, b: StoneShape)
    requires view.Valid() && view.stoneContainer != null && view.tweens == []
    requires view.rakeOffsets == Configured() && a != b
    requires a.x == 100 && a.y == 450
    modifies view, view.stoneContainer, a
    ensures a.x == 260 && a.y == 400 && b.Current() == old(b.Current())
  {
    view.MouseDown(a, 120, 470);
    view.PressMove(a, 620, -30);
    assert a.x == 600 && a.y == -50;
    view.PressUp(a, 640, -10);
    assert view.tweens == [Tween(a, 260, 400, 100)];
    view.TweenArrives();
  }
}
