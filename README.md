# Rake and stones: a Dafny model of the drag-and-drop canvas view

The canvas view draws a rectangular *rake* and lets the user create and drag
*stones*. A click on the rake adds a stone model to the collection. That adds
a stone shape to the current stone container. Pressing a stone puts it on top
of its container and records its grab offset. Moving the pointer drags the
stone at that offset. Releasing it snaps the stone back inside the rake, one
axis at a time.

The model has four modules, one per file:

- `Geometry` (`geometry.dfy`): the configured rake offsets and the per-axis
  snap (`snapX`, `snapY`, `rakeSnap`'s target). It proves bounds, fixpoints,
  nearest-point and idempotence. It also shows what happens when the rake is
  narrower than a stone.
- `ZOrder` (`zorder.dfy`): the z-order bump that `mousedown` performs, which
  is `setChildIndex(child, getNumChildren() - 1)`.
- `Drag` (`drag.dfy`): the drag handlers' effect on a stone's position and
  grab offset, as a state machine over values (`Step`, `Run`). It has
  lemmas about single events, whole gestures and sequences of gestures.
- `View` (`view.dfy`): the canvas view as classes (`StoneShape`,
  `StoneContainer`, `RakeShape`, `CanvasView`). The handlers and render
  methods update fields in place, and their contracts tie the new state to
  `Drag.Step` and `ZOrder.BringToTop`.

Three behaviours of the code are worth knowing, and the model follows the code
in each:

- When the rake is narrower than a stone, the snap does not always return
  the lower bound. A coordinate below the lower bound goes to the lower
  bound. Any other coordinate goes to the upper bound, which then lies below
  the lower bound (`Geometry.SnapNarrow`). So snapping is idempotent exactly
  when the rake fits a stone (`Geometry.SnapIdempotentIff`).
- A new stone gets no position. It sits at the display engine's default
  (0, 0), outside the configured rake, until it is first dragged. Only a
  stone that has been released at least once is sure to lie in the rake
  (`Drag.SettledInRake`).
- A rebuild (on "remove" or "reset") appends a new rake and container to the
  stage but never removes the old ones. The whole old container stays on the
  stage with every shape in it: the shape of a removed stone, and the old
  shape of each remaining stone, wherever it was dragged. Each remaining
  stone also gets a new shape in the new container, and that shape starts at
  (0, 0). Pressing an old shape leaves the current container unchanged,
  because it is not a child of that container.

## Model

| member | source | states |
|---|---|---|
| `Geometry.Configured` | app/public/js/views/view.js:8-15 | the configured rake fits a stone; a stone's top-left corner may range over x in [10, 260] and y in [400, 500] |
| `Geometry.SnapAxis` | app/public/js/views/view.js:115-127 | with a non-empty range the result is in range and is the in-range point nearest to the input; an in-range input is returned unchanged; the result is always the input or one of the bounds |
| `Geometry.SnapX` | app/public/js/views/view.js:115-120 | when the rake is at least a stone wide the result lies in [x, x + width - stoneWidth]; an x already there is unchanged |
| `Geometry.SnapY` | app/public/js/views/view.js:122-127 | when the rake is at least a stone tall the result lies in [y, y + height - stoneHeight]; a y already there is unchanged |
| `Geometry.SnapPoint` | app/public/js/views/view.js:131-132 | the target `rakeSnap` computes: inside the rake when the rake fits a stone, and the point itself when it is already inside |
| `Geometry.SnapOutside` | app/public/js/views/view.js:115-127 | below the lower bound the snap is exactly the lower bound; above the upper bound (and not below the lower) it is exactly the upper bound |
| `Geometry.SnapIdempotent` | app/public/js/views/view.js:115-127 | with a non-empty range, snapping a snapped coordinate changes nothing |
| `Geometry.SnapNarrow` | app/public/js/views/view.js:115-120 | when the range is empty (rake narrower than a stone) a coordinate below the lower bound goes there and any other goes to the upper bound; snapping again always moves it, from the lower bound to the upper and back |
| `Geometry.SnapIdempotentIff` | app/public/js/views/view.js:115-127 | snapping is idempotent for every coordinate if and only if the rake fits a stone on that axis |
| `Geometry.ConfiguredSnapIdempotent` | app/public/js/views/view.js:8-15 | the configured 300x150 rake fits a 50x50 stone, so snapping any point twice equals snapping it once |
| `Geometry.ConfiguredReleaseExample` | app/public/js/views/view.js:8-15 | in the configured rake a stone at (600, -50) snaps to (260, 400) |
| `ZOrder.BringToTop` | app/public/js/views/view.js:81 | the bump keeps the container's length; a pressed child ends at the last index; a shape that is not a child leaves the container unchanged |
| `ZOrder.BringToTopPermutes` | app/public/js/views/view.js:81 | the bump keeps the multiset of children: nothing is added or lost |
| `ZOrder.BringToTopMovesLast` | app/public/js/views/view.js:81 | the children after the bump are the others, in their old order, followed by the pressed one |
| `ZOrder.WithoutKeepsOrder` | app/public/js/views/view.js:81 | the others keep their relative order: each is in its old slot or one slot earlier, according to whether it stood before or after the pressed child |
| `ZOrder.BringToTopIdempotent` | app/public/js/views/view.js:81 | in a container without duplicates, pressing the same stone twice in a row reorders only once |
| `ZOrder.BringToTopDistinct` | app/public/js/views/view.js:81 | the bump keeps the children distinct |
| `ZOrder.TopStaysTop` | app/public/js/views/view.js:81 | pressing the stone that is already on top of a container without duplicates leaves the container as it was |
| `Drag.Grab` | app/public/js/views/view.js:82-83 | `mousedown` does not move the stone and records the grab offset as the stone's position minus the pointer's |
| `Drag.Follow` | app/public/js/views/view.js:88-89 | `pressmove` keeps the grab offset and puts the stone at pointer plus offset |
| `Drag.Release` | app/public/js/views/view.js:61-63 | the end callback leaves the stone inside a rake that fits it, leaves a stone that is already inside where it is, and keeps the grab offset |
| `Drag.Step` | app/public/js/views/view.js:80-97 | only `mousedown` changes the grab offset, and a `pressup` leaves the stone inside a rake that fits it |
| `Drag.GrabDoesNotJump` | app/public/js/views/view.js:82-89 | after a press, a move to the press point leaves the stone where it was, so the stone never jumps to the pointer |
| `Drag.MovesKeepOffset` | app/public/js/views/view.js:87-91 | any run of moves keeps the grab offset; after at least one move the stone minus the last pointer position equals that offset |
| `Drag.DragKeepsGrabOffset` | app/public/js/views/view.js:80-91 | from a press at (sx, sy) through every later move, the offset is the stone's position at the press minus (sx, sy), and stone minus pointer equals it |
| `Drag.GestureSettles` | app/public/js/views/view.js:80-97 | a whole press-moves-release gesture leaves the stone at the snap of its last dragged position (its start position when there were no moves), whatever the release point |
| `Drag.ReleaseIgnoresPointer` | app/public/js/views/view.js:93-96 | the outcome of `pressup` does not depend on its pointer coordinates |
| `Drag.ReleaseCanDifferFromEndArguments` | app/public/js/views/view.js:61-63 | the end callback's coordinate arguments are ignored: for some release the snap of those arguments differs from where the stone settles |
| `Drag.ConfiguredDragExample` | app/public/js/views/view.js:87-96 | in the configured rake, a stone at (100, 450) dragged by (+500, -500) and released settles at (260, 400), wherever it was grabbed |
| `Drag.SettledInRake` | app/public/js/views/view.js:131-133 | in a rake that fits a stone, after one or more complete gestures the stone lies inside the rake, whatever the pointer did |
| `View.StoneShape.constructor` | app/public/js/views/view.js:69-73 | a new shape sits at (0, 0) and has no grab offset yet |
| `View.CanvasView.constructor` | app/public/js/views/view.js:2-20 | the view starts with an empty collection, the configured offsets, no container and no animation pending |
| `View.CanvasView.RenderStone` | app/public/js/views/view.js:56-67 | exactly one new shape, built for the model and at (0, 0), is appended to the current container |
| `View.CanvasView.RenderRake` | app/public/js/views/view.js:33-54 | the stage grows by a new rake and a new container, and its earlier children stay; the new container holds one fresh shape per collection item, in collection order |
| `View.CanvasView.Render` | app/public/js/views/view.js:22-30 | the first render appends a fresh rake with the configured bounds and then a fresh container, keeping the stage's earlier children; the container holds one fresh shape at (0, 0) per collection item, in order; the collection and pending animations are unchanged |
| `View.CanvasView.CollectionAdd` | app/public/js/views/view.js:17 | an "add" grows the collection by the model and the current container by one shape built for it |
| `View.CanvasView.RakeClick` | app/public/js/views/view.js:40-42 | a click adds a new model, and the current container gains exactly one shape for it |
| `View.CanvasView.CollectionRemove` | app/public/js/views/view.js:18 | the first occurrence of the model leaves the collection, and pending animations are unchanged; for a present model the stage keeps its earlier children and gains a fresh rake with the configured bounds and a fresh container, which holds one fresh shape at (0, 0) per remaining model, in order; an absent model leaves the stage and container as they were |
| `View.CanvasView.CollectionReset` | app/public/js/views/view.js:19 | the collection becomes the new models and pending animations are unchanged; the stage keeps its earlier children and gains a fresh rake with the configured bounds and a fresh container holding one fresh shape at (0, 0) per new model, in order |
| `View.CanvasView.MouseDown` | app/public/js/views/view.js:80-85 | the pressed stone is bumped to the top of the current container, and its grab offset becomes position minus pointer |
| `View.CanvasView.PressMove` | app/public/js/views/view.js:87-91 | the stone is moved as `Drag.Step` says for a move |
| `View.CanvasView.PressUp` | app/public/js/views/view.js:93-97 | the stone is not moved at once; one 100 ms animated move is scheduled to the point where `Drag.Step` puts the stone on release |
| `View.CanvasView.End` | app/public/js/views/view.js:61-63 | the callback schedules an animated move to the snap of the stone's current position, not of its arguments |
| `View.CanvasView.RakeSnap` | app/public/js/views/view.js:131-133 | animated: an animated move to the snapped point is scheduled; not animated: the stone is put there at once |
| `View.CanvasView.DragStone` | app/public/js/views/view.js:103-112 | animated: the stone stays put and an animated move to (x, y) is queued; otherwise the stone is moved to (x, y) at once |
| `View.CanvasView.TweenArrives` | app/public/js/views/view.js:105 | when the oldest animated move finishes, its stone is at the move's target |
| `View.TwoClicksScenario` | app/public/js/views/view.js:40-81 | two clicks after the first render give two distinct stones, built for models 0 and 1 in click order; pressing the first one puts it on top; the other is still at (0, 0), outside the configured rake |
| `View.DragScenario` | app/public/js/views/view.js:80-96 | a stone at (100, 450) dragged by (+500, -500) settles at (260, 400) once its animated move arrives, and another stone is untouched |

## Left out

- Drawing (`graphics` calls), `stage.update()`, `enableMouseOver` and the ticker setup are rendering only. They are not modelled.
- The hover cursor set on `mouseover` is cosmetic and is not modelled.
- `View.CanvasView.TweenArrives`: the timing and easing of the 100 ms animated move are not modelled, only its target. A press that comes while a move is still running is not modelled either.
- Coordinates are whole pixels (`int`). Floating-point behaviour is not modelled.
- The `Stone` model and `StoneCollection` are not part of this model. The collection is a sequence of stone ids. "add" appends, "remove" deletes the first occurrence (and fires nothing for an absent model), and "reset" replaces the contents. The listeners are direct method calls.
- `View.CanvasView.RakeClick`: `new Stone()` is modelled as a caller-supplied id that is not yet in the collection.
- `ZOrder.BringToTop`: the display engine's `setChildIndex` is not part of this model. It is taken to do nothing for a shape that is not a child (or an empty container), and otherwise to splice the child out and put it at the last index.
- `View.CanvasView.RenderStone` and `View.CanvasView.CollectionAdd`: an "add" before the first `render()` throws at `this.stoneContainer.addChild` because there is no container yet. That error path is not modelled; both methods require a container.
- A `pressmove` or `pressup` without an earlier `mousedown` would use undefined offsets. It is excluded by the precondition `s.grabbed`.
- The stone a pointer event goes to is a parameter of the handlers. The display engine's hit-testing (which shape lies under the pointer) is not modelled.
- The stage the view is handed on construction is a parameter; what else draws on it is not modelled.
