# Scene of the yonatan-jump platformer, in Dafny

This project models `Scene`, the class that runs one frame of the
yonatan-jump side-scroller. A scene keeps:

- an ordered list of world objects (blocks, collectables, "death" hazards,
  the player, the camera and the score label);
- two deferred queues of objects to remove and to add;
- references to the camera, the player and the score label;
- the time of the previous frame;
- a game-over flag;
- scratch rectangles: the player's bounds and the bounds of the object
  being scanned. The source keeps a third, `playerBoundsCopy`, which line 87
  resets from the player's bounds before every use; the model holds that
  value in the local `hit` of `ProcessObjectCollision`.

Each frame, the model does the following:

1. It computes the elapsed time.
2. It runs the collision scan. The player's rectangle is read once. Every
   object's rectangle is intersected with it in list order. The overlap is
   then dispatched on the object's tag:
   - a "block" may be landed on: the player snaps on top, stops and gets its
     jumps back, and a destructible block is scheduled for destruction;
   - a "collectable" is collected and queued for removal;
   - a "death" object ends the game.
3. It flushes the queues: removals first, then additions.
4. It culls objects that lie far behind the camera.

The project is split into four modules:

- `Geometry` (`geometry.dfy`): rectangles and Android's `RectF.intersect`.
- `Entities` (`entities.dfy`): one `GameObject` class that stands for the
  game-object subclasses. It has the fields the scene reads and writes.
- `SceneRules` (`scene_rules.dfy`): reference definitions as functions, with
  the lemmas about them. These cover the flush (`RemoveFirst`, `RemoveAll`,
  `Flushed`), culling (`Culled`) and the collision scan (`Step`, `ScanWith`,
  `Scan`, which computes a `ScanOutcome`).
- `GameScene` (`game_scene.dfy`): the `Scene` class. Its methods change its
  fields and the player's fields in place, with loops where the source has
  them. `FlushQueues`, `Cull`, the scan methods, `AdvanceFrame` and `Render`
  are proved against the reference definitions; the registration, queue and
  timing methods and the three per-tag handlers state their effects on the
  fields directly.

Two facts shape the scan:

- The player's rectangle is not re-read after a snap. So every landing
  decision in a scan uses the rectangle from the start of the scan, and the
  *last* qualifying block in list order decides where the player ends up
  (`ScanLandsOnLastQualifyingBlock`).
- When the player moves down, line 81 raises the top edge of the scratch
  rectangle `bounds` by `velocity.y * delta`. Line 88 overwrites `bounds` for every object before anything reads
  it, so this adjustment never affects a decision. It survives only when the
  list is empty. Line 81 could be read as a swept-collision offset that
  builds up from frame to frame. The model follows the code. The
  `ProcessCollisions` contract states the effect of line 81 for an empty
  list, the only case in which it survives the scan.

## Model

| member | source | states |
|---|---|---|
| Geometry.Intersect | app/src/main/java/com/aahack/yojump/gameobject/Scene.kt:87-90 | A reported intersection lies inside both rectangles. Only strict overlap on both axes counts. |
| Geometry.IntersectIsLargestCommonRect | app/src/main/java/com/aahack/yojump/gameobject/Scene.kt:90 | For rectangles of positive area, an intersection is reported exactly when some rectangle of positive area lies in both, and then it has positive area. The result contains every rectangle that lies in both. |
| Geometry.RestingOnTopDoesNotIntersect | app/src/main/java/com/aahack/yojump/gameobject/Scene.kt:90 | Two rectangles that only share an edge do not intersect. |
| Entities.TagEqualityIsNameEquality | app/src/main/java/com/aahack/yojump/gameobject/Scene.kt:91-100 | Two tags are equal exactly when their strings are equal, so comparing `Tag` values is the source's string comparison. |
| Entities.GameObject.Bounds | app/src/main/java/com/aahack/yojump/gameobject/Scene.kt:88 | `getBounds`: the rectangle at the object's position with its width and height. |
| Entities.GameObject.ResetJumpCount | app/src/main/java/com/aahack/yojump/gameobject/Scene.kt:131 | The jump counter is back at its initial value. |
| Entities.GameObject.Collect | app/src/main/java/com/aahack/yojump/gameobject/Scene.kt:143 | The collected counter grows by exactly one. |
| Entities.GameObject.ScheduleDestruct | app/src/main/java/com/aahack/yojump/gameobject/Scene.kt:134 | The block's destruction flag is set. |
| SceneRules.RemoveFirst | app/src/main/java/com/aahack/yojump/gameobject/Scene.kt:55 | `LinkedList.remove`: the first occurrence of the object is dropped, by reference identity. The list is one shorter exactly when it held the object. |
| SceneRules.RemoveAll | app/src/main/java/com/aahack/yojump/gameobject/Scene.kt:53-57 | The queued objects are removed one after another, in queue order. At most one entry goes per queued object. |
| SceneRules.Flushed | app/src/main/java/com/aahack/yojump/gameobject/Scene.kt:53-62 | The list after a flush: the removals, then the additions appended. |
| SceneRules.RemoveFirstDropsFirstOccurrence | app/src/main/java/com/aahack/yojump/gameobject/Scene.kt:55 | `objects.remove(obj)` deletes exactly the first occurrence. The entries before and after it keep their order. |
| SceneRules.RemoveFirstAbsent | app/src/main/java/com/aahack/yojump/gameobject/Scene.kt:55 | Removing an object that is not in the list leaves the list unchanged. |
| SceneRules.RemoveFirstMultiset | app/src/main/java/com/aahack/yojump/gameobject/Scene.kt:55 | One removal takes away one copy of the object, if there is one, and nothing else. |
| SceneRules.RemoveAllMultiset | app/src/main/java/com/aahack/yojump/gameobject/Scene.kt:53-57 | The removal loop takes away, for each object, as many copies as the queue names and the list holds. |
| SceneRules.RemoveAllSubset | app/src/main/java/com/aahack/yojump/gameobject/Scene.kt:53-57 | The removals never bring in an object that was not in the list. |
| SceneRules.RemoveFirstKeepsOrder | app/src/main/java/com/aahack/yojump/gameobject/Scene.kt:55 | One removal keeps the other entries in their relative order: the result is a subsequence of the list. |
| SceneRules.RemoveAllKeepsOrder | app/src/main/java/com/aahack/yojump/gameobject/Scene.kt:53-57 | The removal loop keeps the remaining objects in their relative order. |
| SceneRules.FlushedShape | app/src/main/java/com/aahack/yojump/gameobject/Scene.kt:53-62 | After the flush, the list holds the old objects minus the removed ones, plus the queued additions. The old objects that remain keep their relative order. The additions come last, in enqueue order. With nothing to remove, the list is the old list followed by the additions. |
| SceneRules.Survives | app/src/main/java/com/aahack/yojump/gameobject/Scene.kt:69-70 | An object stays unless it is not a "death" object and lies more than 3000 behind the camera. |
| SceneRules.Culled | app/src/main/java/com/aahack/yojump/gameobject/Scene.kt:66-74 | The list after culling: the surviving objects, in list order. It is never longer than the list. |
| SceneRules.CulledSnoc | app/src/main/java/com/aahack/yojump/gameobject/Scene.kt:67-73 | One more step of the culling walk keeps the next object exactly when it survives. |
| SceneRules.CulledKeepsExactlySurvivors | app/src/main/java/com/aahack/yojump/gameobject/Scene.kt:66-74 | Culling keeps every surviving object (a "death" object, or one not more than 3000 behind the camera) with its multiplicity, and drops every other object. |
| SceneRules.CulledPreservesOrder | app/src/main/java/com/aahack/yojump/gameobject/Scene.kt:66-74 | Culling commutes with concatenation, so the survivors keep their relative order. |
| SceneRules.CulledSurvivorsOnly | app/src/main/java/com/aahack/yojump/gameobject/Scene.kt:69-70 | Every object left after culling was there before, and is a "death" object or lies at most 3000 behind the camera. |
| SceneRules.CameraNeverCulled | app/src/main/java/com/aahack/yojump/gameobject/Scene.kt:66-74 | The camera, when it is in the list, survives culling against its own position. |
| SceneRules.Lands | app/src/main/java/com/aahack/yojump/gameobject/Scene.kt:110-127 | The landing decision for an overlapped block: not moving up, the overlap reaches the player's bottom edge, and the overlap is under 16 deep or the player was not already resting. |
| SceneRules.Step | app/src/main/java/com/aahack/yojump/gameobject/Scene.kt:87-102 | One object of the scan: intersect, then a "block" sets the collision flag and, when the landing rule holds, the landing top; a "collectable" is collected; a "death" object is a death hit; any other tag does nothing. |
| SceneRules.ScanWith | app/src/main/java/com/aahack/yojump/gameobject/Scene.kt:86-103 | The scan over the list in list order, with the rectangles the objects had when the scan began, against the player's rectangle read before the scan. |
| SceneRules.Scan | app/src/main/java/com/aahack/yojump/gameobject/Scene.kt:84-103 | The scan over the list with the objects' current rectangles. |
| SceneRules.BoundsOf | app/src/main/java/com/aahack/yojump/gameobject/Scene.kt:88 | There is one rectangle per object, and each is that object's current `getBounds` rectangle. |
| SceneRules.ScanUnfold | app/src/main/java/com/aahack/yojump/gameobject/Scene.kt:86-103 | The scan handles objects one after another in list order. The last object's step applies to the outcome of the scan of the ones before it. |
| SceneRules.ScanCollidingIff | app/src/main/java/com/aahack/yojump/gameobject/Scene.kt:84-105 | The scan reports a collision exactly when some "block" overlapped the player, even when the landing rule then did nothing. |
| SceneRules.ScanCollectsOverlappingCollectables | app/src/main/java/com/aahack/yojump/gameobject/Scene.kt:96-97 | Every overlapping "collectable" is collected once per occurrence in the list. Nothing else is collected. |
| SceneRules.ScanDeathIff | app/src/main/java/com/aahack/yojump/gameobject/Scene.kt:99-100 | The scan reports a death hit exactly when some "death" object overlapped the player. |
| SceneRules.ScanLandsIff | app/src/main/java/com/aahack/yojump/gameobject/Scene.kt:86-103 | The player lands exactly when some block in the list qualifies under the landing rule. |
| SceneRules.LastQualifyingExtends | app/src/main/java/com/aahack/yojump/gameobject/Scene.kt:86-103 | Appending a block that does not qualify leaves the last qualifying block unchanged. |
| SceneRules.ScanLandsOnLastQualifyingBlock | app/src/main/java/com/aahack/yojump/gameobject/Scene.kt:86-103 | A landing puts the player on the last qualifying block in list order, because the player's rectangle is not re-read after a snap. |
| SceneRules.RisingPlayerNeverLands | app/src/main/java/com/aahack/yojump/gameobject/Scene.kt:110-113 | A player moving up (negative vertical speed) never lands, whatever it overlaps. |
| SceneRules.RestingPlayerStaysPut | app/src/main/java/com/aahack/yojump/gameobject/Scene.kt:122-139 | A player that was already colliding does not land while every block overlap is at least 16 deep, whatever else it overlaps. |
| SceneRules.SnapRestsOnBlock | app/src/main/java/com/aahack/yojump/gameobject/Scene.kt:129 | With the player's y set to the block's top minus its height, as the snap does, the player's rectangle keeps its height, its bottom edge is the block's top edge, and it no longer intersects the block. |
| GameScene.Scene.constructor | app/src/main/java/com/aahack/yojump/gameobject/Scene.kt:15-29 | A new scene has an empty list and empty queues, unset references, no previous frame and no game over. |
| GameScene.Scene.AddObject | app/src/main/java/com/aahack/yojump/gameobject/Scene.kt:151-153 | The object is appended to the list. |
| GameScene.Scene.SetCamera | app/src/main/java/com/aahack/yojump/gameobject/Scene.kt:155-158 | The camera is appended to the list and recorded. |
| GameScene.Scene.SetPlayer | app/src/main/java/com/aahack/yojump/gameobject/Scene.kt:160-163 | The player is appended to the list and recorded. |
| GameScene.Scene.SetScore | app/src/main/java/com/aahack/yojump/gameobject/Scene.kt:165-168 | The score label is appended to the list and recorded. |
| GameScene.Scene.DelayedAddObject | app/src/main/java/com/aahack/yojump/gameobject/Scene.kt:183-185 | The object is only queued for addition. The list is unchanged. |
| GameScene.Scene.DelayedRemoveObject | app/src/main/java/com/aahack/yojump/gameobject/Scene.kt:187-189 | The object is only queued for removal. The list is unchanged. |
| GameScene.Scene.Tick | app/src/main/java/com/aahack/yojump/gameobject/Scene.kt:33-38 | On the first frame the elapsed time is 0. Otherwise it is the time since the previous frame, in seconds. Afterwards the previous-frame time is now. |
| GameScene.Scene.Render | app/src/main/java/com/aahack/yojump/gameobject/Scene.kt:31-75 | After a frame, the previous-frame time is now. The list is the culled result of flushing the old list, where the removals include the collectables picked up this frame. Both queues are empty. Game over, the resting flag, the collected count and the player's landing all follow the scan's outcome. Exactly the destructible blocks landed on get flagged. The scratch `playerBounds` holds the player's rectangle from before the scan. |
| GameScene.Scene.AdvanceFrame | app/src/main/java/com/aahack/yojump/gameobject/Scene.kt:45-74 | The scan, the flush and the cull together have the effect stated for `Render`. |
| GameScene.Scene.FlushQueues | app/src/main/java/com/aahack/yojump/gameobject/Scene.kt:53-62 | The list becomes `Flushed` of the old list and both queues: first occurrences removed in queue order, then additions appended. Both queues end empty. |
| GameScene.Scene.Cull | app/src/main/java/com/aahack/yojump/gameobject/Scene.kt:66-74 | The iterator walk with `remove` leaves exactly `Culled` of the old list against the camera's position. |
| GameScene.Scene.ProcessCollisions | app/src/main/java/com/aahack/yojump/gameobject/Scene.kt:77-106 | The player's bounds are read once, and line 81 adjusts the scratch rectangle. The scene and the player end up as the reference scan says: game over, collected count, removal queue, landing position, speed and jumps, and the resting flag set exactly when a block overlapped. Exactly the destructible blocks landed on get flagged. The scratch `playerBounds` holds the player's rectangle from before the scan. |
| GameScene.Scene.ScanObjects | app/src/main/java/com/aahack/yojump/gameobject/Scene.kt:79-103 | Everything up to the final flag: the same effects as `ProcessCollisions`, plus the `colliding` result. |
| GameScene.Scene.ScanLoop | app/src/main/java/com/aahack/yojump/gameobject/Scene.kt:84-103 | The loop over the objects, proved by a loop invariant: it reaches the reference scan over the rectangles the objects had at the start, and returns the `colliding` flag of that scan. |
| GameScene.Scene.ScanComplete | app/src/main/java/com/aahack/yojump/gameobject/Scene.kt:86-103 | A scan that has handled every object has computed the whole reference scan, and has flagged exactly the destructible blocks landed on. |
| GameScene.Scene.ScanObject | app/src/main/java/com/aahack/yojump/gameobject/Scene.kt:86-102 | One iteration moves the scan one object further. The scratch rectangle then holds that object's rectangle. The block flag is set exactly when the object is an overlapping block. |
| GameScene.Scene.ProcessObjectCollision | app/src/main/java/com/aahack/yojump/gameobject/Scene.kt:87-102 | Intersect, then dispatch on the tag: the fields show one more step of the reference scan. The scratch rectangle holds the object's rectangle, which the step leaves unchanged. The object's destruction flag is set exactly when it is a destructible block landed on. |
| GameScene.Scene.ProcessBlockCollision | app/src/main/java/com/aahack/yojump/gameobject/Scene.kt:108-140 | Moving up, or bottoms that differ, change nothing. A shallow overlap (below 16), or a player not already colliding, snaps the player onto the block top, zeroes its speed, resets its jumps and flags a destructible block. A deep overlap while already colliding changes nothing. |
| GameScene.Scene.ProcessCollectableCollision | app/src/main/java/com/aahack/yojump/gameobject/Scene.kt:142-145 | One more collectable is counted, and the object is appended to the removal queue. |
| GameScene.Scene.ProcessDeathCollision | app/src/main/java/com/aahack/yojump/gameobject/Scene.kt:147-149 | The game is over. |

## Left out

- Drawing is not modelled: the canvas matrix from the camera, every object's `render` and the score label's `render` (lines 47-51 and 64). These are Android graphics calls on classes that are not part of this model.
- The per-object `update(delta)` step (lines 41-43) is not modelled. The subclass files that define it are not part of this model. `Render` therefore states the frame as if `update` left every object unchanged.
- `System.currentTimeMillis()` is not called: the current time is the `now` parameter of `Render` and `Tick`.
- Logging (`Log.d`, the companion `log` and its date formatter) is left out. It only observes.
- `getScore` (lines 179-181) is left out. It only delegates to the score label, which is not part of this model.
- Floating point is not modelled: coordinates, speeds and times are `real`, and `Long` times are `int`. Rounding in `/ 1000f` and `velocity.y * delta` is ignored, and no decision depends on either value.
- `GameObject`, `Player`, `Block`, `Camera` and `ScoreLabel` are not part of this model. One class with a `kind` field stands for all of them, and its constructors are stand-ins. The `Player` subclass is assumed to carry the tag "player", so the scan never dispatches on the player itself. `SetPlayer` requires this.
- Tags are a datatype with one case per string the scene or the subclasses use. Any other string goes in `OtherTag`, whose argument type excludes those strings, so every string has exactly one representation and comparing tags is comparing strings (`TagEqualityIsNameEquality`).
- `RectF.intersect` is not part of this model. `Geometry.Intersect` follows its documented behaviour: strict overlap on both axes, returning the overlap rectangle.
- An uninitialised `lateinit` reference (camera, player or score used before it is set) throws in the source. The model does not raise that error: the methods that use these references require them to be set (`HasPlayer`, `Ready`).
- ProcessCollisions, AdvanceFrame, Render: after a scan over a non-empty list, the contract does not state the final value of the scratch rectangle `bounds`. `ScanObject` does state that each iteration leaves the current object's rectangle there. That value is overwritten before it is read, at line 88 of the next frame, so no decision depends on it.
- Game objects are assumed not to redefine `equals`, so `objects.remove(obj)` at line 55 removes by reference identity (`RemoveFirst`). `GameObject` is not part of this model.
- The value `Player.resetJumpCount` sets is assumed to be 0 (`JumpReset`). `Player` is not part of this model.
