/** The scene: the ordered list of world objects, the deferred add/remove
    queues, and the per-frame bookkeeping (timing, collision scan, flush,
    culling). Every method updates the scene's fields in place, and its
    contract ties the new state to the reference definitions in `SceneRules`. */
module GameScene {
  import opened Geometry
  import opened Entities
  import opened SceneRules

  /** The state a collision scan starts from. */
  datatype ScanStart = ScanStart(
    playerBounds: Rect,
    vy: real,
    wasColliding: bool,
    gameOver: bool,
    toRemove: seq<GameObject>,
    collected: int,
    y: real,
    jumpCount: int)

  class Scene {
    var objects: seq<GameObject>
    // `lateinit` references: null until the matching setter is called
    var camera: GameObject?
    var player: GameObject?
    var score: GameObject?

    var lastFrameMillis: int
    var gameOver: bool

    /** The player's rectangle, read once at the start of each scan. */
    var playerBounds: Rect
    /** Scratch rectangle holding the bounds of the object being scanned. */
    var bounds: Rect

    var objToRemove: seq<GameObject>
    var objToAdd: seq<GameObject>

    constructor ()
      ensures objects == [] && camera == null && player == null && score == null
      ensures lastFrameMillis == 0 && !gameOver
      ensures playerBounds == Rect(0.0, 0.0, 0.0, 0.0) && bounds == Rect(0.0, 0.0, 0.0, 0.0)
      ensures objToRemove == [] && objToAdd == []
    {
      objects, camera, player, score := [], null, null, null;
      lastFrameMillis, gameOver := 0, false;
      playerBounds, bounds := Rect(0.0, 0.0, 0.0, 0.0), Rect(0.0, 0.0, 0.0, 0.0);
      objToRemove, objToAdd := [], [];
    }

    /** The player has been set. */
    predicate HasPlayer()
      reads this`player
    {
      player != null && player.IsPlayer()
    }

    /** Camera, player and score have all been set, as a frame needs them. */
    predicate Ready()
      reads this`player, this`camera, this`score
    {
      HasPlayer() && camera != null && score != null
    }

    /** The state a collision scan would start from, read off the fields. */
    ghost function Start(): ScanStart
      requires HasPlayer()
      reads this`player, this`gameOver, this`objToRemove
      reads player`x, player`y, player`vy, player`isColliding, player`collected, player`jumpCount
    {
      ScanStart(player.Bounds(), player.vy, player.isColliding, gameOver, objToRemove, player.collected, player.y,
                player.jumpCount)
    }

    /** What the collision scan will do in the current state. */
    ghost function Outcome(): ScanOutcome
      requires HasPlayer()
      reads this`player, this`objects, player`x, player`y, player`vy, player`isColliding, objects`x, objects`y
    {
      Scan(player.Bounds(), player.vy, player.isColliding, objects)
    }

    // -------------------------------------------------------------------
    // Registration and deferred queues
    // -------------------------------------------------------------------

    method AddObject(gameObject: GameObject)
      modifies this`objects
      ensures objects == old(objects) + [gameObject]
    {
      objects := objects + [gameObject];
    }

    method SetCamera(camera: GameObject)
      requires camera.kind == CameraKind
      modifies this`objects, this`camera
      ensures objects == old(objects) + [camera] && this.camera == camera
    {
      AddObject(camera);
      this.camera := camera;
    }

    method SetPlayer(player: GameObject)
      requires player.IsPlayer()
      modifies this`objects, this`player
      ensures objects == old(objects) + [player] && this.player == player
      ensures HasPlayer()
    {
      AddObject(player);
      this.player := player;
    }

    method SetScore(score: GameObject)
      requires score.kind == ScoreKind
      modifies this`objects, this`score
      ensures objects == old(objects) + [score] && this.score == score
    {
      AddObject(score);
      this.score := score;
    }

    /** Queue an object to be appended at the next flush. */
    method DelayedAddObject(obj: GameObject)
      modifies this`objToAdd
      ensures objToAdd == old(objToAdd) + [obj]
    {
      objToAdd := objToAdd + [obj];
    }

    /** Queue an object to be removed at the next flush. */
    method DelayedRemoveObject(obj: GameObject)
      modifies this`objToRemove
      ensures objToRemove == old(objToRemove) + [obj]
    {
      objToRemove := objToRemove + [obj];
    }

    // -------------------------------------------------------------------
    // One frame
    // -------------------------------------------------------------------

    /** Frame timing: the elapsed time in seconds since the previous frame,
        which is 0 on the very first frame. */
    method Tick(now: int) returns (delta: real)
      modifies this`lastFrameMillis
      ensures old(lastFrameMillis) == 0 ==> delta == 0.0
      ensures old(lastFrameMillis) != 0 ==> delta == (now - old(lastFrameMillis)) as real / 1000.0
      ensures lastFrameMillis == now
    {
      if lastFrameMillis == 0 {
        lastFrameMillis := now;
      }
      delta := (now - lastFrameMillis) as real / 1000.0;
      lastFrameMillis := now;
    }

    /** One frame: timing, then the rest of the frame with the elapsed time.
        The per-object update and drawing steps are not modelled. */
    method Render(now: int)
      requires Ready()
      modifies this`lastFrameMillis, this`playerBounds, this`bounds, this`gameOver
      modifies this`objects, this`objToRemove, this`objToAdd
      modifies player`y, player`vy, player`jumpCount, player`collected, player`isColliding
      modifies objects`destructScheduled
      ensures lastFrameMillis == now
      ensures var r := old(Outcome());
              objects == Culled(Flushed(old(objects), old(objToRemove) + r.collected, old(objToAdd)), camera.x)
      ensures objToRemove == [] && objToAdd == []
      ensures playerBounds == old(player.Bounds())
      ensures var r := old(Outcome());
              gameOver == (old(gameOver) || r.death) && player.isColliding == r.colliding &&
              player.collected == old(player.collected) + |r.collected|
      ensures var r := old(Outcome());
              match r.landingTop
              case Some(top) => player.y == top - player.h && player.vy == 0.0 && player.jumpCount == JumpReset
              case None => player.y == old(player.y) && player.vy == old(player.vy) && player.jumpCount == old(player.jumpCount)
      ensures forall j :: 0 <= j < |old(objects)| ==>
                old(objects)[j].destructScheduled ==
                  (old(objects[j].destructScheduled) ||
                   SchedulesDestruct(old(player.Bounds()), old(player.vy), old(player.isColliding), old(objects)[j],
                                     old(objects[j].Bounds())))
    {
      ghost var objs := objects;
      var delta := Tick(now);
      assert objects == objs && forall j :: 0 <= j < |objs| ==>
        old(objs[j].destructScheduled) == objs[j].destructScheduled && old(objs[j].Bounds()) == objs[j].Bounds();
      assert old(Outcome()) == Outcome() && old(player.Bounds()) == player.Bounds();
      AdvanceFrame(delta);
    }

    /** The part of a frame after the timing: the collision scan, the flush of
        the queues and culling. */
    method AdvanceFrame(delta: real)
      requires Ready()
      modifies this`playerBounds, this`bounds, this`gameOver
      modifies this`objects, this`objToRemove, this`objToAdd
      modifies player`y, player`vy, player`jumpCount, player`collected, player`isColliding
      modifies objects`destructScheduled
      ensures var r := old(Outcome());
              objects == Culled(Flushed(old(objects), old(objToRemove) + r.collected, old(objToAdd)), camera.x)
      ensures objToRemove == [] && objToAdd == []
      ensures playerBounds == old(player.Bounds())
      ensures var r := old(Outcome());
              gameOver == (old(gameOver) || r.death) && player.isColliding == r.colliding &&
              player.collected == old(player.collected) + |r.collected|
      ensures var r := old(Outcome());
              match r.landingTop
              case Some(top) => player.y == top - player.h && player.vy == 0.0 && player.jumpCount == JumpReset
              case None => player.y == old(player.y) && player.vy == old(player.vy) && player.jumpCount == old(player.jumpCount)
      ensures forall j :: 0 <= j < |old(objects)| ==>
                old(objects)[j].destructScheduled ==
                  (old(objects[j].destructScheduled) ||
                   SchedulesDestruct(old(player.Bounds()), old(player.vy), old(player.isColliding), old(objects)[j],
                                     old(objects[j].Bounds())))
    {
      ghost var r := Outcome();
      ghost var removed := objToRemove + r.collected;
      ProcessCollisions(delta);
      assert objToRemove == removed;
      FlushQueues();
      ghost var flushed := objects;
      Cull();
      assert objects == Culled(flushed, camera.x);
    }

    /** Apply the queued removals (first occurrence of each, in queue order),
        then append the queued additions, then empty both queues. */
    method FlushQueues()
      modifies this`objects, this`objToRemove, this`objToAdd
      ensures objects == Flushed(old(objects), old(objToRemove), old(objToAdd))
      ensures objToRemove == [] && objToAdd == []
    {
      for i := 0 to |objToRemove|
        invariant objects == RemoveAll(old(objects), objToRemove[..i])
        modifies this`objects
      {
        assert objToRemove[..i + 1][..i] == objToRemove[..i];
        objects := RemoveFirst(objects, objToRemove[i]);
      }
      assert objToRemove[..|objToRemove|] == objToRemove;
      objToRemove := [];

      ghost var kept := objects;
      for i := 0 to |objToAdd|
        invariant objects == kept + objToAdd[..i]
        modifies this`objects
      {
        assert objToAdd[..i + 1] == objToAdd[..i] + [objToAdd[i]];
        objects := objects + [objToAdd[i]];
      }
      assert objToAdd[..|objToAdd|] == objToAdd;
      objToAdd := [];
    }

    /** Drop every object that is not a "death" object and lies more than
        `CullDistance` behind the camera, walking the list front to back as
        the iterator does: a removal keeps the index, a survivor advances it. */
    method Cull()
      requires camera != null
      modifies this`objects
      ensures objects == Culled(old(objects), camera.x)
    {
      var s := objects;
      var kept := s;
      var cameraX := camera.x;
      var i := 0;
      ghost var k := 0;
      while i < |kept|
        invariant 0 <= i <= |kept| && 0 <= k <= |s|
        invariant kept[..i] == Culled(s[..k], cameraX)
        invariant kept[i..] == s[k..]
        decreases |kept| - i
      {
        var obj := kept[i];
        assert obj == s[k] && kept[i + 1..] == s[k + 1..];
        CulledSnoc(s, k, cameraX);
        if obj.tag != DeathTag && obj.x < cameraX - CullDistance {
          ghost var before := kept;
          kept := kept[..i] + kept[i + 1..];
          assert kept[..i] == before[..i] && kept[i..] == before[i + 1..];
        } else {
          assert kept[..i + 1] == kept[..i] + [obj];
          i := i + 1;
        }
        k := k + 1;
      }
      assert s[..k] == s;
      objects := kept;
    }

    // -------------------------------------------------------------------
    // Collisions
    // -------------------------------------------------------------------

    /** The scene and player state a scan has reached, measured against the
        state `st` it started from: the fields show the effects of outcome `r`. */
    ghost predicate Reflects(st: ScanStart, r: ScanOutcome)
      requires HasPlayer()
      reads this`player, this`playerBounds, this`gameOver, this`objToRemove
      reads player`y, player`vy, player`jumpCount, player`collected
    {
      playerBounds == st.playerBounds &&
      objToRemove == st.toRemove + r.collected &&
      Applied(st, r)
    }

    /** The lasting effects of scan outcome `r` on a game that was in state
        `st`: a "death" hit ends the game, every collectable hit counts once,
        and a landing puts the player on top of the block, stopped, with its
        jumps reset; without a landing the player is where it was. */
    ghost predicate Applied(st: ScanStart, r: ScanOutcome)
      requires HasPlayer()
      reads this`player, this`gameOver, player`y, player`vy, player`jumpCount, player`collected
    {
      gameOver == (st.gameOver || r.death) &&
      player.collected == st.collected + |r.collected| &&
      match r.landingTop
      case Some(top) =>
        !(st.vy < 0.0) && player.y == top - player.h && player.vy == 0.0 && player.jumpCount == JumpReset
      case None =>
        player.y == st.y && player.vy == st.vy && player.jumpCount == st.jumpCount
    }

    /** The collision scan: every object's rectangle is intersected with the
        player's rectangle as read before the scan, and the overlap is
        dispatched on the object's tag; then the player's resting flag is set
        from whether any block overlapped. */
    method ProcessCollisions(delta: real)
      requires HasPlayer()
      modifies this`playerBounds, this`bounds, this`gameOver, this`objToRemove
      modifies player`y, player`vy, player`jumpCount, player`collected, player`isColliding
      modifies objects`destructScheduled
      ensures playerBounds == old(player.Bounds())
      ensures |objects| == 0 ==>
                bounds == if old(player.vy) > 0.0 then old(bounds).(top := old(bounds.top) - old(player.vy) * delta)
                          else old(bounds)
      ensures Reflects(old(Start()), old(Outcome())) && player.isColliding == old(Outcome()).colliding
      ensures forall j :: 0 <= j < |objects| ==>
                objects[j].destructScheduled ==
                  (old(objects[j].destructScheduled) ||
                   SchedulesDestruct(old(player.Bounds()), old(player.vy), old(player.isColliding), objects[j],
                                     old(objects[j].Bounds())))
    {
      var colliding := ScanObjects(delta);
      player.isColliding := colliding;
    }

    /** The body of the collision scan up to the final flag: the player's
        rectangle is read once, when the player moves down the top edge of the
        scratch rectangle is raised by `velocity.y * delta` (a value the loop
        overwrites before reading it), and then each object is handled in list order. Reports whether
        any block overlapped. */
    method ScanObjects(delta: real) returns (colliding: bool)
      requires HasPlayer()
      modifies this`playerBounds, this`bounds, this`gameOver, this`objToRemove
      modifies player`y, player`vy, player`jumpCount, player`collected, objects`destructScheduled
      ensures playerBounds == old(player.Bounds())
      ensures |objects| == 0 ==>
                bounds == if old(player.vy) > 0.0 then old(bounds).(top := old(bounds.top) - old(player.vy) * delta)
                          else old(bounds)
      ensures Reflects(old(Start()), old(Outcome())) && colliding == old(Outcome()).colliding
      ensures forall j :: 0 <= j < |objects| ==>
                objects[j].destructScheduled ==
                  (old(objects[j].destructScheduled) ||
                   SchedulesDestruct(old(player.Bounds()), old(player.vy), old(player.isColliding), objects[j],
                                     old(objects[j].Bounds())))
    {
      ghost var boxes := BoundsOf(objects);
      ghost var st := Start();
      assert Outcome() == ScanWith(st.playerBounds, st.vy, st.wasColliding, objects, boxes);
      var p := player;
      playerBounds := p.Bounds();
      if p.vy > 0.0 {
        bounds := bounds.(top := bounds.top - p.vy * delta);
      }
      colliding := ScanLoop(st, boxes);
    }

    /** The loop of the collision scan, each object in list order, from the
        scan state `st` with the object rectangles `boxes`. Reports whether
        any block overlapped. */
    method ScanLoop(ghost st: ScanStart, ghost boxes: seq<Rect>) returns (colliding: bool)
      requires HasPlayer() && |boxes| == |objects|
      requires forall j :: 0 <= j < |objects| && objects[j] != player ==> boxes[j] == objects[j].Bounds()
      requires player.isColliding == st.wasColliding
      requires Reflects(st, ScanWith(st.playerBounds, st.vy, st.wasColliding, [], []))
      modifies this`bounds, this`gameOver, this`objToRemove
      modifies player`y, player`vy, player`jumpCount, player`collected, objects`destructScheduled
      ensures var r := ScanWith(st.playerBounds, st.vy, st.wasColliding, objects, boxes);
              Reflects(st, r) && colliding == r.colliding
      ensures forall j :: 0 <= j < |objects| ==>
                objects[j].destructScheduled ==
                  (old(objects[j].destructScheduled) ||
                   SchedulesDestruct(st.playerBounds, st.vy, st.wasColliding, objects[j], boxes[j]))
      ensures |objects| == 0 ==> bounds == old(bounds)
    {
      ghost var sched := set o | o in objects && o.destructScheduled;
      ghost var b0 := bounds;
      colliding := false;
      ghost var acc := ScanWith(st.playerBounds, st.vy, st.wasColliding, [], []);
      var i := 0;
      while i < |objects|
        invariant i <= |objects|
        invariant i == 0 ==> bounds == b0
        invariant Scanned(st, boxes, sched, i, acc) && colliding == acc.colliding
      {
        var blockHit;
        blockHit, acc := ScanObject(i, st, boxes, sched, acc);
        colliding := colliding || blockHit;
        i := i + 1;
      }
      ScanComplete(st, boxes, sched, acc);
    }

    /** A scan that has handled every object has computed the reference scan
        over the whole list and flagged exactly the destructible blocks landed
        on. */
    lemma ScanComplete(st: ScanStart, boxes: seq<Rect>, sched: set<GameObject>, acc: ScanOutcome)
      requires HasPlayer() && Scanned(st, boxes, sched, |objects|, acc)
      ensures acc == ScanWith(st.playerBounds, st.vy, st.wasColliding, objects, boxes) && Reflects(st, acc)
      ensures forall j :: 0 <= j < |objects| ==>
                objects[j].destructScheduled ==
                  (objects[j] in sched || SchedulesDestruct(st.playerBounds, st.vy, st.wasColliding, objects[j], boxes[j]))
    {
      assert objects[..|objects|] == objects && boxes[..|boxes|] == boxes;
      forall j | 0 <= j < |objects|
        ensures objects[j].destructScheduled ==
                  (objects[j] in sched || SchedulesDestruct(st.playerBounds, st.vy, st.wasColliding, objects[j], boxes[j]))
      {
        assert objects[j] in objects;
      }
    }

    /** How far a scan that started from `st` has got: the first `i` objects
        are handled, `acc` is the reference scan over them (with the
        rectangles `boxes` the objects had when the scan began), the fields
        reflect it, and exactly the destructible blocks landed on among them
        have been flagged, on top of the objects `sched` that were flagged already. */
    ghost predicate Scanned(st: ScanStart, boxes: seq<Rect>, sched: set<GameObject>, i: int, acc: ScanOutcome)
      requires HasPlayer()
      reads this`player, this`objects, this`playerBounds, this`gameOver, this`objToRemove
      reads player`y, player`vy, player`jumpCount, player`collected, player`isColliding
      reads objects`x, objects`y, objects`destructScheduled
    {
      0 <= i <= |objects| == |boxes| && player.isColliding == st.wasColliding &&
      (forall j :: 0 <= j < |objects| && objects[j] != player ==> boxes[j] == objects[j].Bounds()) &&
      acc == ScanWith(st.playerBounds, st.vy, st.wasColliding, objects[..i], boxes[..i]) &&
      Reflects(st, acc) &&
      forall o :: o in objects ==>
        o.destructScheduled ==
          (o in sched || (o in objects[..i] && SchedulesDestruct(st.playerBounds, st.vy, st.wasColliding, o, o.Bounds())))
    }

    /** One iteration of the scan loop: the `i`-th object is handled, which
        takes the scan one step further. */
    method ScanObject(i: int, ghost st: ScanStart, ghost boxes: seq<Rect>, ghost sched: set<GameObject>,
                      ghost acc: ScanOutcome) returns (blockHit: bool, ghost next: ScanOutcome)
      requires HasPlayer() && 0 <= i < |objects| && Scanned(st, boxes, sched, i, acc)
      modifies this`bounds, this`gameOver, this`objToRemove
      modifies player`y, player`vy, player`jumpCount, player`collected, objects`destructScheduled
      ensures next == Step(acc, st.playerBounds, st.vy, st.wasColliding, objects[i], boxes[i])
      ensures Scanned(st, boxes, sched, i + 1, next)
      ensures bounds == objects[i].Bounds()
      ensures blockHit == (Intersect(st.playerBounds, boxes[i]).Some? && objects[i].tag == BlockTag)
      ensures (acc.colliding || blockHit) == next.colliding
    {
      next := Step(acc, st.playerBounds, st.vy, st.wasColliding, objects[i], boxes[i]);
      var obj := objects[i];
      ghost var box := obj.Bounds();
      blockHit := ProcessObjectCollision(obj, box, st, acc);
      assert objects[..i + 1][..i] == objects[..i] && boxes[..i + 1][..i] == boxes[..i];
      forall o | o in objects
        ensures o.destructScheduled ==
                  (o in sched || (o in objects[..i + 1] && SchedulesDestruct(st.playerBounds, st.vy, st.wasColliding, o, o.Bounds())))
      {
        if o != obj {
          assert o in objects[..i + 1] <==> o in objects[..i];
        } else {
          assert o in objects[..i + 1];
        }
      }
    }

    /** One object of the scan: intersect its rectangle with the player's,
        then dispatch on its tag. Reports whether it was an overlapping block.
        Its effect is one step of the reference scan. `box` is the object's
        rectangle when it is reached. */
    method ProcessObjectCollision(obj: GameObject, ghost box: Rect, ghost st: ScanStart, ghost prior: ScanOutcome)
      returns (blockHit: bool)
      requires HasPlayer() && Reflects(st, prior) && player.isColliding == st.wasColliding
      requires box == obj.Bounds()
      modifies this`bounds, this`gameOver, this`objToRemove
      modifies player`y, player`vy, player`jumpCount, player`collected, obj`destructScheduled
      ensures bounds == box && obj.Bounds() == box
      ensures Reflects(st, Step(prior, st.playerBounds, st.vy, st.wasColliding, obj, box))
      ensures blockHit == (Intersect(playerBounds, box).Some? && obj.tag == BlockTag)
      ensures obj.destructScheduled ==
                (old(obj.destructScheduled) || SchedulesDestruct(st.playerBounds, st.vy, st.wasColliding, obj, box))
    {
      bounds := obj.Bounds();
      var hit := Intersect(playerBounds, bounds);
      blockHit := false;
      if hit.Some? {
        if obj.tag == BlockTag {
          ProcessBlockCollision(obj, hit.value);
          blockHit := true;
        } else if obj.tag == CollectableTag {
          ProcessCollectableCollision(obj);
          assert objToRemove == st.toRemove + (prior.collected + [obj]);
        } else if obj.tag == DeathTag {
          ProcessDeathCollision(obj);
        }
      }
    }

    /** The landing rule for a block the player overlaps by `collision`. */
    method ProcessBlockCollision(obj: GameObject, collision: Rect)
      requires HasPlayer()
      modifies player`y, player`vy, player`jumpCount, obj`destructScheduled
      // moving up, or the overlap does not reach the player's bottom: no effect
      ensures old(player.vy) < 0.0 || collision.bottom != playerBounds.bottom ==>
                player.y == old(player.y) && player.vy == old(player.vy) &&
                player.jumpCount == old(player.jumpCount) && obj.destructScheduled == old(obj.destructScheduled)
      // a new collision: snap on top of the block, stop, reset jumps
      ensures !(old(player.vy) < 0.0) && collision.bottom == playerBounds.bottom &&
              (collision.Height() < NearTopThreshold || !player.isColliding) ==>
                player.y == bounds.top - player.h && player.vy == 0.0 && player.jumpCount == JumpReset &&
                obj.destructScheduled == (old(obj.destructScheduled) || obj.IsDestructibleBlock())
      // already resting and the overlap is deep: no effect
      ensures player.isColliding && collision.Height() >= NearTopThreshold ==>
                player.y == old(player.y) && player.vy == old(player.vy) &&
                player.jumpCount == old(player.jumpCount) && obj.destructScheduled == old(obj.destructScheduled)
    {
      if player.vy < 0.0 {
        return;
      }
      if collision.bottom != playerBounds.bottom {
        return;
      }
      var nearTop := collision.Height() < NearTopThreshold;
      var newCollision := nearTop || !player.isColliding;
      if newCollision {
        player.y := bounds.top - player.h;
        player.vy := 0.0;
        player.ResetJumpCount();
        if obj.IsDestructibleBlock() {
          obj.ScheduleDestruct();
        }
      }
    }

    /** A collectable: the player collects it and it is queued for removal. */
    method ProcessCollectableCollision(obj: GameObject)
      requires HasPlayer()
      modifies player`collected, this`objToRemove
      ensures player.collected == old(player.collected) + 1
      ensures objToRemove == old(objToRemove) + [obj]
    {
      player.Collect();
      objToRemove := objToRemove + [obj];
    }

    /** A "death" object ends the game. */
    method ProcessDeathCollision(obj: GameObject)
      modifies this`gameOver
      ensures gameOver
    {
      gameOver := true;
    }
  }
}
