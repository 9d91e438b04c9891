/** Reference definitions of what one frame of the scene does to its object
    list and to the player, written as functions over the current state of
    the objects, together with the properties proved about them. The
    imperative `Scene` class is proved against these. */
module SceneRules {
  import opened Geometry
  import opened Entities

  /** An overlap shorter than this counts as "just touching the top". */
  const NearTopThreshold: real := 16.0

  /** Objects further than this behind the camera are dropped. */
  const CullDistance: real := 3000.0

  // ---------------------------------------------------------------------
  // Deferred removal and addition (the flush)
  // ---------------------------------------------------------------------

  /** `LinkedList.remove(o)`: drop the first occurrence of `o`, if any.
      Game objects are assumed not to redefine `equals`, so this is
      reference identity. */
  function RemoveFirst<T(==)>(s: seq<T>, o: T): (r: seq<T>)
    ensures |r| == if o in s then |s| - 1 else |s|
  {
    if s == [] then []
    else if s[0] == o then s[1..]
    else [s[0]] + RemoveFirst(s[1..], o)
  }

  /** Remove the queued objects one after another, in queue order. */
  function RemoveAll<T(==)>(s: seq<T>, queue: seq<T>): (r: seq<T>)
    ensures |s| - |queue| <= |r| <= |s|
  {
    if queue == [] then s
    else RemoveFirst(RemoveAll(s, queue[..|queue| - 1]), queue[|queue| - 1])
  }

  /** The object list after a flush: removals first, then additions appended. */
  function Flushed<T(==)>(s: seq<T>, toRemove: seq<T>, toAdd: seq<T>): seq<T>
  {
    RemoveAll(s, toRemove) + toAdd
  }

  /** Removal touches exactly the first occurrence: when `o` first occurs at
      index `k`, the entries before it and after it keep their order. */
  lemma {:induction false} RemoveFirstDropsFirstOccurrence<T>(s: seq<T>, o: T, k: nat)
    requires k < |s| && s[k] == o && o !in s[..k]
    ensures RemoveFirst(s, o) == s[..k] + s[k + 1..]
    decreases k
  {
    if k == 0 {
      assert s[..k] + s[k + 1..] == s[1..];
    } else {
      assert s[..k] == [s[0]] + s[1..][..k - 1];
      RemoveFirstDropsFirstOccurrence(s[1..], o, k - 1);
      assert s[1..][k..] == s[k + 1..];
    }
  }

  /** Removing an object the list does not hold leaves the list alone. */
  lemma {:induction false} RemoveFirstAbsent<T>(s: seq<T>, o: T)
    requires o !in s
    ensures RemoveFirst(s, o) == s
  {
    if s != [] {
      RemoveFirstAbsent(s[1..], o);
    }
  }

  /** Counted with multiplicity, removal takes away one copy of `o` when there is one. */
  lemma {:induction false} RemoveFirstMultiset<T>(s: seq<T>, o: T)
    ensures multiset(RemoveFirst(s, o)) == multiset(s) - multiset{o}
  {
    if s != [] {
      assert s == [s[0]] + s[1..];
      if s[0] != o {
        RemoveFirstMultiset(s[1..], o);
      }
    }
  }

  /** Removing a queue of objects takes away, for each object, as many copies
      as the queue names and the list holds. */
  lemma {:induction false} RemoveAllMultiset<T>(s: seq<T>, queue: seq<T>)
    ensures multiset(RemoveAll(s, queue)) == multiset(s) - multiset(queue)
  {
    if queue != [] {
      var front, last := queue[..|queue| - 1], queue[|queue| - 1];
      assert queue == front + [last];
      RemoveAllMultiset(s, front);
      RemoveFirstMultiset(RemoveAll(s, front), last);
      assert multiset(queue) == multiset(front) + multiset{last};
      SubtractInTurn(multiset(s), multiset(front), multiset{last});
    }
  }

  /** Taking away `b` and then `c` takes away `b + c`. */
  lemma SubtractInTurn<T>(a: multiset<T>, b: multiset<T>, c: multiset<T>)
    ensures (a - b) - c == a - (b + c)
  {
    forall e ensures ((a - b) - c)[e] == (a - (b + c))[e] {
    }
  }

  /** Removal never brings in anything that was not already in the list. */
  lemma {:induction false} RemoveAllSubset<T>(s: seq<T>, queue: seq<T>)
    ensures forall o :: o in RemoveAll(s, queue) ==> o in s
  {
    RemoveAllMultiset(s, queue);
    forall o | o in RemoveAll(s, queue) ensures o in s {
      assert o in multiset(RemoveAll(s, queue));
    }
  }

  /** `a` is `b` with some entries deleted: the entries of `a` occur in `b`
      in the same relative order. */
  predicate SubsequenceOf<T(==)>(a: seq<T>, b: seq<T>)
    decreases |b|
  {
    a == [] ||
    (b != [] && ((a[0] == b[0] && SubsequenceOf(a[1..], b[1..])) || SubsequenceOf(a, b[1..])))
  }

  lemma {:induction false} SubsequenceOfSelf<T>(s: seq<T>)
    ensures SubsequenceOf(s, s)
    decreases |s|
  {
    if s != [] {
      SubsequenceOfSelf(s[1..]);
    }
  }

  /** Deleting entries from a list obtained by deleting entries deletes entries. */
  lemma {:induction false} SubsequenceTransitive<T>(a: seq<T>, b: seq<T>, c: seq<T>)
    requires SubsequenceOf(a, b) && SubsequenceOf(b, c)
    ensures SubsequenceOf(a, c)
    decreases |c|
  {
    if a != [] {
      if SubsequenceOf(b, c[1..]) {
        SubsequenceTransitive(a, b, c[1..]);
      } else if a[0] == b[0] && SubsequenceOf(a[1..], b[1..]) {
        SubsequenceTransitive(a[1..], b[1..], c[1..]);
      } else {
        SubsequenceTransitive(a, b[1..], c[1..]);
      }
    }
  }

  /** Removing one object keeps the other entries in their relative order. */
  lemma {:induction false} RemoveFirstKeepsOrder<T>(s: seq<T>, o: T)
    ensures SubsequenceOf(RemoveFirst(s, o), s)
    decreases |s|
  {
    if s != [] {
      if s[0] == o {
        SubsequenceOfSelf(s[1..]);
      } else {
        RemoveFirstKeepsOrder(s[1..], o);
        var r := RemoveFirst(s, o);
        assert r[0] == s[0] && r[1..] == RemoveFirst(s[1..], o);
      }
    }
  }

  /** The removals of a flush keep the remaining objects in their relative order. */
  lemma {:induction false} RemoveAllKeepsOrder<T>(s: seq<T>, queue: seq<T>)
    ensures SubsequenceOf(RemoveAll(s, queue), s)
  {
    if queue == [] {
      SubsequenceOfSelf(s);
    } else {
      var front := queue[..|queue| - 1];
      RemoveAllKeepsOrder(s, front);
      RemoveFirstKeepsOrder(RemoveAll(s, front), queue[|queue| - 1]);
      SubsequenceTransitive(RemoveAll(s, queue), RemoveAll(s, front), s);
    }
  }

  /** The flush: the object count becomes (before) - (removals that matched)
      + (additions), the additions come last in enqueue order, and the
      objects that were there before keep their relative order. */
  lemma FlushedShape<T>(s: seq<T>, toRemove: seq<T>, toAdd: seq<T>)
    ensures multiset(Flushed(s, toRemove, toAdd)) == (multiset(s) - multiset(toRemove)) + multiset(toAdd)
    ensures |Flushed(s, toRemove, toAdd)| >= |toAdd|
    ensures Flushed(s, toRemove, toAdd)[|Flushed(s, toRemove, toAdd)| - |toAdd|..] == toAdd
    ensures SubsequenceOf(Flushed(s, toRemove, toAdd)[..|Flushed(s, toRemove, toAdd)| - |toAdd|], s)
    ensures Flushed(s, [], toAdd) == s + toAdd
  {
    RemoveAllMultiset(s, toRemove);
    RemoveAllKeepsOrder(s, toRemove);
    var r := RemoveAll(s, toRemove);
    assert (r + toAdd)[|r|..] == toAdd && (r + toAdd)[..|r|] == r;
  }

  // ---------------------------------------------------------------------
  // Culling
  // ---------------------------------------------------------------------

  /** An object stays in the scene unless it is not a "death" object and lies
      more than `CullDistance` behind the camera. */
  predicate Survives(o: GameObject, cameraX: real)
    reads o`x
  {
    o.tag == DeathTag || !(o.x < cameraX - CullDistance)
  }

  /** The object list after culling. */
  function Culled(s: seq<GameObject>, cameraX: real): (r: seq<GameObject>)
    reads s`x
    ensures |r| <= |s|
    decreases |s|
  {
    if s == [] then []
    else
      var last := s[|s| - 1];
      Culled(s[..|s| - 1], cameraX) + (if Survives(last, cameraX) then [last] else [])
  }

  /** Culling one more object of a list: it is kept exactly when it survives. */
  lemma CulledSnoc(s: seq<GameObject>, k: nat, cameraX: real)
    requires k < |s|
    ensures Culled(s[..k + 1], cameraX) == Culled(s[..k], cameraX) + (if Survives(s[k], cameraX) then [s[k]] else [])
  {
    assert s[..k + 1][..k] == s[..k];
  }

  /** Culling keeps exactly the survivors, each with its multiplicity. In
      particular no object left in the list lies too far behind the camera
      unless it is a "death" object, and every "death" object stays. */
  lemma {:induction false} CulledKeepsExactlySurvivors(s: seq<GameObject>, cameraX: real)
    ensures forall o: GameObject :: multiset(Culled(s, cameraX))[o] == if Survives(o, cameraX) then multiset(s)[o] else 0
  {
    if s != [] {
      var front, last := s[..|s| - 1], s[|s| - 1];
      assert s == front + [last];
      CulledKeepsExactlySurvivors(front, cameraX);
    }
  }

  /** Culling works element by element: it commutes with concatenation, so the
      survivors keep their relative order. */
  lemma {:induction false} CulledPreservesOrder(a: seq<GameObject>, b: seq<GameObject>, cameraX: real)
    ensures Culled(a + b, cameraX) == Culled(a, cameraX) + Culled(b, cameraX)
    decreases |b|
  {
    if b == [] {
      assert a + b == a;
    } else {
      var front, last := b[..|b| - 1], b[|b| - 1];
      assert (a + b)[..|a + b| - 1] == a + front;
      assert (a + b)[|a + b| - 1] == last;
      CulledPreservesOrder(a, front, cameraX);
    }
  }

  /** No object left after culling violates the culling rule. */
  lemma CulledSurvivorsOnly(s: seq<GameObject>, cameraX: real)
    ensures forall o :: o in Culled(s, cameraX) ==> o in s && (o.tag == DeathTag || o.x >= cameraX - CullDistance)
  {
    CulledKeepsExactlySurvivors(s, cameraX);
    forall o | o in Culled(s, cameraX)
      ensures o in s && (o.tag == DeathTag || o.x >= cameraX - CullDistance)
    {
      assert multiset(Culled(s, cameraX))[o] > 0;
    }
  }

  /** The camera is never culled, since it is not behind itself. */
  lemma CameraNeverCulled(s: seq<GameObject>, camera: GameObject)
    requires camera in s
    ensures camera in Culled(s, camera.x)
  {
    CulledKeepsExactlySurvivors(s, camera.x);
    assert multiset(s)[camera] > 0;
  }

  // ---------------------------------------------------------------------
  // Collisions
  // ---------------------------------------------------------------------

  /** The landing decision for a block the player overlaps: the player is not
      moving up, the overlap reaches down to the player's bottom edge, and the
      overlap is shallow or the player was not already resting on a block. */
  predicate Lands(vy: real, hit: Rect, playerBounds: Rect, wasColliding: bool)
  {
    !(vy < 0.0) && hit.bottom == playerBounds.bottom &&
    (hit.Height() < NearTopThreshold || !wasColliding)
  }

  /** The rectangles of a list of objects, as they are now. */
  function BoundsOf(s: seq<GameObject>): (r: seq<Rect>)
    reads s`x, s`y
    ensures |r| == |s| && forall j :: 0 <= j < |s| ==> r[j] == s[j].Bounds()
    decreases |s|
  {
    if s == [] then [] else BoundsOf(s[..|s| - 1]) + [s[|s| - 1].Bounds()]
  }

  /** The overlap of the player's rectangle with an object's, if any. */
  function HitOf(playerBounds: Rect, o: GameObject): Option<Rect>
    reads o`x, o`y
  {
    Intersect(playerBounds, o.Bounds())
  }

  /** `o`, whose rectangle is `box`, is a block the player lands on. */
  predicate LandsOn(playerBounds: Rect, vy: real, wasColliding: bool, o: GameObject, box: Rect)
  {
    o.tag == BlockTag && Intersect(playerBounds, box).Some? &&
    Lands(vy, Intersect(playerBounds, box).value, playerBounds, wasColliding)
  }

  /** `o`, whose rectangle is `box`, gets scheduled for destruction. */
  predicate SchedulesDestruct(playerBounds: Rect, vy: real, wasColliding: bool, o: GameObject, box: Rect)
  {
    o.IsDestructibleBlock() && LandsOn(playerBounds, vy, wasColliding, o, box)
  }

  /** What a collision scan produces: whether any block was hit, the top of
      the block the player finally stands on, the collectables picked up (in
      scan order) and whether a "death" object was hit. */
  datatype ScanOutcome = ScanOutcome(
    colliding: bool,
    landingTop: Option<real>,
    collected: seq<GameObject>,
    death: bool)

  /** The effect of scanning one object whose rectangle is `box`: intersect,
      then dispatch on the tag; tags other than the three have no effect. */
  function Step(r: ScanOutcome, playerBounds: Rect, vy: real, wasColliding: bool, o: GameObject, box: Rect): ScanOutcome
  {
    var hit := Intersect(playerBounds, box);
    if hit.None? then r
    else if o.tag == BlockTag then
      r.(colliding := true,
         landingTop := if Lands(vy, hit.value, playerBounds, wasColliding) then Some(box.top) else r.landingTop)
    else if o.tag == CollectableTag then r.(collected := r.collected + [o])
    else if o.tag == DeathTag then r.(death := true)
    else r
  }

  /** The scan over `s` with the rectangles `boxes`, one per object, against
      the player's rectangle as read before the scan. */
  function ScanWith(playerBounds: Rect, vy: real, wasColliding: bool, s: seq<GameObject>, boxes: seq<Rect>): ScanOutcome
    requires |boxes| == |s|
    decreases |s|
  {
    if s == [] then ScanOutcome(false, None, [], false)
    else
      Step(ScanWith(playerBounds, vy, wasColliding, s[..|s| - 1], boxes[..|s| - 1]),
           playerBounds, vy, wasColliding, s[|s| - 1], boxes[|s| - 1])
  }

  /** The scan over `s` with the objects' current rectangles. */
  function Scan(playerBounds: Rect, vy: real, wasColliding: bool, s: seq<GameObject>): ScanOutcome
    reads s`x, s`y
  {
    ScanWith(playerBounds, vy, wasColliding, s, BoundsOf(s))
  }

  /** The scan handles its objects one after another, in list order. */
  lemma ScanUnfold(playerBounds: Rect, vy: real, wasColliding: bool, s: seq<GameObject>)
    requires s != []
    ensures Scan(playerBounds, vy, wasColliding, s) ==
            Step(Scan(playerBounds, vy, wasColliding, s[..|s| - 1]), playerBounds, vy, wasColliding,
                 s[|s| - 1], s[|s| - 1].Bounds())
  {
    assert BoundsOf(s)[..|s| - 1] == BoundsOf(s[..|s| - 1]);
  }

  /** After a scan the player is colliding exactly when some "block" object
      overlapped it, whether or not that block was landed on. */
  lemma {:induction false} ScanCollidingIff(playerBounds: Rect, vy: real, wasColliding: bool, s: seq<GameObject>)
    ensures Scan(playerBounds, vy, wasColliding, s).colliding <==>
            exists j :: 0 <= j < |s| && s[j].tag == BlockTag && HitOf(playerBounds, s[j]).Some?
    decreases |s|
  {
    if s != [] {
      var front := s[..|s| - 1];
      ScanUnfold(playerBounds, vy, wasColliding, s);
      ScanCollidingIff(playerBounds, vy, wasColliding, front);
      assert forall j :: 0 <= j < |front| ==> front[j] == s[j];
    }
  }

  /** Every overlapping collectable is picked up once per occurrence in the
      list, and nothing else is picked up. */
  lemma {:induction false} ScanCollectsOverlappingCollectables(playerBounds: Rect, vy: real, wasColliding: bool, s: seq<GameObject>)
    ensures forall o: GameObject :: multiset(Scan(playerBounds, vy, wasColliding, s).collected)[o] ==
              if o.tag == CollectableTag && HitOf(playerBounds, o).Some? then multiset(s)[o] else 0
    decreases |s|
  {
    if s != [] {
      var front, last := s[..|s| - 1], s[|s| - 1];
      assert s == front + [last];
      ScanUnfold(playerBounds, vy, wasColliding, s);
      ScanCollectsOverlappingCollectables(playerBounds, vy, wasColliding, front);
    }
  }

  /** The scan reports a hit on a "death" object exactly when one overlapped
      the player. */
  lemma {:induction false} ScanDeathIff(playerBounds: Rect, vy: real, wasColliding: bool, s: seq<GameObject>)
    ensures Scan(playerBounds, vy, wasColliding, s).death <==>
            exists j :: 0 <= j < |s| && s[j].tag == DeathTag && HitOf(playerBounds, s[j]).Some?
    decreases |s|
  {
    if s != [] {
      var front := s[..|s| - 1];
      ScanUnfold(playerBounds, vy, wasColliding, s);
      ScanDeathIff(playerBounds, vy, wasColliding, front);
      assert forall j :: 0 <= j < |front| ==> front[j] == s[j];
    }
  }

  /** The player ends up on a block exactly when some block in the list
      qualifies for landing. */
  lemma {:induction false} ScanLandsIff(playerBounds: Rect, vy: real, wasColliding: bool, s: seq<GameObject>)
    ensures Scan(playerBounds, vy, wasColliding, s).landingTop.Some? <==>
            exists j :: 0 <= j < |s| && LandsOn(playerBounds, vy, wasColliding, s[j], s[j].Bounds())
    decreases |s|
  {
    if s != [] {
      var front := s[..|s| - 1];
      ScanUnfold(playerBounds, vy, wasColliding, s);
      ScanLandsIff(playerBounds, vy, wasColliding, front);
      assert forall j :: 0 <= j < |front| ==> front[j] == s[j];
    }
  }

  /** `s[j]` qualifies for landing and no later object in `s` does. */
  predicate LastQualifying(playerBounds: Rect, vy: real, wasColliding: bool, s: seq<GameObject>, j: int)
    reads s`x, s`y
  {
    0 <= j < |s| && LandsOn(playerBounds, vy, wasColliding, s[j], s[j].Bounds()) &&
    forall k :: j < k < |s| ==> !LandsOn(playerBounds, vy, wasColliding, s[k], s[k].Bounds())
  }

  /** The last qualifying object of a list stays the last qualifying one when
      an object that does not qualify is appended. */
  lemma LastQualifyingExtends(playerBounds: Rect, vy: real, wasColliding: bool, s: seq<GameObject>, j: int)
    requires s != []
    requires LastQualifying(playerBounds, vy, wasColliding, s[..|s| - 1], j)
    requires !LandsOn(playerBounds, vy, wasColliding, s[|s| - 1], s[|s| - 1].Bounds())
    ensures LastQualifying(playerBounds, vy, wasColliding, s, j)
  {
    var front := s[..|s| - 1];
    assert s[j] == front[j];
    forall k | j < k < |s| ensures !LandsOn(playerBounds, vy, wasColliding, s[k], s[k].Bounds()) {
      if k < |front| { assert s[k] == front[k]; }
    }
  }

  /** When the player lands, it lands on the LAST qualifying block in list
      order: the player's rectangle is not re-read after a snap, so a later
      qualifying block overrides an earlier one. */
  lemma {:induction false} ScanLandsOnLastQualifyingBlock(playerBounds: Rect, vy: real, wasColliding: bool, s: seq<GameObject>)
    ensures Scan(playerBounds, vy, wasColliding, s).landingTop.Some? ==>
            exists j :: LastQualifying(playerBounds, vy, wasColliding, s, j) &&
              Scan(playerBounds, vy, wasColliding, s).landingTop.value == s[j].y
    decreases |s|
  {
    if s != [] {
      var front, last := s[..|s| - 1], s[|s| - 1];
      var top := Scan(playerBounds, vy, wasColliding, s).landingTop;
      ScanUnfold(playerBounds, vy, wasColliding, s);
      if LandsOn(playerBounds, vy, wasColliding, last, last.Bounds()) {
        assert top == Some(last.y);
        assert LastQualifying(playerBounds, vy, wasColliding, s, |s| - 1);
      } else if top.Some? {
        ScanLandsOnLastQualifyingBlock(playerBounds, vy, wasColliding, front);
        var j :| LastQualifying(playerBounds, vy, wasColliding, front, j) &&
          Scan(playerBounds, vy, wasColliding, front).landingTop.value == front[j].y;
        LastQualifyingExtends(playerBounds, vy, wasColliding, s, j);
      }
    }
  }

  /** A player moving up never lands, whatever it overlaps. */
  lemma RisingPlayerNeverLands(playerBounds: Rect, vy: real, wasColliding: bool, s: seq<GameObject>)
    requires vy < 0.0
    ensures Scan(playerBounds, vy, wasColliding, s).landingTop.None?
  {
    ScanLandsIff(playerBounds, vy, wasColliding, s);
  }

  /** A player already resting on blocks stays put while every block overlap
      is at least `NearTopThreshold` deep; other objects do not matter. */
  lemma RestingPlayerStaysPut(playerBounds: Rect, vy: real, s: seq<GameObject>)
    requires forall j :: 0 <= j < |s| && s[j].tag == BlockTag && HitOf(playerBounds, s[j]).Some? ==>
               HitOf(playerBounds, s[j]).value.Height() >= NearTopThreshold
    ensures Scan(playerBounds, vy, true, s).landingTop.None?
  {
    ScanLandsIff(playerBounds, vy, true, s);
  }

  /** The snap of a landing puts the player's bottom edge on the block's top
      edge: its height is unchanged and the two no longer overlap. */
  lemma SnapRestsOnBlock(p: GameObject, block: Rect)
    requires p.y == block.top - p.h
    ensures p.Bounds().bottom == block.top && p.Bounds().Height() == p.h
    ensures Intersect(p.Bounds(), block).None?
  {
    RestingOnTopDoesNotIntersect(p.Bounds(), block);
  }
}
