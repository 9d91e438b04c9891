/** The world objects the scene holds. The source has an abstract
    `GameObject` with subclasses `Player`, `Camera`, `Block` and `ScoreLabel`;
    their own files are outside this model, so one class stands for all of
    them, carrying the fields the scene reads or writes, and `kind` records
    which subclass an object is. */
module Entities {
  import opened Geometry

  /** The tag strings that have a case of their own in `Tag`. */
  const NamedTags: set<string> := {"block", "collectable", "death", "player", "camera", "score"}

  /** Any other tag string. */
  type OtherName = s: string | s !in NamedTags witness ""

  /** The category tag of an object. In the source it is a string; the tags
      the scene compares against, and those of the subclasses, get a case
      each, and `OtherTag` carries any other string. Each string has exactly
      one representation, so comparing tags compares their strings
      (`TagEqualityIsNameEquality`). */
  datatype Tag =
    | BlockTag
    | CollectableTag
    | DeathTag
    | PlayerTag
    | CameraTag
    | ScoreTag
    | OtherTag(name: OtherName)
  {
    /** The tag's string in the source. */
    function Name(): string
    {
      match this
      case BlockTag => "block"
      case CollectableTag => "collectable"
      case DeathTag => "death"
      case PlayerTag => "player"
      case CameraTag => "camera"
      case ScoreTag => "score"
      case OtherTag(name) => name
    }
  }

  /** Two tags are the same exactly when their strings are equal, so the
      scene's string comparisons are comparisons of `Tag` values. */
  lemma TagEqualityIsNameEquality(a: Tag, b: Tag)
    ensures a == b <==> a.Name() == b.Name()
  {
  }

  /** The value the player's jump counter is reset to on landing (assumed to
      be 0; `Player.resetJumpCount` is not part of this model). */
  const JumpReset: int := 0

  datatype Kind =
    | PlayerKind
    | CameraKind
    | ScoreKind
    | BlockKind(destructible: bool)
    | PlainKind

  class GameObject {
    const tag: Tag
    const kind: Kind
    const w: real
    const h: real
    var x: real
    var y: real
    /** Vertical velocity; positive is downward. */
    var vy: real
    // Player state
    var isColliding: bool
    var jumpCount: int
    var collected: int
    // Block state
    var destructScheduled: bool

    /** A world object with a category tag (collectables, hazards, ...). */
    constructor (tag: Tag, x: real, y: real, w: real, h: real)
      ensures this.tag == tag && kind == PlainKind
      ensures this.x == x && this.y == y && this.w == w && this.h == h
      ensures vy == 0.0 && !isColliding && jumpCount == JumpReset && collected == 0 && !destructScheduled
    {
      this.tag, kind := tag, PlainKind;
      this.x, this.y, this.w, this.h := x, y, w, h;
      vy, isColliding, jumpCount, collected, destructScheduled := 0.0, false, JumpReset, 0, false;
    }

    constructor Player(x: real, y: real, w: real, h: real)
      ensures IsPlayer()
      ensures this.x == x && this.y == y && this.w == w && this.h == h
      ensures vy == 0.0 && !isColliding && jumpCount == JumpReset && collected == 0 && !destructScheduled
    {
      tag, kind := PlayerTag, PlayerKind;
      this.x, this.y, this.w, this.h := x, y, w, h;
      vy, isColliding, jumpCount, collected, destructScheduled := 0.0, false, JumpReset, 0, false;
    }

    constructor Block(x: real, y: real, w: real, h: real, destructible: bool)
      ensures tag == BlockTag && kind == BlockKind(destructible)
      ensures this.x == x && this.y == y && this.w == w && this.h == h
      ensures vy == 0.0 && !isColliding && jumpCount == JumpReset && collected == 0 && !destructScheduled
    {
      tag, kind := BlockTag, BlockKind(destructible);
      this.x, this.y, this.w, this.h := x, y, w, h;
      vy, isColliding, jumpCount, collected, destructScheduled := 0.0, false, JumpReset, 0, false;
    }

    constructor Camera(x: real, y: real)
      ensures tag == CameraTag && kind == CameraKind
      ensures this.x == x && this.y == y && w == 0.0 && h == 0.0
      ensures vy == 0.0 && !isColliding && jumpCount == JumpReset && collected == 0 && !destructScheduled
    {
      tag, kind := CameraTag, CameraKind;
      this.x, this.y, w, h := x, y, 0.0, 0.0;
      vy, isColliding, jumpCount, collected, destructScheduled := 0.0, false, JumpReset, 0, false;
    }

    constructor Score()
      ensures tag == ScoreTag && kind == ScoreKind
      ensures x == 0.0 && y == 0.0 && w == 0.0 && h == 0.0
      ensures vy == 0.0 && !isColliding && jumpCount == JumpReset && collected == 0 && !destructScheduled
    {
      tag, kind := ScoreTag, ScoreKind;
      x, y, w, h := 0.0, 0.0, 0.0, 0.0;
      vy, isColliding, jumpCount, collected, destructScheduled := 0.0, false, JumpReset, 0, false;
    }

    /** An instance of the `Player` subclass, which carries the tag "player". */
    predicate IsPlayer() {
      kind == PlayerKind && tag == PlayerTag
    }

    /** An instance of `Block` whose `destructible` flag is set. */
    predicate IsDestructibleBlock() {
      kind.BlockKind? && kind.destructible
    }

    /** `getBounds`: the object's current axis-aligned rectangle. */
    function Bounds(): Rect
      reads this`x, this`y
    {
      Rect(x, y, x + w, y + h)
    }

    /** `Player.resetJumpCount`. */
    method ResetJumpCount()
      modifies this`jumpCount
      ensures jumpCount == JumpReset
    {
      jumpCount := JumpReset;
    }

    /** `Player.collect`: one more collectable picked up. */
    method Collect()
      modifies this`collected
      ensures collected == old(collected) + 1
    {
      collected := collected + 1;
    }

    /** `Block.scheduleDestruct`: sets the one-shot destruction flag. */
    method ScheduleDestruct()
      modifies this`destructScheduled
      ensures destructScheduled
    {
      destructScheduled := true;
    }
  }
}
